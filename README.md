# Delivery tracker core, modelled in Dafny

This project models the core of a parcel-delivery tracker that follows shipments
across several carriers (USPS, UPS, FedEx). It covers three pieces:

- **The refresh engine** (`refresh.dfy`). One pass walks the delivery list in
  order and decides for each delivery whether to call its carrier's adapter.
  Debug entries and unknown carriers are skipped. An entry refreshed within the
  last 30 minutes is also skipped unless the pass is forced. A successful call
  overwrites that delivery's cache entry with the new packages, stamped with the
  pass's clock reading. A failed call leaves the entry alone, produces one
  failure notification, and the pass goes on. The pass then clears the loading
  flag. Deleting a delivery filters its id out of the stored list once the user
  confirms. `Tracker` is a class whose fields are the stored delivery list, the
  package cache (a `map` keyed by delivery id) and the loading flag.
- **The ranking logic** (`ranking.dfy`, `presentation.dfy`). The comparator
  orders deliveries by tiers: packages before none, all delivered before not
  all delivered, known date before unknown, then by day difference, with "some
  delivered" as tie-break. It comes with the package closest to now, the
  rounded-up day difference, and the icon and accessory text of each delivery.
  The comparator is proved equivalent to a lexicographic order on a five-tier
  key, so it is a strict weak order. The sort built from it is proved to return
  a sorted permutation.
- **The carriers** (`carriers.dfy`, `usps.dfy`, `fedex.dfy`). The registry is a
  constant list turned into a map keyed by id. The USPS adapter gives a
  constant answer. The FedEx adapter checks credentials and keeps a one-slot
  cache of its login token (`FedexClient`, a class whose field is the cache).
  It converts the tracking response into packages by the date priority actual >
  estimated > appointment.

The clock is one parameter `now`, in epoch milliseconds. The network outcomes
of the FedEx login and tracking calls are parameters. So is the outcome of each
adapter call made by the refresh engine (`update(carrier, trackingNumber)`).

Behaviours of the code that the model keeps as written:

- The USPS adapter returns one undelivered package dated at the moment of the
  call (src/carriers/usps.ts:13-17). It never reports a delivery.
- The staleness skip needs the cache entry to carry a `lastUpdated` stamp
  (src/track-deliveries.tsx:122-127). An unstamped entry is always refreshed.
- The engine hands the adapter the tracking-number string
  (src/track-deliveries.tsx:137). The FedEx adapter reads a `trackingNumber`
  property from its argument (src/carriers/fedex.ts:19), and a string has no
  such property. `Fedex.TrackingInput`, `Fedex.TrackingNumberOf` and
  `Carriers.UpdateTracking` model this: on that path the tracking request
  carries no tracking number.
- The FedEx token test adds the current time to both sides
  (src/carriers/fedex.ts:64), so it compares only the stored `expires_in`
  with 30 seconds. The token's age is never consulted. A token stored with a
  lifetime of an hour is reused indefinitely (`Fedex.FreshTokenIsReused`).
- The form that adds a delivery stores the carrier's display name
  (src/add-package-to-track.tsx:58). The registry of src/carriers.ts is keyed
  by id. `Refresh.DisplayNameCarrierIsSkipped` shows that, with that registry,
  such a delivery is never refreshed. The registry the engine actually imports
  (`./providers`) is not part of this model.

The model also assumes this about the cache: within one pass, each decision
reads the cache as updated by the earlier deliveries of that pass. The code
reads the `packages` value (src/track-deliveries.tsx:120) and writes through
the setter of `useCachedState` (src/track-deliveries.tsx:139-145). That
module is not part of this model. With unique ids, which
`Refresh.PassPerDelivery` assumes, the two readings agree, because no delivery
reads an entry that another delivery of the pass writes.

## Model

`Refresh.Step`, the handling of one delivery in a pass (src/track-deliveries.tsx:115-152), has no contract of its own. The rows of `Refresh.Pass`, `Refresh.PassPerDelivery`, `Refresh.PassFailures` and `Refresh.StepKeepsOthers` state what it does.

| member | source | states |
|---|---|---|
| Refresh.Tracker.RefreshTracking | src/track-deliveries.tsx:105-156 | the new cache, the called positions and the failure notifications are those of `Pass` over the old cache with one clock reading; the loading flag ends false |
| Refresh.Pass | src/track-deliveries.tsx:114-153 | every position a pass records as called is a position of the list |
| Refresh.PassAttemptsInOrder | src/track-deliveries.tsx:114-134 | the called positions are strictly increasing, so the list is visited in order and each delivery at most once, and each is a non-debug delivery with a registered carrier |
| Refresh.PassFailures | src/track-deliveries.tsx:146-151 | the failure notices are exactly one `Failed to Update Tracking for <number>` notice per called position whose adapter answered with an error, in list order, and none for successes or skipped deliveries |
| Refresh.PassPerDelivery | src/track-deliveries.tsx:114-152 | with unique ids: the adapter is called for a delivery iff it is not debug, its carrier is registered, and the pass is forced or the entry is missing, unstamped or older than 30 minutes; on success the entry becomes the new packages stamped `now`; when skipped or failed the entry is exactly as before |
| Refresh.PassPerDeliveryLast | src/track-deliveries.tsx:114-152 | the same for the last delivery of the list, which the earlier deliveries (with other ids) leave untouched |
| Refresh.StepKeepsOthers | src/track-deliveries.tsx:115-152 | handling one delivery leaves every other id's entry and every other position's call record as they were |
| Refresh.PassKeepsOtherEntries | src/track-deliveries.tsx:139-145 | entries of ids that no listed delivery carries are neither added, removed nor changed |
| Refresh.PassEntriesOldOrFresh | src/track-deliveries.tsx:136-152 | no entry is removed, and each entry after the pass is the old one or one stamped with the pass's `now` (a failure never clears an entry) |
| Refresh.ForcedPassCallsEveryKnownCarrier | src/track-deliveries.tsx:114-134 | a forced pass calls the adapter of every non-debug delivery with a registered carrier, whatever the cache holds |
| Refresh.UnforcedPassOverFreshCacheIsIdentity | src/track-deliveries.tsx:122-134 | an unforced pass over deliveries all refreshed within 30 minutes calls nothing and leaves the cache unchanged |
| Refresh.DisplayNameCarrierIsSkipped | src/track-deliveries.tsx:115-118 | with the carriers.ts registry, a delivery whose carrier is a display name ("USPS", "UPS", "FedEx") is never refreshed |
| Refresh.Tracker.DeleteTracking | src/track-deliveries.tsx:158-192 | an unloaded list or a declined confirmation changes nothing; otherwise the list loses exactly the deliveries with the id, and the success notice names the first of them |
| Refresh.RemoveDelivery | src/track-deliveries.tsx:184 | no remaining delivery has the id |
| Refresh.RemoveDeliveryCounts | src/track-deliveries.tsx:184 | deliveries with the id are all dropped, and every other delivery keeps its multiplicity |
| Refresh.RemoveDeliveryDistributes | src/track-deliveries.tsx:184 | removal distributes over concatenation, so what remains keeps its original order |
| Refresh.RemoveAbsentIdIsIdentity | src/track-deliveries.tsx:184 | removing an id no delivery carries leaves the list unchanged |
| Refresh.NameToDelete | src/track-deliveries.tsx:167 | the name is "Unknown" when no delivery has the id |
| Refresh.NameToDeleteIsFirstMatch | src/track-deliveries.tsx:167 | otherwise it is the name of the first delivery with the id |
| Ranking.CompareDeliveries | src/track-deliveries.tsx:194-270 | the comparator is negative, positive or zero exactly as the five-tier key of `a` is smaller than, larger than or equal to that of `b` (packages; all delivered; a known date; fewer days; some delivered) |
| Ranking.CompareTiers | src/track-deliveries.tsx:199-230 | packages sort before none and two empty deliveries tie; all delivered sorts before not all delivered; a known closest date sorts before an unknown one |
| Ranking.CompareDateTier | src/track-deliveries.tsx:231-268 | without dates, "before" iff only `a` has a delivered package; with dates on both sides, "before" iff `a`'s day difference is smaller, or equal with only `a` having a delivered package |
| Ranking.CompareIsIrreflexive | src/track-deliveries.tsx:194-270 | every delivery ties with itself |
| Ranking.CompareIsAntisymmetric | src/track-deliveries.tsx:194-270 | swapping the arguments negates the sign |
| Ranking.CompareIsTransitive | src/track-deliveries.tsx:194-270 | "before", ties and "not after" are each transitive |
| Ranking.SortTracking | src/track-deliveries.tsx:194-195 | the sorted list is a permutation of the input and every earlier element compares not after every later one |
| Ranking.Insert | src/track-deliveries.tsx:195 | one insertion step of the sort adds exactly the inserted delivery |
| Ranking.InsertKeepsLowerBound | src/track-deliveries.tsx:195 | a delivery that sorts not after the inserted one nor after any element sorts not after any element of the result |
| Ranking.ConsKeepsSorted | src/track-deliveries.tsx:195 | a delivery that sorts not after any element of a sorted list can be put in front of it |
| Ranking.InsertKeepsSorted | src/track-deliveries.tsx:195 | inserting into a sorted list gives a sorted list |
| Ranking.DatedBeforeNeverRefreshed | src/track-deliveries.tsx:199-201 | a delivery with a package four days ahead sorts before one with no cache entry |
| Ranking.DeliveredBeforeUndelivered | src/track-deliveries.tsx:210-219 | a fully delivered delivery with a past date sorts before an undelivered one due in four days |
| Ranking.PartlyDeliveredBeforeUndeliveredWithoutDates | src/track-deliveries.tsx:230-242 | without dates, a partly delivered delivery sorts before one with nothing delivered |
| Ranking.CloserPackage | src/track-deliveries.tsx:339-360 | the reducer keeps one of its two packages; the kept one is dated iff either is; with both dated it is no farther from now than either; it replaces the package kept so far only when the new one is dated and the kept one is undated or strictly farther |
| Ranking.GetPackageWithEarliestDeliveryDate | src/track-deliveries.tsx:336-361 | for a non-empty list, the result is a member, and it has a date iff some member has one |
| Ranking.EarliestIsFirstClosest | src/track-deliveries.tsx:339-360 | when some member is dated, the result is the first member of minimal distance to `now`: no dated member is closer, and every dated member before it is strictly farther |
| Ranking.ExtendFirstClosest | src/track-deliveries.tsx:343-359 | the package kept so far stays first closest when the next one is undated or no closer |
| Ranking.LastIsFirstClosest | src/track-deliveries.tsx:353-356 | a strictly closer next package becomes the first closest |
| Ranking.EarliestOfUndatedIsFirst | src/track-deliveries.tsx:343-346 | when no member is dated, the result is the first package |
| Ranking.CalculateDayDifference | src/track-deliveries.tsx:363-374 | never negative; 0 for a date not after `now`; otherwise the least N with date − now ≤ N days |
| Ranking.DayDifferenceExamples | src/track-deliveries.tsx:363-374 | yesterday gives 0, exactly 24 hours ahead gives 1, one millisecond more gives 2 |
| Presentation.DeliveryIcon | src/track-deliveries.tsx:272-291 | QuestionMarkCircle iff no packages; CheckCircle iff all delivered; Circle iff some but not all delivered; CircleProgress iff none delivered |
| Presentation.DeliveryAccessory | src/track-deliveries.tsx:293-334 | "No packages"/orange without packages; "Delivered"/green when all are delivered; otherwise "En route" when nothing is dated, else the day difference of the first closest package followed by " days until delivery"; "; some packages delivered" and blue when partly delivered, no colour when nothing is delivered |
| Presentation.IconAgreesWithAccessory | src/track-deliveries.tsx:272-334 | each icon goes with exactly one accessory colour: question mark/orange, check/green, circle/blue, progress/none |
| Presentation.NatToString | src/track-deliveries.tsx:321 | the number's text is a non-empty string of decimal digits, one digit for numbers below 10 (so 0 is "0"), with no leading zero otherwise |
| Presentation.ParseNatToString | src/track-deliveries.tsx:321 | that text reads back as the number |
| Presentation.UspsDeliveryShowsDueToday | src/carriers/usps.ts:13-17 | a USPS delivery shown at or after its refresh is in progress and reads "0 days until delivery" |
| Fedex.AbleToTrackFedexRemotely | src/carriers/fedex.ts:10-16 | true iff both the API key and the secret key are present and non-empty |
| Fedex.TokenNearExpiry | src/carriers/fedex.ts:64 | the expiry test holds iff the stored lifetime is under 30 seconds, whatever the clock reads |
| Fedex.CachedLogin | src/carriers/fedex.ts:51-74 | a fresh login's outcome when the slot is empty or its stored lifetime (`expires_in`) is under 30 seconds, otherwise the cached response, whose stored lifetime (`expires_in`) is then at least 30 seconds, however long ago it was issued |
| Fedex.CacheAfterLogin | src/carriers/fedex.ts:54-71 | a successful fresh login stores its response under "fedexLogin"; otherwise the cache is unchanged; other slots never change |
| Fedex.CacheWrittenOnlyBySuccessfulLogin | src/carriers/fedex.ts:56-71 | a failed login never writes the cache; a cached token with a stored lifetime (`expires_in`) of at least 30 seconds is reused with no write |
| Fedex.FreshTokenIsReused | src/carriers/fedex.ts:54-71 | after a successful login with a lifetime of at least 30 seconds, the next request at any time reuses that token and writes nothing |
| Fedex.ExpiryScenarios | src/carriers/fedex.ts:59-70 | a cached token with a stored lifetime (`expires_in`) of 10 seconds forces a login; one with 300 seconds does not |
| Fedex.FedexClient.LoginWithCachedData | src/carriers/fedex.ts:51-74 | logs in iff the slot is empty or its stored lifetime (`expires_in`) is under 30 seconds; returns and stores as `CachedLogin`/`CacheAfterLogin` say |
| Fedex.FedexClient.UpdateFedexTracking | src/carriers/fedex.ts:18-42 | missing keys fail with the settings message before any login and with the cache untouched; a login is made iff both keys are set and the slot is empty or its stored lifetime (`expires_in`) is under 30 seconds; a failed login fails with its error; otherwise the request carries the token in use, and the result is the converted response or the tracking error |
| Fedex.TrackingNumberOf | src/carriers/fedex.ts:18-19 | the tracking number is read only from a delivery record; from a bare string the read yields nothing |
| Fedex.FindDateTime | src/carriers/fedex.ts:168-176 | absent iff no entry has the kind |
| Fedex.FirstOfKindIsFound | src/carriers/fedex.ts:168-176 | otherwise it is the text of the first entry of that kind |
| Fedex.ConvertFedexDateToDate | src/carriers/fedex.ts:186-193 | an absent or empty text gives an unknown date; any other text is parsed |
| Fedex.FlattenAppend | src/carriers/fedex.ts:165-166 | flattening distributes over concatenation, keeping response order |
| Fedex.ConvertUpsTrackingToPackages | src/carriers/fedex.ts:164-184 | one package per track result, in order; delivered iff the status code is "DL"; no events; the date is the converted priority text |
| Fedex.DeliveryDatePriority | src/carriers/fedex.ts:168-180 | the first ACTUAL_DELIVERY entry wins when non-empty; else the first ESTIMATED_DELIVERY; else the first APPOINTMENT_DELIVERY; unknown iff none gives a non-empty text |
| Fedex.EstimatedOnlyScenario | src/carriers/fedex.ts:168-182 | with an estimated but no actual time and a non-"DL" status, the package is undelivered with the estimated date |
| Usps.AbleToTrackUspsRemotely | src/carriers/usps.ts:3-6 | always false |
| Usps.UpdateUspsTracking | src/carriers/usps.ts:8-18 | never fails; exactly one package, undelivered, dated at the call's instant, with no events |
| Usps.UpdateUspsTrackingIgnoresNumber | src/carriers/usps.ts:8-18 | the answer does not depend on the tracking number |
| Carriers.BuildRegistry | src/carriers.ts:39 | the keys are exactly the carriers' ids, and each key maps to a listed carrier with that id |
| Carriers.RegistryOfDistinctIds | src/carriers.ts:39 | with distinct ids, the map has one entry per carrier and each carrier is reachable under its id |
| Carriers.ProvidersContents | src/carriers.ts:15-39 | exactly three entries, usps→USPS/Blue, ups→UPS/Orange, fedex→FedEx/Purple, each with its own adapter module; display names are not keys |
| Carriers.AbleToTrackRemotely | src/carriers.ts:3-5 | USPS answers false, FedEx answers iff both keys are set, UPS gives the answer of its unmodelled module |
| Carriers.UpdateTracking | src/carriers.ts:20-35 | USPS gives its constant answer and UPS its own outcome, neither logging in nor touching the FedEx cache; FedEx, handed the bare tracking-number string, fails on missing keys without logging in, logs in iff the slot is empty or its stored lifetime (`expires_in`) is under 30 seconds, fails on a failed login, and otherwise sends a request without a tracking number and returns the converted response or the tracking error |

## Left out

- User interface: the React list, its actions, `useLocalStorage`/`useCachedState`/`useEffect`, and the add-delivery form. The form's only logic is appending a new delivery with a random id.
- Notifications and the confirmation dialog: notifications are returned as `Toast` values, and the dialog is the boolean `confirmed`.
- The callers set the loading flag to true before a pass. The model only records that the pass clears it.
- HTTP and JSON: the FedEx `login` and `track` calls are outcome parameters (a response or an error message). JSON stringify/parse of the cached token is assumed lossless.
- ISO date parsing is the opaque parameter `parse`. A text that parses to an invalid date is not modelled.
- Floating point: times are integer milliseconds, the rounded-up day count is integer division, and `expires_in` is an integer number of seconds.
- Asynchrony and concurrency: the pass is sequential, as the code awaits each call in turn. Logging is dropped.
- Refresh.Tracker.RefreshTracking: the adapter outcome is a function of carrier and tracking number, so two calls with the same carrier and number in one pass get the same outcome.
- The UPS adapter, `./providers`, the debug fixtures and the package and delivery type modules are not part of this model. A delivery's optional manual date is not modelled, since no modelled code reads it.
- Ranking.SortTracking: stability is not stated. The contract says sorted and a permutation, not that ties keep their input order.
- The refresh engine reads its registry from `./providers`. It is taken as an arbitrary map, and src/carriers.ts serves as the concrete instance.
- Refresh.FailureToast: the notice's message is the error's message text. The code shows `String(error)`, which for an `Error` object adds a prefix such as "Error: ". That prefix depends on the error's class and is not modelled.
- Fedex.ConvertUpsTrackingToPackages: a successful tracking response always has `output`, `trackResults`, `latestStatusDetail` and `dateAndTimes` here. A response missing one of them makes the conversion throw (src/carriers/fedex.ts:165-179). The model folds that case into an `Err` outcome of the `track` parameter.
- Carriers.UpdateTracking: the refresh engine's `update` parameter stands for this dispatch, with the FedEx cache, preferences and network outcomes fixed for the pass.
