/** The FedEx adapter: a credential check, a one-slot cache of the OAuth
    login response, and the conversion of a tracking response into packages.
    The two HTTP calls (login and track) are opaque: their outcomes are
    parameters. Dates are parsed by an opaque `parse` function. */
module Fedex {
  import opened Wrappers
  import opened Domain

  /** The cache slot that holds the login response. */
  const CacheKey: string := "fedexLogin"

  /** A cached token is renewed when its stored lifetime (`expires_in`, in
      seconds) is below this; the age of the token is never consulted. */
  const ExpiryMarginSeconds: int := 30

  /** The status code FedEx uses for "delivered". */
  const DeliveredCode: string := "DL"

  const ActualDelivery: string := "ACTUAL_DELIVERY"
  const EstimatedDelivery: string := "ESTIMATED_DELIVERY"
  const AppointmentDelivery: string := "APPOINTMENT_DELIVERY"

  const MissingKeysMessage: string :=
    "FedEx API key or secret key is missing.  Ensure they are filled in this extension's settings."

  /** The extension settings the adapter reads; a setting may be absent. */
  datatype Preferences = Preferences(fedexApiKey: Option<string>, fedexSecretKey: Option<string>)

  /** JavaScript truthiness of an optional string: present and not empty. */
  predicate Truthy(s: Option<string>)
  {
    s.Some? && s.value != ""
  }

  /** Remote tracking needs both keys. */
  function AbleToTrackFedexRemotely(prefs: Preferences): (able: bool)
    ensures able <==> prefs.fedexApiKey.Some? && prefs.fedexSecretKey.Some?
                      && |prefs.fedexApiKey.value| > 0 && |prefs.fedexSecretKey.value| > 0
  {
    Truthy(prefs.fedexApiKey) && Truthy(prefs.fedexSecretKey)
  }

  // ---------------------------------------------------------------------------
  // The login cache

  datatype LoginResponse = LoginResponse(accessToken: string, tokenType: string, expiresIn: int, scope: string)

  /** The expiry test as the code writes it: both sides add the same clock
      reading, so only the stored lifetime matters. */
  predicate TokenNearExpiry(expiresIn: int, now: int)
    ensures TokenNearExpiry(expiresIn, now) <==> expiresIn < ExpiryMarginSeconds
  {
    now + expiresIn * 1000 < now + ExpiryMarginSeconds * 1000
  }

  /** A login is made when the slot is empty or the cached token's stored
      lifetime is under the margin. */
  predicate NeedsLogin(cache: map<string, LoginResponse>, now: int)
  {
    CacheKey !in cache || TokenNearExpiry(cache[CacheKey].expiresIn, now)
  }

  /** The login response the adapter goes on with: the outcome of a fresh login
      when one is needed, the cached response otherwise. */
  function CachedLogin(cache: map<string, LoginResponse>, now: int, login: Result<LoginResponse, string>): (r: Result<LoginResponse, string>)
    ensures NeedsLogin(cache, now) ==> r == login
    ensures !NeedsLogin(cache, now) ==> r == Ok(cache[CacheKey]) && cache[CacheKey].expiresIn >= ExpiryMarginSeconds
  {
    if NeedsLogin(cache, now) then login else Ok(cache[CacheKey])
  }

  /** The cache after that step: a successful fresh login is stored under the
      slot; a failed login throws before anything is stored. */
  function CacheAfterLogin(cache: map<string, LoginResponse>, now: int, login: Result<LoginResponse, string>): (c: map<string, LoginResponse>)
    ensures c.Keys == if NeedsLogin(cache, now) && login.Ok? then cache.Keys + {CacheKey} else cache.Keys
    ensures forall k :: k in cache && k != CacheKey ==> c[k] == cache[k]
    ensures NeedsLogin(cache, now) && login.Ok? ==> c[CacheKey] == login.value
    ensures !(NeedsLogin(cache, now) && login.Ok?) ==> c == cache
  {
    if NeedsLogin(cache, now) && login.Ok? then cache[CacheKey := login.value] else cache
  }

  /** A failed login never writes the cache, and a cached token whose stored
      lifetime is at least the margin is reused without any write. */
  lemma CacheWrittenOnlyBySuccessfulLogin(cache: map<string, LoginResponse>, now: int, login: Result<LoginResponse, string>)
    ensures login.Err? ==> CacheAfterLogin(cache, now, login) == cache
    ensures CacheKey in cache && cache[CacheKey].expiresIn >= ExpiryMarginSeconds ==>
              CacheAfterLogin(cache, now, login) == cache && CachedLogin(cache, now, login) == Ok(cache[CacheKey])
  {
  }

  /** After a successful login whose token lasts at least the margin, the next
      request (at any time) reuses it instead of logging in again. */
  lemma FreshTokenIsReused(cache: map<string, LoginResponse>, now: int, login: Result<LoginResponse, string>,
                           later: int, nextLogin: Result<LoginResponse, string>)
    requires NeedsLogin(cache, now) && login.Ok? && login.value.expiresIn >= ExpiryMarginSeconds
    ensures var c := CacheAfterLogin(cache, now, login);
            !NeedsLogin(c, later) && CachedLogin(c, later, nextLogin) == login
            && CacheAfterLogin(c, later, nextLogin) == c
  {
    var c := CacheAfterLogin(cache, now, login);
    assert c[CacheKey] == login.value;
  }

  /** A cached token with a stored lifetime of 10 seconds forces a login; one
      with a stored lifetime of 300 seconds is reused, however old it is. */
  lemma ExpiryScenarios(token: LoginResponse, now: int)
    ensures NeedsLogin(map[CacheKey := token.(expiresIn := 10)], now)
    ensures !NeedsLogin(map[CacheKey := token.(expiresIn := 300)], now)
  {
  }

  // ---------------------------------------------------------------------------
  // Tracking response

  datatype DateAndTime = DateAndTime(kind: string, dateTime: string)
  datatype TrackResult = TrackResult(trackingNumber: string, statusCode: string, dateAndTimes: seq<DateAndTime>)
  datatype CompleteTrackResult = CompleteTrackResult(trackingNumber: string, trackResults: seq<TrackResult>)
  datatype FedexTrackingInfo = FedexTrackingInfo(completeTrackResults: seq<CompleteTrackResult>)

  /** Index `i` holds the first entry of the given kind. */
  ghost predicate IsFirstOfKind(dts: seq<DateAndTime>, kind: string, i: int)
  {
    0 <= i < |dts| && dts[i].kind == kind && forall j :: 0 <= j < i ==> dts[j].kind != kind
  }

  /** The date text of the first entry of a kind, absent when there is none. */
  function FindDateTime(dts: seq<DateAndTime>, kind: string): (r: Option<string>)
    ensures r.None? <==> forall i :: 0 <= i < |dts| ==> dts[i].kind != kind
    decreases |dts|
  {
    if dts == [] then None
    else if dts[0].kind == kind then Some(dts[0].dateTime)
    else
      assert forall i :: 1 <= i < |dts| ==> dts[i].kind == dts[1..][i - 1].kind;
      FindDateTime(dts[1..], kind)
  }

  /** `FindDateTime` returns the text of the first entry of its kind. */
  lemma {:induction false} FirstOfKindIsFound(dts: seq<DateAndTime>, kind: string, i: int)
    requires IsFirstOfKind(dts, kind, i)
    ensures FindDateTime(dts, kind) == Some(dts[i].dateTime)
    decreases i
  {
    if i > 0 {
      assert IsFirstOfKind(dts[1..], kind, i - 1);
      FirstOfKindIsFound(dts[1..], kind, i - 1);
    }
  }

  /** JavaScript `a || b` on optional strings. */
  function OrElse(a: Option<string>, b: Option<string>): Option<string>
  {
    if Truthy(a) then a else b
  }

  /** The chosen date text: actual, else estimated, else appointment delivery. */
  function DeliveryDateText(tr: TrackResult): Option<string>
  {
    OrElse(OrElse(FindDateTime(tr.dateAndTimes, ActualDelivery), FindDateTime(tr.dateAndTimes, EstimatedDelivery)),
           FindDateTime(tr.dateAndTimes, AppointmentDelivery))
  }

  /** An absent or empty date text is an unknown date; any other is parsed. */
  function ConvertFedexDateToDate(fedexDate: Option<string>, parse: string -> int): (r: Option<int>)
    ensures r.None? <==> !Truthy(fedexDate)
    ensures r.Some? ==> r.value == parse(fedexDate.value)
  {
    if !Truthy(fedexDate) then None else Some(parse(fedexDate.value))
  }

  function ConvertTrackResult(tr: TrackResult, parse: string -> int): Package
  {
    Package(tr.statusCode == DeliveredCode, ConvertFedexDateToDate(DeliveryDateText(tr), parse), [])
  }

  /** All track results, in order, across the complete results. */
  function FlattenTrackResults(crs: seq<CompleteTrackResult>): seq<TrackResult>
    decreases |crs|
  {
    if crs == [] then [] else crs[0].trackResults + FlattenTrackResults(crs[1..])
  }

  /** Flattening distributes over concatenation: the results of one response
      part come before those of the next. */
  lemma {:induction false} FlattenAppend(xs: seq<CompleteTrackResult>, ys: seq<CompleteTrackResult>)
    ensures FlattenTrackResults(xs + ys) == FlattenTrackResults(xs) + FlattenTrackResults(ys)
    decreases |xs|
  {
    if xs == [] {
      assert xs + ys == ys;
    } else {
      assert (xs + ys)[1..] == xs[1..] + ys;
      FlattenAppend(xs[1..], ys);
    }
  }

  /** The packages of a tracking response: one per track result, in order; a
      package is delivered iff its status is "DL", carries no events, and is
      dated by the priority text of its track result. */
  function ConvertUpsTrackingToPackages(info: FedexTrackingInfo, parse: string -> int): (ps: seq<Package>)
    ensures var results := FlattenTrackResults(info.completeTrackResults);
            && |ps| == |results|
            && (forall k :: 0 <= k < |ps| ==> (ps[k].delivered <==> results[k].statusCode == DeliveredCode))
            && (forall k :: 0 <= k < |ps| ==> ps[k].activity == [])
            && (forall k :: 0 <= k < |ps| ==> ps[k].deliveryDate == ConvertFedexDateToDate(DeliveryDateText(results[k]), parse))
  {
    var results := FlattenTrackResults(info.completeTrackResults);
    seq(|results|, k requires 0 <= k < |results| => ConvertTrackResult(results[k], parse))
  }

  /** The date priority: the first ACTUAL_DELIVERY entry wins when its text is
      non-empty; else the first ESTIMATED_DELIVERY; else the first
      APPOINTMENT_DELIVERY; the date is unknown when none of these gives a
      non-empty text. */
  lemma {:induction false} DeliveryDatePriority(tr: TrackResult, parse: string -> int)
    ensures var dts := tr.dateAndTimes;
            var date := ConvertTrackResult(tr, parse).deliveryDate;
            && (forall i :: IsFirstOfKind(dts, ActualDelivery, i) && dts[i].dateTime != "" ==>
                  date == Some(parse(dts[i].dateTime)))
            && (forall i :: (IsFirstOfKind(dts, EstimatedDelivery, i) && dts[i].dateTime != ""
                             && !Truthy(FindDateTime(dts, ActualDelivery))) ==>
                  date == Some(parse(dts[i].dateTime)))
            && (forall i :: (IsFirstOfKind(dts, AppointmentDelivery, i) && dts[i].dateTime != ""
                             && !Truthy(FindDateTime(dts, ActualDelivery)) && !Truthy(FindDateTime(dts, EstimatedDelivery))) ==>
                  date == Some(parse(dts[i].dateTime)))
            && (date.None? <==> !Truthy(FindDateTime(dts, ActualDelivery)) && !Truthy(FindDateTime(dts, EstimatedDelivery))
                                && !Truthy(FindDateTime(dts, AppointmentDelivery)))
  {
    var dts := tr.dateAndTimes;
    forall kind: string, i | IsFirstOfKind(dts, kind, i)
      ensures FindDateTime(dts, kind) == Some(dts[i].dateTime)
    {
      FirstOfKindIsFound(dts, kind, i);
    }
  }

  /** A response with an estimated but no actual delivery time yields the
      estimated date, and the package is undelivered unless its status is "DL". */
  lemma EstimatedOnlyScenario(estimated: string, status: string, parse: string -> int)
    requires estimated != "" && status != DeliveredCode
    ensures var tr := TrackResult("794", status, [DateAndTime("SHIP", "x"), DateAndTime(EstimatedDelivery, estimated)]);
            ConvertTrackResult(tr, parse) == Package(false, Some(parse(estimated)), [])
  {
    var tr := TrackResult("794", status, [DateAndTime("SHIP", "x"), DateAndTime(EstimatedDelivery, estimated)]);
    assert FindDateTime(tr.dateAndTimes, ActualDelivery) == None;
    FirstOfKindIsFound(tr.dateAndTimes, EstimatedDelivery, 1);
  }

  // ---------------------------------------------------------------------------
  // The adapter

  /** What the adapter receives. Its parameter is typed as a delivery, but the
      registry's callers hand it the bare tracking-number string. */
  datatype TrackingInput = TrackingNumberText(text: string) | DeliveryRecord(delivery: Delivery)

  /** Reading the `trackingNumber` property of the input: a string has no such
      property, so that read yields `undefined`. */
  function TrackingNumberOf(input: TrackingInput): (r: Option<string>)
    ensures r.Some? <==> input.DeliveryRecord?
    ensures input.DeliveryRecord? ==> r.value == input.delivery.trackingNumber
  {
    match input
    case TrackingNumberText(_) => None
    case DeliveryRecord(d) => Some(d.trackingNumber)
  }

  /** The request sent to the tracking endpoint. */
  datatype TrackRequest = TrackRequest(trackingNumber: Option<string>, accessToken: string)

  /** The adapter with its process-wide cache. */
  class FedexClient {
    var cache: map<string, LoginResponse>

    constructor (initial: map<string, LoginResponse>)
      ensures cache == initial
    {
      cache := initial;
    }

    /** Returns the login response to use, logging in (outcome `login`) when
        the slot is empty or its token's stored lifetime is under 30 seconds. */
    method LoginWithCachedData(now: int, login: Result<LoginResponse, string>)
      returns (r: Result<LoginResponse, string>, loggedIn: bool)
      modifies this
      ensures loggedIn == NeedsLogin(old(cache), now)
      ensures r == CachedLogin(old(cache), now, login)
      ensures cache == CacheAfterLogin(old(cache), now, login)
    {
      if CacheKey !in cache {
        loggedIn := true;
        r := login;
        if login.Err? {
          return;
        }
        cache := cache[CacheKey := login.value];
      } else {
        var loginResponse := cache[CacheKey];
        if TokenNearExpiry(loginResponse.expiresIn, now) {
          loggedIn := true;
          r := login;
          if login.Err? {
            return;
          }
          cache := cache[CacheKey := login.value];
        } else {
          loggedIn := false;
          r := Ok(loginResponse);
        }
      }
    }

    /** One tracking lookup. Missing keys fail before the cache is touched;
        then the (possibly renewed) token is used for the tracking call, whose
        outcome is `track`, and a successful response is converted. */
    method UpdateFedexTracking(input: TrackingInput, prefs: Preferences, now: int,
                               login: Result<LoginResponse, string>, track: Result<FedexTrackingInfo, string>,
                               parse: string -> int)
      returns (r: Result<seq<Package>, string>, request: Option<TrackRequest>, loggedIn: bool)
      modifies this
      ensures loggedIn <==> AbleToTrackFedexRemotely(prefs) && NeedsLogin(old(cache), now)
      ensures !AbleToTrackFedexRemotely(prefs) ==>
                r == Err(MissingKeysMessage) && request.None? && cache == old(cache)
      ensures AbleToTrackFedexRemotely(prefs) ==>
                cache == CacheAfterLogin(old(cache), now, login)
      ensures AbleToTrackFedexRemotely(prefs) && CachedLogin(old(cache), now, login).Err? ==>
                r == Err(CachedLogin(old(cache), now, login).error) && request.None?
      ensures AbleToTrackFedexRemotely(prefs) && CachedLogin(old(cache), now, login).Ok? ==>
                && request == Some(TrackRequest(TrackingNumberOf(input), CachedLogin(old(cache), now, login).value.accessToken))
                && r == (if track.Ok? then Ok(ConvertUpsTrackingToPackages(track.value, parse)) else Err(track.error))
    {
      var trackingNumber := TrackingNumberOf(input);
      if !Truthy(prefs.fedexApiKey) || !Truthy(prefs.fedexSecretKey) {
        r, request, loggedIn := Err(MissingKeysMessage), None, false;
        return;
      }
      var loginResponse;
      loginResponse, loggedIn := LoginWithCachedData(now, login);
      if loginResponse.Err? {
        r, request := Err(loginResponse.error), None;
        return;
      }
      request := Some(TrackRequest(trackingNumber, loginResponse.value.accessToken));
      if track.Err? {
        r := Err(track.error);
        return;
      }
      r := Ok(ConvertUpsTrackingToPackages(track.value, parse));
    }
  }
}
