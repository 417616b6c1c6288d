/** The refresh engine and the deletion of a delivery. The engine walks the
    delivery list once, decides per delivery whether to ask its carrier's
    adapter for fresh packages, and writes each successful answer into the
    package cache. The adapters are opaque here: `update(carrier, number)` is
    the outcome the carrier's adapter gives for a tracking number during the
    pass. */
module Refresh {
  import opened Wrappers
  import opened Domain
  import opened Carriers

  /** A cache entry younger than this (30 minutes, in milliseconds) is not
      refreshed unless the refresh is forced. */
  const StalenessWindow: int := 30 * 60 * 1000

  /** A notification shown to the user. */
  datatype Toast = Toast(title: string, message: string)

  function FailureToast(track: Delivery, error: string): Toast
  {
    Toast("Failed to Update Tracking for " + track.trackingNumber, error)
  }

  /** The cache holds an entry for `id` stamped at most 30 minutes before `now`. */
  predicate RecentlyUpdated(packages: PackageMap, id: string, now: int)
  {
    && id in packages
    && packages[id].lastUpdated.Some?
    && now - packages[id].lastUpdated.value <= StalenessWindow
  }

  /** The adapter is asked about a delivery iff it is not a debug entry, its
      carrier is registered, and the pass is forced or the cache entry is
      missing, unstamped or stale. */
  predicate CallsAdapter(packages: PackageMap, track: Delivery, forceRefresh: bool, now: int,
                         providers: map<string, Carrier>)
  {
    && !track.debug
    && track.carrier in providers
    && (forceRefresh || !RecentlyUpdated(packages, track.id, now))
  }

  /** The state of a pass: the cache, the positions of the deliveries whose
      adapter was called, and the failure notifications shown. */
  datatype PassState = PassState(packages: PackageMap, attempted: seq<nat>, failures: seq<Toast>)

  /** One delivery, at position `i` of the list. */
  function Step(st: PassState, i: nat, track: Delivery, forceRefresh: bool, now: int,
                providers: map<string, Carrier>, update: (Carrier, string) -> Result<seq<Package>, string>): PassState
  {
    if !CallsAdapter(st.packages, track, forceRefresh, now, providers) then st
    else
      match update(providers[track.carrier], track.trackingNumber)
      case Ok(refreshed) =>
        PassState(st.packages[track.id := CacheEntry(refreshed, Some(now))], st.attempted + [i], st.failures)
      case Err(error) =>
        PassState(st.packages, st.attempted + [i], st.failures + [FailureToast(track, error)])
  }

  /** A whole pass over the list, in list order, with one clock reading. */
  function Pass(packages: PackageMap, tracking: seq<Delivery>, forceRefresh: bool, now: int,
                providers: map<string, Carrier>, update: (Carrier, string) -> Result<seq<Package>, string>): (st: PassState)
    ensures forall k :: 0 <= k < |st.attempted| ==> st.attempted[k] < |tracking|
    decreases |tracking|
  {
    if tracking == [] then PassState(packages, [], [])
    else
      var last := |tracking| - 1;
      Step(Pass(packages, tracking[..last], forceRefresh, now, providers, update), last, tracking[last],
           forceRefresh, now, providers, update)
  }

  /** Called positions are increasing (list order, each at most once) and
      each is a non-debug delivery with a registered carrier. */
  predicate AttemptsInOrder(tracking: seq<Delivery>, attempted: seq<nat>, providers: map<string, Carrier>)
  {
    && (forall a, b :: 0 <= a < b < |attempted| ==> attempted[a] < attempted[b])
    && (forall k :: 0 <= k < |attempted| ==>
          attempted[k] < |tracking| && !tracking[attempted[k]].debug && tracking[attempted[k]].carrier in providers)
  }

  /** A pass calls adapters in list order, each position at most once, and
      only for non-debug deliveries with a registered carrier. */
  lemma {:induction false} PassAttemptsInOrder(packages: PackageMap, tracking: seq<Delivery>, forceRefresh: bool, now: int,
                                               providers: map<string, Carrier>,
                                               update: (Carrier, string) -> Result<seq<Package>, string>)
    ensures AttemptsInOrder(tracking, Pass(packages, tracking, forceRefresh, now, providers, update).attempted, providers)
    decreases |tracking|
  {
    if tracking != [] {
      var last := |tracking| - 1;
      PassAttemptsInOrder(packages, tracking[..last], forceRefresh, now, providers, update);
      var prev := Pass(packages, tracking[..last], forceRefresh, now, providers, update);
      var st := Pass(packages, tracking, forceRefresh, now, providers, update);
      assert forall k :: 0 <= k < |prev.attempted| ==> tracking[..last][prev.attempted[k]] == tracking[prev.attempted[k]];
      if CallsAdapter(prev.packages, tracking[last], forceRefresh, now, providers) {
        assert st.attempted == prev.attempted + [last];
      } else {
        assert st.attempted == prev.attempted;
      }
    }
  }

  /** The failure notice of one called position, if its adapter answered
      with an error (positions outside the list or with an unregistered
      carrier, which a pass never calls, give none). */
  function FailureNoticeAt(tracking: seq<Delivery>, i: nat, providers: map<string, Carrier>,
                           update: (Carrier, string) -> Result<seq<Package>, string>): seq<Toast>
  {
    if i < |tracking| && tracking[i].carrier in providers then
      match update(providers[tracking[i].carrier], tracking[i].trackingNumber)
      case Ok(_) => []
      case Err(error) => [FailureToast(tracking[i], error)]
    else []
  }

  /** The failure notices of the called positions, in order: one for each
      position whose adapter answered with an error, none for the others. */
  function FailureNotices(tracking: seq<Delivery>, attempted: seq<nat>, providers: map<string, Carrier>,
                          update: (Carrier, string) -> Result<seq<Package>, string>): seq<Toast>
    decreases |attempted|
  {
    if attempted == [] then []
    else
      FailureNotices(tracking, attempted[..|attempted| - 1], providers, update)
        + FailureNoticeAt(tracking, attempted[|attempted| - 1], providers, update)
  }

  /** Only the called positions matter, so a longer list gives the same notices. */
  lemma {:induction false} FailureNoticesOfPrefix(tracking: seq<Delivery>, n: nat, attempted: seq<nat>,
                                                  providers: map<string, Carrier>,
                                                  update: (Carrier, string) -> Result<seq<Package>, string>)
    requires n <= |tracking|
    requires forall k :: 0 <= k < |attempted| ==> attempted[k] < n
    ensures FailureNotices(tracking[..n], attempted, providers, update) == FailureNotices(tracking, attempted, providers, update)
    decreases |attempted|
  {
    if attempted != [] {
      FailureNoticesOfPrefix(tracking, n, attempted[..|attempted| - 1], providers, update);
      assert tracking[..n][attempted[|attempted| - 1]] == tracking[attempted[|attempted| - 1]];
    }
  }

  /** A pass shows exactly one failure notice per failed adapter call, in the
      order of the list, and nothing for successful or skipped deliveries. */
  lemma {:induction false} PassFailures(packages: PackageMap, tracking: seq<Delivery>, forceRefresh: bool, now: int,
                                        providers: map<string, Carrier>,
                                        update: (Carrier, string) -> Result<seq<Package>, string>)
    ensures var st := Pass(packages, tracking, forceRefresh, now, providers, update);
            st.failures == FailureNotices(tracking, st.attempted, providers, update)
    decreases |tracking|
  {
    if tracking != [] {
      var last := |tracking| - 1;
      var prev := Pass(packages, tracking[..last], forceRefresh, now, providers, update);
      PassFailures(packages, tracking[..last], forceRefresh, now, providers, update);
      PassAttemptsInOrder(packages, tracking[..last], forceRefresh, now, providers, update);
      FailureNoticesOfPrefix(tracking, last, prev.attempted, providers, update);
      var st := Pass(packages, tracking, forceRefresh, now, providers, update);
      if CallsAdapter(prev.packages, tracking[last], forceRefresh, now, providers) {
        assert st.attempted[..|st.attempted| - 1] == prev.attempted;
      }
    }
  }

  predicate UniqueIds(tracking: seq<Delivery>)
  {
    forall i, j :: 0 <= i < j < |tracking| ==> tracking[i].id != tracking[j].id
  }

  /** Entries of ids that no delivery of the list carries are untouched. */
  lemma {:induction false} PassKeepsOtherEntries(packages: PackageMap, tracking: seq<Delivery>, forceRefresh: bool, now: int,
                                                 providers: map<string, Carrier>,
                                                 update: (Carrier, string) -> Result<seq<Package>, string>, id: string)
    requires forall i :: 0 <= i < |tracking| ==> tracking[i].id != id
    ensures var after := Pass(packages, tracking, forceRefresh, now, providers, update).packages;
            (id in after <==> id in packages) && (id in packages ==> after[id] == packages[id])
    decreases |tracking|
  {
    if tracking != [] {
      PassKeepsOtherEntries(packages, tracking[..|tracking| - 1], forceRefresh, now, providers, update, id);
    }
  }

  /** No entry is ever removed, and every entry is either the old one or one
      written by this pass, stamped with the pass's clock reading. */
  lemma {:induction false} PassEntriesOldOrFresh(packages: PackageMap, tracking: seq<Delivery>, forceRefresh: bool, now: int,
                                                 providers: map<string, Carrier>,
                                                 update: (Carrier, string) -> Result<seq<Package>, string>)
    ensures var after := Pass(packages, tracking, forceRefresh, now, providers, update).packages;
            && packages.Keys <= after.Keys
            && forall k :: k in after ==> (k in packages && after[k] == packages[k]) || after[k].lastUpdated == Some(now)
    decreases |tracking|
  {
    if tracking != [] {
      PassEntriesOldOrFresh(packages, tracking[..|tracking| - 1], forceRefresh, now, providers, update);
    }
  }

  /** One step leaves the entry and the call record of every other delivery
      as they were. */
  lemma StepKeepsOthers(st: PassState, i: nat, track: Delivery, forceRefresh: bool, now: int,
                        providers: map<string, Carrier>,
                        update: (Carrier, string) -> Result<seq<Package>, string>, id: string, j: nat)
    requires track.id != id && j != i
    ensures var next := Step(st, i, track, forceRefresh, now, providers, update);
            && (id in next.packages <==> id in st.packages)
            && (id in st.packages ==> next.packages[id] == st.packages[id])
            && (j in next.attempted <==> j in st.attempted)
  {
  }

  /** The last delivery of the list is decided on the cache the earlier
      deliveries leave, which with unique ids still holds its old entry. */
  lemma PassPerDeliveryLast(packages: PackageMap, tracking: seq<Delivery>, forceRefresh: bool, now: int,
                            providers: map<string, Carrier>,
                            update: (Carrier, string) -> Result<seq<Package>, string>, i: nat)
    requires UniqueIds(tracking) && i == |tracking| - 1
    ensures var st := Pass(packages, tracking, forceRefresh, now, providers, update);
            var track := tracking[i];
            var calls := CallsAdapter(packages, track, forceRefresh, now, providers);
            && (i in st.attempted <==> calls)
            && (calls && update(providers[track.carrier], track.trackingNumber).Ok? ==>
                  track.id in st.packages
                  && st.packages[track.id] == CacheEntry(update(providers[track.carrier], track.trackingNumber).value, Some(now)))
            && (!(calls && update(providers[track.carrier], track.trackingNumber).Ok?) ==>
                  (track.id in st.packages <==> track.id in packages)
                  && (track.id in packages ==> st.packages[track.id] == packages[track.id]))
  {
    var init := tracking[..i];
    PassKeepsOtherEntries(packages, init, forceRefresh, now, providers, update, tracking[i].id);
    assert i !in Pass(packages, init, forceRefresh, now, providers, update).attempted;
  }

  /** With unique ids, each delivery is decided on the cache as it was before
      the pass: its adapter is called iff `CallsAdapter` holds of the old cache;
      a successful call replaces its entry with the new packages stamped `now`;
      otherwise (skipped or failed) its entry is exactly as before. */
  lemma {:induction false} PassPerDelivery(packages: PackageMap, tracking: seq<Delivery>, forceRefresh: bool, now: int,
                                           providers: map<string, Carrier>,
                                           update: (Carrier, string) -> Result<seq<Package>, string>, i: nat)
    requires UniqueIds(tracking) && i < |tracking|
    ensures var st := Pass(packages, tracking, forceRefresh, now, providers, update);
            var track := tracking[i];
            var calls := CallsAdapter(packages, track, forceRefresh, now, providers);
            && (i in st.attempted <==> calls)
            && (calls && update(providers[track.carrier], track.trackingNumber).Ok? ==>
                  track.id in st.packages
                  && st.packages[track.id] == CacheEntry(update(providers[track.carrier], track.trackingNumber).value, Some(now)))
            && (!(calls && update(providers[track.carrier], track.trackingNumber).Ok?) ==>
                  (track.id in st.packages <==> track.id in packages)
                  && (track.id in packages ==> st.packages[track.id] == packages[track.id]))
    decreases |tracking|
  {
    var last := |tracking| - 1;
    if i == last {
      PassPerDeliveryLast(packages, tracking, forceRefresh, now, providers, update, i);
    } else {
      var init := tracking[..last];
      assert forall k :: 0 <= k < last ==> init[k] == tracking[k];
      assert UniqueIds(init);
      PassPerDelivery(packages, init, forceRefresh, now, providers, update, i);
      var prev := Pass(packages, init, forceRefresh, now, providers, update);
      StepKeepsOthers(prev, last, tracking[last], forceRefresh, now, providers, update, tracking[i].id, i);
    }
  }

  /** A forced pass calls the adapter of every non-debug delivery whose carrier
      is registered, whatever the cache holds. */
  lemma {:induction false} ForcedPassCallsEveryKnownCarrier(packages: PackageMap, tracking: seq<Delivery>, now: int,
                                                            providers: map<string, Carrier>,
                                                            update: (Carrier, string) -> Result<seq<Package>, string>)
    ensures var st := Pass(packages, tracking, true, now, providers, update);
            forall i :: 0 <= i < |tracking| ==>
              (i in st.attempted <==> !tracking[i].debug && tracking[i].carrier in providers)
    decreases |tracking|
  {
    if tracking != [] {
      var last := |tracking| - 1;
      ForcedPassCallsEveryKnownCarrier(packages, tracking[..last], now, providers, update);
      assert forall i :: 0 <= i < last ==> tracking[..last][i] == tracking[i];
    }
  }

  /** An unforced pass over deliveries that were all refreshed within the
      window calls no adapter and leaves the cache as it was. */
  lemma {:induction false} UnforcedPassOverFreshCacheIsIdentity(packages: PackageMap, tracking: seq<Delivery>, now: int,
                                                                providers: map<string, Carrier>,
                                                                update: (Carrier, string) -> Result<seq<Package>, string>)
    requires forall i :: 0 <= i < |tracking| ==> RecentlyUpdated(packages, tracking[i].id, now)
    ensures Pass(packages, tracking, false, now, providers, update) == PassState(packages, [], [])
    decreases |tracking|
  {
    if tracking != [] {
      UnforcedPassOverFreshCacheIsIdentity(packages, tracking[..|tracking| - 1], now, providers, update);
    }
  }

  /** With the system's registry, a delivery whose carrier is stored as a
      display name ("USPS", "UPS", "FedEx") instead of an id is never refreshed. */
  lemma DisplayNameCarrierIsSkipped(packages: PackageMap, track: Delivery, forceRefresh: bool, now: int)
    requires track.carrier in {"USPS", "UPS", "FedEx"}
    ensures !CallsAdapter(packages, track, forceRefresh, now, Providers())
  {
    ProvidersContents();
  }

  // ---------------------------------------------------------------------------
  // Deletion

  /** A delivery as it is kept by the removal: dropped when it has the id. */
  function Kept(d: Delivery, id: string): seq<Delivery>
  {
    if d.id == id then [] else [d]
  }

  /** The list without the deliveries of the given id. */
  function RemoveDelivery(tracking: seq<Delivery>, id: string): (r: seq<Delivery>)
    ensures forall k :: 0 <= k < |r| ==> r[k].id != id
    decreases |tracking|
  {
    if tracking == [] then []
    else Kept(tracking[0], id) + RemoveDelivery(tracking[1..], id)
  }

  /** Removal drops every delivery with the id and keeps each other delivery
      as many times as the list holds it. */
  lemma {:induction false} RemoveDeliveryCounts(tracking: seq<Delivery>, id: string)
    ensures forall d :: multiset(RemoveDelivery(tracking, id))[d] == if d.id == id then 0 else multiset(tracking)[d]
    decreases |tracking|
  {
    if tracking != [] {
      RemoveDeliveryCounts(tracking[1..], id);
      assert tracking == [tracking[0]] + tracking[1..];
    }
  }

  /** Removal keeps the order of what stays: it distributes over concatenation. */
  lemma {:induction false} RemoveDeliveryDistributes(s: seq<Delivery>, t: seq<Delivery>, id: string)
    ensures RemoveDelivery(s + t, id) == RemoveDelivery(s, id) + RemoveDelivery(t, id)
    decreases |s|
  {
    if s == [] {
      assert s + t == t;
    } else {
      RemoveDeliveryDistributes(s[1..], t, id);
      assert (s + t)[1..] == s[1..] + t;
      assert RemoveDelivery(s + t, id) == Kept(s[0], id) + RemoveDelivery(s[1..] + t, id);
    }
  }

  /** Removing an id that no delivery carries changes nothing. */
  lemma {:induction false} RemoveAbsentIdIsIdentity(s: seq<Delivery>, id: string)
    requires forall k :: 0 <= k < |s| ==> s[k].id != id
    ensures RemoveDelivery(s, id) == s
    decreases |s|
  {
    if s != [] {
      RemoveAbsentIdIsIdentity(s[1..], id);
    }
  }

  /** The name shown when deleting: that of the first delivery with the id,
      or "Unknown". */
  function NameToDelete(tracking: seq<Delivery>, id: string): (name: string)
    ensures (forall k :: 0 <= k < |tracking| ==> tracking[k].id != id) ==> name == "Unknown"
    decreases |tracking|
  {
    if tracking == [] then "Unknown"
    else if tracking[0].id == id then tracking[0].name
    else NameToDelete(tracking[1..], id)
  }

  /** The name is that of the first delivery with the id. */
  lemma {:induction false} NameToDeleteIsFirstMatch(tracking: seq<Delivery>, id: string, k: nat)
    requires k < |tracking| && tracking[k].id == id
    requires forall j :: 0 <= j < k ==> tracking[j].id != id
    ensures NameToDelete(tracking, id) == tracking[k].name
    decreases k
  {
    if k > 0 {
      NameToDeleteIsFirstMatch(tracking[1..], id, k - 1);
    }
  }

  /** The state the delivery list view keeps. */
  class Tracker {
    /** The persisted delivery list; absent until storage has loaded it. */
    var deliveries: Option<seq<Delivery>>
    /** The cached packages per delivery id. */
    var packages: PackageMap
    var trackingIsLoading: bool

    constructor (deliveries: Option<seq<Delivery>>, packages: PackageMap)
      ensures this.deliveries == deliveries && this.packages == packages && !trackingIsLoading
    {
      this.deliveries := deliveries;
      this.packages := packages;
      trackingIsLoading := false;
    }

    /** One refresh pass over `tracking`; `now` is read once for the whole
        pass. Returns the positions whose adapter was called and the failure
        notifications, one per failed call. */
    method RefreshTracking(forceRefresh: bool, tracking: seq<Delivery>, now: int, providers: map<string, Carrier>,
                           update: (Carrier, string) -> Result<seq<Package>, string>)
      returns (attempted: seq<nat>, failures: seq<Toast>)
      modifies this`packages, this`trackingIsLoading
      ensures PassState(packages, attempted, failures) == Pass(old(packages), tracking, forceRefresh, now, providers, update)
      ensures !trackingIsLoading
    {
      attempted, failures := [], [];
      for i := 0 to |tracking|
        invariant PassState(packages, attempted, failures) == Pass(old(packages), tracking[..i], forceRefresh, now, providers, update)
      {
        assert tracking[..i + 1][..i] == tracking[..i];
        var track := tracking[i];
        if track.debug {
          continue;
        }
        if track.carrier !in providers {
          continue;
        }
        var provider := providers[track.carrier];
        if !forceRefresh && RecentlyUpdated(packages, track.id, now) {
          continue;
        }
        var outcome := update(provider, track.trackingNumber);
        match outcome {
          case Ok(refreshedPackages) =>
            packages := packages[track.id := CacheEntry(refreshedPackages, Some(now))];
            attempted := attempted + [i];
          case Err(error) =>
            attempted := attempted + [i];
            failures := failures + [FailureToast(track, error)];
        }
      }
      assert tracking[..|tracking|] == tracking;
      trackingIsLoading := false;
    }

    /** Deletes every delivery with the given id once the user confirms; an
        unloaded list or a declined confirmation changes nothing. Returns the
        success notification. */
    method DeleteTracking(id: string, confirmed: bool) returns (notice: Option<Toast>)
      modifies this`deliveries
      ensures old(deliveries).None? || !confirmed ==> deliveries == old(deliveries) && notice.None?
      ensures old(deliveries).Some? && confirmed ==>
                && deliveries == Some(RemoveDelivery(old(deliveries).value, id))
                && notice == Some(Toast("Deleted Delivery", NameToDelete(old(deliveries).value, id)))
    {
      if deliveries.None? {
        return None;
      }
      var tracking := deliveries.value;
      var nameOfTrackToDelete := NameToDelete(tracking, id);
      if !confirmed {
        return None;
      }
      deliveries := Some(RemoveDelivery(tracking, id));
      notice := Some(Toast("Deleted Delivery", nameOfTrackToDelete));
    }
  }
}
