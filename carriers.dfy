/** The carrier registry: a constant list of carriers turned into a map keyed
    by carrier id. Each carrier names the adapter module that implements its
    two operations. */
module Carriers {
  import opened Wrappers
  import opened Domain
  import Usps
  import Fedex

  /** Which adapter module implements a carrier. The UPS module is not part of
      this model. */
  datatype CarrierModule = UspsModule | UpsModule | FedexModule

  datatype Carrier = Carrier(id: string, name: string, color: Color, implementation: CarrierModule)

  const UspsCarrier: Carrier := Carrier("usps", "USPS", Blue, UspsModule)
  const UpsCarrier: Carrier := Carrier("ups", "UPS", Orange, UpsModule)
  const FedexCarrier: Carrier := Carrier("fedex", "FedEx", Purple, FedexModule)

  /** The registered carriers, in display order. */
  const CarrierList: seq<Carrier> := [UspsCarrier, UpsCarrier, FedexCarrier]

  predicate DistinctIds(cs: seq<Carrier>)
  {
    forall i, j :: 0 <= i < j < |cs| ==> cs[i].id != cs[j].id
  }

  /** A map built from (id, carrier) pairs in list order, a later pair
      overwriting an earlier one with the same id. */
  function BuildRegistry(cs: seq<Carrier>): (registry: map<string, Carrier>)
    ensures registry.Keys == set c | c in cs :: c.id
    ensures forall k :: k in registry ==> registry[k] in cs && registry[k].id == k
    decreases |cs|
  {
    if cs == [] then map[]
    else
      var last := cs[|cs| - 1];
      var registry := BuildRegistry(cs[..|cs| - 1])[last.id := last];
      assert cs == cs[..|cs| - 1] + [last];
      registry
  }

  /** With distinct ids every carrier is reachable under its own id and the map
      has one entry per carrier. */
  lemma {:induction false} RegistryOfDistinctIds(cs: seq<Carrier>)
    requires DistinctIds(cs)
    ensures |BuildRegistry(cs)| == |cs|
    ensures forall i :: 0 <= i < |cs| ==> BuildRegistry(cs)[cs[i].id] == cs[i]
    decreases |cs|
  {
    if cs != [] {
      var init := cs[..|cs| - 1];
      var last := cs[|cs| - 1];
      RegistryOfDistinctIds(init);
      assert last.id !in BuildRegistry(init);
    }
  }

  /** The registry of the system. */
  function Providers(): map<string, Carrier>
  {
    BuildRegistry(CarrierList)
  }

  /** Exactly three carriers, reachable by id only (not by display name), with
      their fixed names, colours and adapter modules. */
  lemma ProvidersContents()
    ensures Providers().Keys == {"usps", "ups", "fedex"}
    ensures |Providers()| == 3
    ensures Providers()["usps"] == Carrier("usps", "USPS", Blue, UspsModule)
    ensures Providers()["ups"] == Carrier("ups", "UPS", Orange, UpsModule)
    ensures Providers()["fedex"] == Carrier("fedex", "FedEx", Purple, FedexModule)
    ensures "USPS" !in Providers() && "UPS" !in Providers() && "FedEx" !in Providers()
  {
    var one := BuildRegistry([UspsCarrier]);
    assert [UspsCarrier][..0] == [];
    assert one == map["usps" := UspsCarrier];
    var two := BuildRegistry([UspsCarrier, UpsCarrier]);
    assert [UspsCarrier, UpsCarrier][..1] == [UspsCarrier];
    assert two == one["ups" := UpsCarrier];
    assert CarrierList[..2] == [UspsCarrier, UpsCarrier];
    assert Providers() == two["fedex" := FedexCarrier];
  }

  /** A carrier's remote-tracking capability, answered by its adapter module.
      The UPS module is not modelled; its answer is the parameter `upsAble`. */
  function AbleToTrackRemotely(c: Carrier, prefs: Fedex.Preferences, upsAble: bool): (able: bool)
    ensures c.implementation == UspsModule ==> !able
    ensures c.implementation == FedexModule ==> (able <==> Fedex.AbleToTrackFedexRemotely(prefs))
    ensures c.implementation == UpsModule ==> able == upsAble
  {
    match c.implementation
    case UspsModule => Usps.AbleToTrackUspsRemotely()
    case UpsModule => upsAble
    case FedexModule => Fedex.AbleToTrackFedexRemotely(prefs)
  }

  /** A carrier's tracking lookup, dispatched to its adapter module. The
      refresh engine hands the adapter the bare tracking-number string, so on
      the FedEx path the adapter's read of a `trackingNumber` property yields
      nothing and the request it sends carries no tracking number. The UPS
      module is not modelled; its outcome is the parameter `upsOutcome`. The
      FedEx login and tracking calls are the outcomes `login` and `track`. */
  method UpdateTracking(c: Carrier, trackingNumber: string, now: int,
                        fedex: Fedex.FedexClient, prefs: Fedex.Preferences,
                        login: Result<Fedex.LoginResponse, string>, track: Result<Fedex.FedexTrackingInfo, string>,
                        parse: string -> int, upsOutcome: Result<seq<Package>, string>)
    returns (r: Result<seq<Package>, string>, request: Option<Fedex.TrackRequest>, loggedIn: bool)
    modifies fedex
    ensures c.implementation != FedexModule ==> request.None? && !loggedIn && fedex.cache == old(fedex.cache)
    ensures c.implementation == UspsModule ==> r == Usps.UpdateUspsTracking(trackingNumber, now)
    ensures c.implementation == UpsModule ==> r == upsOutcome
    ensures c.implementation == FedexModule ==>
              && fedex.cache == (if Fedex.AbleToTrackFedexRemotely(prefs)
                                 then Fedex.CacheAfterLogin(old(fedex.cache), now, login) else old(fedex.cache))
              && (!Fedex.AbleToTrackFedexRemotely(prefs) ==> r == Err(Fedex.MissingKeysMessage))
              && (loggedIn <==> Fedex.AbleToTrackFedexRemotely(prefs) && Fedex.NeedsLogin(old(fedex.cache), now))
              && (request.Some? ==> request.value.trackingNumber.None?)
              && (request.Some? ==> r == if track.Ok? then Ok(Fedex.ConvertUpsTrackingToPackages(track.value, parse))
                                         else Err(track.error))
              && (Fedex.AbleToTrackFedexRemotely(prefs) && Fedex.CachedLogin(old(fedex.cache), now, login).Err? ==>
                    r == Err(Fedex.CachedLogin(old(fedex.cache), now, login).error))
              && (request.Some? <==> Fedex.AbleToTrackFedexRemotely(prefs)
                                     && Fedex.CachedLogin(old(fedex.cache), now, login).Ok?)
  {
    match c.implementation
    case UspsModule =>
      r, request, loggedIn := Usps.UpdateUspsTracking(trackingNumber, now), None, false;
    case UpsModule =>
      r, request, loggedIn := upsOutcome, None, false;
    case FedexModule =>
      r, request, loggedIn := fedex.UpdateFedexTracking(Fedex.TrackingNumberText(trackingNumber), prefs, now, login, track, parse);
  }
}
