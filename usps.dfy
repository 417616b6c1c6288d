/** The USPS adapter: no remote lookup yet, and a constant answer. */
module Usps {
  import opened Wrappers
  import opened Domain

  /** USPS cannot be tracked remotely yet. */
  function AbleToTrackUspsRemotely(): (able: bool)
    ensures !able
  {
    false
  }

  /** The stand-in lookup: one undelivered package due at the instant of the
      call (`now`), with no events. It never fails. */
  function UpdateUspsTracking(trackingNumber: string, now: int): (r: Result<seq<Package>, string>)
    ensures r.Ok? && |r.value| == 1
    ensures !r.value[0].delivered && r.value[0].deliveryDate == Some(now) && r.value[0].activity == []
  {
    Ok([Package(false, Some(now), [])])
  }

  /** The answer does not depend on the tracking number asked about. */
  lemma UpdateUspsTrackingIgnoresNumber(a: string, b: string, now: int)
    ensures UpdateUspsTracking(a, now) == UpdateUspsTracking(b, now)
  {
  }
}
