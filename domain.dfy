/** The value types that the carrier adapters, the refresh engine and the
    ranking logic share: the normalised package, the tracked delivery and the
    per-delivery cache entry. Time stamps are epoch milliseconds. */
module Domain {
  import opened Wrappers

  /** One tracking event. Events are reserved for later use: every adapter
      returns an empty list of them. */
  datatype Activity = Activity(description: string)

  /** One physical parcel. An absent delivery date means "unknown". */
  datatype Package = Package(delivered: bool, deliveryDate: Option<int>, activity: seq<Activity>)

  /** A tracked shipment. `debug` marks the synthetic entries of development
      builds; an absent flag is `false`. */
  datatype Delivery = Delivery(id: string, name: string, trackingNumber: string, carrier: string, debug: bool)

  /** What the package cache keeps for one delivery id. */
  datatype CacheEntry = CacheEntry(packages: seq<Package>, lastUpdated: Option<int>)

  /** The package cache, keyed by delivery id. */
  type PackageMap = map<string, CacheEntry>

  /** The display colours the core uses. */
  datatype Color = Blue | Orange | Purple | Green

  predicate HasDate(p: Package)
  {
    p.deliveryDate.Some?
  }

  /** At least one package of the list is delivered. */
  predicate SomeDelivered(ps: seq<Package>)
  {
    exists i :: 0 <= i < |ps| && ps[i].delivered
  }

  /** Every package of the list is delivered (vacuously true of no packages). */
  predicate AllDelivered(ps: seq<Package>)
  {
    forall i :: 0 <= i < |ps| ==> ps[i].delivered
  }
}
