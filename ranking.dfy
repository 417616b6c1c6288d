/** The ranking logic of the delivery list: the day difference, the package
    closest to now, the comparator behind the list order and the sort that
    uses it. The current time is one parameter `now` (epoch milliseconds). */
module Ranking {
  import opened Wrappers
  import opened Domain

  const MillisecondsInDay: int := 1000 * 60 * 60 * 24

  function Abs(x: int): nat
  {
    if x < 0 then -x else x
  }

  // ---------------------------------------------------------------------------
  // Day difference

  /** Whole days from `now` until `deliverDate`, rounded up; a date that is not
      in the future gives 0. */
  function CalculateDayDifference(deliverDate: int, now: int): (days: nat)
    ensures deliverDate <= now ==> days == 0
    ensures deliverDate > now ==> (days - 1) * MillisecondsInDay < deliverDate - now <= days * MillisecondsInDay
  {
    var millisecondsDifference := deliverDate - now;
    var dayDifference := if millisecondsDifference % MillisecondsInDay == 0
                         then millisecondsDifference / MillisecondsInDay
                         else millisecondsDifference / MillisecondsInDay + 1;
    if dayDifference < 0 then 0 else dayDifference
  }

  /** Yesterday is 0 days away, exactly 24 hours ahead is 1 day, and one
      millisecond more is 2 days. */
  lemma DayDifferenceExamples(now: int)
    ensures CalculateDayDifference(now - MillisecondsInDay, now) == 0
    ensures CalculateDayDifference(now, now) == 0
    ensures CalculateDayDifference(now + MillisecondsInDay, now) == 1
    ensures CalculateDayDifference(now + MillisecondsInDay + 1, now) == 2
  {
  }

  // ---------------------------------------------------------------------------
  // The package closest to now

  /** The reducer: keep the package whose date is closer to `now`. An undated
      package never replaces a dated one, and on equal distance the package
      kept so far stays. */
  function CloserPackage(closest: Package, current: Package, now: int): (kept: Package)
    ensures kept == closest || kept == current
    ensures HasDate(kept) <==> HasDate(closest) || HasDate(current)
    ensures HasDate(closest) && HasDate(current) ==>
              Abs(kept.deliveryDate.value - now) <= Abs(closest.deliveryDate.value - now)
              && Abs(kept.deliveryDate.value - now) <= Abs(current.deliveryDate.value - now)
    ensures kept != closest ==>
              HasDate(current)
              && (!HasDate(closest) || Abs(current.deliveryDate.value - now) < Abs(closest.deliveryDate.value - now))
  {
    if current.deliveryDate.None? then closest
    else if closest.deliveryDate.None? then current
    else if Abs(current.deliveryDate.value - now) < Abs(closest.deliveryDate.value - now) then current
    else closest
  }

  /** The left-to-right reduction of a non-empty list with `CloserPackage`,
      seeded with its first element. */
  function GetPackageWithEarliestDeliveryDate(packages: seq<Package>, now: int): (closest: Package)
    requires |packages| > 0
    ensures closest in packages
    ensures HasDate(closest) <==> exists i :: 0 <= i < |packages| && HasDate(packages[i])
    decreases |packages|
  {
    if |packages| == 1 then packages[0]
    else
      var last := |packages| - 1;
      var init := packages[..last];
      assert forall i :: 0 <= i < last ==> packages[i] == init[i];
      CloserPackage(GetPackageWithEarliestDeliveryDate(init, now), packages[last], now)
  }

  function Distance(p: Package, now: int): nat
    requires HasDate(p)
  {
    Abs(p.deliveryDate.value - now)
  }

  /** `ps[i]` is dated, no dated package is closer to now, and every dated
      package before it is strictly farther. */
  ghost predicate IsFirstClosest(ps: seq<Package>, i: int, now: int)
  {
    && 0 <= i < |ps| && HasDate(ps[i])
    && (forall j :: 0 <= j < |ps| && HasDate(ps[j]) ==> Distance(ps[i], now) <= Distance(ps[j], now))
    && (forall j :: 0 <= j < i && HasDate(ps[j]) ==> Distance(ps[i], now) < Distance(ps[j], now))
  }

  /** When some package is dated, the result is the first package of minimal
      distance to now. */
  lemma {:induction false} EarliestIsFirstClosest(ps: seq<Package>, now: int)
    requires exists i :: 0 <= i < |ps| && HasDate(ps[i])
    ensures exists i :: IsFirstClosest(ps, i, now) && ps[i] == GetPackageWithEarliestDeliveryDate(ps, now)
    decreases |ps|
  {
    var last := |ps| - 1;
    if |ps| == 1 {
      assert IsFirstClosest(ps, 0, now);
    } else {
      var init := ps[..last];
      assert forall j :: 0 <= j < last ==> ps[j] == init[j];
      var acc := GetPackageWithEarliestDeliveryDate(init, now);
      assert GetPackageWithEarliestDeliveryDate(ps, now) == CloserPackage(acc, ps[last], now);
      if exists i :: 0 <= i < |init| && HasDate(init[i]) {
        EarliestIsFirstClosest(init, now);
        var i0 :| IsFirstClosest(init, i0, now) && init[i0] == acc;
        if !HasDate(ps[last]) || Distance(ps[last], now) >= Distance(acc, now) {
          ExtendFirstClosest(ps, i0, now);
        } else {
          LastIsFirstClosest(ps, i0, now);
        }
      } else {
        assert forall j :: 0 <= j < last ==> !HasDate(ps[j]);
        assert IsFirstClosest(ps, last, now);
      }
    }
  }

  /** The first closest package of all but the last stays first closest when
      the last package is undated or no closer. */
  lemma ExtendFirstClosest(ps: seq<Package>, i0: int, now: int)
    requires |ps| > 1 && IsFirstClosest(ps[..|ps| - 1], i0, now)
    requires !HasDate(ps[|ps| - 1]) || Distance(ps[|ps| - 1], now) >= Distance(ps[i0], now)
    ensures IsFirstClosest(ps, i0, now)
  {
    var init := ps[..|ps| - 1];
    forall j | 0 <= j < |ps| && HasDate(ps[j]) ensures Distance(ps[i0], now) <= Distance(ps[j], now) {
      if j < |ps| - 1 { assert ps[j] == init[j]; }
    }
    forall j | 0 <= j < i0 && HasDate(ps[j]) ensures Distance(ps[i0], now) < Distance(ps[j], now) {
      assert ps[j] == init[j];
    }
  }

  /** The last package is first closest when it is strictly closer than the
      first closest package of the others. */
  lemma LastIsFirstClosest(ps: seq<Package>, i0: int, now: int)
    requires |ps| > 1 && IsFirstClosest(ps[..|ps| - 1], i0, now)
    requires HasDate(ps[|ps| - 1]) && Distance(ps[|ps| - 1], now) < Distance(ps[i0], now)
    ensures IsFirstClosest(ps, |ps| - 1, now)
  {
    var init := ps[..|ps| - 1];
    forall j | 0 <= j < |ps| - 1 && HasDate(ps[j]) ensures Distance(ps[|ps| - 1], now) < Distance(ps[j], now) {
      assert ps[j] == init[j];
    }
  }

  /** When no package is dated, the result is the first package. */
  lemma {:induction false} EarliestOfUndatedIsFirst(ps: seq<Package>, now: int)
    requires |ps| > 0
    requires forall i :: 0 <= i < |ps| ==> !HasDate(ps[i])
    ensures GetPackageWithEarliestDeliveryDate(ps, now) == ps[0]
    decreases |ps|
  {
    if |ps| > 1 {
      EarliestOfUndatedIsFirst(ps[..|ps| - 1], now);
    }
  }

  // ---------------------------------------------------------------------------
  // The comparator

  /** The cached packages of a delivery; none when it has no cache entry. */
  function PackagesOf(packages: PackageMap, d: Delivery): seq<Package>
  {
    if d.id in packages then packages[d.id].packages else []
  }

  /** The tie-break of both date tiers: a delivery with some delivered package
      comes first. */
  function CompareSomeDelivered(aPackages: seq<Package>, bPackages: seq<Package>): int
  {
    var aSome := SomeDelivered(aPackages);
    var bSome := SomeDelivered(bPackages);
    if aSome && !bSome then -1
    else if !aSome && bSome then 1
    else 0
  }

  /** The comparator of the delivery list: negative puts `a` first, positive
      puts `b` first, zero is a tie. Its sign is the lexicographic order of
      the five-tier keys below: negative iff `a`'s key is smaller, positive
      iff `b`'s is, zero iff they are equal. */
  function CompareDeliveries(a: Delivery, b: Delivery, packages: PackageMap, now: int): (r: int)
    ensures r < 0 <==> KeyBefore(RankOf(a, packages, now), RankOf(b, packages, now))
    ensures r > 0 <==> KeyBefore(RankOf(b, packages, now), RankOf(a, packages, now))
    ensures r == 0 <==> RankOf(a, packages, now) == RankOf(b, packages, now)
  {
    var aPackages := PackagesOf(packages, a);
    var bPackages := PackagesOf(packages, b);
    if |aPackages| > 0 && |bPackages| == 0 then -1
    else if |aPackages| == 0 && |bPackages| > 0 then 1
    else if |aPackages| == 0 && |bPackages| == 0 then 0
    else
      var aAll := AllDelivered(aPackages);
      var bAll := AllDelivered(bPackages);
      if aAll && !bAll then -1
      else if !aAll && bAll then 1
      else
        var aDate := GetPackageWithEarliestDeliveryDate(aPackages, now).deliveryDate;
        var bDate := GetPackageWithEarliestDeliveryDate(bPackages, now).deliveryDate;
        if aDate.Some? && bDate.None? then -1
        else if aDate.None? && bDate.Some? then 1
        else if aDate.None? && bDate.None? then CompareSomeDelivered(aPackages, bPackages)
        else
          var dayDifferenceDifference := CalculateDayDifference(aDate.value, now) - CalculateDayDifference(bDate.value, now);
          if dayDifferenceDifference == 0 then CompareSomeDelivered(aPackages, bPackages)
          else dayDifferenceDifference
  }

  /** An independent description of the order: each delivery gets a key of
      five tiers, compared lexicographically, smaller first. */
  datatype SortKey = SortKey(noPackages: nat, notAllDelivered: nat, noDate: nat, days: nat, noneDelivered: nat)

  function Rank(ps: seq<Package>, now: int): SortKey
  {
    if |ps| == 0 then SortKey(1, 0, 0, 0, 0)
    else
      var date := GetPackageWithEarliestDeliveryDate(ps, now).deliveryDate;
      SortKey(0,
              if AllDelivered(ps) then 0 else 1,
              if date.Some? then 0 else 1,
              if date.Some? then CalculateDayDifference(date.value, now) else 0,
              if SomeDelivered(ps) then 0 else 1)
  }

  function RankOf(d: Delivery, packages: PackageMap, now: int): SortKey
  {
    Rank(PackagesOf(packages, d), now)
  }

  /** Strict lexicographic order on keys. */
  predicate KeyBefore(x: SortKey, y: SortKey)
  {
    || x.noPackages < y.noPackages
    || (x.noPackages == y.noPackages && x.notAllDelivered < y.notAllDelivered)
    || (x.noPackages == y.noPackages && x.notAllDelivered == y.notAllDelivered && x.noDate < y.noDate)
    || (x.noPackages == y.noPackages && x.notAllDelivered == y.notAllDelivered && x.noDate == y.noDate
        && x.days < y.days)
    || (x.noPackages == y.noPackages && x.notAllDelivered == y.notAllDelivered && x.noDate == y.noDate
        && x.days == y.days && x.noneDelivered < y.noneDelivered)
  }

  /** Tiers one to three: packages before none (two empty deliveries tie),
      all delivered before not all delivered, a known date before an unknown one. */
  lemma CompareTiers(a: Delivery, b: Delivery, packages: PackageMap, now: int)
    ensures var ap := PackagesOf(packages, a); var bp := PackagesOf(packages, b);
            && (|ap| > 0 && |bp| == 0 ==> CompareDeliveries(a, b, packages, now) < 0)
            && (|ap| == 0 && |bp| == 0 ==> CompareDeliveries(a, b, packages, now) == 0)
            && (|ap| > 0 && |bp| > 0 && AllDelivered(ap) && !AllDelivered(bp) ==> CompareDeliveries(a, b, packages, now) < 0)
            && (|ap| > 0 && |bp| > 0 && AllDelivered(ap) == AllDelivered(bp)
                && (exists i :: 0 <= i < |ap| && HasDate(ap[i])) && (forall i :: 0 <= i < |bp| ==> !HasDate(bp[i]))
                ==> CompareDeliveries(a, b, packages, now) < 0)
  {
  }

  /** The date tier: without dates on either side, some delivered comes first;
      with dates on both, the smaller day difference of the closest packages
      comes first, and equal differences fall back to some delivered. */
  lemma CompareDateTier(a: Delivery, b: Delivery, packages: PackageMap, now: int)
    requires |PackagesOf(packages, a)| > 0 && |PackagesOf(packages, b)| > 0
    requires AllDelivered(PackagesOf(packages, a)) == AllDelivered(PackagesOf(packages, b))
    ensures var ap := PackagesOf(packages, a); var bp := PackagesOf(packages, b);
            (forall i :: 0 <= i < |ap| ==> !HasDate(ap[i])) && (forall i :: 0 <= i < |bp| ==> !HasDate(bp[i])) ==>
              (CompareDeliveries(a, b, packages, now) < 0 <==> SomeDelivered(ap) && !SomeDelivered(bp))
    ensures var ap := PackagesOf(packages, a); var bp := PackagesOf(packages, b);
            (exists i :: 0 <= i < |ap| && HasDate(ap[i])) && (exists i :: 0 <= i < |bp| && HasDate(bp[i])) ==>
              var ad := CalculateDayDifference(GetPackageWithEarliestDeliveryDate(ap, now).deliveryDate.value, now);
              var bd := CalculateDayDifference(GetPackageWithEarliestDeliveryDate(bp, now).deliveryDate.value, now);
              (CompareDeliveries(a, b, packages, now) < 0 <==> ad < bd || (ad == bd && SomeDelivered(ap) && !SomeDelivered(bp)))
  {
  }

  // ---------------------------------------------------------------------------
  // The comparator is a strict weak order

  lemma CompareIsIrreflexive(a: Delivery, packages: PackageMap, now: int)
    ensures CompareDeliveries(a, a, packages, now) == 0
  {
  }

  /** Swapping the arguments negates the sign. */
  lemma CompareIsAntisymmetric(a: Delivery, b: Delivery, packages: PackageMap, now: int)
    ensures CompareDeliveries(a, b, packages, now) < 0 <==> CompareDeliveries(b, a, packages, now) > 0
    ensures CompareDeliveries(a, b, packages, now) == 0 <==> CompareDeliveries(b, a, packages, now) == 0
  {
  }

  /** "Before" is transitive, and so are ties and "not after". */
  lemma CompareIsTransitive(a: Delivery, b: Delivery, c: Delivery, packages: PackageMap, now: int)
    ensures CompareDeliveries(a, b, packages, now) < 0 && CompareDeliveries(b, c, packages, now) < 0 ==>
              CompareDeliveries(a, c, packages, now) < 0
    ensures CompareDeliveries(a, b, packages, now) == 0 && CompareDeliveries(b, c, packages, now) == 0 ==>
              CompareDeliveries(a, c, packages, now) == 0
    ensures CompareDeliveries(a, b, packages, now) <= 0 && CompareDeliveries(b, c, packages, now) <= 0 ==>
              CompareDeliveries(a, c, packages, now) <= 0
  {
  }

  // ---------------------------------------------------------------------------
  // Sorting

  ghost predicate SortedBy(s: seq<Delivery>, packages: PackageMap, now: int)
  {
    forall i, j :: 0 <= i < j < |s| ==> CompareDeliveries(s[i], s[j], packages, now) <= 0
  }

  /** Puts `x` before the first element it does not sort after. */
  function Insert(x: Delivery, s: seq<Delivery>, packages: PackageMap, now: int): (r: seq<Delivery>)
    ensures multiset(r) == multiset(s) + multiset{x}
    decreases |s|
  {
    if s == [] then [x]
    else if CompareDeliveries(x, s[0], packages, now) <= 0 then [x] + s
    else
      assert s == [s[0]] + s[1..];
      [s[0]] + Insert(x, s[1..], packages, now)
  }

  /** A delivery that sorts not after `x` nor after any element of `s` sorts
      not after any element of `Insert(x, s)`. */
  lemma InsertKeepsLowerBound(y: Delivery, x: Delivery, s: seq<Delivery>, packages: PackageMap, now: int)
    requires CompareDeliveries(y, x, packages, now) <= 0
    requires forall k :: 0 <= k < |s| ==> CompareDeliveries(y, s[k], packages, now) <= 0
    ensures forall k :: 0 <= k < |Insert(x, s, packages, now)| ==>
              CompareDeliveries(y, Insert(x, s, packages, now)[k], packages, now) <= 0
  {
    var t := Insert(x, s, packages, now);
    forall k | 0 <= k < |t| ensures CompareDeliveries(y, t[k], packages, now) <= 0 {
      assert t[k] in multiset(t);
      if t[k] != x {
        assert t[k] in multiset(s);
        var m :| 0 <= m < |s| && s[m] == t[k];
      }
    }
  }

  /** A delivery that sorts not after any element of a sorted list can be put
      in front of it. */
  lemma ConsKeepsSorted(y: Delivery, t: seq<Delivery>, packages: PackageMap, now: int)
    requires SortedBy(t, packages, now)
    requires forall k :: 0 <= k < |t| ==> CompareDeliveries(y, t[k], packages, now) <= 0
    ensures SortedBy([y] + t, packages, now)
  {
    var r := [y] + t;
    forall i, j | 0 <= i < j < |r| ensures CompareDeliveries(r[i], r[j], packages, now) <= 0 {
      if i == 0 {
        assert r[i] == y && r[j] == t[j - 1];
      } else {
        assert r[i] == t[i - 1] && r[j] == t[j - 1];
        assert 0 <= i - 1 < j - 1 < |t|;
      }
    }
  }

  lemma {:induction false} InsertKeepsSorted(x: Delivery, s: seq<Delivery>, packages: PackageMap, now: int)
    requires SortedBy(s, packages, now)
    ensures SortedBy(Insert(x, s, packages, now), packages, now)
    decreases |s|
  {
    if s == [] {
    } else if CompareDeliveries(x, s[0], packages, now) <= 0 {
      forall k | 0 <= k < |s| ensures CompareDeliveries(x, s[k], packages, now) <= 0 {
        if k > 0 {
          CompareIsTransitive(x, s[0], s[k], packages, now);
        }
      }
      ConsKeepsSorted(x, s, packages, now);
    } else {
      InsertKeepsSorted(x, s[1..], packages, now);
      CompareIsAntisymmetric(x, s[0], packages, now);
      assert forall k :: 0 <= k < |s[1..]| ==> s[1..][k] == s[k + 1];
      InsertKeepsLowerBound(s[0], x, s[1..], packages, now);
      ConsKeepsSorted(s[0], Insert(x, s[1..], packages, now), packages, now);
    }
  }

  /** The sorted copy of the delivery list (a stable insertion sort with the
      comparator): a permutation of the input in comparator order. */
  function SortTracking(tracks: seq<Delivery>, packages: PackageMap, now: int): (sorted: seq<Delivery>)
    ensures multiset(sorted) == multiset(tracks)
    ensures SortedBy(sorted, packages, now)
    decreases |tracks|
  {
    if tracks == [] then []
    else
      var rest := SortTracking(tracks[1..], packages, now);
      InsertKeepsSorted(tracks[0], rest, packages, now);
      assert tracks == [tracks[0]] + tracks[1..];
      Insert(tracks[0], rest, packages, now)
  }

  // ---------------------------------------------------------------------------
  // Example orderings (shapes of the development fixtures)

  /** A delivery with one undelivered package four days ahead sorts before a
      delivery that has never been refreshed. */
  lemma DatedBeforeNeverRefreshed(now: int)
    ensures var a := Delivery("a", "undelivered, estimated ahead", "1Zasdf", "ups", false);
            var b := Delivery("b", "never refreshed", "9347", "usps", false);
            var packages := map["a" := CacheEntry([Package(false, Some(now + 4 * MillisecondsInDay), [])], Some(now))];
            SortTracking([b, a], packages, now) == [a, b]
  {
  }

  /** A fully delivered delivery with a past date sorts before one with an
      undelivered package due in the future. */
  lemma DeliveredBeforeUndelivered(now: int)
    ensures var a := Delivery("a", "delivered in the past", "9246", "fedex", false);
            var b := Delivery("b", "undelivered, estimated ahead", "1Zasdf", "ups", false);
            var packages := map["a" := CacheEntry([Package(true, Some(now - 10 * MillisecondsInDay), [])], Some(now)),
                                "b" := CacheEntry([Package(false, Some(now + 4 * MillisecondsInDay), [])], Some(now))];
            SortTracking([b, a], packages, now) == [a, b]
  {
  }

  /** Two deliveries without known dates: the partly delivered one sorts first. */
  lemma PartlyDeliveredBeforeUndeliveredWithoutDates(now: int)
    ensures var a := Delivery("a", "partially delivered", "1Zdfl", "ups", false);
            var b := Delivery("b", "unknown", "9347", "usps", false);
            var packages := map["a" := CacheEntry([Package(true, None, []), Package(false, None, [])], Some(now)),
                                "b" := CacheEntry([Package(false, None, [])], Some(now))];
            SortTracking([b, a], packages, now) == [a, b]
  {
    var a := Delivery("a", "partially delivered", "1Zdfl", "ups", false);
    var b := Delivery("b", "unknown", "9347", "usps", false);
    var packages := map["a" := CacheEntry([Package(true, None, []), Package(false, None, [])], Some(now)),
                        "b" := CacheEntry([Package(false, None, [])], Some(now))];
    EarliestOfUndatedIsFirst(packages["a"].packages, now);
    assert RankOf(a, packages, now) == SortKey(0, 1, 1, 0, 0);
    assert RankOf(b, packages, now) == SortKey(0, 1, 1, 0, 1);
    assert CompareDeliveries(b, a, packages, now) > 0;
    assert SortTracking([a], packages, now) == [a];
    assert [b, a][1..] == [a];
  }
}
