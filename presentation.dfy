/** The per-delivery summaries of the list: an icon and an accessory text with
    an optional colour, both computed from the cached packages (absent when
    the delivery has no cache entry). */
module Presentation {
  import opened Wrappers
  import opened Domain
  import opened Ranking
  import Usps

  datatype Icon = QuestionMarkCircle | CheckCircle | Circle | CircleProgress

  datatype Accessory = Accessory(value: string, color: Option<Color>)

  const NoPackagesText: string := "No packages"
  const DeliveredText: string := "Delivered"
  const EnRouteText: string := "En route"
  const DaysSuffix: string := " days until delivery"
  const SomeDeliveredSuffix: string := "; some packages delivered"

  predicate NoPackages(packages: Option<seq<Package>>)
  {
    packages.None? || |packages.value| == 0
  }

  /** Unknown without packages, complete when all are delivered, partial when
      some are, in progress when none are. */
  function DeliveryIcon(packages: Option<seq<Package>>): (icon: Icon)
    ensures icon == QuestionMarkCircle <==> NoPackages(packages)
    ensures icon == CheckCircle <==>
              !NoPackages(packages) && forall i :: 0 <= i < |packages.value| ==> packages.value[i].delivered
    ensures icon == Circle <==>
              packages.Some? && (exists i :: 0 <= i < |packages.value| && packages.value[i].delivered)
                             && (exists i :: 0 <= i < |packages.value| && !packages.value[i].delivered)
    ensures icon == CircleProgress <==>
              !NoPackages(packages) && forall i :: 0 <= i < |packages.value| ==> !packages.value[i].delivered
  {
    if NoPackages(packages) then QuestionMarkCircle
    else
      var somePackagesDelivered := SomeDelivered(packages.value);
      var allPackagesDelivered := somePackagesDelivered && AllDelivered(packages.value);
      if allPackagesDelivered then CheckCircle
      else if somePackagesDelivered then Circle
      else
        assert !packages.value[0].delivered;
        CircleProgress
  }

  // ---------------------------------------------------------------------------
  // Decimal text of a number

  function DigitChar(d: nat): (c: char)
    requires d < 10
    ensures '0' <= c <= '9'
  {
    (48 + d) as char
  }

  /** The decimal text of a natural number, most significant digit first. */
  function NatToString(n: nat): (s: string)
    ensures |s| >= 1
    ensures forall i :: 0 <= i < |s| ==> '0' <= s[i] <= '9'
    ensures s[0] == '0' <==> n == 0
    ensures n < 10 ==> |s| == 1
    decreases n
  {
    if n < 10 then [DigitChar(n)] else NatToString(n / 10) + [DigitChar(n % 10)]
  }

  /** Reads decimal digits back into a number. */
  function ParseDecimal(s: string): int
    decreases |s|
  {
    if s == [] then 0 else ParseDecimal(s[..|s| - 1]) * 10 + (s[|s| - 1] as int - 48)
  }

  /** The text of a number reads back as that number. */
  lemma {:induction false} ParseNatToString(n: nat)
    ensures ParseDecimal(NatToString(n)) == n
    decreases n
  {
    if n >= 10 {
      ParseNatToString(n / 10);
      var s := NatToString(n / 10) + [DigitChar(n % 10)];
      assert s[..|s| - 1] == NatToString(n / 10);
    } else {
      assert [DigitChar(n)][..0] == [];
    }
  }

  // ---------------------------------------------------------------------------
  // Accessory

  /** The suffix and colour of a partly delivered delivery. */
  function PartialSuffix(ps: seq<Package>): string
  {
    if SomeDelivered(ps) then SomeDeliveredSuffix else ""
  }

  /** "No packages" in orange without packages; "Delivered" in green when all
      are delivered; otherwise "En route" when no package has a date, or
      "N days until delivery" where N is the day difference of the first
      package closest to now, suffixed "; some packages delivered" in blue when
      some (not all) are delivered, and with no colour when none are. */
  function DeliveryAccessory(packages: Option<seq<Package>>, now: int): (acc: Accessory)
    ensures NoPackages(packages) ==> acc == Accessory(NoPackagesText, Some(Orange))
    ensures !NoPackages(packages) && AllDelivered(packages.value) ==> acc == Accessory(DeliveredText, Some(Green))
    ensures !NoPackages(packages) && !AllDelivered(packages.value) ==>
              acc.color == (if SomeDelivered(packages.value) then Some(Blue) else None)
    ensures !NoPackages(packages) && !AllDelivered(packages.value)
            && (forall i :: 0 <= i < |packages.value| ==> !HasDate(packages.value[i])) ==>
              acc.value == EnRouteText + PartialSuffix(packages.value)
    ensures !NoPackages(packages) && !AllDelivered(packages.value)
            && (exists i :: 0 <= i < |packages.value| && HasDate(packages.value[i])) ==>
              exists i :: IsFirstClosest(packages.value, i, now)
                          && acc.value == NatToString(CalculateDayDifference(packages.value[i].deliveryDate.value, now))
                                          + DaysSuffix + PartialSuffix(packages.value)
  {
    if NoPackages(packages) then Accessory(NoPackagesText, Some(Orange))
    else
      var ps := packages.value;
      var somePackagesDelivered := SomeDelivered(ps);
      var allPackagesDelivered := somePackagesDelivered && AllDelivered(ps);
      if allPackagesDelivered then Accessory(DeliveredText, Some(Green))
      else
        var closestPackage := GetPackageWithEarliestDeliveryDate(ps, now);
        var accessoryText :=
          if closestPackage.deliveryDate.Some? then
            EarliestIsFirstClosest(ps, now);
            NatToString(CalculateDayDifference(closestPackage.deliveryDate.value, now)) + DaysSuffix
          else EnRouteText;
        if somePackagesDelivered && !allPackagesDelivered then Accessory(accessoryText + SomeDeliveredSuffix, Some(Blue))
        else Accessory(accessoryText, None)
  }

  /** The icon and the accessory colour always tell the same state. */
  lemma IconAgreesWithAccessory(packages: Option<seq<Package>>, now: int)
    ensures DeliveryIcon(packages) == QuestionMarkCircle <==> DeliveryAccessory(packages, now).color == Some(Orange)
    ensures DeliveryIcon(packages) == CheckCircle <==> DeliveryAccessory(packages, now).color == Some(Green)
    ensures DeliveryIcon(packages) == Circle <==> DeliveryAccessory(packages, now).color == Some(Blue)
    ensures DeliveryIcon(packages) == CircleProgress <==> DeliveryAccessory(packages, now).color.None?
  {
  }

  /** A USPS delivery, refreshed at any time up to the moment of display,
      shows as in progress and "0 days until delivery". */
  lemma UspsDeliveryShowsDueToday(trackingNumber: string, refreshedAt: int, now: int)
    requires refreshedAt <= now
    ensures var ps := Usps.UpdateUspsTracking(trackingNumber, refreshedAt).value;
            && DeliveryIcon(Some(ps)) == CircleProgress
            && DeliveryAccessory(Some(ps), now) == Accessory("0" + DaysSuffix, None)
  {
    var ps := Usps.UpdateUspsTracking(trackingNumber, refreshedAt).value;
    assert GetPackageWithEarliestDeliveryDate(ps, now) == ps[0];
    assert NatToString(0) == "0";
  }
}
