/** Billed length, prepaid allowances and cost of one leg of a call. */
module Tariff {
  import opened Models

  // ---- billed length ---------------------------------------------------------------

  /** Free seconds, then whole minutes, or seconds with a full first minute. The result is
      the shortest length that may be billed. */
  function GetCallLength(len: int, byMinutes: bool, fullFirstMinute: bool, freeFirst: bool, freeSeconds: int): (r: int)
    ensures len <= 0 || (freeFirst && len <= freeSeconds) <==> r == 0
    ensures r > 0 ==> r >= len && (byMinutes ==> r % 60 == 0 && r < len + 60)
    ensures r > 0 && !byMinutes ==> r == if fullFirstMinute then Max(60, len) else len
  {
    if freeFirst && len <= freeSeconds then 0
    else if len <= 0 then 0
    else if byMinutes then
      var s := len % 60;
      if s == 0 then len else len + 60 - s
    else if fullFirstMinute && len < 60 then 60
    else len
  }

  function Abs(x: int): nat {
    if x < 0 then -x else x
  }

  /** Package tariffs: a minimum, then whole intervals, rounded to the nearest for type 1 and
      up otherwise. */
  function GetCallLengthNnp(len: int, freeSeconds: int, intervalSeconds: nat, kind: int, minPaidSeconds: int): int {
    var interval := if intervalSeconds == 0 then 1 else intervalSeconds;
    if len <= 0 then 0
    else if len <= Abs(freeSeconds) then 0
    else if len <= Abs(minPaidSeconds) then Abs(minPaidSeconds)
    else
      var s := len % interval;
      if s == 0 then len
      else if s <= interval / 2 && kind == 1 then len / interval * interval
      else (len / interval + 1) * interval
  }

  /** Beyond the minimum the billed length is a whole number of intervals: the least that is
      long enough, or for type 1 the one no other is nearer to. */
  lemma IntervalsAreKept(len: int, freeSeconds: int, intervalSeconds: nat, kind: int, minPaidSeconds: int)
    requires len > Abs(freeSeconds) && len > Abs(minPaidSeconds)
    ensures var i := if intervalSeconds == 0 then 1 else intervalSeconds;
            var r := GetCallLengthNnp(len, freeSeconds, intervalSeconds, kind, minPaidSeconds);
            r % i == 0 && (kind != 1 ==> len <= r < len + i) && (kind == 1 ==> 2 * Abs(r - len) <= i)
  {
    var i := if intervalSeconds == 0 then 1 else intervalSeconds;
    var q, s := len / i, len % i;
    assert len == q * i + s;
    MultipleOf(q, i);
    MultipleOf(q + 1, i);
  }

  /** A call longer than the minimum is billed at least the minimum, whatever its length, exactly
      when the free seconds are no more than the minimum, and lengths are rounded up or the minimum
      is not in the part of an interval that is rounded down: else a call one second longer than
      the minimum is billed nothing, or less than the minimum. */
  lemma MinimumIsKeptIff(freeSeconds: int, intervalSeconds: nat, kind: int, minPaidSeconds: int)
    ensures var i := if intervalSeconds == 0 then 1 else intervalSeconds;
            var least := Abs(minPaidSeconds);
            (forall len :: len > least ==>
               GetCallLengthNnp(len, freeSeconds, intervalSeconds, kind, minPaidSeconds) >= least) <==>
            (least == 0 || Abs(freeSeconds) <= least) && (kind != 1 || least % i == 0 || least % i >= i / 2)
  {
    hide GetCallLengthNnp, Abs;
    var i := if intervalSeconds == 0 then 1 else intervalSeconds;
    var least := Abs(minPaidSeconds);
    if least != 0 && Abs(freeSeconds) > least {
      FreeBeyondMinimum(freeSeconds, intervalSeconds, kind, minPaidSeconds);
    } else if kind != 1 || least % i == 0 || least % i >= i / 2 {
      forall len | len > least
        ensures GetCallLengthNnp(len, freeSeconds, intervalSeconds, kind, minPaidSeconds) >= least
      {
        MinimumIsKept(len, freeSeconds, intervalSeconds, kind, minPaidSeconds);
      }
    } else {
      SecondMoreIsLess(freeSeconds, intervalSeconds, kind, minPaidSeconds);
    }
  }

  lemma FreeBeyondMinimum(freeSeconds: int, intervalSeconds: nat, kind: int, minPaidSeconds: int)
    requires Abs(freeSeconds) > Abs(minPaidSeconds)
    ensures GetCallLengthNnp(Abs(minPaidSeconds) + 1, freeSeconds, intervalSeconds, kind, minPaidSeconds) == 0
  {
  }

  lemma MinimumIsKept(len: int, freeSeconds: int, intervalSeconds: nat, kind: int, minPaidSeconds: int)
    requires len > Abs(minPaidSeconds) && (Abs(minPaidSeconds) == 0 || Abs(freeSeconds) <= Abs(minPaidSeconds))
    requires kind == 1 ==> MinimumOnStep(intervalSeconds, minPaidSeconds)
    ensures GetCallLengthNnp(len, freeSeconds, intervalSeconds, kind, minPaidSeconds) >= Abs(minPaidSeconds)
  {
    if len > Abs(freeSeconds) {
      if kind == 1 {
        RoundedDownStays(len, Abs(minPaidSeconds), if intervalSeconds == 0 then 1 else intervalSeconds);
      } else {
        IntervalsAreKept(len, freeSeconds, intervalSeconds, kind, minPaidSeconds);
      }
    }
  }

  /** The minimum is not in the part of an interval that is rounded down. */
  predicate MinimumOnStep(intervalSeconds: nat, minPaidSeconds: int) {
    var i := if intervalSeconds == 0 then 1 else intervalSeconds;
    Abs(minPaidSeconds) % i == 0 || Abs(minPaidSeconds) % i >= i / 2
  }

  lemma SecondMoreIsLess(freeSeconds: int, intervalSeconds: nat, kind: int, minPaidSeconds: int)
    requires Abs(freeSeconds) <= Abs(minPaidSeconds) && kind == 1 && !MinimumOnStep(intervalSeconds, minPaidSeconds)
    ensures var least := Abs(minPaidSeconds);
            GetCallLengthNnp(least + 1, freeSeconds, intervalSeconds, kind, minPaidSeconds) < least
  {
    hide MinimumOnStep;
    var i, least := if intervalSeconds == 0 then 1 else intervalSeconds, Abs(minPaidSeconds);
    OffStep(intervalSeconds, minPaidSeconds);
    SecondMore(least, i);
    assert GetCallLengthNnp(least + 1, freeSeconds, intervalSeconds, kind, minPaidSeconds) == (least + 1) / i * i;
  }

  lemma OffStep(intervalSeconds: nat, minPaidSeconds: int)
    requires !MinimumOnStep(intervalSeconds, minPaidSeconds)
    ensures var i := if intervalSeconds == 0 then 1 else intervalSeconds;
            i > 0 && 0 < Abs(minPaidSeconds) % i < i / 2
  {
  }

  lemma RoundedDownStays(len: int, least: nat, i: nat)
    requires i > 0 && len > least && (least % i == 0 || least % i >= i / 2)
    ensures len % i == 0 || len % i > i / 2 || len / i * i >= least
    ensures (len / i + 1) * i >= least
  {
    var q, p := least / i, len / i;
    WholeSteps(p, q, i);
    WholeSteps(q, p, i);
    OneMore(p, i);
    AroundStep(len, p * i, len % i, least, q * i, least % i, i);
  }

  lemma WholeSteps(p: int, q: int, i: nat)
    ensures p < q ==> p * i + i <= q * i
    ensures p == q ==> p * i == q * i
  {
    if p < q {
      var d: nat := q - p - 1;
      SplitProduct(p + 1, d, i);
      OneMore(p, i);
      assert d * i >= 0;
    }
  }

  lemma SplitProduct(a: int, b: int, i: int)
    ensures (a + b) * i == a * i + b * i
  {
  }

  lemma OneMore(p: int, i: nat)
    ensures (p + 1) * i == p * i + i
  {
  }

  lemma AroundStep(len: int, pi: int, s: int, least: int, qi: int, m: int, i: nat)
    requires len == pi + s && 0 <= s < i && least == qi + m && 0 <= m < i && len > least
    requires pi == qi || pi + i <= qi || qi + i <= pi
    requires m == 0 || m >= i / 2
    ensures (s == 0 || s > i / 2 || pi >= least) && pi + i >= least
  {
  }

  lemma SecondMore(least: nat, i: nat)
    requires i > 0 && 0 < least % i < i / 2
    ensures (least + 1) % i == least % i + 1 && (least + 1) / i * i < least
  {
    var q, m := least / i, least % i;
    assert least + 1 == q * i + (m + 1);
    Remainder(least + 1, q, i, m + 1);
    assert (least + 1) / i * i == least + 1 - (m + 1);
  }

  lemma MultipleOf(q: int, i: nat)
    requires i > 0
    ensures q * i % i == 0 && (q + 1) * i == q * i + i
  {
    Remainder(q * i, q, i, 0);
  }

  lemma Remainder(n: int, q: int, i: nat, r: int)
    requires i > 0 && n == q * i + r && 0 <= r < i
    ensures n % i == r
  {
    var d := n / i - q;
    assert n == (n / i) * i + n % i;
    assert d * i == r - n % i;
  }

  // ---- cost --------------------------------------------------------------------------

  /** What billed seconds cost at a price per minute; a caller pays, a receiver earns. */
  function Worth(orig: bool, seconds: int, rate: real): real {
    var amount := seconds as real * rate / 60.0;
    if orig then -amount else amount
  }

  function CostOf(orig: bool, billedTime: int, packageTime: int, rate: real): real {
    var paidTime := billedTime - packageTime;
    if paidTime > 0 then Worth(orig, paidTime, rate) else 0.0
  }

  function PackageCreditOf(orig: bool, billedTime: int, packageTime: int, rate: real): real {
    if billedTime > 0 then Worth(orig, packageTime, rate) else 0.0
  }

  /** The cost and the package's share make up the whole price of the billed seconds exactly
      when no more than those seconds were taken from the package, unless nothing was billed
      or seconds are free. */
  lemma SplitsExactlyIff(orig: bool, billedTime: int, packageTime: int, rate: real)
    requires billedTime >= 0 && packageTime >= 0
    ensures var parts := CostOf(orig, billedTime, packageTime, rate) +
            PackageCreditOf(orig, billedTime, packageTime, rate);
            parts == Worth(orig, billedTime, rate) <==> packageTime <= billedTime || billedTime == 0 || rate == 0.0
  {
    var over := packageTime - billedTime;
    assert packageTime as real * rate == billedTime as real * rate + over as real * rate;
    if over > 0 && rate != 0.0 {
      assert over as real * rate != 0.0;
    }
  }

  // ---- allowances ------------------------------------------------------------------------

  function Available(row: Row): nat {
    Max(0, row.paid - row.usedSeconds)
  }

  /** A package of the service, its tariff if there is one, and the record `getCurrent` has for it. */
  datatype Offer = Offer(packageId: int, tariff: Option<PackageTariff>, row: Row)
  datatype PackageTariff = PackageTariff(prepaidMinutes: int, matchesDestination: bool)

  predicate Usable(tariff: Option<PackageTariff>) {
    tariff.Some? && tariff.value.prepaidMinutes != 0 && tariff.value.matchesDestination
  }

  predicate Eligible(o: Offer) {
    Usable(o.tariff)
  }

  /** What is left in the fullest package that may be used. */
  function MostAvailable(offers: seq<Offer>): nat {
    if offers == [] then 0
    else
      var rest := MostAvailable(offers[..|offers| - 1]);
      var last := offers[|offers| - 1];
      if Eligible(last) then Max(rest, Available(last.row)) else rest
  }

  lemma {:induction false} MostAvailableIsMost(offers: seq<Offer>)
    ensures forall i :: 0 <= i < |offers| && Eligible(offers[i]) ==> Available(offers[i].row) <= MostAvailable(offers)
    ensures MostAvailable(offers) > 0 ==>
              exists i :: 0 <= i < |offers| && Eligible(offers[i]) && Available(offers[i].row) == MostAvailable(offers)
  {
    hide Available, Eligible;
    if offers != [] {
      var front := offers[..|offers| - 1];
      MostAvailableIsMost(front);
      assert forall i :: 0 <= i < |front| ==> front[i] == offers[i];
      if MostAvailable(front) > 0 {
        var i :| 0 <= i < |front| && Eligible(front[i]) && Available(front[i].row) == MostAvailable(front);
        assert offers[i] == front[i];
      }
    }
  }

  /** The i-th offer is the first that gives as many of the wanted seconds as any. */
  ghost predicate IsBest(offers: seq<Offer>, i: int, wanted: int) {
    0 <= i < |offers| && Eligible(offers[i]) &&
    Min(Available(offers[i].row), wanted) == Min(MostAvailable(offers), wanted) &&
    forall j :: 0 <= j < i && Eligible(offers[j]) ==>
      Min(Available(offers[j].row), wanted) < Min(MostAvailable(offers), wanted)
  }

  class BillingCall {
    const orig: bool
    const billedTime: nat
    const rate: real
    var packageTime: int
    var cost: real
    var packageCredit: real
    var servicePackageId: int
    var statsId: int
    var prepaid: Option<Offer>

    constructor (o: bool, billed: nat, r: real, pricelistPackageId: int)
      ensures orig == o && billedTime == billed && rate == r && servicePackageId == pricelistPackageId
      ensures packageTime == 0 && statsId == 0 && prepaid.None? && cost == 0.0 && packageCredit == 0.0
    {
      orig, billedTime, rate, servicePackageId := o, billed, r, pricelistPackageId;
      packageTime, statsId, prepaid, cost, packageCredit := 0, 0, None, 0.0, 0.0;
    }

    /** Splits the price of the leg between the caller and the package. */
    method SetupCost()
      requires 0 <= packageTime <= billedTime
      modifies this`cost, this`packageCredit
      ensures cost == Worth(orig, billedTime - packageTime, rate)
      ensures packageCredit == Worth(orig, packageTime, rate)
      ensures cost + packageCredit == Worth(orig, billedTime, rate)
    {
      SplitsExactlyIff(orig, billedTime, packageTime, rate);
      var paidTime := billedTime - packageTime;
      if paidTime > 0 {
        cost := paidTime as real * rate / 60.0;
        cost := if orig then -cost else cost;
      } else {
        cost := 0.0;
      }
      if billedTime > 0 {
        packageCredit := packageTime as real * rate / 60.0;
        packageCredit := if orig then -packageCredit else packageCredit;
      } else {
        packageCredit := 0.0;
      }
    }

    /** Free minutes of the local tariff, for local calls. */
    method SetupFreemin(local: bool, tariffFreeSeconds: int, row: Row)
      requires packageTime == 0 && statsId == 0
      modifies this`packageTime, this`servicePackageId, this`statsId
      ensures var free := Min(billedTime, Max(0, tariffFreeSeconds - row.usedSeconds));
              if local && tariffFreeSeconds > 0 && free > 0
              then packageTime == free && servicePackageId == 1 && statsId == row.id
              else packageTime == 0 && servicePackageId == old(servicePackageId) && statsId == 0
    {
      if billedTime == 0 || !local || tariffFreeSeconds <= 0 {
        return;
      }
      var available := tariffFreeSeconds - row.usedSeconds;
      if available < 0 {
        available := 0;
      }
      if available > billedTime {
        available := billedTime;
      }
      if available > 0 {
        servicePackageId := 1;
        statsId := row.id;
        packageTime := available;
      }
    }

    /** The package that covers the leg, or else the one that covers most of it. */
    method SetupPackagePrepaid(offers: seq<Offer>)
      modifies this`packageTime, this`servicePackageId, this`statsId, this`prepaid
      ensures billedTime == 0 || old(servicePackageId) > 0 || MostAvailable(offers) == 0 ==>
                packageTime == old(packageTime) && servicePackageId == old(servicePackageId) &&
                statsId == old(statsId) && prepaid == old(prepaid)
      ensures billedTime > 0 && old(servicePackageId) <= 0 && MostAvailable(offers) > 0 ==>
                packageTime == Min(billedTime, MostAvailable(offers)) &&
                exists i :: IsBest(offers, i, billedTime) && prepaid == Some(offers[i]) &&
                            servicePackageId == offers[i].packageId && statsId == offers[i].row.id
    {
      if billedTime == 0 || servicePackageId > 0 {
        return;
      }
      hide Available, Eligible, MostAvailable;
      MostAvailableIsMost(offers);
      var seconds := 0;
      var chosen := -1;
      var k := 0;
      while k < |offers|
        invariant 0 <= k <= |offers| && -1 <= chosen < k && 0 <= seconds < billedTime
        invariant packageTime == old(packageTime) && servicePackageId == old(servicePackageId)
        invariant statsId == old(statsId) && prepaid == old(prepaid)
        invariant chosen == -1 <==> seconds == 0
        invariant chosen >= 0 ==> Eligible(offers[chosen]) && Available(offers[chosen].row) == seconds
        invariant chosen >= 0 ==> forall j :: 0 <= j < chosen && Eligible(offers[j]) ==>
                    Available(offers[j].row) < seconds
        invariant forall j :: 0 <= j < k && Eligible(offers[j]) ==> Available(offers[j].row) <= seconds
      {
        if Eligible(offers[k]) {
          var available := AvailableSeconds(offers[k].row);
          if available >= billedTime {
            seconds := billedTime;
            chosen := k;
            assert IsBest(offers, chosen, billedTime) && seconds <= MostAvailable(offers);
            break;
          } else if available > seconds {
            seconds := available;
            chosen := k;
          }
        }
        k := k + 1;
      }
      if chosen >= 0 {
        assert IsBest(offers, chosen, billedTime) && 0 < seconds <= MostAvailable(offers);
        packageTime := seconds;
        servicePackageId := offers[chosen].packageId;
        statsId := offers[chosen].row.id;
        prepaid := Some(offers[chosen]);
      }
    }

    method AvailableSeconds(row: Row) returns (n: nat)
      ensures n == Available(row)
    {
      var available := row.paid - row.usedSeconds;
      if available < 0 {
        available := 0;
      }
      n := available;
    }

    /** Terminating legs to a toll-free number: the receiver pays. */
    method CalcTollFree()
      requires !orig && packageTime == 0
      modifies this`cost, this`packageCredit
      ensures cost == -Worth(orig, billedTime, rate) && packageCredit == 0.0
    {
      SetupCost();
      cost := -cost;
    }

    /** Minutes of the package tariffs: as many of the seconds left in the chosen one as the leg has. */
    method CalcNnpMinutes(offers: seq<MinuteOffer>) returns (best: Option<MinuteOffer>)
      modifies this`packageTime, this`cost, this`packageCredit
      ensures PickedMinutes(offers, best)
      ensures packageTime == if best.Some? && best.value.id != 0 then Min(billedTime, SecondsLeft(best.value)) else 0
      ensures 0 <= packageTime <= billedTime && cost + packageCredit == Worth(orig, billedTime, rate)
    {
      hide PickedMinutes, SecondsLeft;
      best := PickMinutes(offers);
      packageTime := 0;
      if best.Some? && best.value.id != 0 {
        var available := SecondsLeft(best.value);
        if available < 0 {
          available := 0;
        }
        if available > billedTime {
          available := billedTime;
        }
        if available > 0 {
          packageTime := available;
        }
        LeftInPicked(offers, best);
      }
      SetupCost();
    }
  }

  // ---- minutes of package tariffs ----------------------------------------------------------

  /** A package of minutes of a tariff of the account: what the month costs, whether it serves the
      destination, and the seconds used according to the three counters together. */
  datatype MinuteOffer = MinuteOffer(id: int, tariffId: int, minute: real, price: real, serves: bool, used: int)

  /** Towards zero. */
  function Truncate(x: real): int {
    if x >= 0.0 then x.Floor else -(-x).Floor
  }

  function SecondsLeft(o: MinuteOffer): int {
    Truncate(o.minute * 60.0 - o.used as real)
  }

  predicate Serves(o: MinuteOffer) {
    o.serves && SecondsLeft(o) > 0
  }

  function MinuteCost(o: MinuteOffer): real {
    if o.minute > 0.0 then (var c := o.price / o.minute; if c < 0.0 then -c else c) else 10000000.0
  }

  /** Cheaper by the minute, and among equals the one with less left. */
  predicate Before(a: MinuteOffer, b: MinuteOffer) {
    MinuteCost(a) < MinuteCost(b) || (MinuteCost(a) == MinuteCost(b) && SecondsLeft(a) < SecondsLeft(b))
  }

  /** The first of the offers that serve and have seconds left that no other of them comes before. */
  ghost predicate PickedMinutes(offers: seq<MinuteOffer>, best: Option<MinuteOffer>) {
    match best
    case None => forall o :: o in offers ==> !Serves(o)
    case Some(b) => exists i :: FirstBest(offers, i) && offers[i] == b
  }

  ghost predicate FirstBest(offers: seq<MinuteOffer>, i: int) {
    0 <= i < |offers| && Serves(offers[i]) &&
    (forall j :: 0 <= j < |offers| && Serves(offers[j]) ==> !Before(offers[j], offers[i])) &&
    (forall j :: 0 <= j < i && Serves(offers[j]) ==> Before(offers[i], offers[j]))
  }

  method PickMinutes(offers: seq<MinuteOffer>) returns (best: Option<MinuteOffer>)
    ensures PickedMinutes(offers, best)
  {
    hide Serves, MinuteCost, SecondsLeft;
    best := None;
    ghost var at := -1;
    for k := 0 to |offers|
      invariant best.None? ==> forall j :: 0 <= j < k ==> !Serves(offers[j])
      invariant best.Some? ==> 0 <= at < k && FirstBest(offers[..k], at) && best.value == offers[at]
    {
      var o := offers[k];
      assert offers[..k + 1] == offers[..k] + [o];
      if Serves(o) && (best.None? || Before(o, best.value)) {
        best := Some(o);
        at := k;
      }
    }
    assert offers[..|offers|] == offers;
  }

  lemma LeftInPicked(offers: seq<MinuteOffer>, best: Option<MinuteOffer>)
    requires PickedMinutes(offers, best) && best.Some?
    ensures SecondsLeft(best.value) > 0
  {
    hide SecondsLeft;
  }

  // ---- the allowance of a period -----------------------------------------------------------

  /** Half away from zero. */
  function Round(x: real): int {
    if x >= 0.0 then (x + 0.5).Floor else -(-x + 0.5).Floor
  }

  /** The part of a month's prepaid seconds for the part of the month the package is active. */
  function PaidSeconds(prepaid: int, monthSeconds: int, packageSeconds: int): int
    requires monthSeconds > 0
  {
    Round(packageSeconds as real * prepaid as real / monthSeconds as real)
  }

  lemma Quotient(a: real, c: real)
    requires c > 0.0
    ensures a / c * c == a
  {
  }

  lemma Cancel(x: real, b: real, c: real)
    requires c > 0.0
    ensures x * c == b * c <==> x == b
    ensures x * c <= b * c <==> x <= b
  {
    if x < b { assert (b - x) * c > 0.0; }
    if x > b { assert (x - b) * c > 0.0; }
  }

  lemma Share(prepaid: int, monthSeconds: int, packageSeconds: int)
    requires 0 <= packageSeconds <= monthSeconds && 0 < monthSeconds && 0 <= prepaid
    ensures var x := packageSeconds as real * prepaid as real / monthSeconds as real;
            0.0 <= x <= prepaid as real && x * monthSeconds as real == packageSeconds as real * prepaid as real
    ensures packageSeconds == monthSeconds ==>
              packageSeconds as real * prepaid as real / monthSeconds as real == prepaid as real
  {
    var a, b, c := packageSeconds as real, prepaid as real, monthSeconds as real;
    var x := a * b / c;
    Quotient(a * b, c);
    assert 0.0 <= a * b <= b * c by { assert (c - a) * b >= 0.0; }
    Cancel(x, b, c);
    Cancel(0.0, x, c);
  }

  /** Never more than the month's seconds; all of them for a whole month. */
  lemma PaidWithinPrepaid(prepaid: int, monthSeconds: int, packageSeconds: int)
    requires 0 <= packageSeconds <= monthSeconds && 0 < monthSeconds && 0 <= prepaid
    ensures 0 <= PaidSeconds(prepaid, monthSeconds, packageSeconds) <= prepaid
    ensures packageSeconds == monthSeconds ==> PaidSeconds(prepaid, monthSeconds, packageSeconds) == prepaid
  {
    Share(prepaid, monthSeconds, packageSeconds);
  }

  /** Two packages that share a month between them give what one gives, to within a second. */
  lemma SharedMonthAddsUp(prepaid: int, monthSeconds: int, first: int)
    requires 0 <= first <= monthSeconds && 0 < monthSeconds && 0 <= prepaid
    ensures Abs(PaidSeconds(prepaid, monthSeconds, first) +
                PaidSeconds(prepaid, monthSeconds, monthSeconds - first) - prepaid) <= 1
  {
    hide Round;
    Share(prepaid, monthSeconds, first);
    Share(prepaid, monthSeconds, monthSeconds - first);
    var x := first as real * prepaid as real / monthSeconds as real;
    var y := (monthSeconds - first) as real * prepaid as real / monthSeconds as real;
    HalvesAddUp(x, y, first as real, prepaid as real, monthSeconds as real);
    RoundedHalves(x, y, prepaid);
  }

  lemma RoundedHalves(x: real, y: real, sum: int)
    requires x >= 0.0 && y >= 0.0 && x + y == sum as real
    ensures Abs(Round(x) + Round(y) - sum) <= 1
  {
    Nearest(x);
    Nearest(y);
  }

  lemma HalvesAddUp(x: real, y: real, a: real, b: real, c: real)
    requires c > 0.0 && x * c == a * b && y * c == (c - a) * b
    ensures x + y == b
  {
    assert (x + y) * c == a * b + (c - a) * b == b * c;
    Cancel(x + y, b, c);
  }

  lemma Nearest(x: real)
    requires x >= 0.0
    ensures x - 0.5 <= Round(x) as real <= x + 0.5
  {
  }
}
