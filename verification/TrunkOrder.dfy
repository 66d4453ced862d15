/** The order in which terminating trunks are tried: by priority, then those still below
    their contracted minimum, then by price across currencies. */
module TrunkOrder {
  import opened Models

  datatype Priced = Priced(price: real, currency: string)

  /** A candidate trunk. The account decides whether the package price or the price list counts. */
  datatype Order = Order(
    settingsId: int,
    priority: int,
    accountVersion: Option<int>,
    package: Option<Priced>,
    pricelist: Option<Priced>,
    minimumMinutes: int,
    minimumCost: real,
    usedSeconds: int,
    usedCredit: real)

  type Rates = map<string, real>

  // ---- prices ----------------------------------------------------------------------

  /** A missing or vanishing rate counts as one. */
  function RateOf(rates: Rates, currency: string): (r: real)
    ensures r > 0.0
  {
    if currency != [] && currency in rates && rates[currency] > 0.00000001 then rates[currency] else 1.0
  }

  function Convert(price: real, rate: real): real {
    price * rate
  }

  function PriceToRoubles(rates: Rates, p: Priced): real {
    if p.currency != [] && p.currency in rates && rates[p.currency] > 0.00000001
      then Convert(p.price, rates[p.currency])
    else p.price
  }

  /** The comparison of two prices under price lists: raw when the currencies agree. */
  predicate PriceLessThan(rates: Rates, left: Priced, right: Priced) {
    if left.currency == right.currency then left.price < right.price
    else PriceToRoubles(rates, left) < PriceToRoubles(rates, right)
  }

  function PriceOf(o: Order): Option<Priced> {
    if o.accountVersion == Some(4) && o.pricelist.Some? then o.pricelist
    else if o.accountVersion == Some(5) && o.package.Some? then o.package
    else None
  }

  /** The price class: present, amount, rate, currency. Rates are looked up only when the
      currencies differ; an absent price has the currency RUB. */
  datatype Price = Price(present: bool, price: real, rate: real, currency: string)

  function Quoted(o: Order): Price {
    match PriceOf(o)
    case None => Price(false, 0.0, 1.0, "RUB")
    case Some(p) => Price(true, p.price, 1.0, p.currency)
  }

  predicate Lower(a: Price, b: Price) {
    if a.present && !b.present then true
    else if !a.present && b.present then false
    else if !a.present && !b.present then false
    else if a.currency == b.currency then a.price < b.price
    else Convert(a.price, a.rate) < Convert(b.price, b.rate)
  }

  predicate TrunkOrderLessThan(rates: Rates, left: Order, right: Order) {
    var l, r := Quoted(left), Quoted(right);
    if l.currency != r.currency then
      Lower(l.(rate := RateOf(rates, l.currency)), r.(rate := RateOf(rates, r.currency)))
    else
      Lower(l, r)
  }

  /** What a candidate costs in roubles, if anything is known. */
  function Worth(rates: Rates, o: Order): Option<real> {
    match PriceOf(o)
    case None => None
    case Some(p) => Some(Convert(p.price, RateOf(rates, p.currency)))
  }

  /** Known costs before unknown ones, lower before higher. */
  predicate Cheaper(a: Option<real>, b: Option<real>) {
    a.Some? && (b.None? || a.value < b.value)
  }

  lemma Scales(a: real, b: real, k: real)
    requires k > 0.0
    ensures a < b <==> Convert(a, k) < Convert(b, k)
    ensures k == 1.0 ==> Convert(a, k) == a && Convert(b, k) == b
  {
    ConvertOne(a);
    ConvertOne(b);
    hide Convert;
    if a < b {
      Distributes(a, b - a, k);
      Positive(b - a, k);
    } else if b < a {
      Distributes(b, a - b, k);
      Positive(a - b, k);
    }
  }

  lemma ConvertOne(a: real)
    ensures Convert(a, 1.0) == a
  {
  }

  lemma Distributes(a: real, d: real, k: real)
    ensures Convert(a + d, k) == Convert(a, k) + Convert(d, k)
  {
  }

  lemma Positive(x: real, y: real)
    requires x > 0.0 && y > 0.0
    ensures Convert(x, y) > 0.0
  {
  }

  /** Comparing candidates is comparing their rouble values, whatever the currencies. */
  lemma LessIsCheaper(rates: Rates, left: Order, right: Order)
    ensures TrunkOrderLessThan(rates, left, right) <==> Cheaper(Worth(rates, left), Worth(rates, right))
  {
    hide Convert;
    if PriceOf(left).Some? && PriceOf(right).Some? {
      var l, r := PriceOf(left).value, PriceOf(right).value;
      if l.currency == r.currency {
        Scales(l.price, r.price, RateOf(rates, l.currency));
      }
    }
  }

  lemma PriceLessThanIsRoubles(rates: Rates, left: Priced, right: Priced)
    ensures PriceLessThan(rates, left, right) <==> PriceToRoubles(rates, left) < PriceToRoubles(rates, right)
    ensures PriceToRoubles(rates, left) == Convert(left.price, RateOf(rates, left.currency))
  {
    hide Convert;
    Scales(left.price, right.price, RateOf(rates, left.currency));
  }

  /** Hence it is a strict weak order, as sorting demands. */
  lemma LessIsStrictWeak(rates: Rates, a: Order, b: Order, c: Order)
    ensures !TrunkOrderLessThan(rates, a, a)
    ensures TrunkOrderLessThan(rates, a, b) && TrunkOrderLessThan(rates, b, c) ==> TrunkOrderLessThan(rates, a, c)
    ensures !TrunkOrderLessThan(rates, a, b) && !TrunkOrderLessThan(rates, b, c) ==> !TrunkOrderLessThan(rates, a, c)
  {
    LessIsCheaper(rates, a, a);
    LessIsCheaper(rates, a, b);
    LessIsCheaper(rates, b, c);
    LessIsCheaper(rates, a, c);
  }

  // ---- sorting -----------------------------------------------------------------------

  ghost predicate PriceOrdered(rates: Rates, s: seq<Order>) {
    forall i, j :: 0 <= i < j < |s| ==> !TrunkOrderLessThan(rates, s[j], s[i])
  }

  /** The library's sort by price: some permutation in order. */
  method SortByPrice(rates: Rates, s: seq<Order>) returns (r: seq<Order>)
    ensures multiset(r) == multiset(s) && PriceOrdered(rates, r)
  {
    hide TrunkOrderLessThan;
    r := [];
    for i := 0 to |s|
      invariant multiset(r) == multiset(s[..i]) && PriceOrdered(rates, r)
    {
      assert s[..i + 1] == s[..i] + [s[i]];
      var k := |r|;
      while k > 0 && TrunkOrderLessThan(rates, s[i], r[k - 1])
        invariant 0 <= k <= |r|
        invariant forall j :: k <= j < |r| ==> TrunkOrderLessThan(rates, s[i], r[j])
      {
        k := k - 1;
      }
      InsertInOrder(rates, r, k, s[i]);
      assert r == r[..k] + r[k..];
      r := r[..k] + [s[i]] + r[k..];
    }
    assert s[..|s|] == s;
  }

  lemma InsertInOrder(rates: Rates, r: seq<Order>, k: nat, o: Order)
    requires k <= |r| && PriceOrdered(rates, r)
    requires forall j :: k <= j < |r| ==> TrunkOrderLessThan(rates, o, r[j])
    requires k > 0 ==> !TrunkOrderLessThan(rates, o, r[k - 1])
    ensures PriceOrdered(rates, r[..k] + [o] + r[k..])
  {
    hide TrunkOrderLessThan;
    forall j | 0 <= j < k
      ensures !TrunkOrderLessThan(rates, o, r[j])
    {
      if j < k - 1 { LessIsStrictWeak(rates, o, r[k - 1], r[j]); }
    }
    forall j | k <= j < |r|
      ensures !TrunkOrderLessThan(rates, r[j], o)
    {
      LessIsStrictWeak(rates, o, r[j], o);
    }
  }

  /** The candidates of one priority, in their order. */
  function OfPriority(s: seq<Order>, p: int): seq<Order> {
    if s == [] then []
    else
      var rest := OfPriority(s[..|s| - 1], p);
      if s[|s| - 1].priority == p then rest + [s[|s| - 1]] else rest
  }

  lemma {:induction false} OfPriorityAppend(s: seq<Order>, t: seq<Order>, p: int)
    ensures OfPriority(s + t, p) == OfPriority(s, p) + OfPriority(t, p)
    decreases |t|
  {
    if t == [] {
      assert s + t == s;
    } else {
      assert (s + t)[..|s + t| - 1] == s + t[..|t| - 1];
      OfPriorityAppend(s, t[..|t| - 1], p);
    }
  }

  ghost predicate PriorityOrdered(s: seq<Order>) {
    forall i, j :: 0 <= i < j < |s| ==> s[i].priority >= s[j].priority
  }

  /** The library's stable sort by falling priority: what has one priority keeps its order. */
  method StableSortByPriority(s: seq<Order>) returns (r: seq<Order>)
    ensures multiset(r) == multiset(s) && PriorityOrdered(r)
    ensures forall p :: OfPriority(r, p) == OfPriority(s, p)
  {
    hide OfPriority, PriorityOrdered;
    r := [];
    assert PriorityOrdered([]) by { EmptyIsOrdered(); }
    for i := 0 to |s|
      invariant multiset(r) == multiset(s[..i]) && PriorityOrdered(r)
      invariant forall p :: OfPriority(r, p) == OfPriority(s[..i], p)
    {
      assert s[..i + 1] == s[..i] + [s[i]];
      var k := |r|;
      while k > 0 && s[i].priority > r[k - 1].priority
        invariant 0 <= k <= |r|
        invariant forall j :: k <= j < |r| ==> s[i].priority > r[j].priority
      {
        k := k - 1;
      }
      assert r == r[..k] + r[k..];
      ghost var next := r[..k] + [s[i]] + r[k..];
      InsertByPriority(r, k, s[i]);
      forall p
        ensures OfPriority(next, p) == OfPriority(s[..i + 1], p)
      {
        InsertedLast(r, k, s[i], p);
        OfPriorityAppend(s[..i], [s[i]], p);
      }
      r := r[..k] + [s[i]] + r[k..];
    }
    assert s[..|s|] == s;
  }

  lemma EmptyIsOrdered()
    ensures PriorityOrdered([])
  {
  }

  lemma InsertByPriority(r: seq<Order>, k: nat, o: Order)
    requires k <= |r| && PriorityOrdered(r)
    requires forall j :: k <= j < |r| ==> o.priority > r[j].priority
    requires k > 0 ==> o.priority <= r[k - 1].priority
    ensures PriorityOrdered(r[..k] + [o] + r[k..])
  {
  }

  lemma {:induction false} InsertedLast(r: seq<Order>, k: nat, o: Order, p: int)
    requires k <= |r| && forall j :: k <= j < |r| ==> o.priority > r[j].priority
    ensures OfPriority(r[..k] + [o] + r[k..], p) == OfPriority(r, p) + OfPriority([o], p)
  {
    hide OfPriority;
    assert r == r[..k] + r[k..];
    OfPriorityAppend(r[..k] + [o], r[k..], p);
    OfPriorityAppend(r[..k], [o], p);
    OfPriorityAppend(r[..k], r[k..], p);
    if p == o.priority {
      NoneOfPriority(r[k..], p);
    } else {
      NoneOfPriority([o], p);
    }
  }

  lemma {:induction false} NoneOfPriority(s: seq<Order>, p: int)
    requires forall j :: 0 <= j < |s| ==> s[j].priority != p
    ensures OfPriority(s, p) == []
  {
    if s != [] { NoneOfPriority(s[..|s| - 1], p); }
  }

  // ---- the list ------------------------------------------------------------------------

  /** The trunk has not yet carried its contracted minutes or cost, and minimums count. */
  predicate Unmet(o: Order, useMinimums: bool) {
    useMinimums &&
    ((o.minimumMinutes > 0 && o.usedSeconds < o.minimumMinutes * 60) ||
     (o.minimumCost > 0.0 && o.usedCredit <= o.minimumCost))
  }

  /** `a` may stand before `b` at equal priority. */
  ghost predicate MayPrecede(rates: Rates, useMinimums: bool, a: Order, b: Order) {
    (Unmet(a, useMinimums) && !Unmet(b, useMinimums)) ||
    (Unmet(a, useMinimums) == Unmet(b, useMinimums) && !Cheaper(Worth(rates, b), Worth(rates, a)))
  }

  ghost predicate Ordered(rates: Rates, useMinimums: bool, s: seq<Order>) {
    forall i, j :: 0 <= i < j < |s| ==>
      s[i].priority > s[j].priority || (s[i].priority == s[j].priority && MayPrecede(rates, useMinimums, s[i], s[j]))
  }

  ghost predicate Pairwise(rates: Rates, useMinimums: bool, s: seq<Order>) {
    forall i, j :: 0 <= i < j < |s| ==> MayPrecede(rates, useMinimums, s[i], s[j])
  }

  /** Ordering loses no candidate and adds none; priorities fall, at equal priority unmet
      minimums come first and rouble prices rise. */
  method OrderTrunks(rates: Rates, orders: seq<Order>, useMinimums: bool) returns (r: seq<Order>)
    ensures multiset(r) == multiset(orders)
    ensures Ordered(rates, useMinimums, r)
  {
    hide TrunkOrderLessThan, Worth, Cheaper, OfPriority, Ordered, MayPrecede, Pairwise;
    var free, pay := [], [];
    for i := 0 to |orders|
      invariant multiset(free) + multiset(pay) == multiset(orders[..i])
      invariant forall o :: o in free ==> Unmet(o, useMinimums)
      invariant forall o :: o in pay ==> !Unmet(o, useMinimums)
    {
      assert orders[..i + 1] == orders[..i] + [orders[i]];
      var order := orders[i];
      var accepted := false;
      for j := 0 to |orders|
        invariant j > i ==> accepted
      {
        if orders[j].settingsId == order.settingsId {
          accepted := true;
        }
      }
      if !accepted {
        continue;
      }
      if order.minimumMinutes > 0 && useMinimums && order.usedSeconds < order.minimumMinutes * 60 {
        free := free + [order];
        continue;
      }
      if order.minimumCost > 0.0 && useMinimums && order.usedCredit <= order.minimumCost {
        free := free + [order];
        continue;
      }
      pay := pay + [order];
    }
    assert orders[..|orders|] == orders;
    ghost var free0, pay0 := free, pay;
    free := SortByPrice(rates, free);
    pay := SortByPrice(rates, pay);
    SameMembers(free, free0);
    SameMembers(pay, pay0);
    FreeThenPay(rates, useMinimums, free, pay);
    r := StableSortByPriority(free + pay);
    StaysPairwise(rates, useMinimums, free + pay, r);
  }

  lemma SameMembers(s: seq<Order>, t: seq<Order>)
    requires multiset(s) == multiset(t)
    ensures forall o :: o in s <==> o in t
  {
    forall o
      ensures o in s <==> o in t
    {
      assert o in s <==> o in multiset(s);
      assert o in t <==> o in multiset(t);
    }
  }

  lemma FreeThenPay(rates: Rates, useMinimums: bool, free: seq<Order>, pay: seq<Order>)
    requires PriceOrdered(rates, free) && PriceOrdered(rates, pay)
    requires forall o :: o in free ==> Unmet(o, useMinimums)
    requires forall o :: o in pay ==> !Unmet(o, useMinimums)
    ensures Pairwise(rates, useMinimums, free + pay)
  {
    hide TrunkOrderLessThan, Worth, Cheaper, Unmet;
    var s := free + pay;
    forall i, j | 0 <= i < j < |s|
      ensures MayPrecede(rates, useMinimums, s[i], s[j])
    {
      LessIsCheaper(rates, s[j], s[i]);
      assert i < |free| ==> s[i] in free;
      assert j < |free| ==> s[j] in free;
      assert i >= |free| ==> s[i] in pay;
      assert j >= |free| ==> s[j] in pay;
    }
  }

  lemma {:induction false} StaysPairwise(rates: Rates, useMinimums: bool, s: seq<Order>, r: seq<Order>)
    requires Pairwise(rates, useMinimums, s) && PriorityOrdered(r)
    requires forall p :: OfPriority(r, p) == OfPriority(s, p)
    ensures Ordered(rates, useMinimums, r)
  {
    hide MayPrecede, OfPriority, Pairwise;
    forall i, j | 0 <= i < j < |r| && r[i].priority == r[j].priority
      ensures MayPrecede(rates, useMinimums, r[i], r[j])
    {
      PairwiseOfPriority(rates, useMinimums, s, r[i].priority);
      TwoOfPriority(rates, useMinimums, r, i, j);
    }
  }

  lemma {:induction false} PairwiseOfPriority(rates: Rates, useMinimums: bool, s: seq<Order>, p: int)
    requires Pairwise(rates, useMinimums, s)
    ensures Pairwise(rates, useMinimums, OfPriority(s, p))
    ensures forall o :: o in OfPriority(s, p) ==> o in s
  {
    hide MayPrecede;
    if s != [] {
      var front := s[..|s| - 1];
      PairwiseOfPriority(rates, useMinimums, front, p);
      var rest := OfPriority(front, p);
      forall k | 0 <= k < |rest|
        ensures MayPrecede(rates, useMinimums, rest[k], s[|s| - 1])
      {
        assert rest[k] in front;
        var i :| 0 <= i < |front| && front[i] == rest[k];
        assert s[i] == rest[k];
      }
    }
  }

  lemma {:induction false} TwoOfPriority(rates: Rates, useMinimums: bool, r: seq<Order>, i: nat, j: nat)
    requires i < j < |r| && r[i].priority == r[j].priority
    requires Pairwise(rates, useMinimums, OfPriority(r, r[i].priority))
    ensures MayPrecede(rates, useMinimums, r[i], r[j])
  {
    hide MayPrecede;
    var p := r[i].priority;
    assert r == r[..j] + [r[j]] + r[j + 1..];
    OfPriorityAppend(r[..j] + [r[j]], r[j + 1..], p);
    OfPriorityAppend(r[..j], [r[j]], p);
    assert r[..j] == r[..i] + [r[i]] + r[i + 1..j];
    OfPriorityAppend(r[..i] + [r[i]], r[i + 1..j], p);
    OfPriorityAppend(r[..i], [r[i]], p);
    OneOfPriority(r[i]);
    OneOfPriority(r[j]);
    var all := OfPriority(r, p);
    var a, b := |OfPriority(r[..i], p)|, |OfPriority(r[..j], p)|;
    assert all[b] == r[j] && all[a] == r[i] && a < b;
  }

  lemma OneOfPriority(o: Order)
    ensures OfPriority([o], o.priority) == [o]
  {
    assert [o][..0] == [];
    assert OfPriority([], o.priority) == [];
  }
}
