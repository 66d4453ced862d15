/** Minutes of the package tariffs of an account: which package serves a leg, and whether the record
    that is read is the record that is charged. */
module NationalMinutes {
  import opened Models
  import opened Ledger
  import opened BillingState
  import opened BillingInvariant
  import opened BillingSafety
  import opened BillingContainer
  import opened Tariff
  import opened Calculation
  import opened StatsWindows

  /** A tariff of the account, active from one time to another. */
  datatype AccountTariff = AccountTariff(id: int, tariffId: int, price: real, from: int, to: int)

  /** A package of minutes of a tariff; `others` is what the two other counters show as used. */
  datatype MinutePackage = MinutePackage(id: int, tariffId: int, minute: real, serves: bool, others: int)

  /** The account's tariff that is charged: the first of the kind. */
  function FirstWith(tariffs: seq<AccountTariff>, tariffId: int): (r: Option<AccountTariff>)
    ensures r.Some? ==> r.value in tariffs && r.value.tariffId == tariffId
    ensures r.None? ==> forall t :: t in tariffs ==> t.tariffId != tariffId
  {
    if tariffs == [] then None
    else if tariffs[0].tariffId == tariffId then Some(tariffs[0])
    else FirstWith(tariffs[1..], tariffId)
  }

  /** The account's tariff whose record is read: the last of the kind. */
  function LastWith(tariffs: seq<AccountTariff>, tariffId: int): (r: Option<AccountTariff>)
    ensures r.Some? ==> r.value in tariffs && r.value.tariffId == tariffId
    ensures r.None? ==> forall t :: t in tariffs ==> t.tariffId != tariffId
  {
    if tariffs == [] then None
    else if tariffs[|tariffs| - 1].tariffId == tariffId then Some(tariffs[|tariffs| - 1])
    else LastWith(tariffs[..|tariffs| - 1], tariffId)
  }

  function Asking(t: AccountTariff, time: int): Query {
    Query(t.id, time, t.from, t.to, 0)
  }

  function OfferOf(m: Manager, tariffs: seq<AccountTariff>, p: MinutePackage, time: int): MinuteOffer {
    match LastWith(tariffs, p.tariffId)
    case Some(t) => MinuteOffer(p.id, p.tariffId, p.minute, t.price, p.serves,
                                UsedOf(NnpMinute, m, Asking(t, time)) + p.others)
    case None => MinuteOffer(p.id, p.tariffId, p.minute, 0.0, false, 0)
  }

  function OffersOf(m: Manager, tariffs: seq<AccountTariff>, packages: seq<MinutePackage>,
                    time: int): seq<MinuteOffer> {
    seq(|packages|, i requires 0 <= i < |packages| => OfferOf(m, tariffs, packages[i], time))
  }

  /** What is left is read for every package that serves. */
  method ReadOffers(data: DataBillingContainer, tariffs: seq<AccountTariff>, packages: seq<MinutePackage>, time: int)
    returns (offers: seq<MinuteOffer>)
    requires data.Valid()
    ensures offers == OffersOf(data.statsNnpPackageMinute.Value(), tariffs, packages, time)
  {
    hide Inv, UsedOf, FirstWith;
    offers := [];
    for i := 0 to |packages|
      invariant offers == OffersOf(data.statsNnpPackageMinute.Value(), tariffs, packages[..i], time)
    {
      var p := packages[i];
      match LastWith(tariffs, p.tariffId) {
        case Some(t) =>
          var used := data.statsNnpPackageMinute.GetUsedSeconds(Asking(t, time));
          offers := offers + [MinuteOffer(p.id, p.tariffId, p.minute, t.price, p.serves, used + p.others)];
        case None =>
          offers := offers + [MinuteOffer(p.id, p.tariffId, p.minute, 0.0, false, 0)];
      }
    }
    assert packages[..|packages|] == packages;
  }

  /** The picked offer is that of a package whose tariff the account has. */
  lemma PickedServes(m: Manager, tariffs: seq<AccountTariff>, packages: seq<MinutePackage>, time: int,
                     best: Option<MinuteOffer>)
    returns (p: MinutePackage)
    requires best.Some? && PickedMinutes(OffersOf(m, tariffs, packages, time), best)
    ensures p in packages && best.value == OfferOf(m, tariffs, p, time) && LastWith(tariffs, p.tariffId).Some?
    ensures p.id == best.value.id && p.tariffId == best.value.tariffId
    ensures best.value.used == UsedOf(NnpMinute, m, Asking(LastWith(tariffs, p.tariffId).value, time)) + p.others
  {
    hide UsedOf, SecondsLeft, LastWith;
    var offers := OffersOf(m, tariffs, packages, time);
    var i :| FirstBest(offers, i) && offers[i] == best.value;
    p := packages[i];
  }

  lemma TariffIsThere(tariffs: seq<AccountTariff>, tariffId: int)
    ensures FirstWith(tariffs, tariffId).Some? <==> LastWith(tariffs, tariffId).Some?
  {
    hide FirstWith, LastWith;
  }

  /** The record that `getCurrent` returns shows the seconds that were read; a new one shows none. */
  lemma CurrentIsUsed(s: State, q: Query)
    requires Inv(s)
    ensures HaveParts(s)
    ensures var id, m := GetCurrent(NnpMinute, s.managers.At(NnpMinute), q).1,
            StepAsk(s, NnpMinute, q).managers.At(NnpMinute);
            id in m.live && m.live[id].usedSeconds == UsedOf(NnpMinute, s.managers.At(NnpMinute), q)
  {
    AskedRecord(s, NnpMinute, q);
    InvHasParts(s);
    hide Inv;
    AskedManager(s, NnpMinute, q, NnpMinute);
  }

  /** The leg takes what is left in the cheapest package that serves and names the record of the first
      tariff of its kind. If the account has that tariff once, that is the record that was read: the
      seconds taken were left in it. */
  method CalcByMinutes(data: DataBillingContainer, leg: BillingCall, tariffs: seq<AccountTariff>,
                       packages: seq<MinutePackage>,
                       time: int)
    returns (best: Option<MinuteOffer>, statsId: int)
    requires data.Valid()
    modifies leg, data.statsFreemin, data.statsPackage, data.statsTrunkSettings, data.statsNnpPackageMinute
    ensures data.Valid() && PickedMinutes(OffersOf(old(data.statsNnpPackageMinute.Value()), tariffs, packages, time),
                                          best)
    ensures leg.packageTime == if best.Some? && best.value.id != 0 then Min(leg.billedTime, SecondsLeft(best.value))
            else 0
    ensures 0 <= leg.packageTime <= leg.billedTime &&
            leg.cost + leg.packageCredit == Worth(leg.orig, leg.billedTime, leg.rate)
    ensures leg.packageTime == 0 ==> statsId == 0 && data.Value() == old(data.Value())
    ensures leg.packageTime > 0 ==>
              var first := FirstWith(tariffs, best.value.tariffId);
              first.Some? && HaveParts(old(data.Value())) &&
                data.Value() == StepAsk(old(data.Value()), NnpMinute, Asking(first.value, time)) &&
              statsId in data.statsNnpPackageMinute.live &&
              RecordFor(NnpMinute, data.statsNnpPackageMinute.live[statsId], Asking(first.value, time))
    ensures leg.packageTime > 0 && FirstWith(tariffs, best.value.tariffId) == LastWith(tariffs, best.value.tariffId) ==>
              exists p :: p in packages && p.id == best.value.id && p.tariffId == best.value.tariffId &&
                          leg.packageTime <= SecondsLeft(best.value) &&
                          best.value.used == data.statsNnpPackageMinute.live[statsId].usedSeconds + p.others
  {
    hide Inv, UsedOf, FirstWith, LastWith, PickedMinutes, SecondsLeft, RecordFor, GetCurrent, StepAsk, OffersOf;
    ghost var s := data.Value();
    var offers := ReadOffers(data, tariffs, packages, time);
    best := leg.CalcNnpMinutes(offers);
    statsId := 0;
    if leg.packageTime > 0 {
      ghost var p := PickedServes(s.managers.At(NnpMinute), tariffs, packages, time, best);
      var first := FirstWith(tariffs, best.value.tariffId);
      TariffIsThere(tariffs, best.value.tariffId);
      AskedRecord(s, NnpMinute, Asking(first.value, time));
      CurrentIsUsed(s, Asking(first.value, time));
      statsId := data.GetCurrent(NnpMinute, Asking(first.value, time));
    }
  }

  // ---- the record that is read and the record that is charged ---------------------------------

  lemma {:induction false} FirstIsFirst(tariffs: seq<AccountTariff>, tariffId: int) returns (i: nat)
    requires FirstWith(tariffs, tariffId).Some?
    ensures i < |tariffs| && tariffs[i] == FirstWith(tariffs, tariffId).value &&
            forall j | 0 <= j < i :: tariffs[j].tariffId != tariffId
  {
    if tariffs[0].tariffId == tariffId {
      i := 0;
    } else {
      i := FirstIsFirst(tariffs[1..], tariffId);
      assert forall j | 0 < j <= i :: tariffs[j] == tariffs[1..][j - 1];
      i := i + 1;
    }
  }

  lemma {:induction false} LastIsLast(tariffs: seq<AccountTariff>, tariffId: int) returns (i: nat)
    requires LastWith(tariffs, tariffId).Some?
    ensures i < |tariffs| && tariffs[i] == LastWith(tariffs, tariffId).value
    ensures forall j | i < j < |tariffs| :: tariffs[j].tariffId != tariffId
  {
    if tariffs[|tariffs| - 1].tariffId == tariffId {
      i := |tariffs| - 1;
    } else {
      i := LastIsLast(tariffs[..|tariffs| - 1], tariffId);
    }
  }

  /** The tariff that is charged is the one whose record was read exactly when the account has it once. */
  lemma ReadIsChargedIff(tariffs: seq<AccountTariff>, tariffId: int)
    requires FirstWith(tariffs, tariffId).Some? &&
             forall i, j | 0 <= i < j < |tariffs| :: tariffs[i].id != tariffs[j].id
    ensures FirstWith(tariffs, tariffId) == LastWith(tariffs, tariffId) <==>
            forall i, j | 0 <= i < j < |tariffs| :: tariffs[i].tariffId != tariffId || tariffs[j].tariffId != tariffId
  {
    hide FirstWith, LastWith;
    TariffIsThere(tariffs, tariffId);
    var first := FirstIsFirst(tariffs, tariffId);
    var last := LastIsLast(tariffs, tariffId);
  }

  /** Questions about other owners, and legs that name other owners' records. */
  predicate AboutOthers(m: Manager, op: Operation, owner: int) {
    match op
    case Ask(q) => q.owner != owner
    case Count(info) =>
      var id := Named(NnpMinute, info.call);
      id in m.live ==> m.live[id].owner != owner
  }

  ghost predicate AllAboutOthers(m: Manager, ops: seq<Operation>, owner: int)
    requires m.parts != []
    decreases |ops|
  {
    ops == [] || (AboutOthers(m, ops[0], owner) && AllAboutOthers(Apply(NnpMinute, m, ops[0]), ops[1..], owner))
  }

  ghost predicate SameForOwner(m: Manager, n: Manager, owner: int) {
    Ids(n, owner) == Ids(m, owner) &&
    forall id | id in Ids(m, owner) :: id in m.live && id in n.live && n.live[id] == m.live[id]
  }

  lemma {:induction false} SameLookup(live: map<int, Row>, live': map<int, Row>, ids: seq<int>, q: Query)
    requires forall id | id in ids :: id in live && id in live' && live'[id] == live[id]
    ensures Lookup(NnpMinute, live', ids, q) == Lookup(NnpMinute, live, ids, q)
  {
    if ids != [] {
      var first := ids[0];
      assert first in ids;
      SameLookup(live, live', ids[1..], q);
    }
  }

  lemma SameUsed(m: Manager, n: Manager, q: Query)
    requires SameForOwner(m, n, q.owner)
    ensures UsedOf(NnpMinute, n, q) == UsedOf(NnpMinute, m, q)
  {
    SameLookup(m.live, n.live, Ids(m, q.owner), q);
  }

  lemma OthersKeepOwner(m: Manager, op: Operation, owner: int)
    requires Listed(m) && IdsGivenOut(m) && m.parts != [] && AboutOthers(m, op, owner)
    ensures var n := Apply(NnpMinute, m, op); Listed(n) && IdsGivenOut(n) && SameForOwner(m, n, owner)
  {
    hide Lookup, Touch;
    var n := Apply(NnpMinute, m, op);
    match op
    case Ask(q) =>
      if n != m {
        OpenKeepsListed(m, q);
      }
    case Count(info) =>
      assert n.byOwner == m.byOwner;
      assert forall id | id in m.live :: id in n.live && n.live[id].owner == m.live[id].owner;
      assert forall id | id in n.live :: id in m.live;
  }

  /** With the tariff twice, the record that is read is the last tariff's and never charged: whatever is
      asked and counted of other records, the same seconds are offered again and again. */
  lemma {:induction false} TwiceIsNeverDeducted(m: Manager, ops: seq<Operation>, q: Query)
    requires Listed(m) && IdsGivenOut(m) && m.parts != [] && AllAboutOthers(m, ops, q.owner)
    ensures UsedOf(NnpMinute, ApplyAll(NnpMinute, m, ops), q) == UsedOf(NnpMinute, m, q)
    decreases |ops|
  {
    hide Listed, IdsGivenOut, UsedOf, Apply, AboutOthers, SameForOwner;
    if ops != [] {
      OthersKeepOwner(m, ops[0], q.owner);
      SameUsed(m, Apply(NnpMinute, m, ops[0]), q);
      TwiceIsNeverDeducted(Apply(NnpMinute, m, ops[0]), ops[1..], q);
    }
  }
}
