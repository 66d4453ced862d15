/** The prepaid part of the calculation of a call, asked of the container that other threads
    use at the same time: what is taken from an allowance is still there when the leg is added. */
module Calculation {
  import opened Models
  import opened Ledger
  import opened BillingState
  import opened BillingInvariant
  import opened BillingSafety
  import opened BillingTheorems
  import opened Allowances
  import opened BillingContainer
  import opened Tariff

  // ---- records in use ----------------------------------------------------------------

  /** Every record of the one state is in the other, as it was. */
  predicate RowsStay(s: State, t: State) {
    forall k: Kind, id | id in s.managers.At(k).live ::
      id in t.managers.At(k).live && t.managers.At(k).live[id] == s.managers.At(k).live[id]
  }

  /** Anything but the adding of a leg and a restart. */
  predicate LeavesRows(e: Event) {
    !e.AddOrig? && !e.AddTerm? && !e.Restart?
  }

  lemma AskLeavesRows(s: State, k: Kind, q: Query)
    requires Inv(s) && HaveParts(s)
    ensures RowsStay(s, StepAsk(s, k, q))
  {
    InvHasCore(s);
    hide Inv, KindOk, GetCurrent, StepAsk, View, Overlay, Flat;
    forall j: Kind, id | id in s.managers.At(j).live
      ensures id in StepAsk(s, k, q).managers.At(j).live &&
              StepAsk(s, k, q).managers.At(j).live[id] == s.managers.At(j).live[id]
    {
      AskKeepsKind(s, k, q, j);
    }
  }

  lemma PartitionsLeaveRows(s: State)
    requires HaveParts(s)
    ensures RowsStay(s, StepSaveBegin(s)) && RowsStay(s, StepRemove(s))
  {
    hide AllCalls;
  }

  lemma StepLeavesRows(s: State, e: Event)
    requires Inv(s) && HaveParts(s) && Enabled(s, e) && LeavesRows(e)
    ensures RowsStay(s, Step(s, e))
  {
    hide Inv, RowsStay, StepAsk, StepSaveBegin, StepRemove, Legs, Lists, Select, HaveParts;
    var t := Step(s, e);
    if e.Ask? {
      AskLeavesRows(s, e.kind, e.query);
    } else if e.SaveBegin? || e.RemovePartition? {
      PartitionsLeaveRows(s);
    } else {
      SameRows(s, t);
    }
  }

  lemma SameRows(s: State, t: State)
    requires t.managers == s.managers
    ensures RowsStay(s, t)
  {
  }

  /** What was taken stays affordable, whatever other threads ask, fetch and save meanwhile. */
  lemma {:induction false} RowsStayWhileCalculating(s: State, events: seq<Event>, info: CallInfo)
    requires Inv(s) && Runs(s, events) && forall e :: e in events ==> LeavesRows(e)
    ensures RowsStay(s, Final(s, events))
    ensures NamesKnown(s, info) ==>
              NamesKnown(Final(s, events), info) && (Affordable(Final(s, events), info) <==> Affordable(s, info))
    decreases |events|
  {
    hide Inv, Enabled, Step, NamesKnown, Affordable, RowsStay;
    if events == [] {
      StaysItself(s);
    } else {
      var t := Step(s, events[0]);
      StepLeavesRows(s, events[0]);
      StepKeepsInv(s, events[0]);
      RowsStayWhileCalculating(t, events[1..], info);
      StaysOn(s, t, Final(t, events[1..]));
    }
    if NamesKnown(s, info) {
      StillKnown(s, Final(s, events), info);
    }
  }

  lemma StaysItself(s: State)
    ensures RowsStay(s, s)
  {
  }

  lemma StaysOn(s: State, t: State, u: State)
    requires RowsStay(s, t) && RowsStay(t, u)
    ensures RowsStay(s, u)
  {
  }

  lemma StillKnown(s: State, t: State, info: CallInfo)
    requires RowsStay(s, t) && NamesKnown(s, info)
    ensures NamesKnown(t, info) && (Affordable(t, info) <==> Affordable(s, info))
  {
    MoreKnown(s, t, info);
    forall k: Kind
      ensures TakenIsThere(k, t.managers.At(k).live, info.call) <==> TakenIsThere(k, s.managers.At(k).live, info.call)
    {
    }
  }

  // ---- what a leg takes ------------------------------------------------------------------

  /** The record of free minutes, if asked for, is one of the manager's, and so is every offered record
      of a package, whose id is above one. */
  predicate InUse(s: State, free: Option<Row>, offers: seq<Offer>) {
    && (free.Some? ==> free.value.id in s.managers.At(Freemin).live &&
                       s.managers.At(Freemin).live[free.value.id] == free.value)
    && forall o :: o in offers ==> o.packageId > 1 && o.row.id in s.managers.At(Package).live &&
                                   s.managers.At(Package).live[o.row.id] == o.row
  }

  /** What the calculation says of the leg: it took from the free minutes, from one of the
      offers, or nothing. */
  predicate TakenFrom(c: Call, free: Option<Row>, tariffFreeSeconds: int, offers: seq<Offer>, chosen: Option<Offer>) {
    && c.packageTime >= 0
    && (c.packageTime == 0 ==> c.servicePackageStatsId == 0)
    && (c.packageTime > 0 && chosen.None? ==>
          free.Some? && c.servicePackageId == 1 && c.servicePackageStatsId == free.value.id &&
          c.packageTime <= Max(0, tariffFreeSeconds - free.value.usedSeconds))
    && (c.packageTime > 0 && chosen.Some? ==>
          chosen.value in offers && c.servicePackageId == chosen.value.packageId &&
          c.servicePackageStatsId == chosen.value.row.id && c.packageTime <= Available(chosen.value.row))
  }

  /** The leg names no record of the other two managers that they do not have. */
  predicate OthersKnown(s: State, c: Call) {
    (c.trunkSettingsStatsId == 0 || c.trunkSettingsStatsId in s.managers.At(TrunkSettings).live) &&
    (c.statsNnpPackageMinuteId == 0 || c.statsNnpPackageMinuteId in s.managers.At(NnpMinute).live)
  }

  /** Then the leg is one the pipeline counts, and it overdraws no allowance if the tariff has no more
      free seconds than the record of the month was opened with. */
  lemma TakenIsAffordable(s: State, info: CallInfo, free: Option<Row>, tariffFreeSeconds: int, offers: seq<Offer>,
                          chosen: Option<Offer>)
    requires InUse(s, free, offers) && TakenFrom(info.call, free, tariffFreeSeconds, offers, chosen)
    requires OthersKnown(s, info.call) && info.prepaid == chosen.Some?
    ensures NamesKnown(s, info)
    ensures (free.Some? ==> tariffFreeSeconds <= free.value.paid) ==> Affordable(s, info)
  {
    var c := info.call;
    forall k: Kind
      ensures Named(k, c) == 0 || Named(k, c) in s.managers.At(k).live
      ensures (free.Some? ==> tariffFreeSeconds <= free.value.paid) && (k == Freemin || k == Package) ==>
                TakenIsThere(k, s.managers.At(k).live, c)
    {
      match k
      case Freemin =>
      case Package =>
      case TrunkSettings =>
      case NnpMinute =>
    }
  }

  /** What a local call takes of the free seconds of its tariff. */
  function FreeSeconds(row: Row, tariffFreeSeconds: int, billed: nat): int {
    Min(billed, Max(0, tariffFreeSeconds - row.usedSeconds))
  }

  /** Whatever is billed, what a local call takes is there in its record exactly when the tariff has no
      more free seconds than the record was opened with, or they are used up. */
  lemma FreeSecondsAreThereIff(row: Row, tariffFreeSeconds: int, c: Call)
    ensures (forall billed: nat ::
               WithinAllowance(row, c.(packageTime := FreeSeconds(row, tariffFreeSeconds, billed)))) <==>
            tariffFreeSeconds <= row.paid || tariffFreeSeconds <= row.usedSeconds
  {
    var left := Max(0, tariffFreeSeconds - row.usedSeconds);
    if tariffFreeSeconds > row.paid && tariffFreeSeconds > row.usedSeconds {
      assert !WithinAllowance(row, c.(packageTime := FreeSeconds(row, tariffFreeSeconds, left)));
    }
  }

  // ---- asking for the records ------------------------------------------------------------

  /** A package of the service, with what `getCurrent` is asked about it. */
  datatype Candidate = Candidate(packageId: int, tariff: Option<PackageTariff>, query: Query)

  function UsableOf(packages: seq<Candidate>): seq<Candidate> {
    if packages == [] then []
    else
      var last := packages[|packages| - 1];
      UsableOf(packages[..|packages| - 1]) + if Usable(last.tariff) then [last] else []
  }

  lemma {:induction false} UsablePrefix(packages: seq<Candidate>, k: nat)
    requires k <= |packages|
    ensures UsableOf(packages[..k]) <= UsableOf(packages)
    decreases |packages| - k
  {
    hide Usable;
    if k == |packages| {
      assert packages[..k] == packages;
    } else {
      assert packages[..k + 1][..k] == packages[..k];
      UsablePrefix(packages, k + 1);
    }
  }

  /** The one state becomes the other by questions alone. */
  ghost predicate Asked(s: State, asks: seq<Event>, t: State) {
    Runs(s, asks) && Final(s, asks) == t && OnlyManagers(s, t) && RowsStay(s, t)
  }

  function Opened(id: int, q: Query): Row {
    Row(id, q.owner, q.from, q.to, q.paid, 0, 0.0, 0, 0)
  }

  /** The record that was asked for: one that matches, or one just opened. */
  predicate RecordFor(k: Kind, row: Row, q: Query) {
    row.owner == q.owner && (Matches(k, row, q) || row == Opened(row.id, q))
  }

  lemma InvHasParts(s: State)
    requires Inv(s)
    ensures HaveParts(s)
  {
    InvHasCore(s);
    hide Inv, Core;
    CoreHasParts(s);
  }

  lemma {:induction false} NothingAsked(s: State)
    ensures Asked(s, [], s)
  {
  }

  lemma {:induction false} AskedMore(s: State, asks: seq<Event>, t: State, k: Kind, q: Query)
    requires Asked(s, asks, t) && Inv(t)
    ensures HaveParts(t) && Asked(s, asks + [Ask(k, q)], StepAsk(t, k, q)) && RowsStay(t, StepAsk(t, k, q))
  {
    hide Inv, GetCurrent, RowsStay, KindOk;
    InvHasParts(t);
    var u := StepAsk(t, k, q);
    StepLeavesRows(t, Ask(k, q));
    StaysOn(s, t, u);
    NothingAsked(u);
    RunCons(t, Ask(k, q), []);
    RunAppend(s, asks, [Ask(k, q)]);
  }

  lemma AskedRecord(s: State, k: Kind, q: Query)
    requires Inv(s)
    ensures HaveParts(s)
    ensures var id, m := GetCurrent(k, s.managers.At(k), q).1, StepAsk(s, k, q).managers.At(k);
            && id in m.live && m.live[id].id == id && RecordFor(k, m.live[id], q)
            && m.live[id] == if id in s.managers.At(k).live then s.managers.At(k).live[id] else Opened(id, q)
  {
    InvHasCore(s);
    CoreHasParts(s);
    var m := s.managers.At(k);
    CurrentRecord(k, m, s.db.rows.At(k), View(s, m.parts), s.db.calls, View(s, s.calls.parts), q);
    hide GetCurrent, KindOk, Inv;
    AskedManager(s, k, q, k);
  }

  lemma CurrentRecord(k: Kind, m: Manager, base: map<int, Row>, rowParts: seq<map<int, Row>>,
                      stored: seq<Call>, callParts: seq<seq<Call>>, q: Query)
    requires m.parts != [] && KindOk(k, m, base, rowParts, stored, callParts)
    ensures var (n, id) := GetCurrent(k, m, q);
            && id in n.live && n.live[id].id == id && RecordFor(k, n.live[id], q)
            && n.live[id] == if id in m.live then m.live[id] else Opened(id, q)
  {
    FullSnapshot(k, base, rowParts, stored, callParts);
    hide Snapshots, Overlay, Flat, Tallies;
  }

  // ---- the calculation -------------------------------------------------------------------

  /** The offers hold the records of the usable packages in order, up to the first that covers
      the wanted seconds. */
  ghost predicate OfferedUpTo(offers: seq<Offer>, usable: seq<Candidate>, wanted: nat) {
    && |offers| <= |usable|
    && (forall i :: 0 <= i < |offers| ==>
          offers[i].packageId == usable[i].packageId && offers[i].tariff == usable[i].tariff && Eligible(offers[i]) &&
          RecordFor(Package, offers[i].row, usable[i].query))
    && (forall i :: 0 <= i < |offers| - 1 ==> Available(offers[i].row) < wanted)
  }

  ghost predicate OffersLive(s: State, offers: seq<Offer>) {
    forall o :: o in offers ==>
      o.row.id in s.managers.At(Package).live && s.managers.At(Package).live[o.row.id] == o.row
  }

  /** The questions of the loop over the packages, which ends with the first that covers the leg. */
  method AskPackages(data: DataBillingContainer, packages: seq<Candidate>, wanted: nat)
    returns (offers: seq<Offer>, ghost asks: seq<Event>)
    requires data.Valid()
    modifies data.statsFreemin, data.statsPackage, data.statsTrunkSettings, data.statsNnpPackageMinute
    ensures data.Valid() && Asked(old(data.Value()), asks, data.Value())
    ensures OffersLive(data.Value(), offers) && OfferedUpTo(offers, UsableOf(packages), wanted)
    ensures |offers| < |UsableOf(packages)| ==> offers != [] && Available(offers[|offers| - 1].row) >= wanted
  {
    hide Inv, Asked, RecordFor, Usable, UsableOf, Available, OffersLive, OfferedUpTo;
    ghost var s := data.Value();
    ghost var usable := UsableOf(packages);
    NothingAsked(s);
    NothingOffered(s, packages, wanted);
    offers, asks := [], [];
    var k, covered := 0, false;
    while k < |packages| && !covered
      invariant 0 <= k <= |packages| && data.Valid() && Asked(s, asks, data.Value())
      invariant |offers| == |UsableOf(packages[..k])| && OfferedUpTo(offers, UsableOf(packages[..k]), wanted)
      invariant OffersLive(data.Value(), offers)
      invariant covered <==> offers != [] && Available(offers[|offers| - 1].row) >= wanted
    {
      UsableNext(packages, k);
      if Usable(packages[k].tariff) {
        ghost var t := data.Value();
        var row := AskPackage(data, packages[k], s, asks);
        asks := asks + [Ask(Package, packages[k].query)];
        OfferedMore(t, data.Value(), offers, UsableOf(packages[..k]), packages[k], row, wanted);
        offers := offers + [Offer(packages[k].packageId, packages[k].tariff, row)];
        covered := Available(row) >= wanted;
      }
      k := k + 1;
    }
    assert packages[..|packages|] == packages;
    UsablePrefix(packages, k);
    OfferedOfAll(offers, UsableOf(packages[..k]), usable, wanted);
  }

  /** One question: the record is in use from then on, and so are those asked for before. */
  method AskPackage(data: DataBillingContainer, p: Candidate, ghost s: State, ghost asks: seq<Event>) returns (row: Row)
    requires data.Valid() && Asked(s, asks, data.Value())
    modifies data.statsFreemin, data.statsPackage, data.statsTrunkSettings, data.statsNnpPackageMinute
    ensures data.Valid() && Asked(s, asks + [Ask(Package, p.query)], data.Value())
    ensures RowsStay(old(data.Value()), data.Value()) && RecordFor(Package, row, p.query)
    ensures row.id in data.Value().managers.At(Package).live && data.Value().managers.At(Package).live[row.id] == row
  {
    hide Inv, Asked, RecordFor, RowsStay, GetCurrent;
    AskedRecord(data.Value(), Package, p.query);
    AskedMore(s, asks, data.Value(), Package, p.query);
    var id := data.GetCurrent(Package, p.query);
    row := data.statsPackage.live[id];
  }

  lemma {:induction false} UsableNext(packages: seq<Candidate>, k: nat)
    requires k < |packages|
    ensures var before := UsableOf(packages[..k]);
            UsableOf(packages[..k + 1]) == if Usable(packages[k].tariff) then before + [packages[k]] else before
  {
    hide Usable;
    assert packages[..k + 1][..k] == packages[..k];
  }

  lemma NothingOffered(s: State, packages: seq<Candidate>, wanted: nat)
    ensures UsableOf(packages[..0]) == [] && OfferedUpTo([], [], wanted) && OffersLive(s, [])
  {
  }

  lemma OfferedMore(s: State, t: State, offers: seq<Offer>, usable: seq<Candidate>, p: Candidate, row: Row, wanted: nat)
    requires |offers| == |usable| && OfferedUpTo(offers, usable, wanted) && OffersLive(s, offers) && RowsStay(s, t)
    requires offers != [] ==> Available(offers[|offers| - 1].row) < wanted
    requires Usable(p.tariff) && RecordFor(Package, row, p.query)
    requires row.id in t.managers.At(Package).live && t.managers.At(Package).live[row.id] == row
    ensures var all := offers + [Offer(p.packageId, p.tariff, row)];
            OfferedUpTo(all, usable + [p], wanted) && OffersLive(t, all)
  {
    hide RecordFor, Available;
  }

  lemma OfferedOfAll(offers: seq<Offer>, usable: seq<Candidate>, all: seq<Candidate>, wanted: nat)
    requires OfferedUpTo(offers, usable, wanted) && usable <= all
    ensures OfferedUpTo(offers, all, wanted)
  {
    hide RecordFor, Available;
  }

  /** The leg as the calculation leaves it, the fields it does not touch given. */
  function Filled(base: CallInfo, leg: BillingCall): CallInfo
    reads leg
  {
    base.(call := base.call.(
            billedTime := leg.billedTime, rate := leg.rate, cost := leg.cost, packageCredit := leg.packageCredit,
            packageTime := leg.packageTime, servicePackageId := leg.servicePackageId,
              servicePackageStatsId := leg.statsId),
          prepaid := leg.prepaid.Some?)
  }

  /** The first of the offers that gives as many of the leg's seconds as any was chosen, if there is
      anything left in them. */
  ghost predicate ChosenFrom(offers: seq<Offer>, chosen: Option<Offer>, packageId: int, billedTime: nat,
                             packageTime: int) {
    if chosen.None? then MostAvailable(offers) == 0 || packageId > 0
    else packageTime == Min(billedTime, MostAvailable(offers)) &&
         exists i :: IsBest(offers, i, billedTime) && chosen == Some(offers[i])
  }

  /** Nobody raised the free minutes of the tariff since the record of the month was opened. */
  predicate NotRaised(s: State, tariffFreeSeconds: int, q: Query) {
    tariffFreeSeconds <= q.paid &&
    forall id | id in s.managers.At(Freemin).live ::
      RecordFor(Freemin, s.managers.At(Freemin).live[id], q) ==>
        tariffFreeSeconds <= s.managers.At(Freemin).live[id].paid
  }

  predicate FreeLive(s: State, free: Option<Row>) {
    free.Some? ==>
      free.value.id in s.managers.At(Freemin).live && s.managers.At(Freemin).live[free.value.id] == free.value
  }

  lemma {:induction false} AskedThen(s: State, a: seq<Event>, t: State, b: seq<Event>, u: State)
    requires Asked(s, a, t) && Asked(t, b, u)
    ensures Asked(s, a + b, u)
  {
    hide RowsStay;
    StaysOn(s, t, u);
    RunAppend(s, a, b);
  }

  lemma AskedKeepsRows(s: State, asks: seq<Event>, t: State, free: Option<Row>, c: Call)
    requires Asked(s, asks, t)
    ensures FreeLive(s, free) ==> FreeLive(t, free)
    ensures OthersKnown(s, c) ==> OthersKnown(t, c)
  {
    hide Runs, Final;
  }

  /** Free minutes: the record is asked for when the leg may use any. */
  method TakeFreemin(data: DataBillingContainer, leg: BillingCall, local: bool, tariffFreeSeconds: int,
                     freeQuery: Query)
    returns (ghost free: Option<Row>, ghost asks: seq<Event>)
    requires data.Valid() && leg.packageTime == 0 && leg.statsId == 0 && leg.prepaid.None?
    modifies leg, data.statsFreemin, data.statsPackage, data.statsTrunkSettings, data.statsNnpPackageMinute
    ensures data.Valid() && Asked(old(data.Value()), asks, data.Value())
    ensures free.Some? <==> leg.billedTime > 0 && local && tariffFreeSeconds > 0
    ensures free.Some? ==> RecordFor(Freemin, free.value, freeQuery)
    ensures FreeLive(data.Value(), free) && leg.prepaid.None?
    ensures free.Some? && NotRaised(old(data.Value()), tariffFreeSeconds, freeQuery) ==>
              tariffFreeSeconds <= free.value.paid
    ensures leg.packageTime == if free.Some? then FreeSeconds(free.value, tariffFreeSeconds, leg.billedTime) else 0
    ensures leg.packageTime == 0 ==> leg.statsId == 0 && leg.servicePackageId == old(leg.servicePackageId)
    ensures leg.packageTime > 0 ==> leg.statsId == free.value.id && leg.servicePackageId == 1
  {
    hide Inv, Asked, RecordFor, RowsStay, GetCurrent, StepAsk;
    ghost var s := data.Value();
    NothingAsked(s);
    free, asks := None, [];
    if leg.billedTime > 0 && local && tariffFreeSeconds > 0 {
      AskedRecord(s, Freemin, freeQuery);
      AskedMore(s, asks, s, Freemin, freeQuery);
      var id := data.GetCurrent(Freemin, freeQuery);
      var row := data.statsFreemin.live[id];
      free, asks := Some(row), asks + [Ask(Freemin, freeQuery)];
      leg.SetupFreemin(local, tariffFreeSeconds, row);
    }
  }

  /** Packages: asked for when the leg is billed and has none yet. */
  method TakePackage(data: DataBillingContainer, leg: BillingCall, packages: seq<Candidate>)
    returns (ghost offers: seq<Offer>, ghost asks: seq<Event>)
    requires data.Valid() && leg.prepaid.None? && 0 <= leg.packageTime <= leg.billedTime
    modifies leg, data.statsFreemin, data.statsPackage, data.statsTrunkSettings, data.statsNnpPackageMinute
    ensures data.Valid() && Asked(old(data.Value()), asks, data.Value())
    ensures OffersLive(data.Value(), offers) && OfferedUpTo(offers, UsableOf(packages), leg.billedTime)
    ensures ChosenFrom(offers, leg.prepaid, leg.servicePackageId, leg.billedTime, leg.packageTime)
    ensures leg.prepaid.Some? && |offers| < |UsableOf(packages)| ==>
              offers != [] && Available(offers[|offers| - 1].row) >= leg.billedTime
    ensures leg.billedTime > 0 && leg.servicePackageId <= 0 && leg.prepaid.None? ==> |offers| == |UsableOf(packages)|
    ensures leg.prepaid.None? ==>
              leg.packageTime == old(leg.packageTime) && leg.statsId == old(leg.statsId) &&
              leg.servicePackageId == old(leg.servicePackageId)
    ensures leg.prepaid.Some? ==>
              old(leg.servicePackageId) <= 0 && 0 < leg.packageTime <= leg.billedTime &&
              leg.prepaid.value in offers && leg.servicePackageId == leg.prepaid.value.packageId &&
              leg.statsId == leg.prepaid.value.row.id && leg.packageTime <= Available(leg.prepaid.value.row)
  {
    hide Inv, Asked, Available, MostAvailable, UsableOf, OfferedUpTo, OffersLive, Eligible;
    NothingAsked(data.Value());
    NothingOffered(data.Value(), packages, leg.billedTime);
    OfferedOfAll([], [], UsableOf(packages), leg.billedTime);
    offers, asks := [], [];
    MostOffered([], UsableOf(packages), leg.billedTime);
    if leg.billedTime > 0 && leg.servicePackageId <= 0 {
      var found;
      found, asks := AskPackages(data, packages, leg.billedTime);
      offers := found;
      MostOffered(offers, UsableOf(packages), leg.billedTime);
      leg.SetupPackagePrepaid(found);
      assert leg.prepaid.Some? ==> exists i :: IsBest(offers, i, leg.billedTime) && leg.prepaid == Some(offers[i]);
    }
  }

  /** An offer that has something left leaves the fullest with something. */
  lemma {:induction false} MostOffered(offers: seq<Offer>, usable: seq<Candidate>, wanted: nat)
    requires OfferedUpTo(offers, usable, wanted)
    ensures offers != [] ==> Available(offers[|offers| - 1].row) <= MostAvailable(offers)
    ensures offers == [] ==> MostAvailable(offers) == 0
    ensures |offers| <= |usable|
  {
    MostAvailableIsMost(offers);
  }

  /** The prepaid part of the calculation of an originating leg: free minutes, else packages, then
      the cost. What is taken is covered by the leg and by the record `getCurrent` returned, the
      price is split exactly, and the pipeline may count the leg. */
  method CalcPrepaid(data: DataBillingContainer, leg: BillingCall, local: bool, tariffFreeSeconds: int,
                     freeQuery: Query,
                     packages: seq<Candidate>, base: CallInfo)
    returns (ghost free: Option<Row>, ghost offers: seq<Offer>, ghost asks: seq<Event>)
    requires data.Valid() && leg.packageTime == 0 && leg.statsId == 0 && leg.prepaid.None?
    modifies leg, data.statsFreemin, data.statsPackage, data.statsTrunkSettings, data.statsNnpPackageMinute
    ensures data.Valid() && Asked(old(data.Value()), asks, data.Value())
    ensures free.Some? <==> leg.billedTime > 0 && local && tariffFreeSeconds > 0
    ensures free.Some? ==> RecordFor(Freemin, free.value, freeQuery)
    ensures OfferedUpTo(offers, UsableOf(packages), leg.billedTime)
    ensures ChosenFrom(offers, leg.prepaid, leg.servicePackageId, leg.billedTime, leg.packageTime)
    ensures leg.prepaid.Some? && |offers| < |UsableOf(packages)| ==>
              offers != [] && Available(offers[|offers| - 1].row) >= leg.billedTime
    ensures leg.billedTime > 0 && leg.servicePackageId <= 0 && leg.prepaid.None? ==> |offers| == |UsableOf(packages)|
    ensures 0 <= leg.packageTime <= leg.billedTime &&
            leg.cost + leg.packageCredit == Worth(leg.orig, leg.billedTime, leg.rate)
    ensures TakenFrom(Filled(base, leg).call, free, tariffFreeSeconds, offers, leg.prepaid)
    ensures FreeLive(data.Value(), free) && OffersLive(data.Value(), offers)
    ensures free.Some? && NotRaised(old(data.Value()), tariffFreeSeconds, freeQuery) ==>
              tariffFreeSeconds <= free.value.paid
    ensures OthersKnown(old(data.Value()), base.call) ==> OthersKnown(data.Value(), base.call)
  {
    hide Inv, Asked, RecordFor, RowsStay, Available, MostAvailable, UsableOf, OfferedUpTo, OffersLive, FreeLive,
         ChosenFrom, OthersKnown,
         NotRaised;
    ghost var s := data.Value();
    free, asks := TakeFreemin(data, leg, local, tariffFreeSeconds, freeQuery);
    ghost var t := data.Value();
    ghost var more;
    offers, more := TakePackage(data, leg, packages);
    ghost var u := data.Value();
    AskedKeepsRows(s, asks, t, free, base.call);
    AskedKeepsRows(t, more, u, free, base.call);
    AskedThen(s, asks, t, more, u);
    asks := asks + more;
    leg.SetupCost();
  }

  // ---- a whole CDR --------------------------------------------------------------------------

  /** The two legs of the first CDR, numbered after the last leg, of which the second takes nothing. */
  predicate NumberedPair(s: State, orig: Call, term: Call) {
    var last := s.calls.realtimeLastId;
    && s.cdrs.queue != [] && orig.cdrId == term.cdrId == s.cdrs.queue[0].id && orig.orig && !term.orig
    && orig.id == last + 1 && orig.peerId == last + 2 && term.id == last + 2 && term.peerId == last + 1
    && Named(Freemin, term) == 0 && Named(Package, term) == 0
  }

  /** No package that may be used has the id one, which stands for free minutes. */
  predicate NoPackageOne(packages: seq<Candidate>) {
    forall p :: p in packages && Usable(p.tariff) ==> p.packageId > 1
  }

  lemma {:induction false} OfferedAboveOne(offers: seq<Offer>, packages: seq<Candidate>, wanted: nat)
    requires OfferedUpTo(offers, UsableOf(packages), wanted) && NoPackageOne(packages)
    ensures forall o :: o in offers ==> o.packageId > 1
  {
    hide RecordFor, Available, Usable;
    UsableAreOf(packages);
    forall o | o in offers
      ensures o.packageId > 1
    {
      var i :| 0 <= i < |offers| && offers[i] == o;
      assert UsableOf(packages)[i] in packages;
    }
  }

  lemma {:induction false} UsableAreOf(packages: seq<Candidate>)
    ensures forall i :: 0 <= i < |UsableOf(packages)| ==>
              UsableOf(packages)[i] in packages && Usable(UsableOf(packages)[i].tariff)
  {
    hide Usable;
    if packages != [] {
      UsableAreOf(packages[..|packages| - 1]);
    }
  }

  /** The pair is one the pipeline takes over. */
  lemma PairIsEnabled(s: State, asks: seq<Event>, t: State, orig: CallInfo, term: CallInfo)
    requires Asked(s, asks, t) && HaveParts(t) && s.calculator == Ready && |Flat(s.calls.parts)| < CALLS_MAX_QUEUE_SIZE
    requires NumberedPair(s, orig.call, term.call) && !s.cdrs.queue[0].technical
    requires NamesKnown(t, orig) && NamesKnown(s, term) && orig.call.packageTime >= 0
    ensures Enabled(t, Event.Calculate(orig, term))
  {
    hide Runs, Final, Flat;
    StillKnown(s, t, term);
  }

  /** The calculation of the first CDR hands over two legs that the pipeline counts, and what the first
      takes is there unless the tariff was raised within the month. */
  method CalcCdr(data: DataBillingContainer, leg: BillingCall, local: bool, tariffFreeSeconds: int, freeQuery: Query,
                 packages: seq<Candidate>, base: CallInfo, term: CallInfo)
    returns (ghost asks: seq<Event>, ghost asked: State)
    requires data.Valid() && data.calculator == Ready && |Flat(data.calls.parts)| < CALLS_MAX_QUEUE_SIZE
    requires NumberedPair(data.Value(), base.call, term.call) && !data.cdrs.queue[0].technical
    requires leg.packageTime == 0 && leg.statsId == 0 && leg.prepaid.None?
    requires NoPackageOne(packages) && OthersKnown(data.Value(), base.call) && NamesKnown(data.Value(), term)
    modifies leg, data`calculator, data.statsFreemin, data.statsPackage, data.statsTrunkSettings,
             data.statsNnpPackageMinute
    ensures data.Valid() && Asked(old(data.Value()), asks, asked)
    ensures HaveParts(asked) && Enabled(asked, Event.Calculate(Filled(base, leg), term))
    ensures data.Value() == Step(asked, Event.Calculate(Filled(base, leg), term))
    ensures NotRaised(old(data.Value()), tariffFreeSeconds, freeQuery) ==> Affordable(asked, Filled(base, leg))
  {
    hide Inv, Asked, Available, UsableOf, OfferedUpTo, OffersLive, FreeLive, ChosenFrom, OthersKnown, NotRaised,
         NoPackageOne,
         NumberedPair, TakenFrom, NamesKnown, Affordable, Enabled, Step, Flat;
    ghost var s := data.Value();
    ghost var free, offers;
    free, offers, asks := CalcPrepaid(data, leg, local, tariffFreeSeconds, freeQuery, packages, base);
    asked := data.Value();
    FillingKeeps(s, base, leg, term);
    FillingKeeps(asked, base, leg, term);
    OfferedAboveOne(offers, packages, leg.billedTime);
    OffersInUse(asked, free, offers);
    InvHasParts(asked);
    TakenIsAffordable(asked, Filled(base, leg), free, tariffFreeSeconds, offers, leg.prepaid);
    PairIsEnabled(s, asks, asked, Filled(base, leg), term);
    data.Calculate(Filled(base, leg), term);
  }

  /** The numbers of the leg and the records of the other managers stay. */
  lemma FillingKeeps(s: State, base: CallInfo, leg: BillingCall, term: CallInfo)
    ensures OthersKnown(s, base.call) ==> OthersKnown(s, Filled(base, leg).call)
    ensures NumberedPair(s, base.call, term.call) ==> NumberedPair(s, Filled(base, leg).call, term.call)
  {
  }

  lemma OffersInUse(s: State, free: Option<Row>, offers: seq<Offer>)
    requires FreeLive(s, free) && OffersLive(s, offers) && forall o :: o in offers ==> o.packageId > 1
    ensures InUse(s, free, offers)
  {
  }
}
