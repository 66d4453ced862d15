/** The windows that counter records are opened with, and why `getCurrent` finds the one
    record of its owner whose window holds the call. */
module StatsWindows {
  import opened Models
  import opened Calendar
  import opened Ledger
  import opened BillingState
  import opened BillingInvariant
  import Tariff

  /** A package service: when it is active and whether its seconds are given anew each month. */
  datatype PackageService = PackageService(activation: int, expire: int, periodical: bool)

  predicate ActiveAt(p: PackageService, t: int) {
    p.activation <= t <= p.expire
  }

  /** From and to when a record opened for a call at `t` counts. */
  function PackageWindow(p: PackageService, t: int, zone: int): (int, int) {
    if p.periodical then (Max(GetTmonth(t, zone), p.activation), Min(GetTmonthEnd(t, zone), p.expire))
    else (p.activation, p.expire)
  }

  /** Counters of trunk settings count by the whole month. */
  function TrunkWindow(t: int, zone: int): (int, int) {
    (GetTmonth(t, zone), GetTmonthEnd(t, zone))
  }

  /** The seconds a new package record starts with. */
  function PackageAllowance(p: PackageService, t: int, zone: int, prepaid: int): int {
    var month, window := TrunkWindow(t, zone), PackageWindow(p, t, zone);
    MonthHoldsTime(t, zone);
    if p.periodical then Tariff.PaidSeconds(prepaid, month.1 + 1 - month.0, window.1 + 1 - window.0)
    else prepaid
  }

  /** The record opened for a call to an active package counts at the time of the call, and its
      allowance is at most the tariff's; all of it when the package is active the whole month. */
  lemma OpenedForCall(p: PackageService, t: int, zone: int, prepaid: int)
    requires ActiveAt(p, t) && prepaid >= 0
    ensures var w := PackageWindow(p, t, zone); w.0 <= t <= w.1
    ensures 0 <= PackageAllowance(p, t, zone, prepaid) <= prepaid
    ensures p.activation <= GetTmonth(t, zone) && GetTmonthEnd(t, zone) <= p.expire ==>
              PackageAllowance(p, t, zone, prepaid) == prepaid
  {
    hide GetTmonth, GetTmonthEnd, Tariff.PaidSeconds;
    MonthHoldsTime(t, zone);
    if p.periodical {
      var month, window := TrunkWindow(t, zone), PackageWindow(p, t, zone);
      Tariff.PaidWithinPrepaid(prepaid, month.1 + 1 - month.0, window.1 + 1 - window.0);
    }
  }

  // ---- one window for every moment ---------------------------------------------------

  /** For an owner, the window of every moment it may be asked about: moments outside each
      other's window have windows that do not meet. */
  ghost predicate Tiles(window: int -> (int, int), when: int -> bool) {
    (forall t :: when(t) ==> window(t).0 <= t <= window(t).1) &&
    forall t, u :: when(t) && when(u) ==>
      window(t) == window(u) || window(t).1 < window(u).0 || window(u).1 < window(t).0
  }

  lemma TrunkWindowsTile(zone: int)
    ensures Tiles(t => TrunkWindow(t, zone), t => true)
  {
    hide GetTmonth, GetTmonthEnd;
    forall t
      ensures GetTmonth(t, zone) <= t <= GetTmonthEnd(t, zone)
    {
      MonthHoldsTime(t, zone);
    }
    forall t, u
      ensures TrunkWindow(t, zone) == TrunkWindow(u, zone) ||
              GetTmonthEnd(t, zone) < GetTmonth(u, zone) || GetTmonthEnd(u, zone) < GetTmonth(t, zone)
    {
      MonthsApart(t, u, zone);
    }
  }

  lemma PackageWindowsTile(p: PackageService, zone: int)
    ensures Tiles(t => PackageWindow(p, t, zone), t => ActiveAt(p, t))
  {
    hide GetTmonth, GetTmonthEnd;
    forall t | ActiveAt(p, t)
      ensures PackageWindow(p, t, zone).0 <= t <= PackageWindow(p, t, zone).1
    {
      MonthHoldsTime(t, zone);
    }
    forall t, u | ActiveAt(p, t) && ActiveAt(p, u)
      ensures var w, v := PackageWindow(p, t, zone), PackageWindow(p, u, zone); w == v || w.1 < v.0 || v.1 < w.0
    {
      MonthsApart(t, u, zone);
    }
  }

  // ---- one record for every window ------------------------------------------------------------

  predicate SameRecordWindow(a: Row, b: Row) {
    a.owner == b.owner && a.from == b.from && a.to == b.to
  }

  /** Every record of the owner was opened for some moment, and no window twice. */
  ghost predicate OnePerWindow(m: Manager, owner: int, window: int -> (int, int), when: int -> bool) {
    Listed(m) &&
    (forall id :: id in m.live && m.live[id].owner == owner ==>
       exists t :: when(t) && window(t) == (m.live[id].from, m.live[id].to)) &&
    forall i, j :: i in m.live && j in m.live && SameRecordWindow(m.live[i], m.live[j]) && m.live[i].owner == owner ==>
      i == j
  }

  /** The one record of the owner whose window holds the moment is what the lookup finds. */
  lemma {:induction false} LookupIsUnique(k: Kind, m: Manager, q: Query, window: int -> (int, int), when: int -> bool)
    requires k != Freemin && Tiles(window, when) && OnePerWindow(m, q.owner, window, when) && when(q.time)
    ensures var r := Lookup(k, m.live, Ids(m, q.owner), q);
            forall id :: id in m.live && m.live[id].owner == q.owner && m.live[id].from <= q.time <= m.live[id].to <==>
              r == Some(id)
  {
    var r := Lookup(k, m.live, Ids(m, q.owner), q);
    forall id | id in m.live && m.live[id].owner == q.owner && m.live[id].from <= q.time <= m.live[id].to
      ensures r == Some(id)
    {
      assert id in Ids(m, q.owner) && Matches(k, m.live[id], q);
      SameWindow(m, q.owner, id, r.value, q.time, window, when);
    }
  }

  lemma SameWindow(m: Manager, owner: int, i: int, j: int, t: int, window: int -> (int, int), when: int -> bool)
    requires Tiles(window, when) && OnePerWindow(m, owner, window, when) && when(t)
    requires i in m.live && m.live[i].owner == owner && m.live[i].from <= t <= m.live[i].to
    requires j in m.live && m.live[j].owner == owner && m.live[j].from <= t <= m.live[j].to
    ensures i == j
  {
    var a :| when(a) && window(a) == (m.live[i].from, m.live[i].to);
    var b :| when(b) && window(b) == (m.live[j].from, m.live[j].to);
    assert window(a) == window(b);
  }

  /** Asked with the moment's own window, `getCurrent` returns the one record of the owner that
      holds the moment, opening it if need be, and keeps one record for every window. */
  lemma GetCurrentIsUnique(k: Kind, m: Manager, q: Query, window: int -> (int, int), when: int -> bool)
    requires k != Freemin && Tiles(window, when) && OnePerWindow(m, q.owner, window, when) && when(q.time)
    requires (q.from, q.to) == window(q.time) && m.parts != [] && m.lastId + 1 !in m.live
    ensures var (n, id) := GetCurrent(k, m, q);
            OnePerWindow(n, q.owner, window, when) && id in n.live &&
            forall i :: i in n.live && n.live[i].owner == q.owner && n.live[i].from <= q.time <= n.live[i].to <==>
              i == id
  {
    LookupIsUnique(k, m, q, window, when);
    var (n, id) := GetCurrent(k, m, q);
    if Lookup(k, m.live, Ids(m, q.owner), q).None? {
      assert n.live == m.live[id := n.live[id]];
      assert n.byOwner[q.owner] == [id] + Ids(m, q.owner);
      forall i | i in m.live && m.live[i].owner == q.owner
        ensures !(m.live[i].from <= q.time <= m.live[i].to) && n.live[i] == m.live[i]
      {
      }
      OpenKeepsOnePerWindow(m, q, window, when);
    }
  }

  lemma OpenKeepsOnePerWindow(m: Manager, q: Query, window: int -> (int, int), when: int -> bool)
    requires Tiles(window, when) && OnePerWindow(m, q.owner, window, when) && when(q.time)
    requires (q.from, q.to) == window(q.time) && m.parts != [] && m.lastId + 1 !in m.live
    requires forall i :: i in m.live && m.live[i].owner == q.owner ==> !(m.live[i].from <= q.time <= m.live[i].to)
    ensures OnePerWindow(Open(m, q), q.owner, window, when)
  {
    var n, id := Open(m, q), m.lastId + 1;
    assert n.live == m.live[id := n.live[id]];
    assert Listed(n) by { OpenKeepsListed(m, q); }
    forall i | i in n.live && n.live[i].owner == q.owner
      ensures exists t :: when(t) && window(t) == (n.live[i].from, n.live[i].to)
    {
      if i == id { assert when(q.time) && window(q.time) == (n.live[i].from, n.live[i].to); }
    }
  }

  /** Charging a leg moves no window. */
  lemma ChargingKeepsOnePerWindow(k: Kind, m: Manager, info: CallInfo, owner: int, window: int -> (int, int),
                                  when: int -> bool)
    requires OnePerWindow(m, owner, window, when) && m.parts != []
    ensures OnePerWindow(AddToManager(k, m, info), owner, window, when)
  {
    hide Charge, Named;
    var n := AddToManager(k, m, info);
    forall id | id in n.live
      ensures id in m.live && n.live[id].owner == m.live[id].owner && n.live[id].from == m.live[id].from &&
              n.live[id].to == m.live[id].to
    {
      var c := Named(k, info.call);
      if c in m.live { ChargeKeepsWindow(k, m.live[c], info.call); }
    }
    assert n.live.Keys == m.live.Keys;
  }

  lemma ChargeKeepsWindow(k: Kind, row: Row, c: Call)
    ensures var r := Charge(k, row, c); r.owner == row.owner && r.from == row.from && r.to == row.to
  {
  }

  // ---- over any run of the manager -----------------------------------------------------

  /** A question to the manager, or a leg counted by it. */
  datatype Operation = Ask(query: Query) | Count(info: CallInfo)

  function Apply(k: Kind, m: Manager, op: Operation): (n: Manager)
    requires m.parts != []
    ensures n.parts != []
  {
    match op
    case Ask(q) => GetCurrent(k, m, q).0
    case Count(info) => AddToManager(k, m, info)
  }

  function ApplyAll(k: Kind, m: Manager, ops: seq<Operation>): (n: Manager)
    requires m.parts != []
    ensures n.parts != []
    decreases |ops|
  {
    if ops == [] then m else ApplyAll(k, Apply(k, m, ops[0]), ops[1..])
  }

  /** Questions about the owner carry the window of their moment. */
  ghost predicate AskedInTime(op: Operation, owner: int, window: int -> (int, int), when: int -> bool) {
    op.Ask? && op.query.owner == owner ==> when(op.query.time) && (op.query.from, op.query.to) == window(op.query.time)
  }

  ghost predicate IdsGivenOut(m: Manager) {
    forall id :: id in m.live ==> id <= m.lastId
  }

  lemma OtherOwnerKeepsOnePerWindow(k: Kind, m: Manager, q: Query, owner: int, window: int -> (int, int),
                                    when: int -> bool)
    requires q.owner != owner && OnePerWindow(m, owner, window, when) && m.parts != [] && m.lastId + 1 !in m.live
    ensures OnePerWindow(GetCurrent(k, m, q).0, owner, window, when)
  {
    var n := Open(m, q);
    var id := m.lastId + 1;
    assert n.live == m.live[id := n.live[id]];
    assert Listed(n) by { OpenKeepsListed(m, q); }
  }

  lemma ApplyKeepsOnePerWindow(k: Kind, m: Manager, op: Operation, owner: int, window: int -> (int, int),
                               when: int -> bool)
    requires k != Freemin && Tiles(window, when) && OnePerWindow(m, owner, window, when) && m.parts != []
    requires IdsGivenOut(m) && AskedInTime(op, owner, window, when)
    ensures OnePerWindow(Apply(k, m, op), owner, window, when) && IdsGivenOut(Apply(k, m, op))
  {
    match op
    case Ask(q) =>
      hide OnePerWindow, Tiles, Touch;
      if q.owner == owner {
        GetCurrentIsUnique(k, m, q, window, when);
      } else {
        OtherOwnerKeepsOnePerWindow(k, m, q, owner, window, when);
      }
    case Count(info) =>
      hide OnePerWindow, Tiles, Touch, Charge, Named;
      ChargingKeepsOnePerWindow(k, m, info, owner, window, when);
  }

  /** Whatever is asked and counted, in any order and for any owners: every moment of the owner is
      held by at most one of its records, and asking about it returns that one. */
  lemma {:induction false} OneRecordHoldsEveryMoment(k: Kind, m: Manager, ops: seq<Operation>, owner: int,
                                                     window: int -> (int, int), when: int -> bool, q: Query)
    requires k != Freemin && Tiles(window, when) && OnePerWindow(m, owner, window, when) && m.parts != [] &&
             IdsGivenOut(m)
    requires forall i :: 0 <= i < |ops| ==> AskedInTime(ops[i], owner, window, when)
    requires AskedInTime(Operation.Ask(q), owner, window, when) && q.owner == owner
    ensures var last := ApplyAll(k, m, ops);
            var (n, id) := GetCurrent(k, last, q);
            id in n.live &&
            forall i :: i in n.live && n.live[i].owner == owner && n.live[i].from <= q.time <= n.live[i].to <==> i == id
    decreases |ops|
  {
    hide OnePerWindow, Tiles, GetCurrent, Apply;
    if ops == [] {
      GetCurrentIsUnique(k, m, q, window, when);
    } else {
      ApplyKeepsOnePerWindow(k, m, ops[0], owner, window, when);
      OneRecordHoldsEveryMoment(k, Apply(k, m, ops[0]), ops[1..], owner, window, when, q);
    }
  }

  // ---- what a record amounts to over a run -------------------------------------------------

  predicate Charges(k: Kind, op: Operation, id: int) {
    op.Count? && id != 0 && Named(k, op.info.call) == id && (k == Package ==> op.info.prepaid)
  }

  /** A known record is charged by the legs that name it and left alone by everything else. */
  lemma ApplyOnRecord(k: Kind, m: Manager, op: Operation, id: int)
    requires id in m.live && IdsGivenOut(m) && m.parts != []
    ensures IdsGivenOut(Apply(k, m, op)) && id in Apply(k, m, op).live
    ensures Apply(k, m, op).live[id] == if Charges(k, op, id) then Charge(k, m.live[id], op.info.call) else m.live[id]
  {
    hide Charge, Named, Touch;
    if op.Ask? && Lookup(k, m.live, Ids(m, op.query.owner), op.query).None? {
      assert id != m.lastId + 1;
    }
  }

  lemma {:induction false} UnchargedStays(k: Kind, m: Manager, ops: seq<Operation>, id: int)
    requires id in m.live && IdsGivenOut(m) && m.parts != []
    requires forall i :: 0 <= i < |ops| ==> !Charges(k, ops[i], id)
    ensures id in ApplyAll(k, m, ops).live && ApplyAll(k, m, ops).live[id] == m.live[id]
    decreases |ops|
  {
    hide Apply, Charges;
    if ops != [] {
      ApplyOnRecord(k, m, ops[0], id);
      UnchargedStays(k, Apply(k, m, ops[0]), ops[1..], id);
    }
  }

  /** The seconds of the operations that charge a record. */
  function SecondsCharged(k: Kind, ops: seq<Operation>, id: int): int {
    if ops == [] then 0
    else (if Charges(k, ops[0], id) then Seconds(k, ops[0].info.call) else 0) + SecondsCharged(k, ops[1..], id)
  }

  /** Over any run a record gains exactly the seconds of the counted legs that name it. */
  lemma {:induction false} SecondsOverRun(k: Kind, m: Manager, ops: seq<Operation>, id: int)
    requires id in m.live && IdsGivenOut(m) && m.parts != []
    ensures id in ApplyAll(k, m, ops).live
    ensures ApplyAll(k, m, ops).live[id].usedSeconds == m.live[id].usedSeconds + SecondsCharged(k, ops, id)
    decreases |ops|
  {
    hide Apply, Charges, Seconds;
    if ops != [] {
      ApplyOnRecord(k, m, ops[0], id);
      if Charges(k, ops[0], id) {
        ChargeAddsSeconds(k, m.live[id], ops[0], id);
      }
      SecondsOverRun(k, Apply(k, m, ops[0]), ops[1..], id);
    }
  }

  lemma ChargeAddsSeconds(k: Kind, row: Row, op: Operation, id: int)
    requires Charges(k, op, id)
    ensures Charge(k, row, op.info.call).usedSeconds == row.usedSeconds + Seconds(k, op.info.call)
  {
  }

  /** The leg says that it took seconds from the record with this number of the package. Free-minute
      records are numbered on their own; a leg that used free minutes carries the package id one as
      well, and was not found together with a package. */
  predicate TakesFrom(op: Operation, id: int, packageId: int) {
    op.Count? && op.info.call.servicePackageStatsId == id && op.info.call.servicePackageId == packageId &&
      op.info.prepaid
  }

  function SecondsTaken(ops: seq<Operation>, id: int, packageId: int): int {
    if ops == [] then 0
    else
      var taken := if TakesFrom(ops[0], id, packageId) then ops[0].info.call.packageTime else 0;
      taken + SecondsTaken(ops[1..], id, packageId)
  }

  /** The legs that took from the record are those of its one package, which belongs to a number or
      to a trunk. Of other legs with the same record number nothing is asked, so they may be legs
      that used free minutes. */
  predicate OwnRecord(op: Operation, id: int, packageId: int, byNumber: bool) {
    (TakesFrom(op, id, packageId) ==> (op.info.call.numberServiceId != 0 <==> byNumber)) &&
    (op.Count? && op.info.call.servicePackageId > 1 && TakesFrom(op, id, op.info.call.servicePackageId) ==>
       op.info.call.servicePackageId == packageId)
  }

  lemma ChargedWhenDeductible(op: Operation, id: int, packageId: int, byNumber: bool)
    requires id != 0 && packageId > 0 && OwnRecord(op, id, packageId, byNumber)
    ensures packageId > 1 && byNumber ==> (Charges(Package, op, id) <==> TakesFrom(op, id, packageId))
    ensures packageId == 1 || !byNumber ==> !Charges(Package, op, id)
  {
  }

  lemma {:induction false} TakenIsCharged(ops: seq<Operation>, id: int, packageId: int)
    requires id != 0 && packageId > 1 && forall i :: 0 <= i < |ops| ==> OwnRecord(ops[i], id, packageId, true)
    ensures SecondsCharged(Package, ops, id) == SecondsTaken(ops, id, packageId)
    decreases |ops|
  {
    hide Charges, TakesFrom, OwnRecord;
    if ops != [] {
      ChargedWhenDeductible(ops[0], id, packageId, true);
      TakenIsCharged(ops[1..], id, packageId);
    }
  }

  /** Over any run the seconds legs took from the record of a package are deducted from it exactly
      when the package's id is above one and it is a package of a number: those of package one
      and of packages of a trunk never are, and their record stays as it is. */
  lemma {:induction false} PackageIsDeductedIff(m: Manager, ops: seq<Operation>, id: int, packageId: int,
                                                byNumber: bool)
    requires id in m.live && id != 0 && IdsGivenOut(m) && m.parts != [] && packageId > 0
    requires forall i :: 0 <= i < |ops| ==> OwnRecord(ops[i], id, packageId, byNumber)
    ensures id in ApplyAll(Package, m, ops).live
    ensures var taken := SecondsTaken(ops, id, packageId);
            ApplyAll(Package, m, ops).live[id].usedSeconds == m.live[id].usedSeconds + taken <==>
            (packageId > 1 && byNumber) || taken == 0
    ensures packageId == 1 || !byNumber ==> ApplyAll(Package, m, ops).live[id] == m.live[id]
  {
    hide ApplyAll, SecondsCharged, SecondsTaken, Charges, OwnRecord;
    if packageId > 1 && byNumber {
      SecondsOverRun(Package, m, ops, id);
      TakenIsCharged(ops, id, packageId);
    } else {
      forall i | 0 <= i < |ops|
        ensures !Charges(Package, ops[i], id)
      {
        ChargedWhenDeductible(ops[i], id, packageId, byNumber);
      }
      UnchargedStays(Package, m, ops, id);
    }
  }

  /** The seconds of the legs that used free minutes of the record with this number. */
  function FreeSecondsTaken(ops: seq<Operation>, id: int): int {
    if ops == [] then 0
    else (if UsesFree(ops[0], id) then ops[0].info.call.packageTime else 0) + FreeSecondsTaken(ops[1..], id)
  }

  predicate UsesFree(op: Operation, id: int) {
    op.Count? && op.info.call.servicePackageStatsId == id && op.info.call.servicePackageId == 1 && !op.info.prepaid
  }

  lemma {:induction false} FreeIsChargedForBoth(ops: seq<Operation>, id: int)
    requires id != 0
    requires forall i :: 0 <= i < |ops| && (TakesFrom(ops[i], id, 1) || UsesFree(ops[i], id)) ==>
               ops[i].info.call.numberServiceId != 0
    ensures SecondsCharged(Freemin, ops, id) == FreeSecondsTaken(ops, id) + SecondsTaken(ops, id, 1)
    decreases |ops|
  {
    if ops != [] {
      assert forall i :: 0 <= i < |ops[1..]| ==> ops[1..][i] == ops[i + 1];
      FreeIsChargedForBoth(ops[1..], id);
      assert Charges(Freemin, ops[0], id) <==> TakesFrom(ops[0], id, 1) || UsesFree(ops[0], id);
    }
  }

  /** The seconds legs took from a record of the package with the id one: over any run its record is
      never charged, so its allowance is offered again and again, and the record of free minutes
      with the same number is charged with them, besides the free minutes taken from that one. */
  lemma {:induction false} PackageOneIsNeverDeducted(packages: Manager, freemin: Manager, ops: seq<Operation>, id: int)
    requires id in packages.live && IdsGivenOut(packages) && packages.parts != []
    requires id in freemin.live && IdsGivenOut(freemin) && freemin.parts != [] && id != 0
    requires forall i :: 0 <= i < |ops| ==> OwnRecord(ops[i], id, 1, true)
    requires forall i :: 0 <= i < |ops| && UsesFree(ops[i], id) ==> ops[i].info.call.numberServiceId != 0
    ensures id in ApplyAll(Package, packages, ops).live && id in ApplyAll(Freemin, freemin, ops).live
    ensures ApplyAll(Package, packages, ops).live[id] == packages.live[id]
    ensures ApplyAll(Freemin, freemin, ops).live[id].usedSeconds ==
            freemin.live[id].usedSeconds + FreeSecondsTaken(ops, id) + SecondsTaken(ops, id, 1)
  {
    hide ApplyAll, SecondsCharged, SecondsTaken, FreeSecondsTaken;
    PackageIsDeductedIff(packages, ops, id, 1, true);
    SecondsOverRun(Freemin, freemin, ops, id);
    FreeIsChargedForBoth(ops, id);
  }

  /** After a restart the record in use is found again exactly when it began within sixty days
      of the last stored call; an older one, if it still matches, is replaced by a fresh record. */
  lemma FoundAfterRestartIff(k: Kind, rows: map<int, Row>, lastStoredTime: int, byOwner: Listing, maxId: int, q: Query,
                             id: int)
    requires id in rows && rows[id].owner == q.owner && Matches(k, rows[id], q)
    requires forall i :: i in rows && rows[i].owner == q.owner && Matches(k, rows[i], q) ==> i == id
    requires forall i :: i in rows ==> i <= maxId
    requires Lists(byOwner, Recent(rows, lastStoredTime))
    ensures var (n, found) := GetCurrent(k, Loaded(rows, lastStoredTime, byOwner, maxId), q);
            (found == id <==> rows[id].from >= FilterFrom(lastStoredTime)) &&
            (found != id ==> found == maxId + 1 && n.live[found].usedSeconds == 0 && n.live[found].paid == q.paid)
  {
    hide FilterFrom, Matches;
    var m := Loaded(rows, lastStoredTime, byOwner, maxId);
    var r := Lookup(k, m.live, Ids(m, q.owner), q);
    if r.Some? {
      assert m.live[r.value].owner == q.owner;
    } else {
      assert id in m.live ==> id in Ids(m, q.owner);
    }
  }

  /** An allowance given twice: of a package that is active for a thousand days the 600 seconds are
      used up, and a hundred days after its start the process is restarted. The next call is
      offered 600 more. */
  lemma AllowanceIsGivenTwice(rows: map<int, Row>, t: int)
    requires t == 100 * 86400 && rows == map[1 := Row(1, 7, 0, 1000 * 86400, 600, 600, 0.0, 1, 9)]
    ensures Lists(map[], Recent(rows, t)) && IsMaxKey(rows, 1)
    ensures var q := Query(7, t + 60, 0, 1000 * 86400, 600);
            var (n, found) := GetCurrent(Package, Loaded(rows, t, map[], 1), q);
            && Matches(Package, rows[1], q) && Tariff.Available(rows[1]) == 0
            && found == 2 && Tariff.Available(n.live[2]) == 600
  {
    assert Recent(rows, t) == map[];
    FoundAfterRestartIff(Package, rows, t, map[], 1, Query(7, t + 60, 0, 1000 * 86400, 600), 1);
  }
}
