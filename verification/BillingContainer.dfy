/** The objects that hold the pipeline's state. Each method is one section the
    program runs under its lock, and is proved to be one step of the step system;
    what every step keeps and what runs add up to is proved about that system.
    The local variables of `save()` and of the calculation loop live in the fields
    `saving` and `calculator`, because other threads run between their sections. */
module BillingContainer {
  import opened Models
  import opened Ledger
  import opened BillingState
  import opened BillingSafety
  import opened Calendar

  // ---- the database ------------------------------------------------------------------

  class BillingDb {
    var cdrs: seq<Cdr>
    var calls: seq<Call>
    var accounts: map<int, AC.AccountRow>
    var rows: PerKind<map<int, Row>>

    constructor ()
      ensures Value() == START.db
    {
      cdrs, calls, accounts := [], [], map[];
      rows := PerKind(map[], map[], map[], map[]);
    }

    function Value(): Database
      reads this
    {
      Database(cdrs, calls, accounts, rows)
    }
  }

  // ---- CDRs ------------------------------------------------------------------------------

  class CdrManager {
    var queue: seq<Cdr>
    var lastId: int
    var counter: nat

    constructor ()
      ensures Value() == Cdrs([], 0) && counter == 0
    {
      queue, lastId, counter := [], 0, 0;
    }

    function Value(): Cdrs
      reads this
    {
      Cdrs(queue, lastId)
    }

    /** Pages the next CDRs behind the last one; true when there is nothing more to page
        for now. */
    method LoadPart(db: BillingDb) returns (finished: bool)
      requires lastId >= 0
      modifies this
      ensures var page := if |old(queue)| >= CDRS_MAX_QUEUE_SIZE then []
              else Select(db.cdrs, old(lastId), CDRS_PARTITION_SIZE);
              && queue == old(queue) + page
              && lastId == (if page == [] then old(lastId) else page[|page| - 1].id)
              && counter == old(counter) + |page|
              && finished == (|page| < CDRS_PARTITION_SIZE)
    {
      if |queue| >= CDRS_MAX_QUEUE_SIZE {
        return true;
      }
      var res := Select(db.cdrs, lastId, CDRS_PARTITION_SIZE);
      for i := 0 to |res|
        invariant queue == old(queue) + res[..i]
        invariant lastId == if i == 0 then old(lastId) else res[i - 1].id
        invariant counter == old(counter) + i
      {
        queue := queue + [res[i]];
        lastId := res[i].id;
        counter := counter + 1;
      }
      assert res[..|res|] == res;
      finished := |res| < CDRS_PARTITION_SIZE;
    }

    method GetFirstCdr() returns (first: Option<Cdr>)
      ensures first == if queue == [] then None else Some(queue[0])
    {
      if |queue| > 0 {
        first := Some(queue[0]);
      } else {
        first := None;
      }
    }

    method RemoveFirstCdr()
      requires queue != []
      modifies this`queue
      ensures queue == old(queue)[1..]
    {
      queue := queue[1..];
    }
  }

  // ---- legs ---------------------------------------------------------------------------------

  /** The month a leg is stored under. */
  function MonthOfCall(c: Call): int {
    GetTmonth(c.connectTime, 0)
  }

  /** The legs stored under a month, in order. */
  function OfMonth(calls: seq<Call>, month: int): seq<Call> {
    if calls == [] then []
    else
      var c := calls[|calls| - 1];
      OfMonth(calls[..|calls| - 1], month) + if MonthOfCall(c) == month then [c] else []
  }

  /** Every leg is in the group of its own month as often as it is queued, and in no
      other group. */
  lemma {:induction false} GroupsHoldEachLegOnce(calls: seq<Call>, month: int, c: Call)
    ensures multiset(OfMonth(calls, month))[c] == if MonthOfCall(c) == month then multiset(calls)[c] else 0
  {
    hide MonthOfCall;
    if calls != [] {
      var front, last := calls[..|calls| - 1], calls[|calls| - 1];
      GroupsHoldEachLegOnce(front, month, c);
      assert calls == front + [last];
    }
  }

  lemma StorageMonthOf(c: Call)
    ensures StorageMonth(c.connectTime) == MonthOfCall(c)
  {
    StorageMonthIsMonth(c.connectTime);
  }

  /** What the grouping loop has built from a list of legs: a group for each month with
      a leg, holding exactly the legs of that month, and each month announced once. */
  ghost predicate Grouped(perMonth: map<int, seq<Call>>, times: seq<int>, calls: seq<Call>) {
    && (forall month | month in perMonth :: perMonth[month] == OfMonth(calls, month) != [])
    && (forall month | month !in perMonth :: OfMonth(calls, month) == [])
    && (forall i | 0 <= i < |times| :: times[i] in perMonth)
    && (forall month | month in perMonth :: month in times)
    && (forall i, j | 0 <= i < j < |times| :: times[i] != times[j])
  }

  lemma GroupNext(perMonth: map<int, seq<Call>>, times: seq<int>, calls: seq<Call>, i: nat)
    requires i < |calls| && Grouped(perMonth, times, calls[..i])
    ensures var m := MonthOfCall(calls[i]);
            Grouped(perMonth[m := (if m in perMonth then perMonth[m] else []) + [calls[i]]],
                    if m in perMonth then times else times + [m], calls[..i + 1])
  {
    hide MonthOfCall; hide OfMonth;
    var m := MonthOfCall(calls[i]);
    var perMonth' := perMonth[m := (if m in perMonth then perMonth[m] else []) + [calls[i]]];
    var times' := if m in perMonth then times else times + [m];
    forall month
      ensures OfMonth(calls[..i + 1], month) == OfMonth(calls[..i], month) + if m == month then [calls[i]] else []
    {
      OfMonthNext(calls, i, month);
    }
    forall month | month in perMonth' ensures month in times' {
      if month == m && m !in perMonth { assert times'[|times|] == m; }
    }
  }

  lemma NothingGrouped(calls: seq<Call>)
    ensures Grouped(map[], [], calls[..0])
  {
  }

  lemma {:induction false} OfMonthNext(calls: seq<Call>, i: nat, month: int)
    requires i < |calls|
    ensures OfMonth(calls[..i + 1], month) == OfMonth(calls[..i], month) +
            if MonthOfCall(calls[i]) == month then [calls[i]] else []
  {
    hide MonthOfCall;
    assert calls[..i + 1][..i] == calls[..i];
  }

  class CallsManager {
    var parts: seq<seq<Call>>
    var realtimeLastId: int
    var storedLastId: int

    constructor ()
      ensures Value() == Calls([[]], 0, 0)
    {
      parts, realtimeLastId, storedLastId := [[]], 0, 0;
    }

    function Value(): Calls
      reads this
    {
      Calls(parts, realtimeLastId, storedLastId)
    }

    method Add(call: Call)
      requires parts != []
      modifies this`parts, this`realtimeLastId
      ensures parts == PushLast(old(parts), call) && realtimeLastId == call.id
    {
      var last := |parts| - 1;
      parts := parts[last := parts[last] + [call]];
      realtimeLastId := call.id;
    }

    method GetQueueSize() returns (size: nat)
      ensures size == |Flat(parts)|
    {
      size := 0;
      for i := 0 to |parts|
        invariant size == |Flat(parts[..i])|
      {
        assert parts[..i + 1][..i] == parts[..i];
        size := size + |parts[i]|;
      }
      assert parts[..|parts|] == parts;
    }

    predicate IsNeedSave()
      requires parts != []
      reads this
    {
      |parts[0]| > 0 || |parts| > 1
    }

    predicate IsNeedCreatePartitionBeforeSave()
      reads this
    {
      |parts| == 1
    }

    predicate IsNeedCreatePartitionAfterAdd()
      requires parts != []
      reads this
    {
      |parts[|parts| - 1]| >= CALLS_PARTITION_SIZE
    }

    method CreateNewPartition()
      modifies this`parts
      ensures parts == old(parts) + [[]]
    {
      parts := parts + [[]];
    }

    method RemovePartitionAfterSave()
      requires parts != []
      modifies this`parts, this`storedLastId
      ensures parts == old(parts)[1..]
      ensures storedLastId == if old(parts)[0] == [] then old(storedLastId) else old(parts)[0][|old(parts)[0]| - 1].id
    {
      var first := parts[0];
      if |first| > 0 {
        storedLastId := first[|first| - 1].id;
      }
      parts := parts[1..];
    }

    /** The legs of partition 0, grouped by the month they are stored under. */
    method PrepareSaveQueries() returns (queryPerMonth: map<int, seq<Call>>, queryTime: seq<int>)
      requires parts != []
      ensures Grouped(queryPerMonth, queryTime, parts[0])
    {
      hide MonthOfCall; hide StorageMonth; hide Grouped;
      queryPerMonth, queryTime := map[], [];
      var calls := parts[0];
      NothingGrouped(calls);
      for i := 0 to |calls|
        invariant Grouped(queryPerMonth, queryTime, calls[..i])
      {
        var call := calls[i];
        var dtMonth := StorageMonth(call.connectTime);
        StorageMonthOf(call);
        GroupNext(queryPerMonth, queryTime, calls, i);
        if dtMonth !in queryPerMonth {
          queryTime := queryTime + [dtMonth];
          queryPerMonth := queryPerMonth[dtMonth := [] + [call]];
        } else {
          queryPerMonth := queryPerMonth[dtMonth := queryPerMonth[dtMonth] + [call]];
        }
      }
      assert calls[..|calls|] == calls;
    }
  }

  // ---- counters ---------------------------------------------------------------------------------

  class StatsManager {
    const kind: Kind
    var live: map<int, Row>
    var byOwner: Listing
    var parts: seq<map<int, Row>>
    var lastId: int

    constructor (kind: Kind)
      ensures this.kind == kind && Value() == Manager(map[], map[], [map[]], 0)
    {
      this.kind := kind;
      live, byOwner, parts, lastId := map[], map[], [map[]], 0;
    }

    function Value(): Manager
      reads this
    {
      Manager(live, byOwner, parts, lastId)
    }

    method CreateStats(q: Query) returns (id: int)
      modifies this`live, this`byOwner, this`lastId
      ensures id == lastId == old(lastId) + 1
      ensures live == old(live)[id := Row(id, q.owner, q.from, q.to, q.paid, 0, 0.0, 0, 0)]
      ensures byOwner == old(byOwner)[q.owner := [id] + Ids(old(Value()), q.owner)]
    {
      lastId := lastId + 1;
      id := lastId;
      live := live[id := Row(id, q.owner, q.from, q.to, q.paid, 0, 0.0, 0, 0)];
      byOwner := byOwner[q.owner := [id] + if q.owner in byOwner then byOwner[q.owner] else []];
    }

    /** The first listed record that matches, or a newly opened one. */
    method GetCurrent(q: Query) returns (id: int)
      requires parts != []
      modifies this`live, this`byOwner, this`lastId, this`parts
      ensures (Value(), id) == BillingState.GetCurrent(kind, old(Value()), q)
    {
      if q.owner in byOwner {
        var ids := byOwner[q.owner];
        for i := 0 to |ids|
          invariant Lookup(kind, live, ids, q) == Lookup(kind, live, ids[i..], q)
        {
          var candidate := ids[i];
          assert ids[i..][0] == candidate && ids[i..][1..] == ids[i + 1..];
          if candidate in live {
            var stats := live[candidate];
            if Matches(kind, stats, q) {
              return candidate;
            }
          }
        }
      }
      assert Lookup(kind, live, Ids(Value(), q.owner), q).None?;
      id := CreateStats(q);
      var last := |parts| - 1;
      parts := parts[last := parts[last][id := live[id]]];
    }

    /** The seconds used of the first listed record that matches; nothing is opened. */
    method GetUsedSeconds(q: Query) returns (used: int)
      ensures used == UsedOf(kind, Value(), q)
    {
      if q.owner in byOwner {
        var ids := byOwner[q.owner];
        for i := 0 to |ids|
          invariant Lookup(kind, live, ids, q) == Lookup(kind, live, ids[i..], q)
        {
          var candidate := ids[i];
          assert ids[i..][0] == candidate && ids[i..][1..] == ids[i + 1..];
          if candidate in live && Matches(kind, live[candidate], q) {
            return live[candidate].usedSeconds;
          }
        }
      }
      used := 0;
    }

    /** The leg is charged to the record it names, and the record copied into the newest
        partition; a leg that names no known record changes nothing. */
    method Add(info: CallInfo)
      requires parts != []
      modifies this`live, this`parts
      ensures Value() == AddToManager(kind, old(Value()), info)
    {
      var id := Named(kind, info.call);
      if id == 0 || (kind == Package && !info.prepaid) || id !in live {
        return;
      }
      var stats := Charge(kind, live[id], info.call);
      live := live[id := stats];
      var last := |parts| - 1;
      parts := parts[last := parts[last][stats.id := stats]];
    }

    method PrepareSaveQuery() returns (query: map<int, Row>)
      requires parts != []
      ensures query == parts[0]
    {
      query := parts[0];
    }

    method CreateNewPartition()
      modifies this`parts
      ensures Value() == AppendPart(old(Value()))
    {
      parts := parts + [map[]];
    }

    method RemovePartitionAfterSave()
      requires parts != []
      modifies this`parts
      ensures Value() == DropPart(old(Value()))
    {
      parts := parts[1..];
    }

    /** Records whose window began recently are read back; `listing` and `maxId` are the
        answers the database gives to the two queries. */
    method Load(rows: map<int, Row>, lastStoredTime: int, listing: Listing, maxId: int)
      modifies this
      ensures Value() == Loaded(rows, lastStoredTime, listing, maxId)
    {
      lastId := maxId;
      live := map id | id in rows && rows[id].from >= FilterFrom(lastStoredTime) :: rows[id];
      byOwner := listing;
      parts := [map[]];
    }
  }

  class StatsAccountManager {
    var live: map<int, AC.AccountRow>
    var parts: seq<map<int, AC.AccountRow>>

    constructor ()
      ensures Value() == Accounts(map[], [map[]])
    {
      live, parts := map[], [map[]];
    }

    function Value(): Accounts
      reads this
    {
      Accounts(live, parts)
    }

    /** The rolling sums of the leg's account, field by field. */
    method Add(info: CallInfo)
      requires parts != []
      modifies this
      ensures Value() == AddToAccounts(old(Value()), info)
    {
      var call := info.call;
      if info.account.None? || -0.000001 < call.cost < 0.000001 {
        return;
      }
      var stats := if call.accountId in live then live[call.accountId] else AC.BLANK;
      if stats.accountId == 0 {
        stats := stats.(accountId := call.accountId, amountMonth := info.utcMonth,
                        amountDay := info.utcDay, amountDate := info.account.value.amountDate);
      }
      if -43200 < info.utcMonth - stats.amountMonth < 43200 {
        stats := stats.(sumMonth := stats.sumMonth + call.cost);
      } else if info.utcMonth > stats.amountMonth {
        stats := stats.(amountMonth := info.utcMonth, sumMonth := call.cost);
      }
      if -43200 < info.utcDay - stats.amountDay < 43200 {
        stats := stats.(sumDay := stats.sumDay + call.cost);
        if call.IsInternational() {
          stats := stats.(sumMnDay := stats.sumMnDay + call.cost);
        }
      } else if info.utcDay > stats.amountDay {
        stats := stats.(amountDay := info.utcDay, sumDay := call.cost);
        stats := stats.(sumMnDay := if call.IsInternational() then call.cost else 0.0);
      }
      if call.connectTime >= info.account.value.amountDate {
        stats := stats.(sum := stats.sum + call.cost);
      }
      live := live[call.accountId := stats];
      var last := |parts| - 1;
      parts := parts[last := parts[last][call.accountId := stats]];
    }

    method CreateNewPartition()
      modifies this`parts
      ensures Value() == old(Value()).(parts := old(parts) + [map[]])
    {
      parts := parts + [map[]];
    }

    method RemovePartitionAfterSave()
      requires parts != []
      modifies this`parts
      ensures Value() == old(Value()).(parts := old(parts)[1..])
    {
      parts := parts[1..];
    }

    method Load(rows: map<int, AC.AccountRow>)
      modifies this
      ensures Value() == Accounts(rows, [map[]])
    {
      live, parts := rows, [map[]];
    }
  }

  // ---- the container --------------------------------------------------------------------------------

  lemma FetchIsGood(s: State)
    requires Inv(s)
    ensures s.cdrs.lastId >= 0 && Inv(StepFetch(s))
  {
    FetchKeepsInv(s);
    assert Queued(s);
    hide Inv; hide Core; hide StepFetch;
  }

  lemma AskIsGood(s: State, k: Kind, q: Query)
    requires Inv(s)
    ensures HaveParts(s) && Inv(StepAsk(s, k, q))
  {
    AskKeepsInv(s, k, q);
    CoreHasParts(s);
  }

  class DataBillingContainer {
    const db: BillingDb
    const cdrs: CdrManager
    const calls: CallsManager
    const statsAccount: StatsAccountManager
    const statsFreemin: StatsManager
    const statsPackage: StatsManager
    const statsTrunkSettings: StatsManager
    const statsNnpPackageMinute: StatsManager
    var calculator: Calc
    var saving: Saving
    ghost var history: History

    ghost const Repr: set<object> :=
      {this, db, cdrs, calls, statsAccount, statsFreemin, statsPackage, statsTrunkSettings, statsNnpPackageMinute}

    /** The parts are separate objects, and the state they hold is a good one. */
    ghost predicate Valid()
      reads Repr
    {
      KindsFit() && Inv(Value())
    }

    ghost function Value(): State
      reads Repr
    {
      State(db.Value(), cdrs.Value(), calls.Value(), statsAccount.Value(),
            PerKind(statsFreemin.Value(), statsPackage.Value(), statsTrunkSettings.Value(),
                    statsNnpPackageMinute.Value()),
            calculator, saving, history)
    }

    constructor ()
      ensures Valid() && Value() == START
      ensures fresh(db) && fresh(cdrs) && fresh(calls) && fresh(statsAccount) && fresh(statsFreemin)
      ensures fresh(statsPackage) && fresh(statsTrunkSettings) && fresh(statsNnpPackageMinute)
    {
      db := new BillingDb();
      cdrs := new CdrManager();
      calls := new CallsManager();
      statsAccount := new StatsAccountManager();
      statsFreemin := new StatsManager(Freemin);
      statsPackage := new StatsManager(Package);
      statsTrunkSettings := new StatsManager(TrunkSettings);
      statsNnpPackageMinute := new StatsManager(NnpMinute);
      calculator := Ready;
      saving := Idle;
      history := History(0, 0, false, false);
      new;
      hide Inv;
      assert Value() == START;
      StartIsGood();
    }

    // -- the fetcher --

    method CdrsLoadPart() returns (finished: bool)
      requires Valid()
      modifies Repr
      ensures Valid() && Value() == StepFetch(old(Value()))
    {
      hide Inv; hide Select;
      FetchIsGood(Value());
      ghost var before := |cdrs.queue|;
      finished := cdrs.LoadPart(db);
      history := history.(fetched := history.fetched + (|cdrs.queue| - before));
      assert Value() == StepFetch(old(Value()));
    }

    // -- the calculator --

    method AddCall(info: CallInfo)
      requires KindsFit() && HaveParts(Value())
      modifies calls, statsAccount, statsFreemin, statsPackage, statsTrunkSettings, statsNnpPackageMinute
      ensures Value() == BillingState.AddCall(old(Value()), info)
    {
      forall k: Kind ensures Value().managers.At(k).parts != [] {}
      assert Value().managers.At(Freemin) == statsFreemin.Value() &&
             Value().managers.At(Package) == statsPackage.Value();
      assert Value().managers.At(TrunkSettings) == statsTrunkSettings.Value() &&
             Value().managers.At(NnpMinute) == statsNnpPackageMinute.Value();
      statsAccount.Add(info);
      statsFreemin.Add(info);
      statsPackage.Add(info);
      statsTrunkSettings.Add(info);
      statsNnpPackageMinute.Add(info);
      calls.Add(info.call);
      assert Value() == Enqueue(old(Value()), info);
      if calls.IsNeedCreatePartitionAfterAdd() {
        CreateNewPartition();
      }
    }

    method CreateNewPartition()
      requires KindsFit()
      modifies calls, statsAccount, statsFreemin, statsPackage, statsTrunkSettings, statsNnpPackageMinute
      ensures Value() == CreatePartition(old(Value()))
    {
      calls.CreateNewPartition();
      statsAccount.CreateNewPartition();
      statsFreemin.CreateNewPartition();
      statsPackage.CreateNewPartition();
      statsTrunkSettings.CreateNewPartition();
      statsNnpPackageMinute.CreateNewPartition();
    }

    ghost predicate KindsFit() {
      && statsFreemin.kind == Freemin && statsPackage.kind == Package
      && statsTrunkSettings.kind == TrunkSettings && statsNnpPackageMinute.kind == NnpMinute
    }

    /** The first CDR of the queue has been calculated into two legs. */
    method Calculate(orig: CallInfo, term: CallInfo)
      requires Valid() && HaveParts(Value()) && Enabled(Value(), Event.Calculate(orig, term))
      modifies this`calculator
      ensures Valid() && HaveParts(old(Value())) && Value() == Step(old(Value()), Event.Calculate(orig, term))
    {
      CalculateKeepsInv(Value(), orig, term);
      hide Inv; hide Legs;
      calculator := Calculated(orig, term);
    }

    /** The first CDR of the queue is technical: it produces no legs. */
    method SkipTechnical()
      requires Valid() && HaveParts(Value()) && Enabled(Value(), Event.SkipTechnical)
      modifies this`calculator
      ensures Valid() && HaveParts(old(Value())) && Value() == Step(old(Value()), Event.SkipTechnical)
    {
      SkipKeepsInv(Value());
      hide Inv;
      calculator := Finished;
    }

    method AddOrig()
      requires Valid() && calculator.Calculated?
      modifies Repr
      ensures Valid() && HaveParts(old(Value())) && Value() == StepAddOrig(old(Value()))
    {
      ghost var s := Value();
      AddOrigKeepsInv(s);
      CoreHasParts(s);
      hide Inv;
      AddCall(calculator.orig);
      calculator := OrigAdded(calculator.term);
      assert Value() == StepAddOrig(s);
    }

    method AddTerm()
      requires Valid() && calculator.OrigAdded?
      modifies Repr
      ensures Valid() && HaveParts(old(Value())) && Value() == StepAddTerm(old(Value()))
    {
      ghost var s := Value();
      AddTermKeepsInv(s);
      CoreHasParts(s);
      hide Inv;
      AddCall(calculator.last);
      calculator := Finished;
      assert Value() == StepAddTerm(s);
    }

    method RemoveFirstCdr()
      requires Valid() && calculator == Finished && cdrs.queue != []
      modifies Repr
      ensures Valid() && Value() == StepRemoveCdr(old(Value()))
    {
      hide Inv;
      ghost var s := Value();
      RemoveCdrKeepsInv(s);
      cdrs.RemoveFirstCdr();
      calculator := Ready;
      history := history.(done := history.done + 1);
      assert Value() == StepRemoveCdr(s);
    }

    // -- callers of getCurrent --

    method GetCurrent(kind: Kind, q: Query) returns (id: int)
      requires Valid()
      modifies statsFreemin, statsPackage, statsTrunkSettings, statsNnpPackageMinute
      ensures Valid() && HaveParts(old(Value())) && Value() == StepAsk(old(Value()), kind, q)
      ensures id == BillingState.GetCurrent(kind, old(Value()).managers.At(kind), q).1
    {
      hide Inv; hide BillingState.GetCurrent;
      ghost var s := Value();
      AskIsGood(s, kind, q);
      match kind
      case Freemin =>
        id := statsFreemin.GetCurrent(q);
        assert Value() == StepAsk(s, kind, q);
      case Package =>
        id := statsPackage.GetCurrent(q);
        assert Value() == StepAsk(s, kind, q);
      case TrunkSettings =>
        id := statsTrunkSettings.GetCurrent(q);
        assert Value() == StepAsk(s, kind, q);
      case NnpMinute =>
        id := statsNnpPackageMinute.GetCurrent(q);
        assert Value() == StepAsk(s, kind, q);
    }

    // -- the saver --

    /** Whether there is anything to save; if so, partition 0 is closed. */
    method SaveBegin() returns (begun: bool)
      requires Valid() && saving == Idle
      modifies Repr
      ensures Valid() && HaveParts(old(Value())) && Value() == StepSaveBegin(old(Value()))
      ensures begun == NeedSave(old(Value()))
    {
      ghost var s := Value();
      SaveBeginKeepsInv(s);
      CoreHasParts(s);
      hide Inv; hide AllCalls;
      begun := calls.IsNeedSave();
      if begun {
        if calls.IsNeedCreatePartitionBeforeSave() {
          CreateNewPartition();
          history := history.(split := history.split || |AllCalls(s)| % 2 == 1);
        }
        saving := Preparing(None, None, NOTHING_PREPARED);
      }
      assert Value() == StepSaveBegin(s);
    }

    /** The query for the legs of partition 0, and its grouping by month. */
    method PrepareCalls() returns (queryPerMonth: map<int, seq<Call>>, queryTime: seq<int>)
      requires Valid() && saving.Preparing?
      modifies this`saving
      ensures Valid() && HaveParts(old(Value())) && Enabled(old(Value()), Event.PrepareCalls)
      ensures Value() == Step(old(Value()), Event.PrepareCalls)
      ensures Grouped(queryPerMonth, queryTime, old(Value()).calls.parts[0])
    {
      hide Inv; hide Grouped;
      PrepareIsGood(Value(), Event.PrepareCalls);
      queryPerMonth, queryTime := calls.PrepareSaveQueries();
      saving := saving.(calls := Some(calls.parts[0]));
    }

    method PrepareAccounts()
      requires Valid() && saving.Preparing?
      modifies this`saving
      ensures Valid() && HaveParts(old(Value())) && Enabled(old(Value()), Event.PrepareAccounts)
      ensures Value() == Step(old(Value()), Event.PrepareAccounts)
    {
      hide Inv;
      PrepareIsGood(Value(), Event.PrepareAccounts);
      saving := saving.(accounts := Some(statsAccount.parts[0]));
    }

    method PrepareRows(kind: Kind)
      requires Valid() && saving.Preparing?
      modifies this`saving
      ensures Valid() && HaveParts(old(Value())) && Enabled(old(Value()), Event.PrepareRows(kind))
      ensures Value() == Step(old(Value()), Event.PrepareRows(kind))
    {
      hide Inv;
      PrepareIsGood(Value(), Event.PrepareRows(kind));
      var manager := match kind
        case Freemin => statsFreemin
        case Package => statsPackage
        case TrunkSettings => statsTrunkSettings
        case NnpMinute => statsNnpPackageMinute;
      assert Value().managers.At(kind) == manager.Value();
      var query := manager.PrepareSaveQuery();
      saving := saving.(rows := saving.rows.With(kind, Some(query)));
    }

    /** The transaction: the inserts of legs append, the inserts of counters overwrite
        by key. */
    method Commit()
      requires Valid() && AllPrepared(Value())
      modifies db, this`saving
      ensures Valid() && AllPrepared(old(Value())) && Value() == StepCommit(old(Value()))
    {
      hide Inv;
      ghost var s := Value();
      CommitKeepsInv(s);
      assert saving.calls.Some? && saving.accounts.Some? && forall k: Kind :: saving.rows.At(k).Some?;
      hide AllPrepared;
      db.calls := db.calls + saving.calls.value;
      db.accounts := db.accounts + saving.accounts.value;
      db.rows := PerKind(db.rows.At(Freemin) + saving.rows.At(Freemin).value,
                         db.rows.At(Package) + saving.rows.At(Package).value,
                         db.rows.At(TrunkSettings) + saving.rows.At(TrunkSettings).value,
                         db.rows.At(NnpMinute) + saving.rows.At(NnpMinute).value);
      saving := Committed;
      assert Value() == StepCommit(s);
    }

    /** The transaction was rolled back: the next save starts over. */
    method SaveFails()
      requires Valid() && saving.Preparing?
      modifies this`saving
      ensures Valid() && Value() == old(Value()).(saving := Idle)
    {
      hide Inv;
      FailIsGood(Value());
      saving := Idle;
    }

    method RemovePartitionAfterSave()
      requires Valid() && saving == Committed
      modifies Repr
      ensures Valid() && HaveParts(old(Value())) && Value() == StepRemove(old(Value()))
    {
      hide Inv;
      RemoveIsGood(Value());
      RemoveParts();
    }

    method RemoveParts()
      requires KindsFit() && HaveParts(Value())
      modifies Repr
      ensures Value() == StepRemove(old(Value()))
    {
      assert Value().managers.At(Freemin) == statsFreemin.Value() &&
             Value().managers.At(Package) == statsPackage.Value();
      assert Value().managers.At(TrunkSettings) == statsTrunkSettings.Value() &&
             Value().managers.At(NnpMinute) == statsNnpPackageMinute.Value();
      calls.RemovePartitionAfterSave();
      statsAccount.RemovePartitionAfterSave();
      statsFreemin.RemovePartitionAfterSave();
      statsPackage.RemovePartitionAfterSave();
      statsTrunkSettings.RemovePartitionAfterSave();
      statsNnpPackageMinute.RemovePartitionAfterSave();
      saving := Idle;
    }

    // -- a new process --

    /** Everything in memory is gone; the database answers what was stored last. */
    method LoadAll(listings: PerKind<Listing>, maxIds: PerKind<int>)
      requires Valid() && HaveParts(Value()) && Enabled(Value(), Event.Restart(listings, maxIds))
      modifies Repr
      ensures Valid() && Value() == StepRestart(old(Value()), listings, maxIds)
    {
      hide Inv; hide Enabled; hide StepRestart;
      RestartKeepsInv(Value(), listings, maxIds);
      LoadLastCallIdAndCdrId();
      LoadCounters(listings, maxIds);
      history := StepRestart(old(Value()), listings, maxIds).history;
      assert Value() == StepRestart(old(Value()), listings, maxIds) by { RestartIs(old(Value()), listings, maxIds); }
    }

    method LoadLastCallIdAndCdrId()
      modifies cdrs, calls
      ensures cdrs.Value() == Cdrs([], MaxCdrId(db.calls))
      ensures calls.Value() == Calls([[]], MaxId(db.calls), MaxId(db.calls))
    {
      cdrs.queue, cdrs.lastId := [], MaxCdrId(db.calls);
      calls.parts := [[]];
      calls.storedLastId := MaxId(db.calls);
      calls.realtimeLastId := calls.storedLastId;
    }

    method LoadCounters(listings: PerKind<Listing>, maxIds: PerKind<int>)
      requires KindsFit()
      modifies statsAccount, statsFreemin, statsPackage, statsTrunkSettings, statsNnpPackageMinute, this
      ensures statsAccount.Value() == Accounts(db.accounts, [map[]])
      ensures statsFreemin.Value() == Loaded(db.rows.freemin, MaxTime(db.calls), listings.freemin, maxIds.freemin)
      ensures statsPackage.Value() == Loaded(db.rows.package, MaxTime(db.calls), listings.package, maxIds.package)
      ensures statsTrunkSettings.Value()
           == Loaded(db.rows.trunkSettings, MaxTime(db.calls), listings.trunkSettings, maxIds.trunkSettings)
      ensures statsNnpPackageMinute.Value() == Loaded(db.rows.nnpMinute, MaxTime(db.calls), listings.nnpMinute,
                                                      maxIds.nnpMinute)
      ensures calculator == Ready && saving == Idle && history == old(history)
    {
      hide Loaded; hide MaxTime;
      var lastTime := MaxTime(db.calls);
      statsAccount.Load(db.accounts);
      statsFreemin.Load(db.rows.freemin, lastTime, listings.freemin, maxIds.freemin);
      statsPackage.Load(db.rows.package, lastTime, listings.package, maxIds.package);
      statsTrunkSettings.Load(db.rows.trunkSettings, lastTime, listings.trunkSettings, maxIds.trunkSettings);
      statsNnpPackageMinute.Load(db.rows.nnpMinute, lastTime, listings.nnpMinute, maxIds.nnpMinute);
      calculator, saving := Ready, Idle;
    }
  }

  lemma RestartIs(s: State, listings: PerKind<Listing>, maxIds: PerKind<int>)
    ensures var t := StepRestart(s, listings, maxIds); var lastTime := MaxTime(s.db.calls);
            t == State(
              s.db, Cdrs([], MaxCdrId(s.db.calls)), Calls([[]], MaxId(s.db.calls), MaxId(s.db.calls)),
                Accounts(s.db.accounts, [map[]]),
              PerKind(Loaded(s.db.rows.freemin, lastTime, listings.freemin, maxIds.freemin),
                      Loaded(s.db.rows.package, lastTime, listings.package, maxIds.package),
                      Loaded(s.db.rows.trunkSettings, lastTime, listings.trunkSettings, maxIds.trunkSettings),
                      Loaded(s.db.rows.nnpMinute, lastTime, listings.nnpMinute, maxIds.nnpMinute)),
              Ready, Idle, t.history)
  {
  }

  lemma PrepareIsGood(s: State, e: Event)
    requires Inv(s) && s.saving.Preparing? && (e.PrepareCalls? || e.PrepareAccounts? || e.PrepareRows?)
    ensures HaveParts(s) && Enabled(s, e) && Inv(Step(s, e))
  {
    CoreHasParts(s);
    StepKeepsInv(s, e);
  }

  lemma FailIsGood(s: State)
    requires Inv(s) && s.saving.Preparing?
    ensures Inv(s.(saving := Idle))
  {
    CoreHasParts(s);
    StepKeepsInv(s, Event.SaveFails);
  }

  lemma RemoveIsGood(s: State)
    requires Inv(s) && s.saving == Committed
    ensures HaveParts(s) && Inv(StepRemove(s))
  {
    CoreHasParts(s);
    RemoveKeepsInv(s);
  }
}
