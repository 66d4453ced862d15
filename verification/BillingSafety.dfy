/** The invariant of the whole pipeline, kept by every step of every run. */
module BillingSafety {
  import opened Models
  import opened Ledger
  import opened BillingState
  import opened BillingInvariant
  import opened LegSequence

  /** What is still to be written: after a commit, partition 0 is already stored. */
  function View<T>(s: State, parts: seq<T>): seq<T> {
    if s.saving == Committed && parts != [] then parts[1..] else parts
  }

  /** All managers have equally many partitions, and only the newest may be empty. */
  predicate Shape(s: State) {
    && HaveParts(s)
    && |s.accounts.parts| == |s.calls.parts|
    && (forall k: Kind :: |s.managers.At(k).parts| == |s.calls.parts|)
    && (s.saving != Idle ==> |s.calls.parts| >= 2)
    && (forall j | 0 <= j < |s.calls.parts| - 1 :: s.calls.parts[j] != [])
  }

  predicate Room(s: State)
    requires HaveParts(s)
  {
    |s.calls.parts[|s.calls.parts| - 1]| < CALLS_PARTITION_SIZE
  }

  /** Whatever the saver has prepared so far is still partition 0, and what it has
      committed is partition 0. */
  predicate Frozen(s: State)
    requires HaveParts(s)
  {
    && (s.saving == Committed ==>
      var first := s.calls.parts[0];
      && |first| <= |s.db.calls| && s.db.calls[|s.db.calls| - |first|..] == first
      && s.db.accounts + s.accounts.parts[0] == s.db.accounts
      && forall k: Kind :: s.db.rows.At(k) + s.managers.At(k).parts[0] == s.db.rows.At(k))
    && (s.saving.Preparing? ==>
      && (s.saving.calls.Some? ==> s.saving.calls.value == s.calls.parts[0])
      && (s.saving.accounts.Some? ==> s.saving.accounts.value == s.accounts.parts[0])
      && (forall k: Kind | s.saving.rows.At(k).Some? :: s.saving.rows.At(k).value == s.managers.At(k).parts[0]))
  }

  predicate Counters(s: State) {
    forall k: Kind ::
      KindOk(k, s.managers.At(k), s.db.rows.At(k), View(s, s.managers.At(k).parts), s.db.calls, View(s, s.calls.parts))
  }

  predicate AccountsMatch(s: State) {
    s.accounts.live == Overlay(s.db.accounts, View(s, s.accounts.parts))
  }

  /** Legs are numbered without gaps, the stored ones first. */
  predicate Numbered(s: State) {
    && (forall i | 0 <= i < |AllCalls(s)| :: AllCalls(s)[i].id == i + 1)
    && s.calls.realtimeLastId == |AllCalls(s)|
    && s.calls.storedLastId == |AllCalls(s)| - |Flat(s.calls.parts)|
  }

  predicate Core(s: State) {
    Shape(s) && Frozen(s) && Counters(s) && AccountsMatch(s) && Numbered(s)
  }

  function CdrIds(cdrs: seq<Cdr>): set<int> {
    set i | 0 <= i < |cdrs| :: cdrs[i].id
  }

  /** Every leg was made from a CDR of the table. */
  predicate CallsFromCdrs(s: State) {
    forall i | 0 <= i < |AllCalls(s)| :: AllCalls(s)[i].cdrId in CdrIds(s.db.cdrs)
  }

  /** Processed CDRs and the queue are a gap-free prefix of the table. */
  predicate Queued(s: State) {
    && Sorted(s.db.cdrs)
    && (s.cdrs.lastId == 0 || s.cdrs.lastId in CdrIds(s.db.cdrs))
    && s.history.done <= s.history.fetched <= |s.db.cdrs|
    && s.cdrs.queue == s.db.cdrs[s.history.done..s.history.fetched]
    && (forall j | 0 <= j < |s.db.cdrs| :: s.db.cdrs[j].id <= s.cdrs.lastId <==> j < s.history.fetched)
  }

  predicate Calculating(s: State) {
    match s.calculator
    case Ready => true
    case Calculated(o, t) => s.cdrs.queue != [] && !s.cdrs.queue[0].technical && Legs(s, o, t)
    case OrigAdded(t) =>
      && s.cdrs.queue != [] && !s.cdrs.queue[0].technical && NamesKnown(s, t)
      && Named(Freemin, t.call) == 0 && Named(Package, t.call) == 0
      && LegOf(t.call) == Leg(s.calls.realtimeLastId + 1, s.calls.realtimeLastId, s.cdrs.queue[0].id, false)
    case Finished => s.cdrs.queue != []
  }

  /** The legs there will be once the calculator is done with the CDR in hand. */
  function LegsInSight(s: State): seq<Leg> {
    match s.calculator
    case OrigAdded(t) => Skeleton(AllCalls(s)) + [LegOf(t.call)]
    case _ => Skeleton(AllCalls(s))
  }

  function CdrsInSight(s: State): nat {
    if s.calculator.OrigAdded? || s.calculator == Finished then s.history.done + 1 else s.history.done
  }

  /** Unless a restart lost one, the legs are exactly those of the processed CDRs. */
  predicate Complete(s: State) {
    !s.history.lossy ==>
      CdrsInSight(s) <= |s.db.cdrs| && LegsInSight(s) == AllLegs(s.db.cdrs[..CdrsInSight(s)])
  }

  /** Unless a save cut a pair, stored legs and closed partitions end between CDRs. */
  predicate PairAligned(s: State) {
    !s.history.split ==>
      && !s.history.lossy
      && forall j | 0 <= j < |View(s, s.calls.parts)| :: (|s.db.calls| + |Flat(View(s, s.calls.parts)[..j])|) % 2 == 0
  }

  predicate Inv(s: State) {
    Core(s) && Room(s) && CallsFromCdrs(s) && Queued(s) && Calculating(s) && Complete(s) && PairAligned(s)
  }

  // ---- adding a leg -------------------------------------------------------------------

  /** What the calculator guarantees of a leg it adds. */
  predicate Chargeable(s: State, info: CallInfo) {
    && NamesKnown(s, info)
    && info.call.id == s.calls.realtimeLastId + 1
  }

  lemma ViewOfTouched<R>(s: State, parts: seq<map<int, R>>, id: int, row: R)
    requires parts != [] && (s.saving == Committed ==> |parts| >= 2)
    ensures View(s, Touch(parts, id, row)) == Touch(View(s, parts), id, row)
  {
  }

  lemma ViewOfPushed<T>(s: State, parts: seq<seq<T>>, t: T)
    requires parts != [] && (s.saving == Committed ==> |parts| >= 2)
    ensures View(s, PushLast(parts, t)) == PushLast(View(s, parts), t)
  {
  }

  lemma ViewOfAppended<T>(s: State, parts: seq<T>, part: T)
    requires parts != []
    ensures View(s, parts + [part]) == View(s, parts) + [part]
  {
  }

  lemma LiveIds(k: Kind, m: Manager, base: map<int, Row>, rowParts: seq<map<int, Row>>, stored: seq<Call>,
                callParts: seq<seq<Call>>)
    requires KindOk(k, m, base, rowParts, stored, callParts)
    ensures forall id | id in m.live :: m.live[id].id == id > 0
  {
    FullSnapshot(k, base, rowParts, stored, callParts);
  }

  lemma ChargedId(k: Kind, row: Row, c: Call)
    ensures Charge(k, row, c).id == row.id
  {
  }

  lemma EnqueueKeepsKind(s: State, info: CallInfo, k: Kind)
    requires Shape(s) && Counters(s) && Chargeable(s, info)
    ensures var s' := Enqueue(s, info);
            && |s'.managers.At(k).parts| == |s.managers.At(k).parts|
            && (|s.calls.parts| >= 2 ==> s'.managers.At(k).parts[0] == s.managers.At(k).parts[0])
            && KindOk(k, s'.managers.At(k), s'.db.rows.At(k), View(s', s'.managers.At(k).parts), s'.db.calls,
                      View(s', s'.calls.parts))
  {
    hide Snapshots; hide LiveMatches; hide Listed; hide Charge;
    var s' := Enqueue(s, info);
    var m, m' := s.managers.At(k), s'.managers.At(k);
    var view, callView := View(s, m.parts), View(s, s.calls.parts);
    assert m' == AddToManager(k, m, info);
    ViewOfPushed(s, s.calls.parts, info.call);
    LiveIds(k, m, s.db.rows.At(k), view, s.db.calls, callView);
    AddKeepsKind(k, m, s.db.rows.At(k), view, s.db.calls, callView, info);
    var id := Named(k, info.call);
    if id != 0 {
      var row := Charge(k, m.live[id], info.call);
      assert row.id == id by { ChargedId(k, m.live[id], info.call); }
      ViewOfTouched(s, m.parts, id, row);
    }
    assert View(s', m'.parts) == ChargedParts(k, m, view, info.call);
    assert View(s', s'.calls.parts) == PushLast(callView, info.call);
  }

  lemma EnqueueKeepsAccounts(s: State, info: CallInfo)
    requires Shape(s) && AccountsMatch(s)
    ensures AccountsMatch(Enqueue(s, info))
    ensures |Enqueue(s, info).accounts.parts| == |s.accounts.parts|
    ensures |s.accounts.parts| >= 2 ==> Enqueue(s, info).accounts.parts[0] == s.accounts.parts[0]
  {
    hide AC.Post;
    var a := s.accounts;
    if AC.Counted(info) {
      var id := info.call.accountId;
      var row := AC.Post(if id in a.live then a.live[id] else AC.BLANK, info);
      ViewOfTouched(s, a.parts, id, row);
      OverlayTouch(s.db.accounts, View(s, a.parts), id, row);
    }
  }

  lemma EnqueueAppends(s: State, info: CallInfo)
    requires Shape(s)
    ensures AllCalls(Enqueue(s, info)) == AllCalls(s) + [info.call]
    ensures |Flat(Enqueue(s, info).calls.parts)| == |Flat(s.calls.parts)| + 1
  {
    hide AddToManager; hide AddToAccounts;
    var s' := Enqueue(s, info);
    ViewOfPushed(s, s.calls.parts, info.call);
    FlatPush(View(s, s.calls.parts), info.call);
    FlatPush(s.calls.parts, info.call);
    assert Pending(s') == Flat(View(s', s'.calls.parts)) && Pending(s) == Flat(View(s, s.calls.parts));
  }

  /** Adding a leg writes to the newest partition only. */
  lemma EnqueueKeepsShape(s: State, info: CallInfo)
    requires Shape(s) && Frozen(s)
    ensures Shape(Enqueue(s, info)) && Frozen(Enqueue(s, info))
  {
    hide AC.Post; hide AC.Counted; hide Charge; hide Named;
    var s' := Enqueue(s, info);
    forall k: Kind
      ensures |s'.managers.At(k).parts| == |s.managers.At(k).parts|
      ensures |s.calls.parts| >= 2 ==> s'.managers.At(k).parts[0] == s.managers.At(k).parts[0]
    {
      assert s'.managers.At(k) == AddToManager(k, s.managers.At(k), info);
    }
  }

  lemma EnqueueKeepsNumbered(s: State, info: CallInfo)
    requires Shape(s) && Numbered(s) && info.call.id == s.calls.realtimeLastId + 1
    ensures Numbered(Enqueue(s, info))
  {
    hide AddToManager; hide AddToAccounts; hide AllCalls;
    EnqueueAppends(s, info);
  }

  lemma EnqueueKeepsCore(s: State, info: CallInfo)
    requires Core(s) && Chargeable(s, info)
    ensures Core(Enqueue(s, info))
  {
    hide KindOk; hide Numbered; hide Frozen; hide Enqueue; hide AccountsMatch;
    forall k: Kind
      ensures var s' := Enqueue(s, info);
              KindOk(k, s'.managers.At(k), s'.db.rows.At(k), View(s', s'.managers.At(k).parts), s'.db.calls,
                     View(s', s'.calls.parts))
    {
      EnqueueKeepsKind(s, info, k);
    }
    EnqueueKeepsShape(s, info);
    EnqueueKeepsAccounts(s, info);
    EnqueueKeepsNumbered(s, info);
  }

  lemma CreateKeepsKind(s: State, k: Kind)
    requires Shape(s) && Counters(s)
    ensures var s' := CreatePartition(s);
            && |s'.managers.At(k).parts| == |s'.calls.parts|
            && s'.managers.At(k).parts[0] == s.managers.At(k).parts[0]
            && KindOk(k, s'.managers.At(k), s'.db.rows.At(k), View(s', s'.managers.At(k).parts), s'.db.calls,
                      View(s', s'.calls.parts))
  {
    hide Snapshots; hide LiveMatches; hide Listed;
    var s' := CreatePartition(s);
    var m := s.managers.At(k);
    assert s'.managers.At(k) == AppendPart(m);
    ViewOfAppended(s, m.parts, map[]);
    ViewOfAppended(s, s.calls.parts, []);
    AppendKeepsKind(k, m, s.db.rows.At(k), View(s, m.parts), s.db.calls, View(s, s.calls.parts));
    assert View(s', s'.managers.At(k).parts) == View(s, m.parts) + [map[]];
    assert View(s', s'.calls.parts) == View(s, s.calls.parts) + [[]];
  }

  lemma CreateKeepsCalls(s: State)
    requires Shape(s)
    ensures AllCalls(CreatePartition(s)) == AllCalls(s)
    ensures Flat(CreatePartition(s).calls.parts) == Flat(s.calls.parts)
  {
    var s' := CreatePartition(s);
    ViewOfAppended(s, s.calls.parts, []);
    FlatAppend(s.calls.parts, []);
    FlatAppend(View(s, s.calls.parts), []);
    assert Pending(s') == Flat(View(s', s'.calls.parts)) && Pending(s) == Flat(View(s, s.calls.parts));
  }

  lemma CreateKeepsAccounts(s: State)
    requires Shape(s) && AccountsMatch(s)
    ensures AccountsMatch(CreatePartition(s))
  {
    ViewOfAppended(s, s.accounts.parts, map[]);
    OverlayAppend(s.db.accounts, View(s, s.accounts.parts), map[]);
  }

  lemma CreateKeepsShape(s: State)
    requires Shape(s) && Frozen(s) && s.calls.parts[|s.calls.parts| - 1] != []
    ensures Shape(CreatePartition(s)) && Frozen(CreatePartition(s))
  {
    var s' := CreatePartition(s);
    forall k: Kind
      ensures |s'.managers.At(k).parts| == |s.managers.At(k).parts| + 1
      ensures s'.managers.At(k).parts[0] == s.managers.At(k).parts[0]
    {
      assert s'.managers.At(k) == AppendPart(s.managers.At(k));
    }
  }

  lemma CreateKeepsCore(s: State)
    requires Core(s) && s.calls.parts[|s.calls.parts| - 1] != []
    ensures Core(CreatePartition(s)) && AllCalls(CreatePartition(s)) == AllCalls(s)
  {
    hide KindOk; hide Frozen; hide AccountsMatch; hide AllCalls;
    var s' := CreatePartition(s);
    forall k: Kind
      ensures KindOk(k, s'.managers.At(k), s'.db.rows.At(k), View(s', s'.managers.At(k).parts), s'.db.calls,
                     View(s', s'.calls.parts))
    {
      CreateKeepsKind(s, k);
    }
    CreateKeepsShape(s);
    CreateKeepsAccounts(s);
    CreateKeepsCalls(s);
  }

  lemma AddKeepsCore(s: State, info: CallInfo)
    requires Core(s) && Room(s) && Chargeable(s, info)
    ensures Core(AddCall(s, info)) && Room(AddCall(s, info))
    ensures AllCalls(AddCall(s, info)) == AllCalls(s) + [info.call]
  {
    hide Counters; hide AccountsMatch; hide Frozen; hide Numbered;
    EnqueueKeepsCore(s, info);
    EnqueueAppends(s, info);
    var added := Enqueue(s, info);
    if |added.calls.parts[|added.calls.parts| - 1]| >= CALLS_PARTITION_SIZE {
      CreateKeepsCore(added);
    }
  }

  /** An automatically closed partition holds an even number of legs, so partitions
      that start between CDRs end between CDRs. */
  lemma ClosedPartIsEven(start: nat, view: seq<seq<Call>>, c: Call)
    requires view != [] && |view[|view| - 1]| + 1 == CALLS_PARTITION_SIZE
    requires forall j | 0 <= j < |view| :: (start + |Flat(view[..j])|) % 2 == 0
    ensures forall j | 0 <= j <= |view| :: (start + |Flat((PushLast(view, c) + [[]])[..j])|) % 2 == 0
  {
    var n := |view|;
    var pushed := PushLast(view, c);
    var all := pushed + [[]];
    forall j | 0 <= j <= n ensures (start + |Flat(all[..j])|) % 2 == 0 {
      if j < n {
        assert all[..j] == view[..j];
      } else {
        assert all[..n] == pushed && pushed[..n - 1] == view[..n - 1];
        assert (start + |Flat(view[..n - 1])|) % 2 == 0;
        assert |Flat(pushed)| == |Flat(view[..n - 1])| + CALLS_PARTITION_SIZE;
      }
    }
  }

  lemma AddKeepsAligned(s: State, info: CallInfo)
    requires Shape(s) && Room(s) && PairAligned(s)
    ensures PairAligned(AddCall(s, info))
  {
    hide AddToAccounts; hide AddToManager; hide AppendPart; hide Flat;
    var view := View(s, s.calls.parts);
    var added := Enqueue(s, info);
    ViewOfPushed(s, s.calls.parts, info.call);
    var pushed := PushLast(view, info.call);
    assert View(added, added.calls.parts) == pushed;
    if |added.calls.parts[|added.calls.parts| - 1]| >= CALLS_PARTITION_SIZE {
      ViewOfAppended(added, added.calls.parts, []);
      assert View(AddCall(s, info), AddCall(s, info).calls.parts) == pushed + [[]];
      if !s.history.split {
        ClosedPartIsEven(|s.db.calls|, view, info.call);
      }
    }
  }

  // ---- the steps of the fetcher and the calculator ---------------------------------------

  /** The two states agree on everything the counters and the saver touch. */
  predicate SameBooks(s: State, t: State) {
    && s.calls == t.calls && s.accounts == t.accounts && s.managers == t.managers && s.saving == t.saving
    && s.db.(cdrs := []) == t.db.(cdrs := [])
  }

  lemma AlignedOfSameBooks(s: State, t: State)
    requires SameBooks(s, t) && t.history.split == s.history.split && t.history.lossy == s.history.lossy
    requires PairAligned(s)
    ensures PairAligned(t)
  {
    hide Flat;
    assert View(t, t.calls.parts) == View(s, s.calls.parts);
  }

  lemma CoreOfSameBooks(s: State, t: State)
    requires SameBooks(s, t) && Core(s)
    ensures Core(t) && AllCalls(t) == AllCalls(s)
    ensures Room(s) ==> Room(t)
    ensures PairAligned(s) && t.history.split == s.history.split && t.history.lossy == s.history.lossy ==>
              PairAligned(t)
  {
    hide KindOk, PairAligned, Flat, Overlay;
    if PairAligned(s) && t.history.split == s.history.split && t.history.lossy == s.history.lossy {
      AlignedOfSameBooks(s, t);
    }
    SameViews(s, t);
  }

  lemma SameViews(s: State, t: State)
    requires SameBooks(s, t)
    ensures forall k: Kind :: t.db.rows.At(k) == s.db.rows.At(k) && t.managers.At(k) == s.managers.At(k) &&
                              View(t, t.managers.At(k).parts) == View(s, s.managers.At(k).parts)
    ensures View(t, t.calls.parts) == View(s, s.calls.parts) && View(t, t.accounts.parts) == View(s, s.accounts.parts)
    ensures AllCalls(t) == AllCalls(s)
  {
    hide Flat;
  }

  lemma CdrArrivesKeepsQueue(s: State, cdr: Cdr)
    requires Queued(s) && ComesAfter(s.db.cdrs, cdr)
    ensures Queued(s.(db := s.db.(cdrs := s.db.cdrs + [cdr])))
  {
    var table := s.db.cdrs + [cdr];
    CdrIdsGrow(s.db.cdrs, cdr);
    assert table[s.history.done..s.history.fetched] == s.db.cdrs[s.history.done..s.history.fetched];
    if s.cdrs.lastId != 0 {
      var i :| 0 <= i < |s.db.cdrs| && s.db.cdrs[i].id == s.cdrs.lastId;
    }
  }

  lemma CdrIdsGrow(table: seq<Cdr>, cdr: Cdr)
    ensures CdrIds(table + [cdr]) == CdrIds(table) + {cdr.id}
  {
    var all := table + [cdr];
    assert all[|table|] == cdr && forall i | 0 <= i < |table| :: all[i] == table[i];
  }

  lemma CompleteOfLongerTable(s: State, t: State)
    requires Complete(s) && AllCalls(s) == AllCalls(t)
    requires s.calculator == t.calculator && s.history == t.history && s.db.cdrs <= t.db.cdrs
    ensures Complete(t)
  {
    hide AllLegs; hide AllCalls;
    var n := CdrsInSight(s);
    if n <= |s.db.cdrs| {
      assert t.db.cdrs[..n] == s.db.cdrs[..n];
    }
  }

  lemma CdrArrivesKeepsInv(s: State, cdr: Cdr)
    requires Inv(s) && Enabled(s, CdrArrives(cdr))
    ensures Inv(Step(s, CdrArrives(cdr)))
  {
    var s' := Step(s, CdrArrives(cdr));
    hide Core, Complete, PairAligned, Calculating, CdrIds, Queued, Room, AllCalls, CdrsInSight;
    CoreOfSameBooks(s, s');
    CdrArrivesKeepsQueue(s, cdr);
    CdrIdsGrow(s.db.cdrs, cdr);
    CompleteOfLongerTable(s, s');
    CalculatingOfSameHead(s, s');
  }

  lemma PageFollows(table: seq<Cdr>, done: nat, fetched: nat, to: nat)
    requires Sorted(table) && done <= fetched < to <= |table|
    ensures table[done..fetched] + table[fetched..to] == table[done..to]
    ensures forall j | 0 <= j < |table| :: table[j].id <= table[to - 1].id <==> j < to
    ensures table[to - 1].id in CdrIds(table)
  {
  }

  lemma FetchKeepsQueue(s: State)
    requires Queued(s)
    ensures Queued(StepFetch(s))
    ensures s.cdrs.queue <= StepFetch(s).cdrs.queue
  {
    hide Select; hide CdrIds; hide Sorted;
    var table, done, fetched := s.db.cdrs, s.history.done, s.history.fetched;
    if |s.cdrs.queue| < CDRS_MAX_QUEUE_SIZE {
      SelectIsSlice(table, s.cdrs.lastId, fetched, CDRS_PARTITION_SIZE);
      var page := Select(table, s.cdrs.lastId, CDRS_PARTITION_SIZE);
      if page != [] {
        var to := fetched + |page|;
        assert page == table[fetched..to] && page[|page| - 1] == table[to - 1];
        PageFollows(table, done, fetched, to);
      }
    }
  }

  lemma FetchKeepsInv(s: State)
    requires Inv(s)
    ensures Inv(StepFetch(s))
  {
    var s' := StepFetch(s);
    hide Core; hide Complete; hide PairAligned; hide Calculating; hide CdrIds; hide Queued; hide Room; hide AllCalls;
    hide Select;
    CoreOfSameBooks(s, s');
    FetchKeepsQueue(s);
    if s.cdrs.queue != [] { assert s'.cdrs.queue[0] == s.cdrs.queue[0]; }
    CalculatingOfSameHead(s, s');
    CompleteOfSameLegs(s, s');
  }

  /** The calculator looks at the first CDR of the queue only. */
  lemma CalculatingOfSameHead(s: State, t: State)
    requires SameBooks(s, t) && s.calculator == t.calculator
    requires s.cdrs.queue != [] ==> t.cdrs.queue != [] && t.cdrs.queue[0] == s.cdrs.queue[0]
    requires Calculating(s)
    ensures Calculating(t)
  {
    if s.cdrs.queue != [] {
      forall info | NamesKnown(s, info) ensures NamesKnown(t, info) {
        SameNames(s, t, info);
      }
    }
  }

  lemma SameNames(s: State, t: State, info: CallInfo)
    requires SameBooks(s, t) && NamesKnown(s, info)
    ensures NamesKnown(t, info)
  {
  }

  lemma CompleteOfSameLegs(s: State, t: State)
    requires Complete(s) && AllCalls(s) == AllCalls(t) && s.db.cdrs == t.db.cdrs && s.history.lossy == t.history.lossy
    requires LegsInSight(t) == LegsInSight(s) && CdrsInSight(t) == CdrsInSight(s)
    ensures Complete(t)
  {
  }

  lemma CalculateKeepsInv(s: State, o: CallInfo, t: CallInfo)
    requires Inv(s) && s.calculator == Ready && s.cdrs.queue != [] && !s.cdrs.queue[0].technical && Legs(s, o, t)
    ensures Inv(s.(calculator := Calculated(o, t)))
  {
    hide Core, Complete, PairAligned, CdrIds, Room, AllCalls, Queued, LegsInSight, Legs;
    var s' := s.(calculator := Calculated(o, t));
    CoreOfSameBooks(s, s');
    SameLegsInSight(s, s');
    CompleteOfSameLegs(s, s');
    QueuedOfSameCdrs(s, s');
    LegsOfSameBooks(s, s', o, t);
  }

  lemma SameLegsInSight(s: State, t: State)
    requires !s.calculator.OrigAdded? && s.calculator != Finished && !t.calculator.OrigAdded? &&
             t.calculator != Finished
    requires AllCalls(s) == AllCalls(t) && s.history == t.history
    ensures LegsInSight(t) == LegsInSight(s) && CdrsInSight(t) == CdrsInSight(s)
  {
    hide AllCalls;
  }

  lemma LegsOfSameBooks(s: State, s': State, o: CallInfo, t: CallInfo)
    requires SameBooks(s, s') && s.cdrs == s'.cdrs && s.cdrs.queue != [] && Legs(s, o, t)
    ensures Legs(s', o, t)
  {
    hide NamesKnown; hide Named;
    SameNames(s, s', o);
    SameNames(s, s', t);
  }

  lemma FirstOfQueue(s: State)
    requires Queued(s) && s.cdrs.queue != []
    ensures s.history.done < |s.db.cdrs| && s.cdrs.queue[0] == s.db.cdrs[s.history.done]
    ensures s.cdrs.queue[0].id in CdrIds(s.db.cdrs)
    ensures var n := s.history.done;
            AllLegs(s.db.cdrs[..n + 1]) == AllLegs(s.db.cdrs[..n]) + PairOf(s.cdrs.queue[0], |AllLegs(s.db.cdrs[..n])|)
  {
    var n := s.history.done;
    assert s.db.cdrs[..n + 1][..n] == s.db.cdrs[..n];
  }

  lemma QueuedOfSameCdrs(s: State, t: State)
    requires Queued(s) && t.db.cdrs == s.db.cdrs && t.cdrs == s.cdrs && t.history == s.history
    ensures Queued(t)
  {
  }

  /** A technical CDR has no legs: it is done as soon as it is looked at. */
  lemma SkipKeepsComplete(s: State)
    requires Queued(s) && Complete(s) && s.calculator == Ready && s.cdrs.queue != [] && s.cdrs.queue[0].technical
    ensures Complete(s.(calculator := Finished))
  {
    var t := s.(calculator := Finished);
    FirstOfQueue(s);
    assert AllCalls(t) == AllCalls(s) && LegsInSight(t) == LegsInSight(s);
    assert CdrsInSight(s) == s.history.done && CdrsInSight(t) == s.history.done + 1;
    hide AllCalls, AllLegs, Sorted, CdrIds, Queued, Skeleton, LegsInSight, CdrsInSight;
  }

  lemma SkipKeepsInv(s: State)
    requires Inv(s) && s.calculator == Ready && s.cdrs.queue != [] && s.cdrs.queue[0].technical
    ensures Inv(s.(calculator := Finished))
  {
    var s' := s.(calculator := Finished);
    hide Core; hide PairAligned; hide CdrIds; hide Room; hide AllCalls; hide Complete; hide Queued;
    CoreOfSameBooks(s, s');
    SkipKeepsComplete(s);
    QueuedOfSameCdrs(s, s');
  }

  lemma RemoveKeepsQueue(s: State)
    requires Queued(s) && s.cdrs.queue != []
    ensures Queued(StepRemoveCdr(s))
  {
    hide Sorted; hide CdrIds;
    assert s.db.cdrs[s.history.done..s.history.fetched][1..] == s.db.cdrs[s.history.done + 1..s.history.fetched];
  }

  lemma FinishedLegsInSight(s: State, t: State)
    requires s.calculator == Finished && t.calculator == Ready && AllCalls(s) == AllCalls(t)
    requires t.history.done == s.history.done + 1
    ensures LegsInSight(t) == LegsInSight(s) && CdrsInSight(t) == CdrsInSight(s)
  {
    hide AllCalls;
  }

  lemma RemoveCdrKeepsInv(s: State)
    requires Inv(s) && s.calculator == Finished && s.cdrs.queue != []
    ensures Inv(StepRemoveCdr(s))
  {
    hide Core, Complete, PairAligned, CdrIds, Room, AllCalls, LegsInSight, Queued;
    var s' := StepRemoveCdr(s);
    CoreOfSameBooks(s, s');
    FinishedLegsInSight(s, s');
    RemoveKeepsQueue(s);
    CompleteOfSameLegs(s, s');
  }

  /** A leg that is added changes nothing about the CDRs. */
  lemma AddLeavesTheRest(s: State, info: CallInfo)
    requires HaveParts(s)
    ensures var s' := AddCall(s, info);
            s'.db == s.db && s'.cdrs == s.cdrs && s'.saving == s.saving && s'.history == s.history
  {
    hide AddToManager; hide AddToAccounts; hide PushLast; hide AppendPart;
  }

  /** Records stay known, and stay unchanged when the leg names none of them. */
  lemma AddKeepsKnown(s: State, info: CallInfo, other: CallInfo)
    requires HaveParts(s) && NamesKnown(s, other)
    ensures NamesKnown(AddCall(s, info), other)
  {
    hide AddToAccounts; hide Charge; hide PushLast;
    var s' := AddCall(s, info);
    forall k: Kind
      ensures s.managers.At(k).live.Keys <= s'.managers.At(k).live.Keys
    {
      assert s'.managers.At(k).live == AddToManager(k, s.managers.At(k), info).live;
    }
  }

  lemma AddedCalls(s: State, info: CallInfo, s': State)
    requires Core(s) && Room(s) && Chargeable(s, info)
    requires s'.db == s.db && AllCalls(s') == AllCalls(s) + [info.call]
    requires CallsFromCdrs(s) && info.call.cdrId in CdrIds(s.db.cdrs)
    ensures CallsFromCdrs(s')
    ensures Skeleton(AllCalls(s')) == Skeleton(AllCalls(s)) + [LegOf(info.call)]
  {
  }

  /** The first leg of a CDR is in, the second in sight. */
  lemma AddOrigKeepsComplete(s: State, s': State, o: CallInfo, t: CallInfo)
    requires Queued(s) && Complete(s) && s.calculator == Calculated(o, t) && s'.calculator == OrigAdded(t)
    requires s.cdrs.queue != [] && !s.cdrs.queue[0].technical && s.calls.realtimeLastId == |AllCalls(s)|
    requires LegOf(o.call) == Leg(|AllCalls(s)| + 1, |AllCalls(s)| + 2, s.cdrs.queue[0].id, true)
    requires LegOf(t.call) == Leg(|AllCalls(s)| + 2, |AllCalls(s)| + 1, s.cdrs.queue[0].id, false)
    requires s'.history == s.history && s'.db == s.db
    requires Skeleton(AllCalls(s')) == Skeleton(AllCalls(s)) + [LegOf(o.call)]
    ensures Complete(s')
  {
    hide AllLegs; hide AllCalls; hide Skeleton;
    FirstOfQueue(s);
    SkeletonSize(s);
    if !s.history.lossy {
      assert LegsInSight(s') == Skeleton(AllCalls(s)) + PairOf(s.cdrs.queue[0], |AllCalls(s)|);
    }
  }

  lemma SkeletonSize(s: State)
    ensures |Skeleton(AllCalls(s))| == |AllCalls(s)|
  {
  }

  /** Everything the pipeline invariant says about a leg that was just added. */
  lemma AddKeepsBooks(s: State, s': State, info: CallInfo)
    requires Core(s) && Room(s) && PairAligned(s) && CallsFromCdrs(s) && Queued(s) && Chargeable(s, info)
    requires info.call.cdrId in CdrIds(s.db.cdrs)
    requires s' == AddCall(s, info).(calculator := s'.calculator)
    ensures Core(s') && Room(s') && PairAligned(s') && CallsFromCdrs(s') && Queued(s')
    ensures Skeleton(AllCalls(s')) == Skeleton(AllCalls(s)) + [LegOf(info.call)]
    ensures s'.db == s.db && s'.cdrs == s.cdrs && s'.history == s.history
    ensures s'.calls.realtimeLastId == |AllCalls(s')| == |AllCalls(s)| + 1
  {
    var added := AddCall(s, info);
    assert Shape(s);
    hide Core, PairAligned, Room, AllCalls, CdrIds, AddCall, CallsFromCdrs, Queued, Chargeable;
    AddKeepsCore(s, info);
    AddKeepsAligned(s, info);
    AddLeavesTheRest(s, info);
    CoreOfSameBooks(added, s');
    AddedCalls(s, info, s');
    QueuedOfSameCdrs(s, s');
    LastIdIsCount(s');
  }

  lemma CoreHasParts(s: State)
    requires Core(s)
    ensures HaveParts(s)
  {
  }

  /** What the two calculated legs look like to the books. */
  lemma CalculatedLegs(s: State)
    requires Calculating(s) && s.calculator.Calculated?
    ensures var o, t := s.calculator.orig, s.calculator.term;
            var last, cdrId := s.calls.realtimeLastId, s.cdrs.queue[0].id;
            && s.cdrs.queue != [] && !s.cdrs.queue[0].technical
            && Chargeable(s, o) && NamesKnown(s, t)
            && LegOf(o.call) == Leg(last + 1, last + 2, cdrId, true)
            && LegOf(t.call) == Leg(last + 2, last + 1, cdrId, false)
            && Named(Freemin, t.call) == 0 && Named(Package, t.call) == 0
  {
    hide NamesKnown;
  }

  lemma OrigAddedIsHeld(s: State, t: CallInfo)
    requires s.calculator == OrigAdded(t) && s.cdrs.queue != [] && !s.cdrs.queue[0].technical && NamesKnown(s, t)
    requires Named(Freemin, t.call) == 0 && Named(Package, t.call) == 0
    requires LegOf(t.call) == Leg(s.calls.realtimeLastId + 1, s.calls.realtimeLastId, s.cdrs.queue[0].id, false)
    ensures Calculating(s)
  {
    hide NamesKnown; hide Named;
  }

  lemma AddOrigKeepsInv(s: State)
    requires Inv(s) && s.calculator.Calculated?
    ensures Inv(StepAddOrig(s))
  {
    hide Core; hide PairAligned; hide Room; hide AllCalls; hide AllLegs; hide CdrIds; hide AddCall; hide CallsFromCdrs;
    hide Complete, NamesKnown, Queued, Skeleton, Legs, Chargeable, Named, Flat, View, Calculating;
    CoreHasParts(s);
    var s' := StepAddOrig(s);
    var o, t := s.calculator.orig, s.calculator.term;
    CalculatedLegs(s);
    LastIdIsCount(s);
    FirstOfQueue(s);
    AddKeepsBooks(s, s', o);
    AddKeepsKnown(s, o, t);
    AddOrigKeepsComplete(s, s', o, t);
    SameKnown(AddCall(s, o), s', t);
    OrigAddedIsHeld(s', t);
  }

  lemma SameKnown(s: State, t: State, info: CallInfo)
    requires s.managers == t.managers
    ensures NamesKnown(s, info) ==> NamesKnown(t, info)
  {
  }

  lemma LastIdIsCount(s: State)
    requires Core(s)
    ensures s.calls.realtimeLastId == |AllCalls(s)|
  {
  }

  lemma AddTermKeepsComplete(s: State, s': State, t: CallInfo)
    requires Complete(s) && s.calculator == OrigAdded(t) && s'.calculator == Finished
    requires s'.history == s.history && s'.db == s.db
    requires Skeleton(AllCalls(s')) == Skeleton(AllCalls(s)) + [LegOf(t.call)]
    ensures Complete(s')
  {
    hide AllLegs; hide AllCalls; hide Skeleton;
  }

  lemma HeldLeg(s: State)
    requires Calculating(s) && s.calculator.OrigAdded?
    ensures var t := s.calculator.last;
            && s.cdrs.queue != [] && Chargeable(s, t) && t.call.cdrId == s.cdrs.queue[0].id
  {
    hide NamesKnown;
  }

  lemma AddTermKeepsInv(s: State)
    requires Inv(s) && s.calculator.OrigAdded?
    ensures Inv(StepAddTerm(s))
  {
    hide Core; hide PairAligned; hide Room; hide AllCalls; hide AllLegs; hide CdrIds; hide AddCall; hide CallsFromCdrs;
    hide Complete, NamesKnown, Queued, Skeleton, Legs, Chargeable, Named, Flat, View;
    CoreHasParts(s);
    var s' := StepAddTerm(s);
    var t := s.calculator.last;
    HeldLeg(s);
    FirstOfQueue(s);
    AddKeepsBooks(s, s', t);
    AddTermKeepsComplete(s, s', t);
  }

  // ---- callers of getCurrent -----------------------------------------------------------------

  /** A record is found or opened; nothing else in the manager changes. */
  lemma GetKeepsKind(s: State, k: Kind, m: Manager, q: Query)
    requires m.parts != [] && (s.saving == Committed ==> |m.parts| >= 2)
    requires KindOk(k, m, s.db.rows.At(k), View(s, m.parts), s.db.calls, View(s, s.calls.parts))
    ensures var m' := GetCurrent(k, m, q).0;
            && |m'.parts| == |m.parts|
            && (|m.parts| >= 2 ==> m'.parts[0] == m.parts[0])
            && KindOk(k, m', s.db.rows.At(k), View(s, m'.parts), s.db.calls, View(s, s.calls.parts))
            && (forall id | id in m.live :: id in m'.live && m'.live[id] == m.live[id])
  {
    hide Snapshots; hide Listed; hide Flat; hide Overlay;
    if Lookup(k, m.live, Ids(m, q.owner), q).None? {
      hide Lookup;
      var view := View(s, m.parts);
      var m' := Open(m, q);
      OpenKeepsKind(k, m, s.db.rows.At(k), view, s.db.calls, View(s, s.calls.parts), q);
      ViewOfTouched(s, m.parts, m'.lastId, m'.live[m'.lastId]);
      assert m'.lastId !in m.live;
    }
  }

  lemma AskedManager(s: State, j: Kind, q: Query, k: Kind)
    requires HaveParts(s)
    ensures StepAsk(s, j, q).managers.At(k) == if k == j then GetCurrent(k, s.managers.At(k), q).0 else s.managers.At(k)
  {
    hide GetCurrent;
  }

  lemma AskKeepsKind(s: State, j: Kind, q: Query, k: Kind)
    requires Shape(s) && Counters(s)
    ensures var m, m' := s.managers.At(k), StepAsk(s, j, q).managers.At(k);
            && |m'.parts| == |m.parts|
            && (|m.parts| >= 2 ==> m'.parts[0] == m.parts[0])
            && KindOk(k, m', s.db.rows.At(k), View(s, m'.parts), s.db.calls, View(s, s.calls.parts))
            && (forall id | id in m.live :: id in m'.live && m'.live[id] == m.live[id])
  {
    hide KindOk; hide GetCurrent; hide View;
    AskedManager(s, j, q, k);
    if k == j {
      GetKeepsKind(s, k, s.managers.At(k), q);
    }
  }

  /** A question changes managers only. */
  predicate OnlyManagers(s: State, t: State) {
    t == s.(managers := t.managers)
  }

  lemma AskKeepsCore(s: State, t: State, j: Kind, q: Query)
    requires Core(s) && OnlyManagers(s, t) && t == StepAsk(s, j, q)
    ensures Core(t) && AllCalls(t) == AllCalls(s)
  {
    hide KindOk; hide StepAsk; hide Overlay; hide Flat;
    forall k: Kind
      ensures |t.managers.At(k).parts| == |s.managers.At(k).parts|
      ensures |s.calls.parts| >= 2 ==> t.managers.At(k).parts[0] == s.managers.At(k).parts[0]
      ensures KindOk(k, t.managers.At(k), t.db.rows.At(k), View(t, t.managers.At(k).parts), t.db.calls,
                     View(t, t.calls.parts))
    {
      AskKeepsKind(s, j, q, k);
    }
  }

  /** More records are known, the old ones unchanged: held legs stay good. */
  lemma MoreKnown(s: State, t: State, info: CallInfo)
    requires forall k: Kind, id | id in s.managers.At(k).live ::
               id in t.managers.At(k).live && t.managers.At(k).live[id] == s.managers.At(k).live[id]
    requires NamesKnown(s, info)
    ensures NamesKnown(t, info)
  {
  }

  lemma AskKeepsCalculating(s: State, t: State, j: Kind, q: Query)
    requires Shape(s) && Counters(s) && Calculating(s) && OnlyManagers(s, t) && t == StepAsk(s, j, q)
    ensures Calculating(t)
  {
    hide KindOk; hide StepAsk; hide Counters; hide NamesKnown; hide Named;
    forall k: Kind, id | id in s.managers.At(k).live
      ensures id in t.managers.At(k).live && t.managers.At(k).live[id] == s.managers.At(k).live[id]
    {
      AskKeepsKind(s, j, q, k);
    }
    match s.calculator
    case Calculated(o, u) =>
      MoreKnown(s, t, o);
      MoreKnown(s, t, u);
    case OrigAdded(u) => MoreKnown(s, t, u);
    case _ =>
  }

  /** The parts of the invariant that are about legs and CDRs only. */
  predicate Pipeline(s: State) {
    CallsFromCdrs(s) && Queued(s) && Complete(s) && PairAligned(s)
  }

  lemma PipelineOfSameLegs(s: State, t: State)
    requires Pipeline(s) && AllCalls(s) == AllCalls(t) && s.history == t.history && s.cdrs == t.cdrs
    requires s.calculator == t.calculator && s.db.cdrs == t.db.cdrs && s.db.calls == t.db.calls
    requires View(s, s.calls.parts) == View(t, t.calls.parts)
    ensures Pipeline(t)
  {
    hide AllCalls; hide AllLegs; hide View; hide Sorted; hide CdrIds; hide Flat;
  }

  lemma AskKeepsInv(s: State, j: Kind, q: Query)
    requires Inv(s)
    ensures Inv(StepAsk(s, j, q))
  {
    var t := StepAsk(s, j, q);
    assert OnlyManagers(s, t) && View(t, t.calls.parts) == View(s, s.calls.parts);
    assert Shape(s) && Counters(s);
    hide StepAsk, AllCalls, Shape, Counters, Complete, Queued, PairAligned, CallsFromCdrs, Calculating;
    AskKeepsCore(s, t, j, q);
    AskKeepsCalculating(s, t, j, q);
    hide Core; hide View;
    PipelineOfSameLegs(s, t);
  }

  // ---- the saver --------------------------------------------------------------------------

  /** Changing nothing but the saver's own variables, while it is not between commit
      and removal, leaves what is still to be written the same. */
  predicate OnlySaver(s: State, t: State) {
    t == s.(saving := t.saving) && s.saving != Committed && t.saving != Committed
  }

  lemma SaverKeepsInv(s: State, t: State)
    requires Inv(s) && OnlySaver(s, t)
    requires Frozen(t) && (t.saving != Idle ==> |t.calls.parts| >= 2)
    ensures Inv(t)
  {
    assert View(t, t.calls.parts) == View(s, s.calls.parts) && AllCalls(s) == AllCalls(t);
    SaverKeepsCore(s, t);
    hide Core, Calculating, Complete, Queued, PairAligned, CallsFromCdrs, AllCalls, View, Frozen;
    PipelineOfSameLegs(s, t);
    SaverKeepsCalculating(s, t);
  }

  lemma SaverKeepsCore(s: State, t: State)
    requires Core(s) && OnlySaver(s, t)
    requires Frozen(t) && (t.saving != Idle ==> |t.calls.parts| >= 2)
    ensures Core(t) && AllCalls(t) == AllCalls(s)
  {
    hide KindOk; hide Overlay; hide Flat; hide Frozen;
  }

  lemma SaverKeepsCalculating(s: State, t: State)
    requires Calculating(s) && s.managers == t.managers && s.calls == t.calls && s.cdrs == t.cdrs &&
             s.calculator == t.calculator
    ensures Calculating(t)
  {
    hide Named;
  }

  lemma SaveBeginKeepsInv(s: State)
    requires Inv(s) && s.saving == Idle
    ensures Inv(StepSaveBegin(s))
  {
    hide Counters, AccountsMatch, Numbered, Calculating, Complete, Queued, CallsFromCdrs, AllCalls, AppendPart;
    var none := Preparing(None, None, NOTHING_PREPARED);
    if NeedSave(s) {
      if |s.calls.parts| == 1 {
        CutKeepsInv(s);
        var cut := CreatePartition(s).(history := StepSaveBegin(s).history);
        assert cut.saving == Idle;
        hide PairAligned; hide CreatePartition;
        SaverKeepsInv(cut, cut.(saving := none));
      } else {
        hide PairAligned;
        SaverKeepsInv(s, s.(saving := none));
      }
    }
  }

  /** A partition closed to be saved may end within a pair; then this is recorded. */
  lemma CutKeepsInv(s: State)
    requires Inv(s) && s.saving == Idle && |s.calls.parts| == 1 && NeedSave(s)
    ensures Inv(CreatePartition(s).(history := s.history.(split := s.history.split || |AllCalls(s)| % 2 == 1)))
  {
    var cut := CreatePartition(s);
    var t := cut.(history := s.history.(split := s.history.split || |AllCalls(s)| % 2 == 1));
    CreateKeepsCore(s);
    hide AppendPart;
    CutKeepsAligned(s, t);
    hide PairAligned, AllCalls, Core, CreatePartition, Calculating, Complete, Queued, CallsFromCdrs;
    CoreOfSameBooks(cut, t);
    CutKeepsRest(s, t);
  }

  lemma CutKeepsAligned(s: State, t: State)
    requires HaveParts(s) && PairAligned(s) && s.saving == Idle && |s.calls.parts| == 1
    requires t == CreatePartition(s).(history := s.history.(split := s.history.split || |AllCalls(s)| % 2 == 1))
    ensures PairAligned(t)
  {
    hide AppendPart;
    var parts := s.calls.parts;
    assert View(t, t.calls.parts) == parts + [[]];
    if !t.history.split {
      forall j | 0 <= j < 2 ensures (|t.db.calls| + |Flat((parts + [[]])[..j])|) % 2 == 0 {
        if j == 0 {
          assert (parts + [[]])[..0] == parts[..0];
          assert (|s.db.calls| + |Flat(View(s, parts)[..0])|) % 2 == 0;
        } else {
          assert (parts + [[]])[..1] == parts;
        }
      }
    }
  }

  lemma CutKeepsRest(s: State, t: State)
    requires HaveParts(s) && CallsFromCdrs(s) && Queued(s) && Complete(s) && Calculating(s)
    requires AllCalls(t) == AllCalls(s)
    requires t == CreatePartition(s).(history := s.history.(split := t.history.split))
    ensures CallsFromCdrs(t) && Queued(t) && Complete(t) && Calculating(t) && Room(t)
  {
    hide AllCalls; hide AllLegs; hide Sorted; hide CdrIds; hide Named;
    forall k: Kind ensures t.managers.At(k).live == s.managers.At(k).live {
      assert t.managers.At(k) == AppendPart(s.managers.At(k));
    }
    assert forall info :: NamesKnown(s, info) ==> NamesKnown(t, info);
  }

  lemma PrepareKeepsInv(s: State, t: State)
    requires Inv(s) && s.saving.Preparing? && t.saving.Preparing? && OnlySaver(s, t)
    requires t.saving.calls == s.saving.calls || t.saving.calls == Some(s.calls.parts[0])
    requires t.saving.accounts == s.saving.accounts || t.saving.accounts == Some(s.accounts.parts[0])
    requires forall k: Kind ::
               t.saving.rows.At(k) == s.saving.rows.At(k) || t.saving.rows.At(k) == Some(s.managers.At(k).parts[0])
    ensures Inv(t)
  {
    hide Counters, AccountsMatch, Numbered, Calculating, Complete, Queued, CallsFromCdrs, PairAligned;
    SaverKeepsInv(s, t);
  }

  predicate AllPrepared(s: State) {
    && s.saving.Preparing? && s.saving.calls.Some? && s.saving.accounts.Some?
    && forall k: Kind :: s.saving.rows.At(k).Some?
  }

  lemma CommittedRows(s: State, k: Kind)
    requires HaveParts(s) && Frozen(s) && AllPrepared(s)
    ensures StepCommit(s).db.rows.At(k) == s.db.rows.At(k) + s.managers.At(k).parts[0]
    ensures StepCommit(s).db.accounts == s.db.accounts + s.accounts.parts[0]
    ensures StepCommit(s).db.calls == s.db.calls + s.calls.parts[0]
    ensures StepCommit(s).managers == s.managers && StepCommit(s).calls == s.calls
    ensures StepCommit(s).accounts == s.accounts && StepCommit(s).saving == Committed
  {
  }

  /** A committed transaction stores exactly partition 0 of everything. */
  lemma CommitKeepsCounters(s: State)
    requires Shape(s) && Frozen(s) && Counters(s) && AccountsMatch(s) && AllPrepared(s)
    ensures Counters(StepCommit(s)) && AccountsMatch(StepCommit(s))
  {
    var t := StepCommit(s);
    forall k: Kind
      ensures KindOk(k, t.managers.At(k), t.db.rows.At(k), View(t, t.managers.At(k).parts), t.db.calls,
                     View(t, t.calls.parts))
    {
      hide Frozen, AllPrepared, StepCommit, Snapshots, LiveMatches, Listed, Flat, AccountsMatch;
      CommittedRows(s, k);
      CommitKeepsKind(k, s.managers.At(k), s.db.rows.At(k), s.managers.At(k).parts, s.db.calls, s.calls.parts);
    }
    CommittedRows(s, Freemin);
    hide KindOk; hide StepCommit; hide Frozen; hide AllPrepared;
    OverlayShift(s.db.accounts, s.accounts.parts);
  }

  lemma CommitKeepsCalls(s: State)
    requires Shape(s) && Frozen(s) && AllPrepared(s)
    ensures AllCalls(StepCommit(s)) == AllCalls(s)
    ensures Shape(StepCommit(s)) && Frozen(StepCommit(s))
  {
    FlatShift(s.calls.parts);
    CommittedRows(s, Freemin);
    CommitFreezes(s);
    hide Shape, Frozen, Flat, StepCommit, AllPrepared;
    assert s.db.calls + s.calls.parts[0] + Flat(s.calls.parts[1..]) == s.db.calls +
           (s.calls.parts[0] + Flat(s.calls.parts[1..]));
  }

  lemma CommitFreezes(s: State)
    requires Shape(s) && Frozen(s) && AllPrepared(s)
    ensures Shape(StepCommit(s)) && Frozen(StepCommit(s))
  {
    hide Flat;
    var t := StepCommit(s);
    forall k: Kind ensures t.db.rows.At(k) + s.managers.At(k).parts[0] == t.db.rows.At(k) {
      CommittedRows(s, k);
    }
    hide StepCommit;
    assert t.db.calls[|t.db.calls| - |s.calls.parts[0]|..] == s.calls.parts[0];
  }

  lemma CommitKeepsAligned(s: State)
    requires Shape(s) && Frozen(s) && PairAligned(s) && AllPrepared(s)
    ensures PairAligned(StepCommit(s))
  {
    var t := StepCommit(s);
    CommittedRows(s, Freemin);
    assert t.history == s.history;
    hide StepCommit;
    var parts := s.calls.parts;
    assert View(s, parts) == parts && View(t, parts) == parts[1..];
    forall j | 0 <= j < |parts| - 1
      ensures !s.history.split ==> (|t.db.calls| + |Flat(parts[1..][..j])|) % 2 == 0
    {
      FlatShift(parts[..j + 1]);
      assert parts[..j + 1][1..] == parts[1..][..j];
      assert !s.history.split ==> (|s.db.calls| + |Flat(parts[..j + 1])|) % 2 == 0;
    }
  }

  lemma CommitKeepsCore(s: State)
    requires Core(s) && AllPrepared(s)
    ensures Core(StepCommit(s)) && AllCalls(StepCommit(s)) == AllCalls(s)
  {
    hide StepCommit, Counters, AccountsMatch, Shape, Frozen, AllPrepared, AllCalls, Flat;
    CommittedRows(s, Freemin) by { CoreHasParts(s); }
    CommitKeepsCalls(s);
    CommitKeepsCounters(s);
  }

  lemma CommitKeepsInv(s: State)
    requires Inv(s) && AllPrepared(s)
    ensures Inv(StepCommit(s))
  {
    var t := StepCommit(s);
    CommittedRows(s, Freemin);
    assert t.history == s.history && t.cdrs == s.cdrs && t.calculator == s.calculator && t.db.cdrs == s.db.cdrs;
    assert Shape(s) && Frozen(s);
    CommitKeepsCore(s);
    hide StepCommit, Calculating, Queued, CallsFromCdrs, AllCalls, Flat, Complete, Frozen, Shape, AllPrepared, Core;
    CommitKeepsAligned(s);
    hide PairAligned;
    CommitKeepsRest(s, t);
  }

  lemma CommitKeepsRest(s: State, t: State)
    requires CallsFromCdrs(s) && Queued(s) && Complete(s) && Calculating(s) && AllCalls(t) == AllCalls(s)
    requires t.history == s.history && t.cdrs == s.cdrs && t.calculator == s.calculator && t.db.cdrs == s.db.cdrs
    requires t.managers == s.managers && t.calls == s.calls
    ensures CallsFromCdrs(t) && Queued(t) && Complete(t) && Calculating(t)
  {
    hide AllCalls; hide AllLegs; hide Sorted; hide CdrIds;
    SaverKeepsCalculating(s, t);
    hide Calculating;
  }

  // After a commit, dropping partition 0 changes nothing that is still to be written.

  lemma DroppedManager(s: State, k: Kind)
    requires HaveParts(s)
    ensures StepRemove(s).managers.At(k) == DropPart(s.managers.At(k))
  {
  }

  lemma RemoveKeepsCalls(s: State)
    requires Shape(s) && Frozen(s) && Numbered(s) && s.saving == Committed
    ensures AllCalls(StepRemove(s)) == AllCalls(s)
    ensures View(StepRemove(s), StepRemove(s).calls.parts) == View(s, s.calls.parts)
    ensures Numbered(StepRemove(s))
  {
    var t := StepRemove(s);
    assert t.calls.parts == s.calls.parts[1..] && t.saving == Idle && t.db == s.db;
    FlatShift(s.calls.parts);
    assert AllCalls(t) == AllCalls(s);
    var first := s.calls.parts[0];
    assert s.calls.parts[0] != [];
    assert AllCalls(s)[|s.db.calls| - 1] == s.db.calls[|s.db.calls| - 1] == first[|first| - 1];
  }

  lemma RemoveKeepsShape(s: State)
    requires Shape(s) && Room(s) && s.saving == Committed
    ensures Shape(StepRemove(s)) && Frozen(StepRemove(s)) && Room(StepRemove(s))
  {
    var t := StepRemove(s);
    forall k: Kind ensures |t.managers.At(k).parts| == |s.managers.At(k).parts| - 1 { DroppedManager(s, k); }
  }

  lemma RemoveKeepsCore(s: State)
    requires Core(s) && Room(s) && s.saving == Committed
    ensures Core(StepRemove(s)) && Room(StepRemove(s)) && AllCalls(StepRemove(s)) == AllCalls(s)
    ensures View(StepRemove(s), StepRemove(s).calls.parts) == View(s, s.calls.parts)
  {
    var t := StepRemove(s);
    RemoveKeepsShape(s);
    RemoveKeepsCalls(s);
    forall k: Kind ensures t.managers.At(k) == DropPart(s.managers.At(k)) { DroppedManager(s, k); }
    assert t.db == s.db && t.saving == Idle && t.accounts == s.accounts.(parts := s.accounts.parts[1..]);
    hide KindOk; hide Overlay; hide Flat; hide StepRemove; hide Numbered; hide DropPart;
    DroppedKinds(s, t);
    hide Counters;
  }

  lemma DroppedKinds(s: State, t: State)
    requires Shape(s) && Counters(s) && s.saving == Committed && t.saving == Idle && t.db == s.db
    requires t.calls.parts == s.calls.parts[1..]
    requires forall k: Kind :: t.managers.At(k) == DropPart(s.managers.At(k))
    ensures Counters(t)
  {
    hide Snapshots; hide Overlay;
  }

  lemma RemoveKeepsInv(s: State)
    requires Inv(s) && s.saving == Committed
    ensures Inv(StepRemove(s))
  {
    var t := StepRemove(s);
    RemoveKeepsCore(s);
    assert t.history == s.history && t.cdrs == s.cdrs && t.calculator == s.calculator && t.db == s.db;
    assert t.calls.realtimeLastId == s.calls.realtimeLastId;
    forall k: Kind ensures t.managers.At(k).live == s.managers.At(k).live { DroppedManager(s, k); }
    hide StepRemove, Core, AllCalls, Flat, Calculating, Complete, Queued, CallsFromCdrs, PairAligned, Room, View;
    PipelineOfSameLegs(s, t);
    RemoveKeepsCalculating(s, t);
  }

  lemma RemoveKeepsCalculating(s: State, t: State)
    requires Calculating(s) && s.cdrs == t.cdrs && s.calculator == t.calculator
    requires t.calls.realtimeLastId == s.calls.realtimeLastId
    requires forall k: Kind :: t.managers.At(k).live == s.managers.At(k).live
    ensures Calculating(t)
  {
    hide Named;
    assert forall info :: NamesKnown(s, info) ==> NamesKnown(t, info);
  }

  // ---- a restart --------------------------------------------------------------------------------

  lemma {:induction false} MaxCdrIdIsFromTable(calls: seq<Call>, ids: set<int>)
    requires forall i | 0 <= i < |calls| :: calls[i].cdrId in ids
    ensures calls != [] ==> MaxCdrId(calls) in ids
    ensures calls == [] ==> MaxCdrId(calls) == 0
  {
    if |calls| > 1 {
      MaxCdrIdIsFromTable(calls[..|calls| - 1], ids);
    }
  }

  lemma StoredIsPrefix(s: State)
    ensures forall i | 0 <= i < |s.db.calls| :: i < |AllCalls(s)| && AllCalls(s)[i] == s.db.calls[i]
    ensures Skeleton(s.db.calls) <= LegsInSight(s)
  {
    hide Flat;
    var all, legs := AllCalls(s), LegsInSight(s);
    assert |s.db.calls| <= |all| <= |legs|;
    forall i | 0 <= i < |s.db.calls| ensures Skeleton(s.db.calls)[i] == legs[i] {
      assert all[i] == s.db.calls[i] && legs[i] == LegOf(all[i]);
    }
    assert Skeleton(s.db.calls) == legs[..|s.db.calls|];
  }

  lemma RestartKeepsKind(s: State, listings: PerKind<Listing>, maxIds: PerKind<int>, k: Kind)
    requires Counters(s)
    requires Lists(listings.At(k), Recent(s.db.rows.At(k), MaxTime(s.db.calls))) &&
             IsMaxKey(s.db.rows.At(k), maxIds.At(k))
    ensures var t := StepRestart(s, listings, maxIds);
            && |t.managers.At(k).parts| == 1
            && KindOk(k, t.managers.At(k), t.db.rows.At(k), View(t, t.managers.At(k).parts), t.db.calls,
                      View(t, t.calls.parts))
  {
    hide Snapshots; hide LiveMatches; hide Listed; hide Recent; hide Lists; hide IsMaxKey;
    var t := StepRestart(s, listings, maxIds);
    assert t.managers.At(k) == Loaded(s.db.rows.At(k), MaxTime(s.db.calls), listings.At(k), maxIds.At(k));
    assert t.db == s.db && t.saving == Idle && t.calls.parts == [[]];
    LoadKeepsKind(k, s.managers.At(k), s.db.rows.At(k), View(s, s.managers.At(k).parts), s.db.calls,
                  View(s, s.calls.parts),
                  listings.At(k), maxIds.At(k), MaxTime(s.db.calls));
  }

  lemma RestartKeepsCounters(s: State, listings: PerKind<Listing>, maxIds: PerKind<int>)
    requires Counters(s) && HaveParts(s) && Enabled(s, Restart(listings, maxIds))
    ensures Counters(StepRestart(s, listings, maxIds))
    ensures forall k: Kind :: |StepRestart(s, listings, maxIds).managers.At(k).parts| == 1
  {
    var t := StepRestart(s, listings, maxIds);
    hide KindOk; hide Recent; hide Lists; hide IsMaxKey; hide StepRestart;
    forall k: Kind
      ensures |t.managers.At(k).parts| == 1
      ensures KindOk(k, t.managers.At(k), t.db.rows.At(k), View(t, t.managers.At(k).parts), t.db.calls,
                     View(t, t.calls.parts))
    {
      RestartKeepsKind(s, listings, maxIds, k);
    }
  }

  lemma RestartKeepsCore(s: State, listings: PerKind<Listing>, maxIds: PerKind<int>)
    requires Core(s) && Enabled(s, Restart(listings, maxIds))
    ensures Core(StepRestart(s, listings, maxIds)) && Room(StepRestart(s, listings, maxIds))
    ensures AllCalls(StepRestart(s, listings, maxIds)) == s.db.calls
  {
    var t := StepRestart(s, listings, maxIds);
    assert t.db == s.db && t.saving == Idle && t.accounts == Accounts(s.db.accounts, [map[]]);
    assert t.calls == Calls([[]], MaxId(s.db.calls), MaxId(s.db.calls));
    hide Lists; hide Recent; hide IsMaxKey; hide Loaded; hide KindOk;
    RestartKeepsCounters(s, listings, maxIds);
    hide StepRestart; hide Enabled; hide Counters;
    var none: seq<map<int, AC.AccountRow>> := [map[]];
    assert none[..0] == [] && Overlay(t.db.accounts, none) == t.db.accounts;
    var empty: seq<seq<Call>> := [[]];
    assert empty[..0] == [] && Flat(empty) == [];
    StoredIsPrefix(s);
    MaxIdIsCount(s.db.calls);
  }

  lemma RestartKeepsQueue(s: State, t: State)
    requires CallsFromCdrs(s) && Sorted(s.db.cdrs) && t.db == s.db
    requires t.cdrs == Cdrs([], MaxCdrId(s.db.calls))
    requires t.history.done == t.history.fetched == CountUpTo(s.db.cdrs, MaxCdrId(s.db.calls))
    ensures Queued(t)
  {
    hide CdrIds; hide AllCalls;
    StoredIsPrefix(s);
    CountUpToSplits(s.db.cdrs, MaxCdrId(s.db.calls));
    MaxCdrIdIsFromTable(s.db.calls, CdrIds(s.db.cdrs));
  }

  /** With no pair cut, the stored legs are the legs of the CDRs the restart skips. */
  lemma RestartKeepsComplete(s: State, t: State)
    requires Complete(s) && Sorted(s.db.cdrs) && t.db == s.db && AllCalls(t) == s.db.calls
    requires t.calculator == Ready && t.history.done == CountUpTo(s.db.cdrs, MaxCdrId(s.db.calls))
    requires t.history.lossy == (s.history.lossy || |s.db.calls| % 2 == 1)
    ensures Complete(t)
  {
    hide AllCalls; hide AllLegs; hide Sorted;
    if !t.history.lossy {
      var n := CdrsInSight(s);
      AllLegsPrefix(s.db.cdrs, n);
      StoredIsPrefix(s);
      EvenCutIsAtACdr(s.db.cdrs, s.db.calls);
    }
  }

  lemma RestartKeepsAligned(s: State, t: State)
    requires HaveParts(s) && PairAligned(s) && (s.saving == Committed ==> |s.calls.parts| >= 2)
    requires t.db == s.db && t.calls.parts == [[]] && t.saving == Idle
    requires t.history.split == s.history.split && t.history.lossy == (s.history.lossy || |s.db.calls| % 2 == 1)
    ensures PairAligned(t)
  {
    var view := View(s, s.calls.parts);
    assert view[..0] == [] && t.calls.parts[..0] == [];
    if !s.history.split {
      assert (|s.db.calls| + |Flat(view[..0])|) % 2 == 0;
    }
  }

  lemma RestartedFields(s: State, listings: PerKind<Listing>, maxIds: PerKind<int>)
    ensures var t := StepRestart(s, listings, maxIds);
            && t.db == s.db && t.calculator == Ready && t.saving == Idle && t.calls.parts == [[]]
            && t.cdrs == Cdrs([], MaxCdrId(s.db.calls)) && t.history.split == s.history.split
            && t.history.done == t.history.fetched == CountUpTo(s.db.cdrs, MaxCdrId(s.db.calls))
            && t.history.lossy == (s.history.lossy || |s.db.calls| % 2 == 1)
  {
    hide Loaded, MaxId, MaxCdrId, MaxTime, CountUpTo;
  }

  lemma RestartKeepsInv(s: State, listings: PerKind<Listing>, maxIds: PerKind<int>)
    requires Inv(s) && Enabled(s, Restart(listings, maxIds))
    ensures Inv(StepRestart(s, listings, maxIds))
  {
    hide StepRestart, AllCalls, Flat, Complete, PairAligned, Room, CdrIds, Counters, Frozen, AccountsMatch, Numbered,
         Lists, IsMaxKey;
    var t := StepRestart(s, listings, maxIds);
    RestartedFields(s, listings, maxIds);
    RestartKeepsCore(s, listings, maxIds);
    RestartKeepsQueue(s, t);
    RestartKeepsComplete(s, t);
    RestartKeepsAligned(s, t);
    StoredIsPrefix(s);
  }

  // ---- every run ------------------------------------------------------------------------------------

  lemma StartCounters()
    ensures Counters(START)
  {
    var none: seq<map<int, Row>> := [map[]];
    var empty: seq<seq<Call>> := [[]];
    assert none[..0] == [] && none[..1] == none && empty[..0] == [] && empty[..1] == empty;
    assert Flat(empty) == [] && Overlay(map[], none) == map[];
    hide Flat, Overlay;
    forall k: Kind ensures START.managers.At(k) == Manager(map[], map[], none, 0) && START.db.rows.At(k) == map[] {}
  }

  lemma StartIsGood()
    ensures Inv(START)
  {
    hide Counters;
    StartCounters();
    var empty: seq<seq<Call>> := [[]];
    assert empty[..0] == [] && Flat(empty) == [];
    var noAccounts: seq<map<int, AC.AccountRow>> := [map[]];
    assert noAccounts[..0] == [] && Overlay(map[], noAccounts) == map[];
    assert AllLegs([]) == [];
    assert START.db.cdrs[..0] == [];
  }

  lemma StepKeepsInv(s: State, e: Event)
    requires Inv(s) && Enabled(s, e)
    ensures Inv(Step(s, e))
  {
    CoreHasParts(s);
    match e
    case CdrArrives(cdr) => CdrArrivesKeepsInv(s, cdr);
    case Fetch => FetchKeepsInv(s);
    case Calculate(o, t) => CalculateKeepsInv(s, o, t);
    case SkipTechnical => SkipKeepsInv(s);
    case AddOrig => AddOrigKeepsInv(s);
    case AddTerm => AddTermKeepsInv(s);
    case RemoveCdr => RemoveCdrKeepsInv(s);
    case Ask(k, q) => AskKeepsInv(s, k, q);
    case SaveBegin => SaveBeginKeepsInv(s);
    case PrepareCalls => PrepareStepKeepsInv(s, e);
    case PrepareAccounts => PrepareStepKeepsInv(s, e);
    case PrepareRows(k) => PrepareStepKeepsInv(s, e);
    case Commit => CommitKeepsInv(s);
    case SaveFails => SaverKeepsInv(s, Step(s, e));
    case RemovePartition => RemoveKeepsInv(s);
    case Restart(listings, maxIds) => RestartKeepsInv(s, listings, maxIds);
  }

  lemma PrepareStepKeepsInv(s: State, e: Event)
    requires Inv(s) && s.saving.Preparing? && (e.PrepareCalls? || e.PrepareAccounts? || e.PrepareRows?)
    requires Enabled(s, e)
    ensures Inv(Step(s, e))
  {
    hide Counters, AccountsMatch, Numbered, Calculating, Complete, Queued, CallsFromCdrs, PairAligned;
    PrepareKeepsInv(s, Step(s, e));
  }

  /** Every run from a good state ends in a good state: no interleaving of the threads,
      no failed save and no restart breaks the invariant. */
  lemma {:induction false} RunKeepsInv(s: State, events: seq<Event>)
    requires Inv(s) && Runs(s, events)
    ensures Inv(Final(s, events))
    decreases |events|
  {
    hide Inv;
    if events != [] {
      assert HaveParts(s) && Enabled(s, events[0]);
      hide Enabled; hide Step;
      StepKeepsInv(s, events[0]);
      RunKeepsInv(Step(s, events[0]), events[1..]);
    }
  }
}
