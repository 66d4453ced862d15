/** One record for every moment, over whole runs of the pipeline with restarts: a record that a
    restart did not read back began too early to be read back ever again. */
module WindowsOfRuns {
  import opened Models
  import opened Ledger
  import opened BillingState
  import opened BillingInvariant
  import opened BillingSafety
  import opened BillingTheorems
  import opened StatsWindows

  // ---- a table with partitions ---------------------------------------------------------

  /** Every version of a record, stored or queued, has the window of the latest. */
  ghost predicate WindowsKept(base: map<int, Row>, parts: seq<map<int, Row>>) {
    var all := Overlay(base, parts);
    SameWindows(base, all) && forall j | 0 <= j < |parts| :: SameWindows(parts[j], all)
  }

  predicate SameWindows(rows: map<int, Row>, all: map<int, Row>) {
    forall id | id in rows :: id in all && SameRecordWindow(rows[id], all[id])
  }

  lemma SameWindowsAfter(rows: map<int, Row>, all: map<int, Row>, id: int, row: Row)
    requires SameWindows(rows, all) && (id in all ==> SameRecordWindow(row, all[id]))
    ensures SameWindows(rows, all[id := row]) && SameWindows(rows[id := row], all[id := row])
  {
  }

  lemma {:induction false} TouchKeepsWindows(base: map<int, Row>, parts: seq<map<int, Row>>, id: int, row: Row)
    requires WindowsKept(base, parts) && parts != []
    requires id in Overlay(base, parts) ==> SameRecordWindow(row, Overlay(base, parts)[id])
    ensures WindowsKept(base, Touch(parts, id, row)) &&
            Overlay(base, Touch(parts, id, row)) == Overlay(base, parts)[id := row]
  {
    hide Overlay, SameWindows;
    var all, touched := Overlay(base, parts), Touch(parts, id, row);
    OverlayTouch(base, parts, id, row);
    SameWindowsAfter(base, all, id, row);
    forall j | 0 <= j < |touched|
      ensures SameWindows(touched[j], all[id := row])
    {
      SameWindowsAfter(parts[j], all, id, row);
    }
  }

  lemma {:induction false} AppendKeepsWindows(base: map<int, Row>, parts: seq<map<int, Row>>)
    requires WindowsKept(base, parts)
    ensures WindowsKept(base, parts + [map[]]) && Overlay(base, parts + [map[]]) == Overlay(base, parts)
  {
    hide Overlay;
    OverlayAppend(base, parts, map[]);
  }

  lemma {:induction false} CommitKeepsWindows(base: map<int, Row>, parts: seq<map<int, Row>>)
    requires WindowsKept(base, parts) && parts != []
    ensures WindowsKept(base + parts[0], parts[1..]) && Overlay(base + parts[0], parts[1..]) == Overlay(base, parts)
  {
    hide Overlay;
    OverlayShift(base, parts);
  }

  lemma {:induction false} LoadKeepsWindows(base: map<int, Row>)
    ensures WindowsKept(base, [map[]]) && Overlay(base, [map[]]) == base
  {
    var parts: seq<map<int, Row>> := [map[]];
    assert parts[..0] == [];
  }

  // ---- what was not read back ------------------------------------------------------------

  /** Records that are not in memory began before the time from which records are read back. As long
      as nothing is stored there are none. */
  ghost predicate OldIfGone(live: map<int, Row>, base: map<int, Row>, all: map<int, Row>, calls: seq<Call>) {
    && (calls == [] ==> base == map[])
    && forall id | id in all && id !in live :: calls != [] && all[id].from < FilterFrom(MaxTime(calls))
  }

  predicate Timely(calls: seq<Call>) {
    forall c | c in calls :: c.connectTime > 0
  }

  lemma {:induction false} MaxTimeIsPositive(calls: seq<Call>)
    requires Timely(calls) && calls != []
    ensures MaxTime(calls) > 0
  {
    assert calls[|calls| - 1] in calls;
  }

  lemma {:induction false} MaxTimeGrows(calls: seq<Call>, more: seq<Call>)
    requires calls != []
    ensures MaxTime(calls) <= MaxTime(calls + more)
    decreases |more|
  {
    if more == [] {
      assert calls + more == calls;
    } else {
      var all := calls + more;
      assert all[..|all| - 1] == calls + more[..|more| - 1];
      MaxTimeGrows(calls, more[..|more| - 1]);
    }
  }

  /** The later the last stored call, the later the time from which records are read back. */
  lemma FilterGrows(calls: seq<Call>, more: seq<Call>)
    requires calls != [] && Timely(calls)
    ensures FilterFrom(MaxTime(calls)) <= FilterFrom(MaxTime(calls + more))
  {
    hide MaxTime;
    MaxTimeIsPositive(calls);
    MaxTimeGrows(calls, more);
  }

  // ---- a manager -------------------------------------------------------------------------------

  ghost predicate OneForEach(m: Manager, base: map<int, Row>, view: seq<map<int, Row>>, calls: seq<Call>,
                             owner: int, window: int -> (int, int), when: int -> bool) {
    OnePerWindow(m, owner, window, when) && WindowsKept(base, view) &&
      OldIfGone(m.live, base, Overlay(base, view), calls)
  }

  /** What the owner's windows depend on. */
  lemma {:induction false} SameRecords(m: Manager, n: Manager, owner: int, window: int -> (int, int), when: int -> bool)
    requires OnePerWindow(m, owner, window, when) && n.live == m.live && n.byOwner == m.byOwner
    ensures OnePerWindow(n, owner, window, when)
  {
  }

  lemma {:induction false} AddKeepsOne(k: Kind, m: Manager, base: map<int, Row>, view: seq<map<int, Row>>,
                                       calls: seq<Call>, info: CallInfo,
                                       owner: int, window: int -> (int, int), when: int -> bool)
    requires OneForEach(m, base, view, calls, owner, window, when) && m.parts != [] && view != []
    requires LiveMatches(m, Overlay(base, view)) && (Named(k, info.call) == 0 || Named(k, info.call) in m.live)
    requires k == Package && Named(k, info.call) != 0 ==> info.prepaid
    ensures OneForEach(AddToManager(k, m, info), base, ChargedParts(k, m, view, info.call), calls, owner, window, when)
  {
    hide OnePerWindow, WindowsKept, Overlay, Charge, Named, MaxTime, FilterFrom;
    ChargingKeepsOnePerWindow(k, m, info, owner, window, when);
    var id := Named(k, info.call);
    if id != 0 {
      ChargeKeepsWindow(k, m.live[id], info.call);
      TouchKeepsWindows(base, view, id, Charge(k, m.live[id], info.call));
    }
  }

  lemma {:induction false} OpenKeepsOne(k: Kind, m: Manager, base: map<int, Row>, view: seq<map<int, Row>>,
                                        calls: seq<Call>, q: Query,
                                        owner: int, window: int -> (int, int), when: int -> bool)
    requires OneForEach(m, base, view, calls, owner, window, when) && m.parts != [] && view != [] && k != Freemin
    requires LiveMatches(m, Overlay(base, view)) && Tiles(window, when)
    requires AskedInTime(Operation.Ask(q), owner, window, when)
    ensures var (n, id) := GetCurrent(k, m, q);
            OneForEach(n, base, if id in m.live then view else Touch(view, id, n.live[id]), calls, owner, window, when)
  {
    hide OnePerWindow, WindowsKept, Overlay, MaxTime, FilterFrom, Tiles, Lookup;
    assert m.lastId + 1 !in m.live;
    if q.owner == owner {
      GetCurrentIsUnique(k, m, q, window, when);
    } else {
      OtherOwnerKeepsOnePerWindow(k, m, q, owner, window, when);
    }
    var id := m.lastId + 1;
    if GetCurrent(k, m, q).1 !in m.live {
      TouchKeepsWindows(base, view, id, Open(m, q).live[id]);
    }
  }

  lemma {:induction false} CommitKeepsOne(m: Manager, base: map<int, Row>, view: seq<map<int, Row>>, calls: seq<Call>,
                                          more: seq<Call>,
                                          owner: int, window: int -> (int, int), when: int -> bool)
    requires OneForEach(m, base, view, calls, owner, window, when) && view != [] && more != [] && Timely(calls)
    ensures OneForEach(m, base + view[0], view[1..], calls + more, owner, window, when)
  {
    hide OnePerWindow, WindowsKept, Overlay, MaxTime, FilterFrom, Timely;
    CommitKeepsWindows(base, view);
    if calls != [] {
      FilterGrows(calls, more);
    }
  }

  /** What is read back was all in memory, and nothing that was is there twice. */
  lemma {:induction false} LoadKeepsOne(m: Manager, base: map<int, Row>, view: seq<map<int, Row>>, calls: seq<Call>,
                                        byOwner: Listing, maxId: int, owner: int, window: int -> (int, int),
                                          when: int -> bool)
    requires OneForEach(m, base, view, calls, owner, window, when) && LiveMatches(m, Overlay(base, view))
    requires Lists(byOwner, Recent(base, MaxTime(calls)))
    requires Listed(Loaded(base, MaxTime(calls), byOwner, maxId))
    ensures OneForEach(Loaded(base, MaxTime(calls), byOwner, maxId), base, [map[]], calls, owner, window, when)
  {
    hide Overlay, MaxTime, FilterFrom, Lists, Listed;
    var n := Loaded(base, MaxTime(calls), byOwner, maxId);
    var all := Overlay(base, view);
    LoadKeepsWindows(base);
    forall id | id in n.live
      ensures id in m.live && SameRecordWindow(n.live[id], m.live[id])
    {
      assert id in all && SameRecordWindow(base[id], all[id]);
    }
  }

  // ---- the pipeline ------------------------------------------------------------------------------

  ghost predicate OneInState(s: State, k: Kind, owner: int, window: int -> (int, int), when: int -> bool) {
    OneForEach(s.managers.At(k), s.db.rows.At(k), View(s, s.managers.At(k).parts), s.db.calls, owner, window, when)
  }

  /** Questions about the owner carry the window of their moment. */
  ghost predicate AskedOnTime(e: Event, k: Kind, owner: int, window: int -> (int, int), when: int -> bool) {
    e.Ask? && e.kind == k ==> AskedInTime(Operation.Ask(e.query), owner, window, when)
  }

  lemma KindOf(s: State, k: Kind)
    requires Core(s)
    ensures var m := s.managers.At(k);
            && m.parts != [] && |m.parts| == |s.calls.parts| && (s.saving != Idle ==> |m.parts| >= 2)
            && KindOk(k, m, s.db.rows.At(k), View(s, m.parts), s.db.calls, View(s, s.calls.parts))
            && View(s, m.parts) != [] && m.lastId + 1 !in m.live && Listed(m) &&
              LiveMatches(m, Overlay(s.db.rows.At(k), View(s, m.parts)))
  {
    hide Snapshots, Overlay, Flat, Frozen, AccountsMatch, Numbered;
  }

  lemma {:induction false} EnqueueKeepsOne(s: State, info: CallInfo, k: Kind, owner: int, window: int -> (int, int),
                                           when: int -> bool)
    requires Core(s) && HaveParts(s) && Chargeable(s, info) && OneInState(s, k, owner, window, when)
    ensures OneInState(Enqueue(s, info), k, owner, window, when)
  {
    hide Core, KindOk, OneForEach, Overlay, Flat, Charge, LiveMatches, Listed;
    KindOf(s, k);
    var m := s.managers.At(k);
    var view, callView := View(s, m.parts), View(s, s.calls.parts);
    assert Enqueue(s, info).managers.At(k) == AddToManager(k, m, info);
    AddKeepsOne(k, m, s.db.rows.At(k), view, s.db.calls, info, owner, window, when);
    LiveIds(k, m, s.db.rows.At(k), view, s.db.calls, callView);
    var id := Named(k, info.call);
    if id != 0 {
      ChargedId(k, m.live[id], info.call);
      ViewOfTouched(s, m.parts, id, Charge(k, m.live[id], info.call));
    }
  }

  lemma {:induction false} CreateKeepsOne(s: State, k: Kind, owner: int, window: int -> (int, int), when: int -> bool)
    requires s.managers.At(k).parts != [] && OneInState(s, k, owner, window, when)
    ensures OneInState(CreatePartition(s), k, owner, window, when)
  {
    hide OnePerWindow, WindowsKept, OldIfGone, Overlay;
    var m := s.managers.At(k);
    assert CreatePartition(s).managers.At(k) == AppendPart(m);
    SameRecords(m, AppendPart(m), owner, window, when);
    ViewOfAppended(s, m.parts, map[]);
    AppendKeepsWindows(s.db.rows.At(k), View(s, m.parts));
  }

  lemma {:induction false} SameOne(s: State, t: State, k: Kind, owner: int, window: int -> (int, int),
                                   when: int -> bool)
    requires OneInState(s, k, owner, window, when) && t.managers == s.managers
    requires t.db.rows == s.db.rows && t.db.calls == s.db.calls && (t.saving == Committed <==> s.saving == Committed)
    ensures OneInState(t, k, owner, window, when)
  {
    hide OneForEach;
  }

  lemma {:induction false} LegKeepsOne(s: State, info: CallInfo, k: Kind, owner: int, window: int -> (int, int),
                                       when: int -> bool)
    requires Core(s) && Chargeable(s, info) && OneInState(s, k, owner, window, when)
    ensures HaveParts(s) && OneInState(AddCall(s, info), k, owner, window, when)
  {
    hide Core, OneInState, Enqueue, Chargeable;
    CoreHasParts(s);
    EnqueueKeepsOne(s, info, k, owner, window, when);
    EnqueueKeepsCore(s, info);
    KindOf(Enqueue(s, info), k);
    CreateKeepsOne(Enqueue(s, info), k, owner, window, when);
  }

  lemma {:induction false} AskKeepsOne(s: State, j: Kind, q: Query, k: Kind, owner: int, window: int -> (int, int),
                                       when: int -> bool)
    requires Core(s) && HaveParts(s) && OneInState(s, k, owner, window, when) && k != Freemin && Tiles(window, when)
    requires AskedOnTime(Event.Ask(j, q), k, owner, window, when)
    ensures OneInState(StepAsk(s, j, q), k, owner, window, when)
  {
    hide Core, KindOk, OneForEach, Overlay, Flat, LiveMatches, Listed, Tiles, Lookup, AskedInTime;
    KindOf(s, k);
    AskedManager(s, j, q, k);
    if j == k {
      var m := s.managers.At(k);
      OpenKeepsOne(k, m, s.db.rows.At(k), View(s, m.parts), s.db.calls, q, owner, window, when);
      NewOrSame(k, m, q);
      ViewOfTouched(s, m.parts, m.lastId + 1, Open(m, q).live[m.lastId + 1]);
    }
  }

  /** A question leaves the manager as it is or opens the next record. */
  lemma NewOrSame(k: Kind, m: Manager, q: Query)
    requires m.parts != []
    ensures var (n, id) := GetCurrent(k, m, q);
            (id in m.live && n == m) || (id == m.lastId + 1 && n == Open(m, q))
  {
  }

  lemma {:induction false} CommitKeepsOneInState(s: State, k: Kind, owner: int, window: int -> (int, int),
                                                 when: int -> bool)
    requires Core(s) && HaveParts(s) && AllPrepared(s) && OneInState(s, k, owner, window, when) && Timely(s.db.calls)
    ensures OneInState(StepCommit(s), k, owner, window, when)
  {
    hide OneForEach, Counters, AccountsMatch, Numbered, StepCommit, Timely, Frozen;
    CommittedRows(s, k);
    CommitKeepsOne(s.managers.At(k), s.db.rows.At(k), s.managers.At(k).parts, s.db.calls, s.calls.parts[0], owner,
                   window, when);
  }

  lemma {:induction false} RemoveKeepsOne(s: State, k: Kind, owner: int, window: int -> (int, int), when: int -> bool)
    requires HaveParts(s) && s.saving == Committed && OneInState(s, k, owner, window, when)
    ensures OneInState(StepRemove(s), k, owner, window, when)
  {
    hide OnePerWindow, WindowsKept, OldIfGone, Overlay;
    DroppedManager(s, k);
    SameRecords(s.managers.At(k), DropPart(s.managers.At(k)), owner, window, when);
  }

  lemma {:induction false} RestartKeepsOne(s: State, listings: PerKind<Listing>, maxIds: PerKind<int>, k: Kind,
                                           owner: int, window: int -> (int, int), when: int -> bool)
    requires Core(s) && Core(StepRestart(s, listings, maxIds)) && OneInState(s, k, owner, window, when)
    requires Lists(listings.At(k), Recent(s.db.rows.At(k), MaxTime(s.db.calls)))
    ensures OneInState(StepRestart(s, listings, maxIds), k, owner, window, when)
  {
    hide Core, OneForEach, KindOk, Overlay, Flat, LiveMatches, Listed, Lists, MaxTime, MaxId, MaxCdrId, CountUpTo,
         Recent;
    var t := StepRestart(s, listings, maxIds);
    var m := s.managers.At(k);
    KindOf(s, k);
    KindOf(t, k);
    assert t.managers.At(k) == Loaded(s.db.rows.At(k), MaxTime(s.db.calls), listings.At(k), maxIds.At(k));
    LoadKeepsOne(m, s.db.rows.At(k), View(s, m.parts), s.db.calls, listings.At(k), maxIds.At(k), owner, window, when);
  }

  lemma {:induction false} AddStepKeepsOne(s: State, k: Kind, owner: int, window: int -> (int, int), when: int -> bool)
    requires Core(s) && Calculating(s) && OneInState(s, k, owner, window, when)
    ensures HaveParts(s)
    ensures s.calculator.Calculated? ==> OneInState(StepAddOrig(s), k, owner, window, when)
    ensures s.calculator.OrigAdded? ==> OneInState(StepAddTerm(s), k, owner, window, when)
  {
    hide Core, OneInState, Calculating, Legs, NamesKnown, Chargeable, AddCall;
    CoreHasParts(s);
    if s.calculator.Calculated? {
      CalculatedLegs(s);
      LegKeepsOne(s, s.calculator.orig, k, owner, window, when);
      SameOne(AddCall(s, s.calculator.orig), StepAddOrig(s), k, owner, window, when);
    } else if s.calculator.OrigAdded? {
      HeldLeg(s);
      LegKeepsOne(s, s.calculator.last, k, owner, window, when);
      SameOne(AddCall(s, s.calculator.last), StepAddTerm(s), k, owner, window, when);
    }
  }

  lemma {:induction false} BeginKeepsOne(s: State, k: Kind, owner: int, window: int -> (int, int), when: int -> bool)
    requires HaveParts(s) && s.saving == Idle && OneInState(s, k, owner, window, when)
    ensures OneInState(StepSaveBegin(s), k, owner, window, when)
  {
    hide OneInState, CreatePartition, AllCalls, NeedSave;
    if NeedSave(s) && |s.calls.parts| == 1 {
      CreateKeepsOne(s, k, owner, window, when);
      CreatedStays(s);
      SameOne(CreatePartition(s), StepSaveBegin(s), k, owner, window, when);
    } else {
      SameOne(s, StepSaveBegin(s), k, owner, window, when);
    }
  }

  lemma {:induction false} StepKeepsOne(s: State, e: Event, k: Kind, owner: int, window: int -> (int, int),
                                        when: int -> bool)
    requires Inv(s) && HaveParts(s) && Enabled(s, e) && OneInState(s, k, owner, window, when)
    requires k != Freemin && Tiles(window, when) && AskedOnTime(e, k, owner, window, when) && Timely(s.db.calls)
    ensures OneInState(Step(s, e), k, owner, window, when)
  {
    hide Inv, Core, Shape, Frozen, Numbered, Room, Calculating, OneInState, Tiles, Timely, Lists, Legs, Select,
         HaveParts,
         StepAddOrig, StepAddTerm, StepSaveBegin, StepCommit, StepRemove, StepRestart, StepAsk;
    InvHasCore(s);
    StepKeepsInv(s, e);
    InvHasCore(Step(s, e));
    if e.AddOrig? || e.AddTerm? {
      AddStepKeepsOne(s, k, owner, window, when);
    } else if e.Ask? {
      AskKeepsOne(s, e.kind, e.query, k, owner, window, when);
    } else if e.SaveBegin? {
      BeginKeepsOne(s, k, owner, window, when);
    } else if e.Commit? {
      CommitKeepsOneInState(s, k, owner, window, when);
    } else if e.RemovePartition? {
      RemoveKeepsOne(s, k, owner, window, when);
    } else if e.Restart? {
      RestartKeepsOne(s, e.listings, e.maxIds, k, owner, window, when);
    } else {
      SameOne(s, Step(s, e), k, owner, window, when);
    }
  }

  /** Stored legs stay stored. */
  lemma {:induction false} StoredStay(s: State, events: seq<Event>)
    requires Runs(s, events)
    ensures s.db.calls <= Final(s, events).db.calls
    decreases |events|
  {
    hide Step, Enabled;
    if events != [] {
      StepStores(s, events[0]);
      StoredStay(Step(s, events[0]), events[1..]);
    }
  }

  lemma StepStores(s: State, e: Event)
    requires HaveParts(s) && Enabled(s, e)
    ensures s.db.calls <= Step(s, e).db.calls
  {
    hide Legs, Lists, Select, GetCurrent, AddToManager, AddToAccounts, AppendPart, AllCalls, MaxTime, MaxId, MaxCdrId,
         CountUpTo, Loaded;
  }

  lemma {:induction false} RunKeepsOne(s: State, events: seq<Event>, k: Kind, owner: int, window: int -> (int, int),
                                       when: int -> bool)
    requires Inv(s) && Runs(s, events) && OneInState(s, k, owner, window, when) && k != Freemin && Tiles(window, when)
    requires Timely(Final(s, events).db.calls) && forall e | e in events :: AskedOnTime(e, k, owner, window, when)
    ensures OneInState(Final(s, events), k, owner, window, when)
    decreases |events|
  {
    hide Inv, OneInState, Step, Enabled, Tiles, AskedOnTime;
    StoredStay(s, events);
    if events != [] {
      StepKeepsOne(s, events[0], k, owner, window, when);
      StepKeepsInv(s, events[0]);
      RunKeepsOne(Step(s, events[0]), events[1..], k, owner, window, when);
    }
  }

  lemma {:induction false} StartHasNone(k: Kind, owner: int, window: int -> (int, int), when: int -> bool)
    ensures OneInState(START, k, owner, window, when)
  {
    assert START.managers.At(k) == Manager(map[], map[], [map[]], 0) && START.db.rows.At(k) == map[];
    LoadKeepsWindows(map[]);
  }

  /** After any run from the empty database, whatever was asked, counted, saved, lost and read back:
      every moment of the owner is held by at most one of its records in memory, and asking about the
      moment returns that one. */
  lemma {:induction false} OneRecordInEveryRun(s: State, events: seq<Event>, k: Kind, owner: int,
                                               window: int -> (int, int),
                                               when: int -> bool, q: Query)
    requires Reached(s, events) && k != Freemin && Tiles(window, when) && Timely(s.db.calls)
    requires forall e | e in events :: AskedOnTime(e, k, owner, window, when)
    requires q.owner == owner && AskedInTime(Operation.Ask(q), owner, window, when)
    ensures s.managers.At(k).parts != []
    ensures var (n, id) := GetCurrent(k, s.managers.At(k), q);
            id in n.live &&
            forall i :: i in n.live && n.live[i].owner == owner && n.live[i].from <= q.time <= n.live[i].to <==> i == id
  {
    hide Reached, Inv, Core, Shape, Frozen, Numbered, Room, Calculating, Runs, Final, KindOk, OnePerWindow, WindowsKept,
         OldIfGone,
         Tiles, AskedOnTime, GetCurrent, Listed, LiveMatches, Overlay;
    ReachedIsGood(s, events);
    RunOfReached(s, events);
    StartIsGood();
    StartHasNone(k, owner, window, when);
    RunKeepsOne(START, events, k, owner, window, when);
    InvHasCore(s);
    KindOf(s, k);
    GetCurrentIsUnique(k, s.managers.At(k), q, window, when);
  }
}
