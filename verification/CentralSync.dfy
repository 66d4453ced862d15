/** The copy of the account counters in the central database: changed accounts are sent in
    batches while counting and saving go on, failed batches are marked again, and after a recount
    everything is sent and the old rows are deleted first. A restart reads the local table back. */
module CentralSync {
  import opened Models
  import opened AccountCounters

  type Rows = map<int, AccountRow>

  /** A batch that has been taken and not yet written or given back. */
  datatype Batch = Batch(changes: Rows, needClear: bool)

  /** `live` is in memory, `stored` is the local table, `queued` the rows of the partitions not yet
      saved, and `reloaded` the accounts whose sum was read anew since they were last counted:
      such a sum goes to memory and to the centre, and to no partition. */
  datatype State = State(
    live: Rows, stored: Rows, queued: Rows, reloaded: set<int>,
    forSync: set<int>, needClear: bool, inFlight: Option<Batch>, central: Rows)

  datatype Event =
    | Add(id: int, row: AccountRow)
    | ReloadSums(rows: Rows)
    | Save(first: Rows, rest: Rows)
    | Recount(rows: Rows)
    | TakeChanges
    | Written
    | Failed
    | Restart

  /** One batch at a time; it is written or fails once. A save stores the first partition. */
  predicate Enabled(s: State, e: Event) {
    match e
    case Add(_, _) => true
    case ReloadSums(_) => true
    case Save(first, rest) => s.queued == first + rest
    case Recount(_) => s.inFlight.None?
    case TakeChanges => s.inFlight.None?
    case Written => s.inFlight.Some?
    case Failed => s.inFlight.Some?
    case Restart => Quiet(s)
  }

  /** Nothing is there that a stop throws away: marks, a pending clearing, a batch with rows, unsaved
      counts and reloaded sums. */
  predicate Quiet(s: State) {
    !s.needClear && s.forSync == {} && s.queued == map[] && s.reloaded == {} &&
    (s.inFlight.Some? ==> s.inFlight.value.changes == map[])
  }

  /** The process starts anew: only the two tables are as they were. */
  function Restarted(s: State): State {
    State(s.stored, s.stored, map[], {}, {}, false, None, s.central)
  }

  /** Everything when the central rows are to be cleared, else the marked accounts. */
  function Changes(live: Rows, forSync: set<int>, needClear: bool): Rows {
    Picked(live, if needClear then live.Keys else forSync)
  }

  function Picked(live: Rows, ids: set<int>): Rows {
    map id | id in ids && id in live :: live[id]
  }

  /** The central rows after a batch; an empty batch touches nothing, not even to clear. */
  function Sent(central: Rows, b: Batch): Rows {
    if b.changes == map[] then central else if b.needClear then b.changes else central + b.changes
  }

  function Step(s: State, e: Event): State
    requires Enabled(s, e)
  {
    match e
    case Add(id, row) =>
      s.(live := s.live[id := row], queued := s.queued[id := row], reloaded := s.reloaded - {id},
         forSync := s.forSync + {id})
    case ReloadSums(rows) =>
      s.(live := s.live + rows, reloaded := s.reloaded + rows.Keys, forSync := s.forSync + rows.Keys)
    case Save(first, rest) => s.(stored := s.stored + first, queued := rest)
    case Recount(rows) =>
      s.(live := rows, stored := rows, queued := map[], reloaded := {}, forSync := {}, needClear := true)
    case TakeChanges =>
      s.(inFlight := Some(Batch(Changes(s.live, s.forSync, s.needClear), s.needClear)), forSync := {},
         needClear := false)
    case Written => s.(central := Sent(s.central, s.inFlight.value), inFlight := None)
    case Failed =>
      s.(forSync := s.forSync + s.inFlight.value.changes.Keys,
         needClear := s.needClear || s.inFlight.value.needClear, inFlight := None)
    case Restart => Restarted(s)
  }

  ghost predicate Runs(s: State, events: seq<Event>)
    decreases |events|
  {
    events == [] || (Enabled(s, events[0]) && Runs(Step(s, events[0]), events[1..]))
  }

  ghost function Final(s: State, events: seq<Event>): State
    requires Runs(s, events)
    decreases |events|
  {
    if events == [] then s else Final(Step(s, events[0]), events[1..])
  }

  /** No clearing is pending or under way. */
  predicate Settled(s: State) {
    !s.needClear && (s.inFlight.Some? ==> !s.inFlight.value.needClear)
  }

  /** Neither marked nor in a batch. */
  predicate AtRest(s: State, id: int) {
    id in s.live && id !in s.forSync && (s.inFlight.Some? ==> id !in s.inFlight.value.changes)
  }

  ghost predicate NothingLost(s: State) {
    Settled(s) ==> forall id :: AtRest(s, id) ==> id in s.central && s.central[id] == s.live[id]
  }

  /** What a batch under way guarantees of the accounts not marked since it was taken. */
  ghost predicate BatchCurrent(s: State) {
    s.inFlight.Some? && !s.needClear ==>
      forall id :: id in s.live && id !in s.forSync ==>
        (id in s.inFlight.value.changes ==> s.inFlight.value.changes[id] == s.live[id]) &&
        (s.inFlight.value.needClear ==> id in s.inFlight.value.changes)
  }

  /** Memory is the local table with the unsaved partitions on it, reloaded sums apart. */
  ghost predicate MemoryIsOverlay(s: State) {
    var saved := s.stored + s.queued;
    saved.Keys <= s.live.Keys && s.reloaded <= s.live.Keys &&
    forall id :: id in s.live && id !in s.reloaded ==> id in saved && saved[id] == s.live[id]
  }

  ghost predicate Inv(s: State) {
    NothingLost(s) && BatchCurrent(s) && MemoryIsOverlay(s) && s.forSync <= s.live.Keys &&
    (s.inFlight.Some? ==> s.inFlight.value.changes.Keys <= s.live.Keys)
  }

  /** New rows for accounts that are marked with them. */
  lemma MarkedKeepsInv(s: State, rows: Rows, t: State)
    requires Inv(s) && MemoryIsOverlay(t)
    requires t.live == s.live + rows && t.forSync == s.forSync + rows.Keys
    requires t.needClear == s.needClear && t.inFlight == s.inFlight && t.central == s.central
    ensures Inv(t)
  {
    assert forall i :: i in t.live && i !in t.forSync ==> i in s.live && i !in s.forSync && t.live[i] == s.live[i];
    assert forall i :: AtRest(t, i) ==> AtRest(s, i);
  }

  lemma WrittenKeepsInv(s: State)
    requires Inv(s) && s.inFlight.Some?
    ensures Inv(Step(s, Written))
  {
    var t := Step(s, Written);
    var b := s.inFlight.value;
    forall i | Settled(t) && AtRest(t, i)
      ensures i in t.central && t.central[i] == t.live[i]
    {
      if i in b.changes {
        assert b.changes != map[];
      } else {
        assert AtRest(s, i);
      }
    }
  }

  lemma TakenKeepsInv(s: State)
    requires Inv(s) && s.inFlight.None?
    ensures Inv(Step(s, TakeChanges))
    ensures Step(s, TakeChanges) == s.(
              inFlight := Some(Batch(Changes(s.live, s.forSync, s.needClear), s.needClear)), forSync := {},
                needClear := false)
  {
    var t := Step(s, TakeChanges);
    assert forall i :: AtRest(t, i) ==> AtRest(s, i) || s.needClear;
  }

  lemma SavedKeepsInv(s: State, first: Rows, rest: Rows)
    requires Inv(s) && s.queued == first + rest
    ensures Inv(Step(s, Save(first, rest)))
  {
    var t := Step(s, Save(first, rest));
    assert t.stored + t.queued == s.stored + s.queued;
    assert forall i :: AtRest(t, i) ==> AtRest(s, i);
  }

  lemma StepKeepsInv(s: State, e: Event)
    requires Inv(s) && Enabled(s, e)
    ensures Inv(Step(s, e))
  {
    var t := Step(s, e);
    match e
    case Add(id, row) =>
      assert t.live == s.live + map[id := row];
      MarkedKeepsInv(s, map[id := row], t);
    case ReloadSums(rows) => MarkedKeepsInv(s, rows, t);
    case Save(first, rest) => SavedKeepsInv(s, first, rest);
    case Restart => QuietSurvives(s);
    case Recount(_) =>
    case TakeChanges => TakenKeepsInv(s);
    case Written => WrittenKeepsInv(s);
    case Failed =>
      assert forall i :: AtRest(t, i) ==> AtRest(s, i);
  }

  /** The daemon starts after a recount, or with central rows that are the live ones. */
  predicate Initial(s: State) {
    s.inFlight.None? && s.forSync == {} && s.queued == map[] && s.reloaded == {} && s.live == s.stored &&
    (s.needClear || forall id :: id in s.live ==> id in s.central && s.central[id] == s.live[id])
  }

  lemma {:induction false} RunKeepsInv(s: State, events: seq<Event>)
    requires Inv(s) && Runs(s, events)
    ensures Inv(Final(s, events))
    decreases |events|
  {
    hide Inv, Enabled, Step;
    if events != [] {
      StepKeepsInv(s, events[0]);
      RunKeepsInv(Step(s, events[0]), events[1..]);
    }
  }

  lemma InitialIsGood(s: State)
    requires Initial(s)
    ensures Inv(s)
  {
  }

  /** Whatever fails and whatever is counted in between: with no clearing pending, the central
      row of an account that is neither marked nor in a batch is the live one. */
  lemma {:induction false} NoUpdateIsLost(s: State, events: seq<Event>, id: int)
    requires Initial(s) && Runs(s, events)
    requires Settled(Final(s, events)) && AtRest(Final(s, events), id)
    ensures var t := Final(s, events); id in t.central && t.central[id] == t.live[id]
  {
    hide Final, Runs, Step, AtRest, Inv, Initial;
    InitialIsGood(s);
    RunKeepsInv(s, events);
    AtRestIsSent(Final(s, events), id);
  }

  lemma AtRestIsSent(t: State, id: int)
    requires Inv(t) && Settled(t) && AtRest(t, id)
    ensures id in t.live && id in t.central && t.central[id] == t.live[id]
  {
  }

  // ---- restarting ------------------------------------------------------------------------

  /** A clearing batch without rows is taken of an empty memory alone, so it need not be settled. */
  lemma QuietSurvives(s: State)
    requires Inv(s) && Quiet(s)
    ensures Inv(Restarted(s))
  {
    assert s.stored + s.queued == s.stored;
    assert forall id :: id in s.live ==> AtRest(s, id) && id in s.stored && Settled(s);
  }

  /** The same marks, clearing, unsaved rows and batch; the rows themselves may be any. */
  predicate SameDebts(u: State, s: State) {
    u.forSync == s.forSync && u.needClear == s.needClear && u.inFlight == s.inFlight && u.queued == s.queued &&
    u.reloaded == s.reloaded
  }

  ghost predicate Survives(u: State) {
    Inv(u) ==> Inv(Restarted(u))
  }

  /** A marked account, or one in a batch, whose row never reached the centre. */
  lemma UnsentIsLost(s: State, id: int)
    requires Inv(s) && (id in s.forSync || (s.inFlight.Some? && id in s.inFlight.value.changes))
    ensures exists u :: SameDebts(u, s) && !Survives(u)
  {
    var u := s.(central := map i | i in s.central && i != id :: s.central[i],
                stored := if id in s.stored then s.stored else s.stored[id := s.live[id]]);
    assert forall i :: AtRest(u, i) ==> AtRest(s, i) && i != id;
    assert AtRest(Restarted(u), id) && id !in u.central;
    assert SameDebts(u, s) && !Survives(u);
  }

  /** An unsaved or reloaded account whose stored row is an older one. */
  lemma UnsavedIsLost(s: State, id: int)
    requires Inv(s) && (id in s.queued || id in s.reloaded)
    ensures exists u :: SameDebts(u, s) && !Survives(u)
  {
    assert id in s.live;
    var row := if id in s.central then s.central[id] else s.live[id];
    var u := s.(stored := s.stored[id := row.(sum := row.sum + 1.0)]);
    assert forall i :: AtRest(u, i) ==> AtRest(s, i);
    assert AtRest(Restarted(u), id);
    assert SameDebts(u, s) && !Survives(u);
  }

  /** An account that a recount found and the centre has never seen. */
  lemma PendingClearIsLost(s: State, id: int)
    requires Inv(s) && s.needClear
    ensures exists u :: SameDebts(u, s) && !Survives(u)
  {
    var row := if id in s.live then s.live[id] else BLANK;
    var u := s.(live := s.live[id := row], stored := if id in s.stored then s.stored else s.stored[id := row],
                central := map i | i in s.central && i != id :: s.central[i]);
    assert AtRest(Restarted(u), id) && id !in u.central;
    assert SameDebts(u, s) && !Survives(u);
  }

  /** None of this is stored. For the marks, the clearing, the batch and the unsaved rows at hand,
      every good state they can stand in survives a restart exactly when there are none of them. */
  lemma RestartIsSafeIff(s: State)
    requires Inv(s)
    ensures (forall u :: SameDebts(u, s) ==> Survives(u)) <==> Quiet(s)
  {
    if Quiet(s) {
      forall u | SameDebts(u, s) && Inv(u)
        ensures Survives(u)
      {
        QuietSurvives(u);
      }
    } else if s.needClear {
      PendingClearIsLost(s, 0);
    } else if s.forSync != {} {
      UnsentIsLost(s, SomeOf(s.forSync));
    } else if s.queued != map[] {
      UnsavedIsLost(s, SomeOf(s.queued.Keys));
    } else if s.reloaded != {} {
      UnsavedIsLost(s, SomeOf(s.reloaded));
    } else {
      UnsentIsLost(s, SomeOf(s.inFlight.value.changes.Keys));
    }
  }

  /** A stop right after a recount, with nothing marked and nothing unsaved: the clearing is
      forgotten and the centre never gets the row. */
  lemma RecountIsForgotten(row: AccountRow)
    ensures var s := State(map[], map[], map[], {}, {}, false, None, map[]);
            var t := Step(s, Recount(map[1 := row]));
            && Initial(s) && Inv(t) && t.needClear && Quiet(t.(needClear := false))
            && Settled(Restarted(t)) && AtRest(Restarted(t), 1) && 1 !in Restarted(t).central
  {
    var s := State(map[], map[], map[], {}, {}, false, None, map[]);
    InitialIsGood(s);
    StepKeepsInv(s, Recount(map[1 := row]));
  }

  /** A clearing batch leaves exactly the live rows of the moment it was taken, except that an
      empty one leaves whatever was there. */
  lemma ClearingIsExactIff(s: State)
    requires Enabled(s, TakeChanges) && s.needClear
    ensures Step(Step(s, TakeChanges), Written).central == s.live <==> s.live != map[] || s.central == map[]
  {
  }

  /** The rows written over the live ones; a later row of the same account wins. */
  function Reloaded(live: Rows, found: seq<(int, real, int)>): Rows {
    if found == [] then map[] else
    var rows := Reloaded(live, found[..|found| - 1]);
    var (id, sum, date) := found[|found| - 1];
    var row := if id in rows then rows[id] else if id in live then live[id] else BLANK;
    rows[id := row.(accountId := id, sum := sum, amountDate := date)]
  }

  lemma ReloadedNone(live: Rows)
    ensures Reloaded(live, []) == map[]
  {
  }

  lemma ReloadedStep(live: Rows, found: seq<(int, real, int)>, k: nat)
    requires k < |found|
    ensures var rows := Reloaded(live, found[..k]);
            var (id, sum, date) := found[k];
            var row := if id in live + rows then (live + rows)[id] else BLANK;
            live + Reloaded(live, found[..k + 1]) ==
              (live + rows)[id := row.(accountId := id, sum := sum, amountDate := date)] &&
            Reloaded(live, found[..k + 1]).Keys == rows.Keys + {id}
  {
    assert found[..k + 1][..k] == found[..k];
  }

  lemma PickedNone(live: Rows, ids: set<int>)
    requires ids == {}
    ensures Picked(live, ids) == map[]
  {
  }

  lemma PickedMore(live: Rows, ids: set<int>, id: int)
    requires id in live
    ensures Picked(live, ids + {id}) == Picked(live, ids)[id := live[id]]
  {
  }

  lemma MarksAreLive(s: State)
    requires Inv(s)
    ensures s.forSync <= s.live.Keys
  {
  }

  // ---- the manager -----------------------------------------------------------------------

  class StatsAccountSync {
    var live: Rows
    var forSync: set<int>
    var needClear: bool
    var queued: Rows
    ghost var reloaded: set<int>
    ghost var inFlight: Option<Batch>

    ghost function Abstract(stored: Rows, central: Rows): State
      reads this
    {
      State(live, stored, queued, reloaded, forSync, needClear, inFlight, central)
    }

    /** Loading after a recount, which has written the table. */
    constructor (stored: Rows)
      ensures Abstract(stored, map[]) == State(stored, stored, map[], {}, {}, true, None, map[])
    {
      live, queued, reloaded, forSync, needClear, inFlight := stored, map[], {}, {}, true, None;
    }

    /** The end of every count: the row joins the last partition and the account is marked. */
    method Mark(id: int, row: AccountRow, ghost stored: Rows, ghost central: Rows)
      requires Inv(Abstract(stored, central))
      modifies this
      ensures Abstract(stored, central) == old(Step(Abstract(stored, central), Add(id, row)))
      ensures Inv(Abstract(stored, central))
    {
      StepKeepsInv(Abstract(stored, central), Add(id, row));
      live := live[id := row];
      queued := queued[id := row];
      forSync := forSync + {id};
      reloaded := reloaded - {id};
    }

    /** Sums read anew from the calls table, with the invoice date they count from. */
    method ReloadSum(found: seq<(int, real, int)>, ghost stored: Rows, ghost central: Rows) returns (ghost rows: Rows)
      requires Inv(Abstract(stored, central))
      modifies this
      ensures rows == Reloaded(old(live), found)
      ensures Abstract(stored, central) == old(Abstract(stored, central)).(
                live := old(live) + rows, reloaded := old(reloaded) + rows.Keys, forSync := old(forSync) + rows.Keys)
      ensures Inv(Abstract(stored, central))
    {
      hide Inv, Reloaded, Enabled, MemoryIsOverlay;
      rows := Reloaded(live, found);
      StepKeepsInv(Abstract(stored, central), ReloadSums(rows));
      var k := 0;
      ReloadedNone(live);
      while k < |found|
        invariant 0 <= k <= |found|
        invariant live == old(live) + Reloaded(old(live), found[..k])
        invariant forSync == old(forSync) + Reloaded(old(live), found[..k]).Keys
        modifies `live, `forSync
      {
        var (id, sum, date) := found[k];
        ReloadedStep(old(live), found, k);
        var row := if id in live then live[id] else BLANK;
        live := live[id := row.(accountId := id, sum := sum, amountDate := date)];
        forSync := forSync + {id};
        k := k + 1;
      }
      assert found[..k] == found;
      assert rows == Reloaded(old(live), found[..k]);
      reloaded := reloaded + rows.Keys;
    }

    static method Pick(live: Rows, all: set<int>) returns (changes: Rows)
      requires all <= live.Keys
      ensures changes == Picked(live, all)
    {
      hide Picked;
      changes := map[];
      var ids := all;
      PickedNone(live, all - ids);
      while ids != {}
        invariant ids <= all
        invariant changes == Picked(live, all - ids)
        decreases |ids|
      {
        ghost var some := SomeOf(ids);
        var id :| id in ids;
        PickedMore(live, all - ids, id);
        assert all - (ids - {id}) == all - ids + {id};
        changes := changes[id := live[id]];
        ids := ids - {id};
      }
      assert all - ids == all;
    }

    method GetChanges(ghost stored: Rows, ghost central: Rows) returns (changes: Rows, clear: bool)
      requires inFlight.None? && Inv(Abstract(stored, central))
      modifies this
      ensures Abstract(stored, central) == old(Step(Abstract(stored, central), TakeChanges))
      ensures inFlight == Some(Batch(changes, clear)) && Inv(Abstract(stored, central))
    {
      hide Inv, Picked, Step, Enabled;
      ghost var s := Abstract(stored, central);
      TakenKeepsInv(s);
      MarksAreLive(s);
      clear := needClear;
      needClear := false;
      changes := Pick(live, if clear then live.Keys else forSync);
      forSync := {};
      inFlight := Some(Batch(changes, clear));
    }

    method AddChanges(changes: Rows, clear: bool, ghost stored: Rows, ghost central: Rows)
      requires inFlight == Some(Batch(changes, clear)) && Inv(Abstract(stored, central)) && changes.Keys <= live.Keys
      modifies this
      ensures Abstract(stored, central) == old(Step(Abstract(stored, central), Failed))
      ensures Inv(Abstract(stored, central))
    {
      StepKeepsInv(Abstract(stored, central), Failed);
      forSync := forSync + changes.Keys;
      if clear {
        needClear := true;
      }
      inFlight := None;
    }

    /** A new process: memory is cleared and read from the table. */
    method Load(stored: Rows, ghost central: Rows)
      modifies this
      ensures Abstract(stored, central) == old(Restarted(Abstract(stored, central)))
      ensures old(Inv(Abstract(stored, central)) && Quiet(Abstract(stored, central))) ==> Inv(Abstract(stored, central))
    {
      if Inv(Abstract(stored, central)) && Quiet(Abstract(stored, central)) {
        QuietSurvives(Abstract(stored, central));
      }
      forSync := {};
      live := stored;
      queued := map[];
      needClear := false;
      reloaded, inFlight := {}, None;
    }
  }
}
