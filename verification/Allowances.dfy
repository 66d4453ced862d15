/** Prepaid allowances over whole runs: nothing is ever overdrawn exactly when every leg, at the
    moment it is counted, takes no more than is left in the record it names. */
module Allowances {
  import opened Models
  import opened Ledger
  import opened BillingState
  import opened BillingSafety
  import opened BillingTheorems

  /** A record with an allowance has used no more of it than there is. */
  predicate WithinPaid(k: Kind, row: Row) {
    k == Freemin || k == Package ==> 0 <= row.usedSeconds <= Max(0, row.paid)
  }

  predicate AllWithin(k: Kind, rows: map<int, Row>) {
    forall id | id in rows :: WithinPaid(k, rows[id])
  }

  /** In memory, in the partitions and in the database. */
  predicate NothingOverdrawn(s: State) {
    forall k: Kind :: KindWithin(k, s.managers.At(k), s.db.rows.At(k))
  }

  predicate KindWithin(k: Kind, m: Manager, stored: map<int, Row>) {
    AllWithin(k, m.live) && AllWithin(k, stored) && forall j | 0 <= j < |m.parts| :: AllWithin(k, m.parts[j])
  }

  /** The seconds taken from an allowance are still there to be taken. */
  predicate WithinAllowance(row: Row, c: Call) {
    0 <= c.packageTime <= Max(0, row.paid - row.usedSeconds)
  }

  predicate Affordable(s: State, info: CallInfo) {
    forall k: Kind | k == Freemin || k == Package :: TakenIsThere(k, s.managers.At(k).live, info.call)
  }

  predicate TakenIsThere(k: Kind, live: map<int, Row>, c: Call) {
    var id := Named(k, c);
    id == 0 || id !in live || WithinAllowance(live[id], c)
  }

  // ---- one step --------------------------------------------------------------------------

  lemma ChargedWithinIff(k: Kind, row: Row, c: Call)
    requires WithinPaid(k, row) && (k == Freemin || k == Package) && c.packageTime >= 0
    ensures WithinPaid(k, Charge(k, row, c)) <==> WithinAllowance(row, c)
  {
  }

  /** Seconds are taken, not given. */
  predicate Takes(k: Kind, c: Call) {
    (k == Freemin || k == Package) && Named(k, c) != 0 ==> c.packageTime >= 0
  }

  /** Counting a leg that names a known record keeps the manager within its allowances exactly when
      the seconds were there. */
  lemma {:induction false} AddWithinIff(k: Kind, m: Manager, stored: map<int, Row>, info: CallInfo)
    requires KindWithin(k, m, stored) && m.parts != [] && Takes(k, info.call)
    requires forall id | id in m.live :: m.live[id].id == id
    requires Named(k, info.call) == 0 || Named(k, info.call) in m.live
    requires k == Package && Named(k, info.call) != 0 ==> info.prepaid
    ensures KindWithin(k, AddToManager(k, m, info), stored) <==>
            (k == Freemin || k == Package ==> TakenIsThere(k, m.live, info.call))
  {
    hide Charge, Named, WithinAllowance;
    var id := Named(k, info.call);
    var n := AddToManager(k, m, info);
    if id != 0 {
      var row := Charge(k, m.live[id], info.call);
      if k == Freemin || k == Package {
        ChargedWithinIff(k, m.live[id], info.call);
      }
      assert n.live == m.live[id := row];
      ChargedId(k, m.live[id], info.call);
      TouchedWithin(k, m.parts, id, row);
      assert n.live[id] == row;
    }
  }

  lemma TouchedWithin(k: Kind, parts: seq<map<int, Row>>, id: int, row: Row)
    requires parts != [] && forall j | 0 <= j < |parts| :: AllWithin(k, parts[j])
    ensures WithinPaid(k, row) ==> forall j | 0 <= j < |parts| :: AllWithin(k, Touch(parts, id, row)[j])
  {
    hide WithinPaid;
  }

  lemma LiveIdsOf(s: State, k: Kind)
    requires Inv(s)
    ensures forall id | id in s.managers.At(k).live :: s.managers.At(k).live[id].id == id
  {
    var m := s.managers.At(k);
    LiveIds(k, m, s.db.rows.At(k), View(s, m.parts), s.db.calls, View(s, s.calls.parts));
  }

  /** An empty partition changes nothing. */
  lemma AppendedWithin(k: Kind, m: Manager, stored: map<int, Row>)
    ensures KindWithin(k, AppendPart(m), stored) <==> KindWithin(k, m, stored)
  {
    hide WithinPaid;
    var n := AppendPart(m);
    if KindWithin(k, n, stored) {
      forall j | 0 <= j < |m.parts|
        ensures AllWithin(k, m.parts[j])
      {
        assert n.parts[j] == m.parts[j];
      }
    }
  }

  lemma CreatedWithin(s: State)
    ensures NothingOverdrawn(CreatePartition(s)) <==> NothingOverdrawn(s)
  {
    hide KindWithin;
    var t := CreatePartition(s);
    forall k: Kind
      ensures KindWithin(k, t.managers.At(k), t.db.rows.At(k)) <==> KindWithin(k, s.managers.At(k), s.db.rows.At(k))
    {
      assert t.managers.At(k) == AppendPart(s.managers.At(k));
      AppendedWithin(k, s.managers.At(k), s.db.rows.At(k));
    }
  }

  /** A leg is counted within the allowances exactly when what it takes is there. */
  lemma {:induction false} LegWithinIff(s: State, info: CallInfo)
    requires Inv(s) && HaveParts(s) && NamesKnown(s, info) && NothingOverdrawn(s) &&
             forall k: Kind :: Takes(k, info.call)
    ensures NothingOverdrawn(AddCall(s, info)) <==> Affordable(s, info)
  {
    hide Inv, KindWithin, TakenIsThere, AddToManager, AddToAccounts, Takes;
    var t := Enqueue(s, info);
    forall k: Kind
      ensures KindWithin(k, t.managers.At(k), t.db.rows.At(k)) <==>
              (k == Freemin || k == Package ==> TakenIsThere(k, s.managers.At(k).live, info.call))
    {
      assert t.managers.At(k) == AddToManager(k, s.managers.At(k), info);
      LiveIdsOf(s, k);
      AddWithinIff(k, s.managers.At(k), s.db.rows.At(k), info);
    }
    CreatedWithin(t);
  }

  lemma AskedWithin(k: Kind, m: Manager, stored: map<int, Row>, q: Query)
    requires KindWithin(k, m, stored) && m.parts != []
    ensures KindWithin(k, GetCurrent(k, m, q).0, stored)
  {
    hide Lookup, Ids;
    if Lookup(k, m.live, Ids(m, q.owner), q).None? {
      var row := Row(m.lastId + 1, q.owner, q.from, q.to, q.paid, 0, 0.0, 0, 0);
      TouchedWithin(k, m.parts, m.lastId + 1, row);
    }
  }

  lemma AskWithin(s: State, k: Kind, q: Query)
    requires HaveParts(s) && NothingOverdrawn(s)
    ensures NothingOverdrawn(StepAsk(s, k, q))
  {
    hide KindWithin, GetCurrent;
    forall j: Kind
      ensures KindWithin(j, StepAsk(s, k, q).managers.At(j), s.db.rows.At(j))
    {
      AskedManager(s, k, q, j);
      if j == k {
        AskedWithin(k, s.managers.At(k), s.db.rows.At(k), q);
      }
    }
  }

  /** Partition 0 and the table are both within the allowances, and so is the one on the other. */
  lemma CommitWithin(s: State)
    requires HaveParts(s) && Frozen(s) && AllPrepared(s) && NothingOverdrawn(s)
    ensures NothingOverdrawn(StepCommit(s))
  {
    hide WithinPaid;
    forall k: Kind
      ensures KindWithin(k, s.managers.At(k), StepCommit(s).db.rows.At(k))
    {
      hide StepCommit, Frozen, AllPrepared;
      CommittedRows(s, k);
      assert AllWithin(k, s.managers.At(k).parts[0]);
    }
    hide StepCommit, Frozen, AllPrepared, KindWithin;
    CommittedRows(s, Freemin);
  }

  lemma RemoveWithin(s: State)
    requires HaveParts(s) && NothingOverdrawn(s)
    ensures NothingOverdrawn(StepRemove(s))
  {
    hide WithinPaid;
    forall k: Kind
      ensures KindWithin(k, StepRemove(s).managers.At(k), s.db.rows.At(k))
    {
      hide StepRemove;
      DroppedManager(s, k);
    }
  }

  lemma RestartWithin(s: State, listings: PerKind<Listing>, maxIds: PerKind<int>)
    requires NothingOverdrawn(s)
    ensures NothingOverdrawn(StepRestart(s, listings, maxIds))
  {
    hide WithinPaid, MaxTime, MaxId, MaxCdrId, CountUpTo, FilterFrom;
    var t := StepRestart(s, listings, maxIds);
    forall k: Kind
      ensures KindWithin(k, t.managers.At(k), t.db.rows.At(k))
    {
      assert t.managers.At(k) == Loaded(s.db.rows.At(k), MaxTime(s.db.calls), listings.At(k), maxIds.At(k));
    }
  }

  lemma SameRowsWithin(s: State, t: State)
    requires t.managers == s.managers && t.db.rows == s.db.rows
    ensures NothingOverdrawn(t) <==> NothingOverdrawn(s)
  {
    hide KindWithin;
  }

  /** Only the counting of a leg can overdraw anything. */
  lemma {:induction false} StepWithin(s: State, e: Event)
    requires Inv(s) && HaveParts(s) && Enabled(s, e) && NothingOverdrawn(s) && !e.AddOrig? && !e.AddTerm?
    ensures NothingOverdrawn(Step(s, e))
  {
    hide Inv, NothingOverdrawn, StepAsk, StepSaveBegin, StepCommit, StepRemove, StepRestart, Legs, Lists, Select,
         HaveParts,
         Core, Shape, Frozen, Numbered, Room, Calculating;
    InvHasCore(s);
    var t := Step(s, e);
    if e.Ask? {
      AskWithin(s, e.kind, e.query);
    } else if e.SaveBegin? {
      BeginWithin(s);
    } else if e.Commit? {
      CommitWithin(s);
    } else if e.RemovePartition? {
      RemoveWithin(s);
    } else if e.Restart? {
      RestartWithin(s, e.listings, e.maxIds);
    } else {
      SameRowsWithin(s, t);
    }
  }

  lemma BeginWithin(s: State)
    requires HaveParts(s) && NothingOverdrawn(s)
    ensures NothingOverdrawn(StepSaveBegin(s))
  {
    hide NothingOverdrawn, CreatePartition, AllCalls, NeedSave;
    CreatedWithin(s);
    if NeedSave(s) && |s.calls.parts| == 1 {
      SameRowsWithin(CreatePartition(s), StepSaveBegin(s));
    } else {
      SameRowsWithin(s, StepSaveBegin(s));
    }
  }

  /** The first leg of a CDR is counted within the allowances exactly when what it takes is there; the
      second takes nothing. */
  lemma {:induction false} AddStepWithinIff(s: State, e: Event)
    requires Inv(s) && HaveParts(s) && Enabled(s, e) && NothingOverdrawn(s) && (e.AddOrig? || e.AddTerm?)
    ensures NothingOverdrawn(Step(s, e)) <==> (e.AddOrig? ==> Affordable(s, s.calculator.orig))
  {
    hide Inv, NothingOverdrawn, Affordable, AddCall, Core, Shape, Frozen, Numbered, Room, NamesKnown, Calculating,
         Takes;
    InvHasCore(s);
    HeldLegTakes(s);
    if e.AddOrig? {
      LegWithinIff(s, s.calculator.orig);
      SameRowsWithin(AddCall(s, s.calculator.orig), Step(s, e));
    } else {
      LegWithinIff(s, s.calculator.last);
      SameRowsWithin(AddCall(s, s.calculator.last), Step(s, e));
    }
  }

  lemma HeldLegTakes(s: State)
    requires Calculating(s)
    ensures s.calculator.Calculated? ==>
              NamesKnown(s, s.calculator.orig) && forall k: Kind :: Takes(k, s.calculator.orig.call)
    ensures s.calculator.OrigAdded? ==>
              NamesKnown(s, s.calculator.last) && Affordable(s, s.calculator.last) &&
              forall k: Kind :: Takes(k, s.calculator.last.call)
  {
    hide Named;
  }

  // ---- whole runs ------------------------------------------------------------------------------

  /** Whenever a first leg is counted in the run, what it takes is there. */
  ghost predicate Thrifty(s: State, events: seq<Event>)
    requires Runs(s, events)
    decreases |events|
  {
    events != [] ==>
      (events[0].AddOrig? ==> Affordable(s, s.calculator.orig)) && Thrifty(Step(s, events[0]), events[1..])
  }

  ghost predicate NeverOverdrawn(s: State, events: seq<Event>)
    requires Runs(s, events)
    decreases |events|
  {
    NothingOverdrawn(s) && (events != [] ==> NeverOverdrawn(Step(s, events[0]), events[1..]))
  }

  /** Whatever is asked, counted, saved and restarted: no record is overdrawn at any moment of the
      run, in memory, queued or stored, exactly when every leg found what it took. */
  lemma {:induction false} NeverOverdrawnIff(s: State, events: seq<Event>)
    requires Inv(s) && Runs(s, events) && NothingOverdrawn(s)
    ensures NeverOverdrawn(s, events) <==> Thrifty(s, events)
    decreases |events|
  {
    hide Inv, NothingOverdrawn, Affordable, Step, Enabled;
    if events != [] {
      var e, t := events[0], Step(s, events[0]);
      StepKeepsInv(s, e);
      if e.AddOrig? || e.AddTerm? {
        AddStepWithinIff(s, e);
      } else {
        StepWithin(s, e);
      }
      if NothingOverdrawn(t) {
        NeverOverdrawnIff(t, events[1..]);
      } else {
        OverdrawnNow(t, events[1..]);
      }
    }
  }

  lemma {:induction false} OverdrawnNow(s: State, events: seq<Event>)
    requires Runs(s, events) && !NothingOverdrawn(s)
    ensures !NeverOverdrawn(s, events)
  {
    hide NothingOverdrawn, Step, Enabled;
  }

  lemma StartIsWithin()
    ensures NothingOverdrawn(START)
  {
    assert forall k: Kind :: START.managers.At(k) == Manager(map[], map[], [map[]], 0) && START.db.rows.At(k) == map[];
  }

  lemma {:induction false} EndIsWithin(s: State, events: seq<Event>)
    requires Runs(s, events) && NeverOverdrawn(s, events)
    ensures NothingOverdrawn(Final(s, events))
    decreases |events|
  {
    hide NothingOverdrawn, Step, Enabled;
    if events != [] {
      EndIsWithin(Step(s, events[0]), events[1..]);
    }
  }

  /** So after any run from the empty database whose legs found what they took, no stored allowance
      is overdrawn. */
  lemma {:induction false} StoredAllowancesHold(events: seq<Event>, k: Kind, id: int)
    requires Runs(START, events) && Thrifty(START, events) && (k == Freemin || k == Package)
    requires id in Final(START, events).db.rows.At(k)
    ensures var row := Final(START, events).db.rows.At(k)[id]; 0 <= row.usedSeconds <= Max(0, row.paid)
  {
    hide Inv, Runs, Final, Thrifty, NeverOverdrawn;
    StartIsGood();
    StartIsWithin();
    NeverOverdrawnIff(START, events);
    EndIsWithin(START, events);
    assert KindWithin(k, Final(START, events).managers.At(k), Final(START, events).db.rows.At(k));
  }
}
