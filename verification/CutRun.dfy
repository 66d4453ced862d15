/** The shortest run that loses a leg: a save begins between the two legs of the only CDR and
    the process stops after it. Whatever happens afterwards, the second leg is not produced. */
module CutRun {
  import opened Models
  import opened Ledger
  import opened BillingState
  import opened LegSequence
  import opened BillingSafety
  import opened BillingTheorems

  const THE_CDR: Cdr := Cdr(1, 0, false)

  function Plain(id: int, peerId: int, orig: bool): CallInfo {
    CallInfo(Call(id, peerId, 1, orig, 0, 0, 0, 0, 0, 0.0, 0.0, 0, 0, 0, 0.0, 0, 0), None, false, 0, 0)
  }

  const FIRST: CallInfo := Plain(1, 2, true)
  const SECOND: CallInfo := Plain(2, 1, false)

  /** The CDR arrives, is fetched and calculated, and its first leg is added. */
  const HALF: seq<Event> := [CdrArrives(THE_CDR)] + ([Fetch] + ([Calculate(FIRST, SECOND)] + ([AddOrig] + [])))

  const HALF_DONE: State :=
    START.(db := START.db.(cdrs := [THE_CDR]),
           cdrs := Cdrs([THE_CDR], 1),
           calls := Calls([[FIRST.call]], 1, 0),
           calculator := OrigAdded(SECOND),
           history := History(0, 1, false, false))

  lemma {:induction false} HalfRuns()
    ensures Runs(START, HALF) && Final(START, HALF) == HALF_DONE
  {
    var s1 := START.(db := START.db.(cdrs := [THE_CDR]));
    var s2 := s1.(cdrs := Cdrs([THE_CDR], 1), history := History(0, 1, false, false));
    var s3 := s2.(calculator := Calculated(FIRST, SECOND));
    assert Step(START, CdrArrives(THE_CDR)) == s1;
    FetchedPage();
    assert Step(s1, Fetch) == s2;
    assert Flat(s2.calls.parts) == [] by { assert s2.calls.parts[..0] == []; }
    assert Step(s2, Calculate(FIRST, SECOND)) == s3;
    AddedFirst(s3);
    assert Step(s3, AddOrig) == HALF_DONE;
    assert Runs(HALF_DONE, []) && Final(HALF_DONE, []) == HALF_DONE;
    hide Runs, Final, Step;
    RunCons(s3, AddOrig, []);
    RunCons(s2, Calculate(FIRST, SECOND), [AddOrig] + []);
    RunCons(s1, Fetch, [Calculate(FIRST, SECOND)] + ([AddOrig] + []));
    RunCons(START, CdrArrives(THE_CDR), [Fetch] + ([Calculate(FIRST, SECOND)] + ([AddOrig] + [])));
  }

  lemma FetchedPage()
    ensures Select([THE_CDR], 0, CDRS_PARTITION_SIZE) == [THE_CDR] && Select([THE_CDR], 1, CDRS_PARTITION_SIZE) == []
  {
    assert [THE_CDR][1..] == [];
    assert Select([], 0, CDRS_PARTITION_SIZE - 1) == [];
  }

  lemma AddedFirst(s: State)
    requires HaveParts(s) && s.calculator == Calculated(FIRST, SECOND) && s.calls == Calls([[]], 0, 0)
    ensures StepAddOrig(s) == s.(calls := Calls([[FIRST.call]], 1, 0), calculator := OrigAdded(SECOND))
  {
    assert s.calls.parts[0] + [FIRST.call] == [FIRST.call];
  }

  const NO_LISTINGS: PerKind<Listing> := PerKind(map[], map[], map[], map[])
  const NO_IDS: PerKind<int> := PerKind(0, 0, 0, 0)

  /** The save of the first leg alone, and the stop. */
  const CUT: seq<Event> := HALF + (SAVE_ROUND + ([Restart(NO_LISTINGS, NO_IDS)] + []))

  lemma {:induction false} SavedHalf(t: State)
    requires IsRound(HALF_DONE, t)
    ensures t.db.calls == [FIRST.call] && t.db.cdrs == [THE_CDR] && t.history.split
    ensures forall k: Kind :: t.db.rows.At(k) == map[]
  {
    assert HALF_DONE.calls.parts[..0] == [] && Flat(HALF_DONE.calls.parts) == [FIRST.call];
    assert AllCalls(HALF_DONE) == [FIRST.call];
  }

  /** A run from the empty database after which the only CDR counts as processed and the table
      of legs holds the first of its two legs. */
  lemma {:induction false} CutLosesSecondLeg()
    ensures Runs(START, CUT)
    ensures var s := Final(START, CUT);
            && s.db.calls == AllCalls(s) == [FIRST.call] && s.history.lossy && s.db.cdrs == [THE_CDR]
            && s.cdrs == Cdrs([], 1) && s.calculator == Ready && s.saving == Idle && StepFetch(s) == s
            && AllLegs(s.db.cdrs) == [LegOf(FIRST.call), LegOf(SECOND.call)]
    ensures Lost(Final(START, CUT))
  {
    hide Inv, Runs, Final, Enabled, Step, IsRound, SAVE_ROUND, HALF, Lost;
    HalfRuns();
    StartIsGood();
    RunKeepsInv(START, HALF);
    SaveRoundRuns(HALF_DONE);
    var t := Final(HALF_DONE, SAVE_ROUND);
    SavedHalf(t);
    var u := StepRestart(t, NO_LISTINGS, NO_IDS);
    RestartsEmpty(t);
    RestartedCut(t);
    RestartKeepsInv(t, NO_LISTINGS, NO_IDS);
    IsLost(u);
    assert Runs(u, []) && Final(u, []) == u by { NothingRuns(u); }
    RunCons(t, Restart(NO_LISTINGS, NO_IDS), []);
    RunAppend(HALF_DONE, SAVE_ROUND, [Restart(NO_LISTINGS, NO_IDS)] + []);
    RunAppend(START, HALF, SAVE_ROUND + ([Restart(NO_LISTINGS, NO_IDS)] + []));
  }

  lemma {:induction false} NothingRuns(s: State)
    ensures Runs(s, []) && Final(s, []) == s
  {
  }

  lemma RestartsEmpty(t: State)
    requires Inv(t) && forall k: Kind :: t.db.rows.At(k) == map[]
    ensures HaveParts(t) && Enabled(t, Restart(NO_LISTINGS, NO_IDS))
    ensures Step(t, Restart(NO_LISTINGS, NO_IDS)) == StepRestart(t, NO_LISTINGS, NO_IDS)
  {
    hide Inv, Core, Shape, Frozen, Numbered, Room, Calculating, StepRestart, MaxTime, Recent, Lists, IsMaxKey;
    InvHasCore(t);
    CoreHasParts(t);
    NothingListed(MaxTime(t.db.calls));
  }

  lemma NothingListed(time: int)
    ensures Recent(map[], time) == map[] && Lists(map[], map[]) && IsMaxKey(map[], 0)
  {
  }

  lemma {:induction false} RestartedCut(t: State)
    requires t.db.calls == [FIRST.call] && t.db.cdrs == [THE_CDR]
    ensures var s := StepRestart(t, NO_LISTINGS, NO_IDS);
            && s.db == t.db && AllCalls(s) == [FIRST.call] && s.history.lossy && s.history.done == 1
            && s.cdrs == Cdrs([], 1) && s.calculator == Ready && s.saving == Idle && StepFetch(s) == s
    ensures AllLegs([THE_CDR]) == [LegOf(FIRST.call), LegOf(SECOND.call)]
  {
    FetchedPage();
    hide Loaded, Select;
    var empty: seq<seq<Call>> := [[]];
    assert empty[..0] == [] && Flat(empty) == [];
    assert [THE_CDR][..0] == [] && CountUpTo([THE_CDR], 1) == 1;
    assert AllLegs([]) == [];
  }

  /** The first CDR counts as processed, and of its legs there is the first alone. */
  ghost predicate Lost(s: State) {
    && Inv(s) && s.db.cdrs != [] && s.db.cdrs[0] == THE_CDR && s.history.done >= 1
    && s.db.calls != [] && AllCalls(s) != [] && AllCalls(s)[0] == FIRST.call
    && forall i :: 0 < i < |AllCalls(s)| ==> AllCalls(s)[i].cdrId != THE_CDR.id
  }

  lemma IsLost(s: State)
    requires Inv(s) && s.db.cdrs == [THE_CDR] && s.history.done == 1 && s.db.calls == AllCalls(s) == [FIRST.call]
    ensures Lost(s)
  {
    hide Inv, AllCalls;
  }

  // ---- for good --------------------------------------------------------------------------

  /** A leg added now is of the CDR at the head of the queue, which is a later one. */
  lemma {:induction false} HeadIsLater(s: State)
    requires Lost(s) && s.cdrs.queue != []
    ensures s.cdrs.queue[0].id != THE_CDR.id
  {
    hide AllCalls, Core, Calculating, Complete, PairAligned, CallsFromCdrs;
    assert s.cdrs.queue[0] == s.db.cdrs[s.history.done];
  }

  lemma {:induction false} LegKeepsLost(s: State, t: State, info: CallInfo)
    requires Lost(s) && Core(s) && Room(s) && Chargeable(s, info) && SameBooks(AddCall(s, info), t) && Inv(t)
    requires s.cdrs.queue != [] && info.call.cdrId == s.cdrs.queue[0].id
    requires t.db == s.db && t.history == s.history
    ensures Lost(t)
  {
    hide Inv, Core, Room, Chargeable, AddCall, AllCalls;
    HeadIsLater(s);
    CoreHasParts(s);
    AddKeepsCore(s, info);
    CoreOfSameBooks(AddCall(s, info), t);
  }

  lemma {:induction false} AddKeepsLost(s: State)
    requires Lost(s) && Core(s) && Room(s) && Calculating(s) && HaveParts(s)
    ensures s.calculator.Calculated? && Inv(StepAddOrig(s)) ==> Lost(StepAddOrig(s))
    ensures s.calculator.OrigAdded? && Inv(StepAddTerm(s)) ==> Lost(StepAddTerm(s))
  {
    hide Lost, Inv, Core, Room, Calculating, Chargeable, AddCall, Legs, NamesKnown;
    if s.calculator.Calculated? {
      CalculatedLegs(s);
      AddLeavesBooks(s, s.calculator.orig);
      if Inv(StepAddOrig(s)) {
        LegKeepsLost(s, StepAddOrig(s), s.calculator.orig);
      }
    } else if s.calculator.OrigAdded? {
      HeldLeg(s);
      AddLeavesBooks(s, s.calculator.last);
      if Inv(StepAddTerm(s)) {
        LegKeepsLost(s, StepAddTerm(s), s.calculator.last);
      }
    }
  }

  lemma AddLeavesBooks(s: State, info: CallInfo)
    requires HaveParts(s)
    ensures AddCall(s, info).db == s.db && AddCall(s, info).history == s.history
  {
    hide AddToManager, AddToAccounts, AppendPart;
  }

  /** The legs are the same, and so is what counts as processed, or more. */
  lemma SameLegsKeepLost(s: State, t: State)
    requires Lost(s) && Inv(t) && AllCalls(t) == AllCalls(s)
    requires s.db.cdrs <= t.db.cdrs && t.history.done >= s.history.done && s.db.calls <= t.db.calls
    ensures Lost(t)
  {
    hide Inv, AllCalls;
  }

  lemma {:induction false} RestartKeepsLost(s: State, listings: PerKind<Listing>, maxIds: PerKind<int>)
    requires Lost(s) && Inv(StepRestart(s, listings, maxIds))
    ensures Lost(StepRestart(s, listings, maxIds))
  {
    hide Loaded, Core, Room, Calculating, Complete, PairAligned, CallsFromCdrs, CountUpTo, MaxId, MaxTime, MaxCdrId;
    var t := StepRestart(s, listings, maxIds);
    var empty: seq<seq<Call>> := [[]];
    assert empty[..0] == [] && Flat(empty) == [];
    assert AllCalls(t) == s.db.calls;
    assert s.db.calls == AllCalls(s)[..|s.db.calls|];
    assert forall i :: 0 <= i < |s.db.calls| ==> s.db.calls[i] == AllCalls(s)[i];
    assert s.db.calls[0] == FIRST.call;
    MaxCdrIdCovers(s.db.calls, 0);
    CountUpToSplits(s.db.cdrs, MaxCdrId(s.db.calls));
    assert s.db.cdrs[0].id == THE_CDR.id;
  }

  lemma {:induction false} MaxCdrIdCovers(calls: seq<Call>, i: nat)
    requires i < |calls|
    ensures calls[i].cdrId <= MaxCdrId(calls)
  {
    if i < |calls| - 1 {
      MaxCdrIdCovers(calls[..|calls| - 1], i);
    }
  }

  lemma {:induction false} StepKeepsLost(s: State, e: Event)
    requires Lost(s) && HaveParts(s) && Enabled(s, e)
    ensures Lost(Step(s, e))
  {
    StepKeepsInv(s, e);
    hide Inv, Lost, Lists, Legs, StepAddOrig, StepAddTerm, StepSaveBegin, StepCommit, StepRemove, StepRestart, StepAsk,
         StepFetch,
         AllCalls, Core, Shape, Frozen, Numbered, Room, Calculating;
    LostIsGood(s);
    InvHasCore(s);
    if e.AddOrig? || e.AddTerm? {
      AddKeepsLost(s);
    } else if e.Restart? {
      RestartKeepsLost(s, e.listings, e.maxIds);
    } else {
      LegsStay(s, e);
      SameLegsKeepLost(s, Step(s, e));
    }
  }

  lemma LostIsGood(s: State)
    requires Lost(s)
    ensures Inv(s)
  {
    hide Inv;
  }

  lemma {:induction false} LegsStay(s: State, e: Event)
    requires Inv(s) && HaveParts(s) && Enabled(s, e) && !e.AddOrig? && !e.AddTerm? && !e.Restart?
    ensures var t := Step(s, e);
            AllCalls(t) == AllCalls(s) && s.db.cdrs <= t.db.cdrs && t.history.done >= s.history.done &&
              s.db.calls <= t.db.calls
  {
    hide Inv, AllCalls, Legs, Lists, Core, Shape, Frozen, Numbered, Room, Calculating, Select, GetCurrent,
         CreatePartition;
    InvHasCore(s);
    if NotAboutLegs(e) {
      StepKeepsCalls(s, e);
    } else if e.SaveBegin? {
      SaveBeginKeepsCalls(s);
      CreatedStays(s);
    } else if e.Commit? {
      CommitKeepsCalls(s);
    } else {
      RemoveKeepsCalls(s);
    }
  }

  /** From then on, whatever arrives, is fetched, counted, saved and restarted: the only leg of the
      CDR there ever is is the first. */
  lemma {:induction false} LostStaysLost(s: State, events: seq<Event>)
    requires Lost(s) && Runs(s, events)
    ensures Lost(Final(s, events))
    decreases |events|
  {
    hide Lost, Step, Enabled;
    if events != [] {
      StepKeepsLost(s, events[0]);
      LostStaysLost(Step(s, events[0]), events[1..]);
    }
  }

  lemma {:induction false} SecondLegStaysLost(s: State, events: seq<Event>, c: Call)
    requires Runs(START, CUT + events) && s == Final(START, CUT + events)
    requires c in AllCalls(s) && c.cdrId == THE_CDR.id
    ensures c == FIRST.call
  {
    hide Inv, Lost, CUT, Runs, Final, AllCalls;
    CutLosesSecondLeg();
    RunSplit(START, CUT, events);
    LostStaysLost(Final(START, CUT), events);
    OnlyFirst(s, c);
  }

  lemma OnlyFirst(s: State, c: Call)
    requires Lost(s) && c in AllCalls(s) && c.cdrId == THE_CDR.id
    ensures c == FIRST.call
  {
    hide Inv, AllCalls;
  }

  lemma {:induction false} RunSplit(s: State, a: seq<Event>, b: seq<Event>)
    requires Runs(s, a) && Runs(s, a + b)
    ensures Runs(Final(s, a), b) && Final(s, a + b) == Final(Final(s, a), b)
    decreases |a|
  {
    hide Enabled, Step;
    if a == [] {
      assert a + b == b;
    } else {
      assert (a + b)[0] == a[0] && (a + b)[1..] == a[1..] + b;
      RunSplit(Step(s, a[0]), a[1..], b);
    }
  }
}
