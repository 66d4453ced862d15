/** What the invariant means for someone who looks at the database, the partitions
    and the ids after any run of the pipeline. */
module BillingTheorems {
  import opened Models
  import opened Ledger
  import opened BillingState
  import opened BillingInvariant
  import opened LegSequence
  import opened BillingSafety

  /** A state some run from the empty database ends in. */
  ghost predicate Reached(s: State, events: seq<Event>) {
    Runs(START, events) && s == Final(START, events)
  }

  lemma ReachedIsGood(s: State, events: seq<Event>)
    requires Reached(s, events)
    ensures Inv(s)
  {
    hide Inv;
    StartIsGood();
    RunKeepsInv(START, events);
  }

  lemma RunOfReached(s: State, events: seq<Event>)
    requires Reached(s, events)
    ensures Runs(START, events) && s == Final(START, events)
  {
    hide Runs, Final;
  }

  /** A new partition changes neither tables nor the saver. */
  lemma CreatedStays(s: State)
    ensures CreatePartition(s).db == s.db && CreatePartition(s).history == s.history &&
            CreatePartition(s).saving == s.saving
  {
    hide AppendPart;
  }

  // ---- what is stored ------------------------------------------------------------------------

  /** At every moment of every run the stored counters are sums over exactly the stored
      legs that name them, and no stored leg names a record that is not stored. */
  lemma {:induction false} StoredCountersTally(s: State, events: seq<Event>, k: Kind)
    requires Reached(s, events)
    ensures forall id | id in s.db.rows.At(k) ::
              var row := s.db.rows.At(k)[id];
              && row.id == id
              && row.usedSeconds == SecondsOf(k, id, s.db.calls)
              && row.usedCredit == CreditOf(k, id, s.db.calls)
              && row.minCallId == FirstOf(k, id, s.db.calls)
              && row.maxCallId == LastOf(k, id, s.db.calls)
    ensures forall i | 0 <= i < |s.db.calls| && Named(k, s.db.calls[i]) != 0 ::
              Named(k, s.db.calls[i]) in s.db.rows.At(k)
  {
    ReachedIsGood(s, events);
    var rowView, callView := View(s, s.managers.At(k).parts), View(s, s.calls.parts);
    assert KindOk(k, s.managers.At(k), s.db.rows.At(k), rowView, s.db.calls, callView);
    hide Inv; hide Reached; hide LiveMatches; hide Listed;
    assert rowView[..0] == [] && callView[..0] == [];
    assert Consistent(k, Overlay(s.db.rows.At(k), rowView[..0]), s.db.calls + Flat(callView[..0]));
    assert s.db.calls + [] == s.db.calls;
  }

  /** What is in memory is the database with all queued partitions written over it, for
      every record in memory and every account; all managers queue equally many
      partitions, and only the newest may hold no legs. */
  lemma MemoryIsOverlay(s: State, events: seq<Event>, k: Kind)
    requires Reached(s, events)
    ensures var m := s.managers.At(k); var written := Overlay(s.db.rows.At(k), m.parts);
            forall id | id in m.live :: id in written && written[id] == m.live[id]
    ensures s.accounts.live == Overlay(s.db.accounts, s.accounts.parts)
    ensures |s.managers.At(k).parts| == |s.accounts.parts| == |s.calls.parts| > 0
    ensures forall j | 0 <= j < |s.calls.parts| - 1 :: s.calls.parts[j] != []
  {
    ReachedIsGood(s, events);
    assert Shape(s) && Frozen(s) && AccountsMatch(s);
    assert KindOk(k, s.managers.At(k), s.db.rows.At(k), View(s, s.managers.At(k).parts), s.db.calls,
                  View(s, s.calls.parts));
    hide Inv; hide Reached; hide Snapshots; hide Listed;
    if s.saving == Committed {
      OverlayShift(s.db.rows.At(k), s.managers.At(k).parts);
      OverlayShift(s.db.accounts, s.accounts.parts);
    }
  }

  /** The queued legs are numbered from the last stored id plus one to the last id
      given out, without a gap, whatever the saver is doing. */
  lemma QueueIsNumbered(s: State, events: seq<Event>)
    requires Reached(s, events)
    ensures |Flat(s.calls.parts)| == s.calls.realtimeLastId - s.calls.storedLastId
    ensures forall i | 0 <= i < |Flat(s.calls.parts)| :: Flat(s.calls.parts)[i].id == s.calls.storedLastId + 1 + i
  {
    hide Inv, Core, Reached, Shape, Frozen, AllCalls, Flat, Room, Calculating;
    ReachedIsGood(s, events);
    InvHasCore(s);
    QueueEndsLegs(s);
    var all, queued := AllCalls(s), Flat(s.calls.parts);
    forall i | 0 <= i < |queued|
      ensures queued[i].id == s.calls.storedLastId + 1 + i
    {
      assert queued[i] == all[|all| - |queued|..][i] == all[|all| - |queued| + i];
    }
  }

  lemma QueueEndsLegs(s: State)
    requires Shape(s) && Frozen(s)
    ensures var all, queued := AllCalls(s), Flat(s.calls.parts);
            |queued| <= |all| && all[|all| - |queued|..] == queued
  {
    if s.saving == Committed {
      FlatShift(s.calls.parts);
    }
  }

  /** An id given to a new record is not in the database, in no partition, and no leg
      names it. */
  lemma FreshIdsAreFresh(s: State, events: seq<Event>, k: Kind)
    requires Reached(s, events)
    ensures var m := s.managers.At(k); var fresh' := m.lastId + 1;
            && fresh' !in m.live && fresh' !in s.db.rows.At(k)
            && (forall j | 0 <= j < |m.parts| :: fresh' !in m.parts[j])
            && (forall i | 0 <= i < |AllCalls(s)| :: Named(k, AllCalls(s)[i]) != fresh')
  {
    ReachedIsGood(s, events);
    var m := s.managers.At(k);
    var rowView, callView := View(s, m.parts), View(s, s.calls.parts);
    assert Shape(s) && Frozen(s) && KindOk(k, m, s.db.rows.At(k), rowView, s.db.calls, callView);
    assert AllCalls(s) == s.db.calls + Flat(callView);
    hide Inv; hide Reached; hide Listed; hide Tallies; hide AllCalls;
    var id := m.lastId + 1;
    FullSnapshot(k, s.db.rows.At(k), rowView, s.db.calls, callView);
    OverlayKeys(s.db.rows.At(k), rowView, id);
    forall j | 0 <= j < |m.parts| ensures id !in m.parts[j] {
      if s.saving == Committed && j == 0 {
        assert id !in s.db.rows.At(k) + m.parts[0];
      } else if s.saving == Committed {
        assert m.parts[j] == rowView[j - 1];
      } else {
        assert m.parts[j] == rowView[j];
      }
    }
  }

  // ---- the save is an atomic snapshot ------------------------------------------------------------

  /** The steps other threads can take while a save is being prepared. */
  predicate DuringSave(e: Event) {
    !e.SaveBegin? && !e.SaveFails? && !e.Commit? && !e.RemovePartition? && !e.Restart?
  }

  /** Partition 0 of everything. */
  predicate SameFirst(s: State, t: State)
    requires HaveParts(s) && HaveParts(t)
  {
    && t.calls.parts[0] == s.calls.parts[0] && t.accounts.parts[0] == s.accounts.parts[0]
    && (forall k: Kind :: t.managers.At(k).parts[0] == s.managers.At(k).parts[0])
    && t.db.(cdrs := []) == s.db.(cdrs := [])
  }

  lemma AddKeepsFirst(s: State, info: CallInfo)
    requires Shape(s) && |s.calls.parts| >= 2
    ensures HaveParts(AddCall(s, info)) && SameFirst(s, AddCall(s, info)) && AddCall(s, info).saving == s.saving
  {
    hide AC.Post; hide AC.Counted; hide Charge; hide Named;
    var added := Enqueue(s, info);
    forall k: Kind
      ensures added.managers.At(k).parts != [] && added.managers.At(k).parts[0] == s.managers.At(k).parts[0]
    {
      assert added.managers.At(k) == AddToManager(k, s.managers.At(k), info);
    }
    assert HaveParts(added) && SameFirst(s, added);
    hide Enqueue; hide AddToManager; hide AddToAccounts;
    var t := CreatePartition(added);
    forall k: Kind
      ensures t.managers.At(k).parts != [] && t.managers.At(k).parts[0] == added.managers.At(k).parts[0]
    {
      assert t.managers.At(k) == AppendPart(added.managers.At(k));
    }
  }

  lemma StepKeepsFirst(s: State, e: Event)
    requires Shape(s) && s.saving.Preparing? && Enabled(s, e) && DuringSave(e)
    ensures HaveParts(Step(s, e)) && SameFirst(s, Step(s, e)) && Step(s, e).saving.Preparing?
  {
    hide Legs; hide Lists; hide AddCall; hide Select;
    match e
    case AddOrig => AddKeepsFirst(s, s.calculator.orig);
    case AddTerm => AddKeepsFirst(s, s.calculator.last);
    case Ask(k, q) =>
      forall j: Kind
        ensures Step(s, e).managers.At(j).parts != [] && Step(s, e).managers.At(j).parts[0] == s.managers.At(j).parts[0]
      {
        AskedManager(s, k, q, j);
        assert |s.managers.At(j).parts| >= 2;
      }
    case _ =>
  }

  /** Whatever other threads do while a save is prepared, partition 0 stays as it was. */
  lemma {:induction false} FrozenWhilePreparing(s: State, events: seq<Event>)
    requires Inv(s) && s.saving.Preparing? && Runs(s, events)
    requires forall i | 0 <= i < |events| :: DuringSave(events[i])
    ensures var t := Final(s, events); HaveParts(t) && t.saving.Preparing? && SameFirst(s, t)
    decreases |events|
  {
    CoreHasParts(s);
    if events != [] {
      var next := Step(s, events[0]);
      assert Shape(s);
      StepKeepsFirst(s, events[0]);
      StepKeepsInv(s, events[0]);
      hide Inv; hide Step; hide Enabled;
      FrozenWhilePreparing(next, events[1..]);
    }
  }

  /** The commit stores exactly what partition 0 held when the save began, although the
      six queries were prepared one by one with other threads running in between. */
  lemma {:induction false} CommitStoresSnapshotOfBegin(s: State, events: seq<Event>)
    requires Inv(s) && s.saving.Preparing? && Runs(s, events)
    requires forall i | 0 <= i < |events| :: DuringSave(events[i])
    requires HaveParts(Final(s, events)) && Enabled(Final(s, events), Commit)
    ensures var t := Step(Final(s, events), Commit);
            && t.db.calls == s.db.calls + s.calls.parts[0]
            && t.db.accounts == s.db.accounts + s.accounts.parts[0]
            && forall k: Kind :: t.db.rows.At(k) == s.db.rows.At(k) + s.managers.At(k).parts[0]
  {
    FrozenWhilePreparing(s, events);
    RunKeepsInv(s, events);
    var u := Final(s, events);
    assert Frozen(u) && u.saving.Preparing?;
    hide Inv; hide Final; hide Runs;
    forall k: Kind ensures StepCommit(u).db.rows.At(k) == s.db.rows.At(k) + s.managers.At(k).parts[0] {
      CommittedRows(u, k);
      assert u.db.rows == s.db.rows;
    }
    CommittedRows(u, Freemin);
  }

  // ---- nothing is lost ---------------------------------------------------------------------------

  lemma AddOnlyAdds(s: State, t: State, info: CallInfo)
    requires Core(s) && Room(s) && Chargeable(s, info) && SameBooks(AddCall(s, info), t)
    ensures AllCalls(s) <= AllCalls(t)
  {
    hide Core; hide Room; hide Chargeable; hide AddCall; hide AllCalls;
    CoreHasParts(s);
    AddKeepsCore(s, info);
    CoreOfSameBooks(AddCall(s, info), t);
  }

  lemma SameCalls(s: State, t: State)
    requires t.calls == s.calls && t.db.calls == s.db.calls && (t.saving == Committed <==> s.saving == Committed)
    ensures AllCalls(t) == AllCalls(s)
  {
    hide Flat;
  }

  /** A step that is not about legs. */
  predicate NotAboutLegs(e: Event) {
    !e.AddOrig? && !e.AddTerm? && !e.SaveBegin? && !e.Commit? && !e.RemovePartition? && !e.Restart?
  }

  lemma StepKeepsCalls(s: State, e: Event)
    requires HaveParts(s) && Enabled(s, e) && NotAboutLegs(e)
    ensures AllCalls(Step(s, e)) == AllCalls(s)
  {
    hide AllCalls; hide Legs; hide Lists; hide AddCall; hide Select; hide GetCurrent;
    var t := Step(s, e);
    assert t.calls == s.calls && t.db.calls == s.db.calls && (t.saving == Committed <==> s.saving == Committed);
    SameCalls(s, t);
  }

  lemma AddStepOnlyAdds(s: State)
    requires Core(s) && Room(s) && Calculating(s) && (s.calculator.Calculated? || s.calculator.OrigAdded?)
    ensures HaveParts(s)
    ensures s.calculator.Calculated? ==> AllCalls(s) <= AllCalls(StepAddOrig(s))
    ensures s.calculator.OrigAdded? ==> AllCalls(s) <= AllCalls(StepAddTerm(s))
  {
    hide Core, Room, AddCall, Legs, Chargeable, AllCalls, Calculating, NamesKnown;
    CoreHasParts(s);
    if s.calculator.Calculated? {
      CalculatedLegs(s);
      AddOnlyAdds(s, StepAddOrig(s), s.calculator.orig);
    } else {
      HeldLeg(s);
      AddOnlyAdds(s, StepAddTerm(s), s.calculator.last);
    }
  }

  lemma InvHasCore(s: State)
    requires Inv(s)
    ensures Core(s) && Shape(s) && Frozen(s) && Numbered(s) && Room(s) && Calculating(s)
  {
  }

  lemma StepOnlyAdds(s: State, e: Event)
    requires Inv(s) && Enabled(s, e) && !e.Restart?
    ensures AllCalls(s) <= AllCalls(Step(s, e))
  {
    hide Inv, Core, Shape, Frozen, Numbered, Room, Calculating, AllCalls, Legs, Lists,
         StepAddOrig, StepAddTerm, StepSaveBegin, StepCommit, StepRemove, StepRestart, StepFetch, StepAsk;
    InvHasCore(s);
    CoreHasParts(s);
    if NotAboutLegs(e) {
      StepKeepsCalls(s, e);
    } else {
      match e
      case AddOrig => AddStepOnlyAdds(s);
      case AddTerm => AddStepOnlyAdds(s);
      case SaveBegin => SaveBeginKeepsCalls(s);
      case Commit => CommitKeepsCalls(s);
      case RemovePartition => RemoveKeepsCalls(s);
    }
  }

  lemma SaveBeginKeepsCalls(s: State)
    requires Shape(s) && s.saving == Idle
    ensures AllCalls(StepSaveBegin(s)) == AllCalls(s)
  {
    CreateKeepsCalls(s);
    var t := StepSaveBegin(s);
    if NeedSave(s) && |s.calls.parts| == 1 {
      var cut := CreatePartition(s);
      assert t.calls == cut.calls && t.db == cut.db && cut.saving == Idle;
      SameCalls(cut, t);
    } else {
      SameCalls(s, t);
    }
  }

  /** Without a restart no leg is ever dropped, changed or reordered: failed saves and
      retries included, the legs so far stay a prefix of the legs later on. */
  lemma {:induction false} NothingIsLost(s: State, events: seq<Event>)
    requires Inv(s) && Runs(s, events)
    requires forall i | 0 <= i < |events| :: !events[i].Restart?
    ensures AllCalls(s) <= AllCalls(Final(s, events))
    decreases |events|
  {
    hide Inv; hide Step; hide Enabled; hide AllCalls;
    if events != [] {
      StepOnlyAdds(s, events[0]);
      StepKeepsInv(s, events[0]);
      NothingIsLost(Step(s, events[0]), events[1..]);
    }
  }

  // ---- the order of the pipeline and recovery -------------------------------------------------------

  predicate MutualAt(legs: seq<Leg>, i: nat)
    requires i + 1 < |legs|
  {
    && legs[i].peerId == legs[i + 1].id && legs[i + 1].peerId == legs[i].id
    && legs[i].cdrId == legs[i + 1].cdrId && legs[i].orig && !legs[i + 1].orig
  }

  lemma {:induction false} PairIsMutual(cdrs: seq<Cdr>, i: nat)
    requires i < |AllLegs(cdrs)| && i % 2 == 0
    ensures i + 1 < |AllLegs(cdrs)| && MutualAt(AllLegs(cdrs), i)
  {
    var before := AllLegs(cdrs[..|cdrs| - 1]);
    if i < |before| {
      PairIsMutual(cdrs[..|cdrs| - 1], i);
    } else {
      assert i == |before|;
    }
  }

  /** As long as no restart found the stored legs cut within a pair, whatever else happened - cuts
      that no stop met and restarts included - the legs are exactly the legs of the processed CDRs,
      in order, each pair naming each other; and the CDRs processed and queued are a gap-free prefix
      of the table. */
  lemma UncutRunsAreComplete(s: State, events: seq<Event>)
    requires Reached(s, events) && s.calculator == Ready
    ensures s.history.done <= s.history.fetched <= |s.db.cdrs|
    ensures s.cdrs.queue == s.db.cdrs[s.history.done..s.history.fetched]
    ensures !s.history.lossy ==> Skeleton(AllCalls(s)) == AllLegs(s.db.cdrs[..s.history.done])
    ensures !s.history.lossy ==>
              forall i | 0 <= i < |AllCalls(s)| && i % 2 == 0 ::
                i + 1 < |AllCalls(s)| && AllCalls(s)[i].peerId == AllCalls(s)[i + 1].id &&
                  AllCalls(s)[i + 1].peerId == AllCalls(s)[i].id
  {
    ReachedIsGood(s, events);
    assert Queued(s) && Complete(s) && PairAligned(s);
    hide Inv; hide Reached; hide AllCalls; hide AllLegs; hide Sorted; hide CdrIds;
    if !s.history.lossy {
      var legs := AllLegs(s.db.cdrs[..s.history.done]);
      forall i | 0 <= i < |AllCalls(s)| && i % 2 == 0
        ensures i + 1 < |AllCalls(s)| && AllCalls(s)[i].peerId == AllCalls(s)[i + 1].id &&
                AllCalls(s)[i + 1].peerId == AllCalls(s)[i].id
      {
        PairIsMutual(s.db.cdrs[..s.history.done], i);
        assert legs[i] == LegOf(AllCalls(s)[i]) && legs[i + 1] == LegOf(AllCalls(s)[i + 1]);
      }
    }
  }

  /** A save cuts a pair exactly when it has to close the only partition while the
      calculator has added the first leg of a CDR but not the second. */
  lemma SaveCutsPairIff(s: State, events: seq<Event>)
    requires Reached(s, events) && s.saving == Idle && !s.history.split
    requires HaveParts(s)
    ensures StepSaveBegin(s).history.split <==> (NeedSave(s) && |s.calls.parts| == 1 && s.calculator.OrigAdded?)
  {
    ReachedIsGood(s, events);
    assert Complete(s) && PairAligned(s);
    hide Inv; hide Reached; hide AllCalls; hide Flat; hide View; hide CreatePartition;
    assert |LegsInSight(s)| == |AllCalls(s)| + if s.calculator.OrigAdded? then 1 else 0;
  }

  // ---- saving until nothing is left -----------------------------------------------------------------

  lemma {:induction false} RunCons(s: State, e: Event, rest: seq<Event>)
    requires HaveParts(s) && Enabled(s, e) && Runs(Step(s, e), rest)
    ensures Runs(s, [e] + rest) && Final(s, [e] + rest) == Final(Step(s, e), rest)
  {
    assert ([e] + rest)[0] == e && ([e] + rest)[1..] == rest;
    hide Enabled; hide Step;
  }

  lemma {:induction false} RunAppend(s: State, a: seq<Event>, b: seq<Event>)
    requires Runs(s, a) && Runs(Final(s, a), b)
    ensures Runs(s, a + b) && Final(s, a + b) == Final(Final(s, a), b)
    decreases |a|
  {
    hide Enabled; hide Step;
    if a == [] {
      assert a + b == b;
    } else {
      RunAppend(Step(s, a[0]), a[1..], b);
      assert (a + b)[0] == a[0] && (a + b)[1..] == a[1..] + b;
    }
  }

  /** What the saver holds after one preparing step. */
  function PreparedBy(s: State, e: Event): Saving
    requires HaveParts(s) && s.saving.Preparing? && (e.PrepareCalls? || e.PrepareAccounts? || e.PrepareRows?)
  {
    match e
    case PrepareCalls => s.saving.(calls := Some(s.calls.parts[0]))
    case PrepareAccounts => s.saving.(accounts := Some(s.accounts.parts[0]))
    case PrepareRows(k) => s.saving.(rows := s.saving.rows.With(k, Some(s.managers.At(k).parts[0])))
  }

  lemma {:induction false} PrepareCons(s: State, e: Event, rest: seq<Event>)
    requires HaveParts(s) && s.saving.Preparing? && (e.PrepareCalls? || e.PrepareAccounts? || e.PrepareRows?)
    requires Runs(s.(saving := PreparedBy(s, e)), rest)
    ensures Runs(s, [e] + rest) && Final(s, [e] + rest) == Final(s.(saving := PreparedBy(s, e)), rest)
  {
    hide Final; hide Runs;
    assert Step(s, e) == s.(saving := PreparedBy(s, e));
    RunCons(s, e, rest);
  }

  /** The six queries, prepared without anyone in between. */
  function FullyPrepared(s: State): State
    requires HaveParts(s)
  {
    s.(saving := Preparing(Some(s.calls.parts[0]), Some(s.accounts.parts[0]),
                           PerKind(Some(s.managers.At(Freemin).parts[0]), Some(s.managers.At(Package).parts[0]),
                                   Some(s.managers.At(TrunkSettings).parts[0]),
                                     Some(s.managers.At(NnpMinute).parts[0]))))
  }

  const PREPARE_ALL: seq<Event> :=
    [PrepareCalls] + ([PrepareAccounts] + ([PrepareRows(Freemin)] + ([PrepareRows(Package)] +
    ([PrepareRows(TrunkSettings)] + ([PrepareRows(NnpMinute)] + [])))))

  lemma {:induction false} PrepareAllRuns(s: State)
    requires HaveParts(s) && s.saving == Preparing(None, None, NOTHING_PREPARED)
    ensures Runs(s, PREPARE_ALL) && Final(s, PREPARE_ALL) == FullyPrepared(s)
  {
    var s2 := s.(saving := PreparedBy(s, PrepareCalls));
    var s3 := s2.(saving := PreparedBy(s2, PrepareAccounts));
    var s4 := s3.(saving := PreparedBy(s3, PrepareRows(Freemin)));
    var s5 := s4.(saving := PreparedBy(s4, PrepareRows(Package)));
    var s6 := s5.(saving := PreparedBy(s5, PrepareRows(TrunkSettings)));
    var s7 := s6.(saving := PreparedBy(s6, PrepareRows(NnpMinute)));
    assert s7 == FullyPrepared(s);
    assert Runs(s7, []) && Final(s7, []) == s7;
    hide Runs; hide Final; hide PreparedBy; hide FullyPrepared;
    var r7: seq<Event> := [];
    var r6 := [PrepareRows(NnpMinute)] + r7;
    var r5 := [PrepareRows(TrunkSettings)] + r6;
    var r4 := [PrepareRows(Package)] + r5;
    var r3 := [PrepareRows(Freemin)] + r4;
    var r2 := [PrepareAccounts] + r3;
    PrepareCons(s6, PrepareRows(NnpMinute), r7);
    PrepareCons(s5, PrepareRows(TrunkSettings), r6);
    PrepareCons(s4, PrepareRows(Package), r5);
    PrepareCons(s3, PrepareRows(Freemin), r4);
    PrepareCons(s2, PrepareAccounts, r3);
    PrepareCons(s, PrepareCalls, r2);
  }

  /** One undisturbed save. */
  const SAVE_ROUND: seq<Event> := [SaveBegin] + (PREPARE_ALL + ([Commit] + ([RemovePartition] + [])))

  function Rounds(n: nat): seq<Event> {
    if n == 0 then [] else SAVE_ROUND + Rounds(n - 1)
  }

  lemma PreparedFields(s: State)
    requires HaveParts(s)
    ensures AllPrepared(FullyPrepared(s)) && HaveParts(FullyPrepared(s))
    ensures FullyPrepared(s) == s.(saving := FullyPrepared(s).saving)
  {
  }

  lemma SaveBegins(s: State)
    requires HaveParts(s) && s.saving == Idle && NeedSave(s)
    ensures Enabled(s, SaveBegin) && Step(s, SaveBegin) == StepSaveBegin(s)
    ensures HaveParts(StepSaveBegin(s)) && StepSaveBegin(s).saving == Preparing(None, None, NOTHING_PREPARED)
  {
    hide CreatePartition;
    if |s.calls.parts| == 1 { PartitionCreated(s); }
  }

  lemma PartitionCreated(s: State)
    requires HaveParts(s)
    ensures HaveParts(CreatePartition(s))
  {
    forall k: Kind ensures CreatePartition(s).managers.At(k) == AppendPart(s.managers.At(k)) {}
  }

  /** The saver's own steps after the preparation. */
  lemma {:induction false} SaveEnds(s: State)
    requires Inv(s) && AllPrepared(s) && HaveParts(s)
    ensures var rest := [Commit] + ([RemovePartition] + []);
            Runs(s, rest) && Final(s, rest) == StepRemove(StepCommit(s))
    ensures Inv(StepRemove(StepCommit(s)))
  {
    CommitKeepsInv(s);
    var u := StepCommit(s);
    hide Inv; hide StepCommit; hide AllPrepared;
    InvHasCore(u);
    CoreHasParts(u);
    CommittedNow(s);
    hide HaveParts; hide Core; hide Shape; hide Frozen; hide Numbered; hide Room; hide Calculating; hide StepRemove;
    RemoveKeepsInv(u);
    SaverSteps(s);
    var t := StepRemove(u);
    assert Runs(t, []) && Final(t, []) == t;
    hide Runs; hide Final; hide Step; hide Enabled;
    RunCons(u, RemovePartition, []);
    RunCons(s, Commit, [RemovePartition] + []);
  }

  /** What one undisturbed save makes of a state. */
  ghost predicate IsRound(s: State, t: State)
    requires HaveParts(s)
  {
    var s1 := StepSaveBegin(s);
    HaveParts(s1) && (var s7 := FullyPrepared(s1);
    AllPrepared(s7) && HaveParts(StepCommit(s7)) && t == StepRemove(StepCommit(s7)))
  }

  /** One undisturbed save is possible whenever there is something to save; it takes
      partition 0 out of the queue and keeps every leg. */
  lemma {:induction false} SaveRoundRuns(s: State)
    requires Inv(s) && s.saving == Idle && HaveParts(s) && NeedSave(s)
    ensures Runs(s, SAVE_ROUND)
    ensures var t := Final(s, SAVE_ROUND);
            && Inv(t) && t.saving == Idle && AllCalls(t) == AllCalls(s)
            && t.calls.parts == StepSaveBegin(s).calls.parts[1..]
            && IsRound(s, t)
  {
    hide Inv, AllCalls, NeedSave, StepSaveBegin, FullyPrepared, StepCommit, StepRemove, Runs, Final, AllPrepared, Step,
         Enabled, HaveParts;
    SaveBegins(s);
    SaveBeginKeepsInv(s);
    var s1 := StepSaveBegin(s);
    PrepareAllRuns(s1);
    PreparedFields(s1);
    var s7 := FullyPrepared(s1);
    RunKeepsInv(s1, PREPARE_ALL);
    SaveEnds(s7);
    var rest := [Commit] + ([RemovePartition] + []);
    RunAppend(s1, PREPARE_ALL, rest);
    RunCons(s, SaveBegin, PREPARE_ALL + rest);
    RoundKeepsCalls(s, s1, s7);
    CommitPreserves(s7);
    SaverSteps(s7);
  }

  lemma CommitPreserves(s: State)
    requires AllPrepared(s) && HaveParts(s)
    ensures HaveParts(StepCommit(s))
  {
  }

  lemma SaverSteps(s: State)
    requires HaveParts(s) && AllPrepared(s) && HaveParts(StepCommit(s))
    ensures Enabled(s, Commit) && Step(s, Commit) == StepCommit(s)
    ensures Enabled(StepCommit(s), RemovePartition)
    ensures Step(StepCommit(s), RemovePartition) == StepRemove(StepCommit(s))
    ensures StepRemove(StepCommit(s)).saving == Idle
    ensures StepRemove(StepCommit(s)).calls.parts == s.calls.parts[1..]
  {
  }

  lemma RoundKeepsCalls(s: State, s1: State, s7: State)
    requires Inv(s) && s.saving == Idle && s1 == StepSaveBegin(s) && Inv(s7) && AllPrepared(s7)
    requires s7 == s1.(saving := s7.saving) && s1.saving.Preparing?
    ensures AllCalls(StepRemove(StepCommit(s7))) == AllCalls(s)
  {
    CommitKeepsInv(s7);
    hide Inv; hide StepCommit;
    InvHasCore(s);
    InvHasCore(s7);
    InvHasCore(StepCommit(s7));
    hide Shape; hide Frozen; hide Core; hide StepSaveBegin; hide StepRemove; hide AllCalls; hide Numbered;
    SaveBeginKeepsCalls(s);
    SameCalls(s1, s7);
    CommitKeepsCalls(s7);
    RemoveKeepsCalls(StepCommit(s7)) by { CommittedNow(s7); }
  }

  lemma CommittedNow(s: State)
    requires AllPrepared(s)
    ensures StepCommit(s).saving == Committed
  {
  }

  /** As many undisturbed saves as there are partitions store every leg there is, and
      with it every counter. */
  lemma {:induction false} SavesDrainTheQueue(s: State) returns (n: nat)
    requires Inv(s) && s.saving == Idle && HaveParts(s)
    ensures n <= |s.calls.parts| && Runs(s, Rounds(n)) && DrainedBy(s, Final(s, Rounds(n)))
    decreases |s.calls.parts|, |s.calls.parts[0]|
  {
    hide Inv; hide Runs; hide Final; hide SAVE_ROUND; hide AllCalls; hide DrainedBy; hide NeedSave; hide IsRound;
    if NeedSave(s) {
      SaveRoundRuns(s);
      var t := Final(s, SAVE_ROUND);
      InvHasCore(t);
      RoundShrinks(s);
      if |s.calls.parts| == 1 {
        assert Flat(t.calls.parts) == [] by { assert t.calls.parts[..0] == []; }
        DrainOneRound(s, t);
        n := 1;
      } else {
        var m := SavesDrainTheQueue(t);
        RunAppend(s, SAVE_ROUND, Rounds(m));
        assert Rounds(m + 1) == SAVE_ROUND + Rounds(m);
        DrainedLater(s, t, Final(t, Rounds(m)));
        n := m + 1;
      }
    } else {
      NothingToSave(s);
      n := 0;
      RunNothing(s);
    }
  }

  lemma {:induction false} RunNothing(s: State)
    requires HaveParts(s)
    ensures Runs(s, Rounds(0)) && Final(s, Rounds(0)) == s
  {
  }

  lemma DrainedLater(s: State, t: State, u: State)
    requires AllCalls(t) == AllCalls(s) && DrainedBy(t, u)
    ensures DrainedBy(s, u)
  {
    hide AllCalls; hide Inv;
  }

  /** Everything is stored and nothing is queued. */
  ghost predicate DrainedBy(s: State, t: State) {
    Inv(t) && Flat(t.calls.parts) == [] && t.db.calls == AllCalls(s)
  }

  lemma NothingToSave(s: State)
    requires Inv(s) && s.saving == Idle && HaveParts(s) && !NeedSave(s)
    ensures DrainedBy(s, s)
  {
    assert s.calls.parts[..0] == [] && Flat(s.calls.parts) == [];
    hide Inv;
  }

  lemma RoundShrinks(s: State)
    requires HaveParts(s) && s.saving == Idle && NeedSave(s)
    ensures var left := StepSaveBegin(s).calls.parts[1..];
            |left| < |s.calls.parts| || (|s.calls.parts| == 1 && left == [[]])
  {
  }

  lemma {:induction false} DrainOneRound(s: State, t: State)
    requires Runs(s, SAVE_ROUND) && t == Final(s, SAVE_ROUND) && Inv(t) && t.saving == Idle
    requires Flat(t.calls.parts) == [] && AllCalls(t) == AllCalls(s)
    ensures Runs(s, Rounds(1)) && DrainedBy(s, Final(s, Rounds(1)))
  {
    assert Rounds(0) == [] && Rounds(1) == SAVE_ROUND + [] == SAVE_ROUND;
    assert AllCalls(t) == t.db.calls + [];
    hide Inv; hide Runs; hide Final;
  }
}
