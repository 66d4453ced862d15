/** What the account table shows at every moment of every run: for each account exactly its
    counted legs that are stored, posted in the order in which they were added. */
module AccountPostings {
  import opened Models
  import opened Ledger
  import opened BillingState
  import opened BillingSafety
  import opened BillingTheorems

  // ---- rows and legs -----------------------------------------------------------------

  /** The counted legs of an account, in order. */
  function LegsOfAccount(infos: seq<CallInfo>, id: int): seq<CallInfo> {
    if infos == [] then []
    else
      var last := infos[|infos| - 1];
      LegsOfAccount(infos[..|infos| - 1], id) + if AC.Counted(last) && last.call.accountId == id then [last] else []
  }

  /** The rows are those of the accounts with counted legs, each the posting of all of them. */
  predicate RowIsPosted(rows: map<int, AC.AccountRow>, infos: seq<CallInfo>, id: int) {
    var legs := LegsOfAccount(infos, id);
    (id in rows <==> legs != []) && (id in rows ==> rows[id] == AC.PostAll(AC.BLANK, legs))
  }

  ghost predicate Posted(rows: map<int, AC.AccountRow>, infos: seq<CallInfo>) {
    forall id :: RowIsPosted(rows, infos, id)
  }

  lemma {:induction false} LegsOfAccountNext(infos: seq<CallInfo>, info: CallInfo, id: int)
    ensures var legs := LegsOfAccount(infos, id);
            LegsOfAccount(infos + [info], id) == if AC.Counted(info) && info.call.accountId == id then legs + [info]
              else legs
  {
    var all := infos + [info];
    assert all[..|all| - 1] == infos && all[|all| - 1] == info;
  }

  lemma {:induction false} PostAllNext(legs: seq<CallInfo>, info: CallInfo)
    requires AC.Counted(info)
    ensures AC.PostAll(AC.BLANK, legs + [info]) == AC.Post(AC.PostAll(AC.BLANK, legs), info)
    ensures AC.PostAll(AC.BLANK, []) == AC.BLANK
  {
    hide AC.Post;
    var all := legs + [info];
    assert all[..|all| - 1] == legs && all[|all| - 1] == info;
  }

  /** Posting a leg to the row of its account. */
  function RowsWith(rows: map<int, AC.AccountRow>, info: CallInfo): map<int, AC.AccountRow> {
    if !AC.Counted(info) then rows
    else
      var id := info.call.accountId;
      rows[id := AC.Post(if id in rows then rows[id] else AC.BLANK, info)]
  }

  lemma {:induction false} PostedNext(rows: map<int, AC.AccountRow>, infos: seq<CallInfo>, info: CallInfo)
    requires Posted(rows, infos)
    ensures Posted(RowsWith(rows, info), infos + [info])
  {
    hide AC.Post, AC.PostAll, AC.Counted, LegsOfAccount;
    forall id
      ensures RowIsPosted(RowsWith(rows, info), infos + [info], id)
    {
      assert RowIsPosted(rows, infos, id);
      LegsOfAccountNext(infos, info, id);
      if AC.Counted(info) {
        PostAllNext(LegsOfAccount(infos, id), info);
      }
    }
  }

  // ---- a table with partitions ---------------------------------------------------------

  /** The table is posted now and after writing any number of queued partitions. */
  ghost predicate Snapshots(base: map<int, AC.AccountRow>, rowParts: seq<map<int, AC.AccountRow>>,
                            stored: nat, callParts: seq<seq<Call>>, infos: seq<CallInfo>) {
    && |rowParts| == |callParts|
    && stored + |Flat(callParts)| == |infos|
    && forall j | 0 <= j <= |rowParts| :: SnapshotAt(base, rowParts, stored, callParts, infos, j)
  }

  ghost predicate SnapshotAt(base: map<int, AC.AccountRow>, rowParts: seq<map<int, AC.AccountRow>>,
                             stored: nat, callParts: seq<seq<Call>>, infos: seq<CallInfo>, j: nat)
    requires j <= |rowParts| == |callParts|
  {
    var n := stored + |Flat(callParts[..j])|;
    n <= |infos| && Posted(Overlay(base, rowParts[..j]), infos[..n])
  }

  lemma {:induction false} FullSnapshot(base: map<int, AC.AccountRow>, rowParts: seq<map<int, AC.AccountRow>>,
                                        stored: nat, callParts: seq<seq<Call>>, infos: seq<CallInfo>)
    requires Snapshots(base, rowParts, stored, callParts, infos)
    ensures Posted(Overlay(base, rowParts), infos)
  {
    hide Posted, Overlay, Flat;
    assert SnapshotAt(base, rowParts, stored, callParts, infos, |rowParts|);
    assert rowParts[..|rowParts|] == rowParts && callParts[..|callParts|] == callParts && infos[..|infos|] == infos;
  }

  /** One more leg in the newest partition. */
  lemma {:induction false} AddKeepsSnapshots(base: map<int, AC.AccountRow>, rowParts: seq<map<int, AC.AccountRow>>,
                                             rowParts': seq<map<int, AC.AccountRow>>,
                                             stored: nat, callParts: seq<seq<Call>>, infos: seq<CallInfo>,
                                               info: CallInfo)
    requires Snapshots(base, rowParts, stored, callParts, infos) && rowParts != [] && |rowParts'| == |rowParts|
    requires forall j | 0 <= j < |rowParts| :: rowParts'[..j] == rowParts[..j]
    requires Overlay(base, rowParts') == RowsWith(Overlay(base, rowParts), info)
    ensures Snapshots(base, rowParts', stored, PushLast(callParts, info.call), infos + [info])
  {
    hide Posted, Overlay, Flat, RowsWith;
    var callParts', infos' := PushLast(callParts, info.call), infos + [info];
    FlatPush(callParts, info.call);
    FullSnapshot(base, rowParts, stored, callParts, infos);
    PostedNext(Overlay(base, rowParts), infos, info);
    forall j | 0 <= j <= |rowParts'|
      ensures SnapshotAt(base, rowParts', stored, callParts', infos', j)
    {
      if j == |rowParts'| {
        assert rowParts'[..j] == rowParts' && callParts'[..j] == callParts' && infos'[..|infos'|] == infos';
      } else {
        assert SnapshotAt(base, rowParts, stored, callParts, infos, j);
        assert infos'[..stored + |Flat(callParts[..j])|] == infos[..stored + |Flat(callParts[..j])|];
      }
    }
  }

  lemma {:induction false} AppendKeepsSnapshots(base: map<int, AC.AccountRow>, rowParts: seq<map<int, AC.AccountRow>>,
                                                stored: nat, callParts: seq<seq<Call>>, infos: seq<CallInfo>)
    requires Snapshots(base, rowParts, stored, callParts, infos)
    ensures Snapshots(base, rowParts + [map[]], stored, callParts + [[]], infos)
  {
    hide Posted, Overlay, Flat;
    var rowParts', callParts' := rowParts + [map[]], callParts + [[]];
    OverlayAppend(base, rowParts, map[]);
    FlatAppend(callParts, []);
    FullSnapshot(base, rowParts, stored, callParts, infos);
    forall j | 0 <= j <= |rowParts'|
      ensures SnapshotAt(base, rowParts', stored, callParts', infos, j)
    {
      if j == |rowParts'| {
        assert rowParts'[..j] == rowParts' && callParts'[..j] == callParts' && infos[..|infos|] == infos;
        assert Overlay(base, rowParts') == Overlay(base, rowParts);
      } else {
        assert SnapshotAt(base, rowParts, stored, callParts, infos, j);
        assert rowParts'[..j] == rowParts[..j] && callParts'[..j] == callParts[..j];
      }
    }
  }

  /** Committing partition 0 moves the table on by one snapshot. */
  lemma {:induction false} CommitKeepsSnapshots(base: map<int, AC.AccountRow>, rowParts: seq<map<int, AC.AccountRow>>,
                                                stored: nat, callParts: seq<seq<Call>>, infos: seq<CallInfo>)
    requires Snapshots(base, rowParts, stored, callParts, infos) && rowParts != []
    ensures Snapshots(base + rowParts[0], rowParts[1..], stored + |callParts[0]|, callParts[1..], infos)
  {
    hide Posted, Overlay, Flat;
    FlatShift(callParts);
    var rows, calls := rowParts[1..], callParts[1..];
    var written, n := base + rowParts[0], stored + |callParts[0]|;
    forall j | 0 <= j <= |rows|
      ensures SnapshotAt(written, rows, n, calls, infos, j)
    {
      assert SnapshotAt(base, rowParts, stored, callParts, infos, j + 1);
      assert rowParts[..j + 1][1..] == rows[..j] && callParts[..j + 1][1..] == calls[..j];
      OverlayShift(base, rowParts[..j + 1]);
      FlatShift(callParts[..j + 1]);
    }
  }

  /** What is stored is one of the snapshots, and a restart begins anew from it. */
  lemma {:induction false} LoadKeepsSnapshots(base: map<int, AC.AccountRow>, rowParts: seq<map<int, AC.AccountRow>>,
                                              stored: nat, callParts: seq<seq<Call>>, infos: seq<CallInfo>)
    requires Snapshots(base, rowParts, stored, callParts, infos)
    ensures stored <= |infos| && Posted(base, infos[..stored])
    ensures Snapshots(base, [map[]], stored, [[]], infos[..stored])
  {
    hide Posted;
    assert SnapshotAt(base, rowParts, stored, callParts, infos, 0);
    assert rowParts[..0] == [] && callParts[..0] == [];
    var none: seq<map<int, AC.AccountRow>> := [map[]];
    var empty: seq<seq<Call>> := [[]];
    assert none[..0] == [] && none[..1] == none && empty[..0] == [] && empty[..1] == empty;
    assert Overlay(base, none) == base && Flat(empty) == [];
    assert infos[..stored][..stored] == infos[..stored];
  }

  // ---- over a run --------------------------------------------------------------------------

  /** The legs counted so far and not lost, as the calculation left them. */
  function InfosAfter(s: State, e: Event, infos: seq<CallInfo>): seq<CallInfo> {
    match e
    case AddOrig => if s.calculator.Calculated? then infos + [s.calculator.orig] else infos
    case AddTerm => if s.calculator.OrigAdded? then infos + [s.calculator.last] else infos
    case Restart(_, _) => if |s.db.calls| <= |infos| then infos[..|s.db.calls|] else infos
    case _ => infos
  }

  ghost function InfosOfRun(s: State, infos: seq<CallInfo>, events: seq<Event>): seq<CallInfo>
    requires Runs(s, events)
    decreases |events|
  {
    if events == [] then infos else InfosOfRun(Step(s, events[0]), InfosAfter(s, events[0], infos), events[1..])
  }

  function CallsOf(infos: seq<CallInfo>): seq<Call> {
    seq(|infos|, i requires 0 <= i < |infos| => infos[i].call)
  }

  /** The infos are those of the legs so far, and the account rows those of the infos. */
  ghost predicate Tracks(s: State, infos: seq<CallInfo>) {
    && CallsOf(infos) == AllCalls(s)
    && Snapshots(s.db.accounts, View(s, s.accounts.parts), |s.db.calls|, View(s, s.calls.parts), infos)
  }

  lemma CallsOfMore(infos: seq<CallInfo>, info: CallInfo)
    ensures CallsOf(infos + [info]) == CallsOf(infos) + [info.call]
  {
  }

  lemma {:induction false} EnqueueKeepsTracks(s: State, infos: seq<CallInfo>, info: CallInfo)
    requires Shape(s) && AccountsMatch(s) && Tracks(s, infos)
    ensures Tracks(Enqueue(s, info), infos + [info])
  {
    hide Snapshots, Flat, AC.Post, AC.Counted, AllCalls, AddToManager, CallsOf;
    var t := Enqueue(s, info);
    var a := s.accounts;
    EnqueueAppends(s, info);
    CallsOfMore(infos, info);
    ViewOfPushed(s, s.calls.parts, info.call);
    var rows, rows' := View(s, a.parts), View(t, t.accounts.parts);
    if AC.Counted(info) {
      var id := info.call.accountId;
      var row := AC.Post(if id in a.live then a.live[id] else AC.BLANK, info);
      ViewOfTouched(s, a.parts, id, row);
      OverlayTouch(s.db.accounts, rows, id, row);
    }
    AddKeepsSnapshots(s.db.accounts, rows, rows', |s.db.calls|, View(s, s.calls.parts), infos, info);
  }

  lemma {:induction false} CreateKeepsTracks(s: State, infos: seq<CallInfo>)
    requires Shape(s) && Tracks(s, infos)
    ensures Tracks(CreatePartition(s), infos)
  {
    hide Snapshots, Flat, AllCalls, AppendPart;
    CreateKeepsCalls(s);
    ViewOfAppended(s, s.accounts.parts, map[]);
    ViewOfAppended(s, s.calls.parts, []);
    AppendKeepsSnapshots(s.db.accounts, View(s, s.accounts.parts), |s.db.calls|, View(s, s.calls.parts), infos);
  }

  lemma {:induction false} AddKeepsTracks(s: State, infos: seq<CallInfo>, info: CallInfo)
    requires Core(s) && Chargeable(s, info) && Tracks(s, infos)
    ensures Tracks(AddCall(s, info), infos + [info])
  {
    hide Tracks, AccountsMatch, Counters, Frozen, Numbered, Chargeable, Enqueue, CreatePartition;
    EnqueueKeepsCore(s, info);
    EnqueueKeepsTracks(s, infos, info);
    if AddCall(s, info) != Enqueue(s, info) {
      CreateKeepsTracks(Enqueue(s, info), infos + [info]);
    }
  }

  lemma {:induction false} CommitKeepsTracks(s: State, infos: seq<CallInfo>)
    requires Shape(s) && Frozen(s) && AllPrepared(s) && Tracks(s, infos)
    ensures Tracks(StepCommit(s), infos)
  {
    hide Snapshots, Flat, Frozen, StepCommit, AllCalls;
    CommittedRows(s, Freemin);
    CommitKeepsCalls(s);
    assert s.saving != Committed;
    CommitKeepsSnapshots(s.db.accounts, s.accounts.parts, |s.db.calls|, s.calls.parts, infos);
  }

  lemma {:induction false} RemoveKeepsTracks(s: State, infos: seq<CallInfo>)
    requires Shape(s) && Frozen(s) && Numbered(s) && s.saving == Committed && Tracks(s, infos)
    ensures Tracks(StepRemove(s), infos)
  {
    hide Snapshots, Flat, Frozen, Numbered, AllCalls;
    RemoveKeepsCalls(s);
  }

  lemma {:induction false} RestartKeepsTracks(s: State, infos: seq<CallInfo>, listings: PerKind<Listing>,
                                              maxIds: PerKind<int>)
    requires Shape(s) && Tracks(s, infos)
    ensures |s.db.calls| <= |infos| && Tracks(StepRestart(s, listings, maxIds), infos[..|s.db.calls|])
  {
    hide Snapshots, Loaded, MaxId, MaxCdrId, MaxTime, CountUpTo;
    LoadKeepsSnapshots(s.db.accounts, View(s, s.accounts.parts), |s.db.calls|, View(s, s.calls.parts), infos);
    assert CallsOf(infos)[..|s.db.calls|] == s.db.calls;
    assert CallsOf(infos[..|s.db.calls|]) == CallsOf(infos)[..|s.db.calls|];
    var empty: seq<seq<Call>> := [[]];
    assert empty[..0] == [] && Flat(empty) == [];
  }

  lemma {:induction false} SaveBeginKeepsTracks(s: State, infos: seq<CallInfo>)
    requires Shape(s) && s.saving == Idle && Tracks(s, infos)
    ensures Tracks(StepSaveBegin(s), infos)
  {
    hide Tracks, CreatePartition, AllCalls, Shape;
    ShapeHasParts(s);
    if NeedSave(s) && |s.calls.parts| == 1 {
      CreateKeepsTracks(s, infos);
      CreatedStays(s);
      QuietKeepsTracks(CreatePartition(s), StepSaveBegin(s), infos);
    } else {
      QuietKeepsTracks(s, StepSaveBegin(s), infos);
    }
  }

  lemma ShapeHasParts(s: State)
    requires Shape(s)
    ensures HaveParts(s)
  {
  }

  /** Neither the legs nor the account rows change, nor what is still to be written. */
  lemma {:induction false} QuietKeepsTracks(s: State, t: State, infos: seq<CallInfo>)
    requires Tracks(s, infos) && t.calls == s.calls && t.accounts == s.accounts
    requires t.db.calls == s.db.calls && t.db.accounts == s.db.accounts &&
             (t.saving == Committed <==> s.saving == Committed)
    ensures Tracks(t, infos)
  {
    hide Snapshots, Flat;
    assert View(t, t.calls.parts) == View(s, s.calls.parts) && View(t, t.accounts.parts) == View(s, s.accounts.parts);
    assert AllCalls(t) == AllCalls(s);
  }

  /** Every step. */
  lemma {:induction false} StepKeepsTracks(s: State, e: Event, infos: seq<CallInfo>)
    requires Inv(s) && HaveParts(s) && Enabled(s, e) && Tracks(s, infos)
    ensures Tracks(Step(s, e), InfosAfter(s, e, infos))
  {
    hide Inv, Core, Shape, Frozen, Numbered, Room, Tracks, Lists, Legs, AccountsMatch, StepAddOrig, StepAddTerm,
         StepSaveBegin,
         StepCommit, StepRemove, StepRestart, StepAsk, StepFetch, Calculating;
    InvHasCore(s);
    var t := Step(s, e);
    if e.AddOrig? || e.AddTerm? {
      LegKeepsTracks(s, infos);
    } else if e.SaveBegin? {
      SaveBeginKeepsTracks(s, infos);
    } else if e.Commit? {
      CommitKeepsTracks(s, infos);
    } else if e.RemovePartition? {
      RemoveKeepsTracks(s, infos);
    } else if e.Restart? {
      RestartKeepsTracks(s, infos, e.listings, e.maxIds);
    } else {
      QuietStep(s, e);
      QuietKeepsTracks(s, t, infos);
    }
  }

  lemma QuietStep(s: State, e: Event)
    requires HaveParts(s) && Enabled(s, e) && NotAboutLegs(e)
    ensures var t := Step(s, e);
            && t.calls == s.calls && t.accounts == s.accounts && t.db.calls == s.db.calls &&
              t.db.accounts == s.db.accounts
            && (t.saving == Committed <==> s.saving == Committed)
  {
    hide Legs, Lists, Select, GetCurrent;
  }

  lemma {:induction false} LegKeepsTracks(s: State, infos: seq<CallInfo>)
    requires Core(s) && Calculating(s) && Tracks(s, infos)
    ensures HaveParts(s)
    ensures s.calculator.Calculated? ==> Tracks(StepAddOrig(s), infos + [s.calculator.orig])
    ensures s.calculator.OrigAdded? ==> Tracks(StepAddTerm(s), infos + [s.calculator.last])
  {
    hide Core, Tracks, Calculating, Legs, NamesKnown, Chargeable, AddCall;
    CoreHasParts(s);
    if s.calculator.Calculated? {
      CalculatedLegs(s);
      AddKeepsTracks(s, infos, s.calculator.orig);
      QuietKeepsTracks(AddCall(s, s.calculator.orig), StepAddOrig(s), infos + [s.calculator.orig]);
    } else if s.calculator.OrigAdded? {
      HeldLeg(s);
      AddKeepsTracks(s, infos, s.calculator.last);
      QuietKeepsTracks(AddCall(s, s.calculator.last), StepAddTerm(s), infos + [s.calculator.last]);
    }
  }

  lemma {:induction false} RunKeepsTracks(s: State, events: seq<Event>, infos: seq<CallInfo>)
    requires Inv(s) && Runs(s, events) && Tracks(s, infos)
    ensures Tracks(Final(s, events), InfosOfRun(s, infos, events))
    decreases |events|
  {
    hide Inv, Enabled, Step, Tracks, InfosAfter;
    if events != [] {
      StepKeepsTracks(s, events[0], infos);
      StepKeepsInv(s, events[0]);
      RunKeepsTracks(Step(s, events[0]), events[1..], InfosAfter(s, events[0], infos));
    }
  }

  /** At every moment of every run the stored account rows are exactly those of the accounts with
      counted stored legs, each the posting of all of them in order; the rows in memory are the
      same for all legs so far. */
  lemma {:induction false} StoredAccountsArePosted(s: State, events: seq<Event>)
    requires Reached(s, events)
    ensures var infos := InfosOfRun(START, [], events);
            && CallsOf(infos) == AllCalls(s) && |s.db.calls| <= |infos| && CallsOf(infos[..|s.db.calls|]) == s.db.calls
            && Posted(s.db.accounts, infos[..|s.db.calls|]) && Posted(s.accounts.live, infos)
  {
    hide Reached, Inv, Posted, Overlay, Flat, Runs, Final;
    ReachedIsGood(s, events);
    MemoryOfInv(s);
    RunOfReached(s, events);
    var infos := InfosOfRun(START, [], events);
    StartTracks();
    StartIsGood();
    RunKeepsTracks(START, events, []);
    var rows, calls := View(s, s.accounts.parts), View(s, s.calls.parts);
    LoadKeepsSnapshots(s.db.accounts, rows, |s.db.calls|, calls, infos);
    FullSnapshot(s.db.accounts, rows, |s.db.calls|, calls, infos);
    assert CallsOf(infos)[..|s.db.calls|] == s.db.calls;
    assert CallsOf(infos[..|s.db.calls|]) == CallsOf(infos)[..|s.db.calls|];
  }

  lemma MemoryOfInv(s: State)
    requires Inv(s)
    ensures s.accounts.live == Overlay(s.db.accounts, View(s, s.accounts.parts))
  {
    hide Overlay, View;
  }

  lemma StartTracks()
    ensures Tracks(START, [])
  {
    var rows, calls := START.accounts.parts, START.calls.parts;
    assert rows[..0] == [] && calls[..0] == [] && rows[..1] == rows && calls[..1] == calls && Flat(calls) == [];
    assert Overlay(START.db.accounts, rows) == map[];
  }

  lemma {:induction false} LegsAreOfAccount(infos: seq<CallInfo>, id: int)
    ensures forall info :: info in LegsOfAccount(infos, id) ==>
              info in infos && AC.Counted(info) && info.call.accountId == id
  {
    hide AC.Counted;
    if infos != [] {
      LegsAreOfAccount(infos[..|infos| - 1], id);
    }
  }

  /** So a stored row shows the account's counted stored legs of the latest day and month among
      them, and their cost since the last invoice, as long as the account stays as it was. */
  lemma {:induction false} StoredAccountShows(s: State, events: seq<Event>, account: Client)
    requires Reached(s, events) && account.id in s.db.accounts && account.id != 0
    requires forall info ::
               info in InfosOfRun(START, [], events) && info.call.accountId == account.id && AC.Counted(info) ==>
               info.account == Some(account) && AC.Dated(info)
    ensures |s.db.calls| <= |InfosOfRun(START, [], events)|
    ensures var legs := LegsOfAccount(InfosOfRun(START, [], events)[..|s.db.calls|], account.id);
            var row := s.db.accounts[account.id];
            && legs != [] && row.accountId == account.id && row.amountDate == account.amountDate
            && (exists i :: 0 <= i < |legs| && row.amountDay == legs[i].utcDay)
            && (exists i :: 0 <= i < |legs| && row.amountMonth == legs[i].utcMonth)
            && (forall i | 0 <= i < |legs| :: legs[i].utcDay <= row.amountDay && legs[i].utcMonth <= row.amountMonth)
            && row.sumDay == AC.Total(AC.OnDay(row.amountDay), legs)
            && row.sumMnDay == AC.Total(AC.InternationalOn(row.amountDay), legs)
            && row.sumMonth == AC.Total(AC.InMonth(row.amountMonth), legs)
            && row.sum == AC.Total(AC.Uninvoiced, legs)
  {
    hide Runs, Final, InfosOfRun, LegsOfAccount, AC.PostAll, AC.Total, AC.Counted, AC.Dated;
    StoredAccountsArePosted(s, events);
    var infos := InfosOfRun(START, [], events);
    var stored := infos[..|s.db.calls|];
    var legs := LegsOfAccount(stored, account.id);
    assert RowIsPosted(s.db.accounts, stored, account.id);
    LegsAreOfAccount(stored, account.id);
    forall i | 0 <= i < |legs|
      ensures AC.Counted(legs[i]) && AC.Dated(legs[i]) && legs[i].account == Some(account) &&
              legs[i].call.accountId == account.id
    {
      assert legs[i] in stored && legs[i] in infos;
    }
    assert legs != [] && AC.Counted(legs[0]);
    AC.FreshAccountShows(account, legs);
  }
}
