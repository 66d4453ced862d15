/** The billing pipeline as a step system. Every step is one section that the
    program runs under its lock (or one database transaction); steps of the
    fetcher, the calculator, the saver and callers of `getCurrent` interleave
    freely, and the process may die and be restarted between any two steps. */
module BillingState {
  import opened Models
  import opened Ledger
  import AC = AccountCounters

  const CALLS_PARTITION_SIZE := 50000
  const CALLS_MAX_QUEUE_SIZE := 1000000
  const CDRS_PARTITION_SIZE := 25000
  const CDRS_MAX_QUEUE_SIZE := 50000
  const RELOAD_WINDOW := 86400 * 60

  type Listing = map<int, seq<int>>

  // ---- state -------------------------------------------------------------------

  /** A manager of id-keyed counters: all records, the ids each owner has (newest
      first), the partitions not yet written, and the last id given out. */
  datatype Manager = Manager(live: map<int, Row>, byOwner: Listing, parts: seq<map<int, Row>>, lastId: int)

  datatype Accounts = Accounts(live: map<int, AC.AccountRow>, parts: seq<map<int, AC.AccountRow>>)

  datatype Cdrs = Cdrs(queue: seq<Cdr>, lastId: int)

  datatype Calls = Calls(parts: seq<seq<Call>>, realtimeLastId: int, storedLastId: int)

  /** Where the calculator stands with the first CDR of the queue. */
  datatype Calc =
    | Ready
    | Calculated(orig: CallInfo, term: CallInfo)
    | OrigAdded(last: CallInfo)
    | Finished

  /** Where the saver stands, with the queries it has prepared so far. */
  datatype Saving =
    | Idle
    | Preparing(calls: Option<seq<Call>>, accounts: Option<map<int, AC.AccountRow>>,
                rows: PerKind<Option<map<int, Row>>>)
    | Committed

  datatype Database = Database(
    cdrs: seq<Cdr>,
    calls: seq<Call>,
    accounts: map<int, AC.AccountRow>,
    rows: PerKind<map<int, Row>>)

  /** What an observer remembers about the run: how many CDRs were fetched and
      processed, whether a save ever cut between the two legs of a CDR, and
      whether a restart ever found the stored legs cut like that. */
  datatype History = History(done: nat, fetched: nat, split: bool, lossy: bool)

  datatype State = State(
    db: Database,
    cdrs: Cdrs,
    calls: Calls,
    accounts: Accounts,
    managers: PerKind<Manager>,
    calculator: Calc,
    saving: Saving,
    history: History)

  // ---- counters -----------------------------------------------------------------

  /** What `getCurrent` is asked for, and the window and allowance of the record it
      would open. */
  datatype Query = Query(owner: int, time: int, from: int, to: int, paid: int)

  /** Free-minute records are matched by their month, the others by their window. */
  predicate Matches(k: Kind, row: Row, q: Query) {
    if k == Freemin then row.from == q.from else row.from <= q.time <= row.to
  }

  /** The first listed record that matches. */
  function Lookup(k: Kind, live: map<int, Row>, ids: seq<int>, q: Query): (r: Option<int>)
    ensures r.Some? ==> r.value in ids && r.value in live && Matches(k, live[r.value], q)
    ensures r.None? ==> forall id | id in ids && id in live :: !Matches(k, live[id], q)
  {
    if ids == [] then None
    else if ids[0] in live && Matches(k, live[ids[0]], q) then Some(ids[0])
    else Lookup(k, live, ids[1..], q)
  }

  function Ids(m: Manager, owner: int): seq<int> {
    if owner in m.byOwner then m.byOwner[owner] else []
  }

  /** The seconds used of the record of an owner that matches; none if there is no such record. */
  function UsedOf(k: Kind, m: Manager, q: Query): int {
    match Lookup(k, m.live, Ids(m, q.owner), q)
    case Some(id) => m.live[id].usedSeconds
    case None => 0
  }

  function Open(m: Manager, q: Query): Manager
    requires m.parts != []
  {
    var id := m.lastId + 1;
    var row := Row(id, q.owner, q.from, q.to, q.paid, 0, 0.0, 0, 0);
    Manager(m.live[id := row], m.byOwner[q.owner := [id] + Ids(m, q.owner)], Touch(m.parts, id, row), id)
  }

  /** The record for a query, opened if there is none. */
  function GetCurrent(k: Kind, m: Manager, q: Query): (Manager, int)
    requires m.parts != []
  {
    match Lookup(k, m.live, Ids(m, q.owner), q)
    case Some(id) => (m, id)
    case None => (Open(m, q), m.lastId + 1)
  }

  /** A leg is charged to the record it names, if that record is known. */
  function AddToManager(k: Kind, m: Manager, info: CallInfo): Manager
    requires m.parts != []
  {
    var id := Named(k, info.call);
    if id == 0 || (k == Package && !info.prepaid) || id !in m.live then m
    else
      var row := Charge(k, m.live[id], info.call);
      m.(live := m.live[id := row], parts := Touch(m.parts, row.id, row))
  }

  function AddToAccounts(a: Accounts, info: CallInfo): Accounts
    requires a.parts != []
  {
    if !AC.Counted(info) then a
    else
      var id := info.call.accountId;
      var row := AC.Post(if id in a.live then a.live[id] else AC.BLANK, info);
      Accounts(a.live[id := row], Touch(a.parts, id, row))
  }

  // ---- partitions ------------------------------------------------------------------

  function CreatePartition(s: State): State {
    s.(calls := s.calls.(parts := s.calls.parts + [[]]),
       accounts := s.accounts.(parts := s.accounts.parts + [map[]]),
       managers := PerKind(AppendPart(s.managers.freemin), AppendPart(s.managers.package),
                           AppendPart(s.managers.trunkSettings), AppendPart(s.managers.nnpMinute)))
  }

  function AppendPart(m: Manager): Manager {
    m.(parts := m.parts + [map[]])
  }

  function DropPart(m: Manager): Manager {
    m.(parts := if m.parts == [] then [] else m.parts[1..])
  }

  predicate HaveParts(s: State) {
    && s.calls.parts != [] && s.accounts.parts != []
    && forall k: Kind :: s.managers.At(k).parts != []
  }

  /** A leg is added to every counter and queued; a full partition is closed. */
  function AddCall(s: State, info: CallInfo): State
    requires HaveParts(s)
  {
    var added := Enqueue(s, info);
    if |added.calls.parts[|added.calls.parts| - 1]| >= CALLS_PARTITION_SIZE then CreatePartition(added) else added
  }

  function Enqueue(s: State, info: CallInfo): (r: State)
    requires HaveParts(s)
    ensures r.calls.parts != []
  {
    s.(accounts := AddToAccounts(s.accounts, info),
       managers := PerKind(AddToManager(Freemin, s.managers.At(Freemin), info),
                           AddToManager(Package, s.managers.At(Package), info),
                           AddToManager(TrunkSettings, s.managers.At(TrunkSettings), info),
                           AddToManager(NnpMinute, s.managers.At(NnpMinute), info)),
       calls := s.calls.(parts := PushLast(s.calls.parts, info.call), realtimeLastId := info.call.id))
  }

  predicate NeedSave(s: State)
    requires s.calls.parts != []
  {
    |s.calls.parts[0]| > 0 || |s.calls.parts| > 1
  }

  // ---- the CDR table -----------------------------------------------------------------

  /** `where id > lastId order by id limit n`, on a table kept in id order. */
  function Select(table: seq<Cdr>, lastId: int, limit: nat): seq<Cdr> {
    if table == [] || limit == 0 then []
    else if table[0].id > lastId then [table[0]] + Select(table[1..], lastId, limit - 1)
    else Select(table[1..], lastId, limit)
  }

  /** A new CDR has a higher id than all before. */
  predicate ComesAfter(table: seq<Cdr>, cdr: Cdr) {
    cdr.id > 0 && forall i | 0 <= i < |table| :: table[i].id < cdr.id
  }

  /** How many CDRs of the table have an id up to a given one. */
  function CountUpTo(table: seq<Cdr>, id: int): nat {
    if table == [] then 0
    else CountUpTo(table[..|table| - 1], id) + if table[|table| - 1].id <= id then 1 else 0
  }

  // ---- what a restart reads back ------------------------------------------------------

  function MaxId(calls: seq<Call>): int {
    if calls == [] then 0 else if |calls| == 1 then calls[0].id
    else Max(MaxId(calls[..|calls| - 1]), calls[|calls| - 1].id)
  }

  function MaxCdrId(calls: seq<Call>): int {
    if calls == [] then 0 else if |calls| == 1 then calls[0].cdrId
    else Max(MaxCdrId(calls[..|calls| - 1]), calls[|calls| - 1].cdrId)
  }

  function MaxTime(calls: seq<Call>): int {
    if calls == [] then 0 else if |calls| == 1 then calls[0].connectTime
    else Max(MaxTime(calls[..|calls| - 1]), calls[|calls| - 1].connectTime)
  }

  /** Records are read back from sixty days before the last stored call on. */
  function FilterFrom(lastStoredTime: int): int {
    if lastStoredTime > 0 then lastStoredTime - RELOAD_WINDOW else lastStoredTime
  }

  function Recent(rows: map<int, Row>, lastStoredTime: int): map<int, Row> {
    map id | id in rows && rows[id].from >= FilterFrom(lastStoredTime) :: rows[id]
  }

  /** `byOwner` lists exactly the records of each owner, the latest window first. */
  ghost predicate Lists(byOwner: Listing, live: map<int, Row>) {
    && (forall o, i | o in byOwner && 0 <= i < |byOwner[o]| :: byOwner[o][i] in live && live[byOwner[o][i]].owner == o)
    && (forall o, i, j | o in byOwner && 0 <= i < j < |byOwner[o]| ::
          byOwner[o][i] != byOwner[o][j] && live[byOwner[o][i]].from >= live[byOwner[o][j]].from)
    && (forall id | id in live :: live[id].owner in byOwner && id in byOwner[live[id].owner])
  }

  /** `select max(id)`, 0 when the table is empty. */
  ghost predicate IsMaxKey(rows: map<int, Row>, n: int) {
    if rows == map[] then n == 0 else n in rows && forall id | id in rows :: id <= n
  }

  function Loaded(rows: map<int, Row>, lastStoredTime: int, byOwner: Listing, maxId: int): Manager {
    Manager(Recent(rows, lastStoredTime), byOwner, [map[]], maxId)
  }

  // ---- steps -----------------------------------------------------------------------------

  datatype Event =
    | CdrArrives(cdr: Cdr)
    | Fetch
    | Calculate(orig: CallInfo, term: CallInfo)
    | SkipTechnical
    | AddOrig
    | AddTerm
    | RemoveCdr
    | Ask(kind: Kind, query: Query)
    | SaveBegin
    | PrepareCalls
    | PrepareAccounts
    | PrepareRows(kind: Kind)
    | Commit
    | SaveFails
    | RemovePartition
    | Restart(listings: PerKind<Listing>, maxIds: PerKind<int>)

  /** A leg names only records `getCurrent` returned, and a named package record was
      found together with its package. */
  predicate NamesKnown(s: State, info: CallInfo) {
    && (forall k: Kind :: Named(k, info.call) == 0 || Named(k, info.call) in s.managers.At(k).live)
    && (Named(Package, info.call) != 0 ==> info.prepaid)
  }

  /** What the calculation of the next CDR produces: two legs, numbered after the last
      one and naming each other, of which only the first takes prepaid seconds. */
  predicate Legs(s: State, orig: CallInfo, term: CallInfo)
    requires s.cdrs.queue != []
  {
    var last := s.calls.realtimeLastId;
    && orig.call.id == last + 1 && orig.call.peerId == last + 2
    && term.call.id == last + 2 && term.call.peerId == last + 1
    && orig.call.cdrId == term.call.cdrId == s.cdrs.queue[0].id
    && orig.call.orig && !term.call.orig
    && NamesKnown(s, orig) && NamesKnown(s, term)
    && orig.call.packageTime >= 0
    && Named(Freemin, term.call) == 0 && Named(Package, term.call) == 0
  }

  ghost predicate Enabled(s: State, e: Event)
    requires HaveParts(s)
  {
    match e
    case CdrArrives(cdr) => ComesAfter(s.db.cdrs, cdr)
    case Fetch => true
    case Calculate(orig, term) =>
      && s.calculator == Ready && s.cdrs.queue != [] && |Flat(s.calls.parts)| < CALLS_MAX_QUEUE_SIZE
      && !s.cdrs.queue[0].technical && Legs(s, orig, term)
    case SkipTechnical =>
      && s.calculator == Ready && s.cdrs.queue != [] && |Flat(s.calls.parts)| < CALLS_MAX_QUEUE_SIZE
      && s.cdrs.queue[0].technical
    case AddOrig => s.calculator.Calculated?
    case AddTerm => s.calculator.OrigAdded?
    case RemoveCdr => s.calculator == Finished && s.cdrs.queue != []
    case Ask(_, _) => true
    case SaveBegin => s.saving == Idle
    case PrepareCalls => s.saving.Preparing?
    case PrepareAccounts => s.saving.Preparing?
    case PrepareRows(_) => s.saving.Preparing?
    case Commit =>
      && s.saving.Preparing? && s.saving.calls.Some? && s.saving.accounts.Some?
      && forall k: Kind :: s.saving.rows.At(k).Some?
    case SaveFails => s.saving.Preparing?
    case RemovePartition => s.saving == Committed
    case Restart(listings, maxIds) =>
      forall k: Kind ::
        && Lists(listings.At(k), Recent(s.db.rows.At(k), MaxTime(s.db.calls)))
        && IsMaxKey(s.db.rows.At(k), maxIds.At(k))
  }

  const NOTHING_PREPARED: PerKind<Option<map<int, Row>>> := PerKind(None, None, None, None)

  ghost function Step(s: State, e: Event): State
    requires HaveParts(s) && Enabled(s, e)
  {
    match e
    case CdrArrives(cdr) => s.(db := s.db.(cdrs := s.db.cdrs + [cdr]))
    case Fetch => StepFetch(s)
    case Calculate(orig, term) => s.(calculator := Calculated(orig, term))
    case SkipTechnical => s.(calculator := Finished)
    case AddOrig => StepAddOrig(s)
    case AddTerm => StepAddTerm(s)
    case RemoveCdr => StepRemoveCdr(s)
    case Ask(k, q) => StepAsk(s, k, q)
    case SaveBegin => StepSaveBegin(s)
    case PrepareCalls => s.(saving := s.saving.(calls := Some(s.calls.parts[0])))
    case PrepareAccounts => s.(saving := s.saving.(accounts := Some(s.accounts.parts[0])))
    case PrepareRows(k) => s.(saving := s.saving.(rows := s.saving.rows.With(k, Some(s.managers.At(k).parts[0]))))
    case Commit => StepCommit(s)
    case SaveFails => s.(saving := Idle)
    case RemovePartition => StepRemove(s)
    case Restart(listings, maxIds) => StepRestart(s, listings, maxIds)
  }

  function StepAddOrig(s: State): State
    requires HaveParts(s) && s.calculator.Calculated?
  {
    AddCall(s, s.calculator.orig).(calculator := OrigAdded(s.calculator.term))
  }

  function StepAddTerm(s: State): State
    requires HaveParts(s) && s.calculator.OrigAdded?
  {
    AddCall(s, s.calculator.last).(calculator := Finished)
  }

  function StepRemoveCdr(s: State): State
    requires s.cdrs.queue != []
  {
    s.(cdrs := s.cdrs.(queue := s.cdrs.queue[1..]),
       calculator := Ready,
       history := s.history.(done := s.history.done + 1))
  }

  function StepAsk(s: State, k: Kind, q: Query): State
    requires HaveParts(s)
  {
    s.(managers := s.managers.With(k, GetCurrent(k, s.managers.At(k), q).0))
  }

  function StepFetch(s: State): State {
    if |s.cdrs.queue| >= CDRS_MAX_QUEUE_SIZE then s
    else
      var page := Select(s.db.cdrs, s.cdrs.lastId, CDRS_PARTITION_SIZE);
      if page == [] then s
      else
        s.(cdrs := Cdrs(s.cdrs.queue + page, page[|page| - 1].id),
           history := s.history.(fetched := s.history.fetched + |page|))
  }

  /** All legs so far, stored and queued. Between a commit and the removal of the
      partition, partition 0 is both stored and still queued. */
  function Pending(s: State): seq<Call> {
    if s.saving == Committed && s.calls.parts != [] then Flat(s.calls.parts[1..]) else Flat(s.calls.parts)
  }

  function AllCalls(s: State): seq<Call> {
    s.db.calls + Pending(s)
  }

  function StepSaveBegin(s: State): State
    requires HaveParts(s)
  {
    if !NeedSave(s) then s
    else if |s.calls.parts| == 1 then
      CreatePartition(s).(
        saving := Preparing(None, None, NOTHING_PREPARED),
        history := s.history.(split := s.history.split || |AllCalls(s)| % 2 == 1))
    else s.(saving := Preparing(None, None, NOTHING_PREPARED))
  }

  function StepCommit(s: State): State
    requires s.saving.Preparing? && s.saving.calls.Some? && s.saving.accounts.Some?
    requires forall k: Kind :: s.saving.rows.At(k).Some?
  {
    s.(db := s.db.(
         calls := s.db.calls + s.saving.calls.value,
         accounts := s.db.accounts + s.saving.accounts.value,
         rows := PerKind(s.db.rows.At(Freemin) + s.saving.rows.At(Freemin).value,
                         s.db.rows.At(Package) + s.saving.rows.At(Package).value,
                         s.db.rows.At(TrunkSettings) + s.saving.rows.At(TrunkSettings).value,
                         s.db.rows.At(NnpMinute) + s.saving.rows.At(NnpMinute).value)),
       saving := Committed)
  }

  function StepRemove(s: State): State
    requires HaveParts(s)
  {
    var first := s.calls.parts[0];
    s.(calls := s.calls.(
         parts := s.calls.parts[1..],
         storedLastId := if first == [] then s.calls.storedLastId else first[|first| - 1].id),
       accounts := s.accounts.(parts := s.accounts.parts[1..]),
       managers := PerKind(DropPart(s.managers.freemin), DropPart(s.managers.package),
                           DropPart(s.managers.trunkSettings), DropPart(s.managers.nnpMinute)),
       saving := Idle)
  }

  /** The process is gone with everything it held; a new one reads the database. */
  function StepRestart(s: State, listings: PerKind<Listing>, maxIds: PerKind<int>): State {
    var lastTime := MaxTime(s.db.calls);
    var done := CountUpTo(s.db.cdrs, MaxCdrId(s.db.calls));
    State(
      s.db,
      Cdrs([], MaxCdrId(s.db.calls)),
      Calls([[]], MaxId(s.db.calls), MaxId(s.db.calls)),
      Accounts(s.db.accounts, [map[]]),
      PerKind(Loaded(s.db.rows.freemin, lastTime, listings.freemin, maxIds.freemin),
              Loaded(s.db.rows.package, lastTime, listings.package, maxIds.package),
              Loaded(s.db.rows.trunkSettings, lastTime, listings.trunkSettings, maxIds.trunkSettings),
              Loaded(s.db.rows.nnpMinute, lastTime, listings.nnpMinute, maxIds.nnpMinute)),
      Ready,
      Idle,
      History(done, done, s.history.split, s.history.lossy || |s.db.calls| % 2 == 1))
  }

  /** Empty tables and a process just started. */
  const START: State :=
    State(
      Database([], [], map[], PerKind(map[], map[], map[], map[])),
      Cdrs([], 0),
      Calls([[]], 0, 0),
      Accounts(map[], [map[]]),
      PerKind(Manager(map[], map[], [map[]], 0), Manager(map[], map[], [map[]], 0),
              Manager(map[], map[], [map[]], 0), Manager(map[], map[], [map[]], 0)),
      Ready,
      Idle,
      History(0, 0, false, false))

  /** Any run of steps, each enabled when it is taken. */
  ghost predicate Runs(s: State, events: seq<Event>)
    decreases |events|
  {
    events == [] || (HaveParts(s) && Enabled(s, events[0]) && Runs(Step(s, events[0]), events[1..]))
  }

  ghost function Final(s: State, events: seq<Event>): State
    requires Runs(s, events)
    decreases |events|
  {
    if events == [] then s else Final(Step(s, events[0]), events[1..])
  }
}
