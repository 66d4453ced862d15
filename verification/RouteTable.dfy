/** Route tables: ordered rules with filters on both numbers, each naming an outcome or a
    further table. */
module RouteTable {
  import opened SortedIndex

  datatype Route = Route(aNumberId: int, bNumberId: int, outcomeId: int, nestedId: int)
  datatype Table = Table(serverId: int, routes: seq<Route>)

  datatype Config = Config(
    tables: map<int, Table>,
    numbers: map<int, seq<int>>,
    prefixlists: set<int>,
    prefixes: seq<IndexRow<int>>,
    outcomes: map<int, int>,
    servers: set<int>)

  /** The numbers of a call and the phases its mega-trunk state is in. */
  datatype Query = Query(aNumber: string, bNumber: string, phase1: bool, phase2: bool)

  datatype Error = TableNotFound(id: int) | NumberNotFound(id: int) | PrefixlistNotFound(id: int)
  datatype Result<T> = Ok(value: T) | Fail(error: Error)

  /** Tables only lead to tables of lower rank. */
  ghost predicate Acyclic(c: Config, rank: int -> nat) {
    forall id, k :: id in c.tables && 0 <= k < |c.tables[id].routes| && c.tables[id].routes[k].nestedId in c.tables ==>
      rank(c.tables[id].routes[k].nestedId) < rank(id)
  }

  // ---- filters --------------------------------------------------------------------

  /** Some list of the number set has a prefix of the number, looking at the lists in order;
      a list that does not exist is an error if it is reached. */
  ghost function Passes(c: Config, lists: seq<int>, number: string): Result<bool> {
    if lists == [] then Ok(false)
    else if lists[0] !in c.prefixlists then Fail(PrefixlistNotFound(lists[0]))
    else if Listed(c.prefixes, lists[0], number) then Ok(true)
    else Passes(c, lists[1..], number)
  }

  ghost function FilterOf(c: Config, numberId: int, number: string): Result<bool> {
    if numberId == 0 then Ok(true)
    else if numberId !in c.numbers then Fail(NumberNotFound(numberId))
    else Passes(c, c.numbers[numberId], number)
  }

  predicate PhaseAllows(c: Config, q: Query, outcomeId: int) {
    !(outcomeId in c.outcomes && c.outcomes[outcomeId] == 6 && !q.phase1) &&
    !(outcomeId in c.outcomes && c.outcomes[outcomeId] == 7 && !q.phase2)
  }

  // ---- what the tables decide -------------------------------------------------------------

  /** An outcome, zero when no rule applies; and the server the call is in afterwards. */
  datatype Decision = Decision(outcome: Result<int>, server: int)

  ghost function Decide(c: Config, rank: int -> nat, q: Query, id: int, server: int): Decision
    requires Acyclic(c, rank)
    decreases rank(id), 0, 1
  {
    if id !in c.tables then Decision(Fail(TableNotFound(id)), server)
    else
      var entered := if c.tables[id].serverId in c.servers then c.tables[id].serverId else server;
      DecideFrom(c, rank, q, id, 0, entered)
  }

  ghost function DecideFrom(c: Config, rank: int -> nat, q: Query, id: int, k: nat, server: int): Decision
    requires Acyclic(c, rank) && id in c.tables && k <= |c.tables[id].routes|
    decreases rank(id), 0, 0, |c.tables[id].routes| - k
  {
    if k == |c.tables[id].routes| then Decision(Ok(0), server)
    else
      var route := c.tables[id].routes[k];
      var a := FilterOf(c, route.aNumberId, q.aNumber);
      if a.Fail? then Decision(Fail(a.error), server)
      else if !a.value then DecideFrom(c, rank, q, id, k + 1, server)
      else
        var b := FilterOf(c, route.bNumberId, q.bNumber);
        if b.Fail? then Decision(Fail(b.error), server)
        else if !b.value then DecideFrom(c, rank, q, id, k + 1, server)
        else if route.outcomeId != 0 then
          if PhaseAllows(c, q, route.outcomeId) then Decision(Ok(route.outcomeId), server)
          else DecideFrom(c, rank, q, id, k + 1, server)
        else if route.nestedId != 0 then
          if route.nestedId !in c.tables then Decision(Fail(TableNotFound(route.nestedId)), server)
          else
            var nested := Decide(c, rank, q, route.nestedId, server);
            if nested.outcome == Ok(0) then DecideFrom(c, rank, q, id, k + 1, nested.server) else nested
        else DecideFrom(c, rank, q, id, k + 1, server)
  }

  class RadiusAuthProcessor {
    const config: Config
    const query: Query
    var server: int

    constructor (c: Config, q: Query, s: int)
      ensures config == c && query == q && server == s
    {
      config, query, server := c, q, s;
    }

    /** A number passes when some list of the set has a prefix of it. */
    method FilterByNumber(numberId: int, number: string) returns (r: Result<bool>)
      requires Sorted(config.prefixes) && |number| < 20
      ensures numberId != 0 ==> r == FilterOf(config, numberId, number)
    {
      hide Listed, Sorted;
      if numberId !in config.numbers {
        return Fail(NumberNotFound(numberId));
      }
      var lists := config.numbers[numberId];
      var i := 0;
      assert lists[0..] == lists;
      while i < |lists|
        invariant 0 <= i <= |lists| && Passes(config, lists[i..], number) == Passes(config, lists, number)
      {
        if lists[i] !in config.prefixlists {
          return Fail(PrefixlistNotFound(lists[i]));
        }
        var row := FindPrefix(config.prefixes, lists[i], number);
        if row >= 0 {
          return Ok(true);
        }
        assert lists[i..][1..] == lists[i + 1..];
        i := i + 1;
      }
      r := Ok(false);
    }

    /** The walk through the tables; entering a table of a known server moves the call there. */
    method ProcessRouteTable(id: int, ghost rank: int -> nat) returns (r: Result<int>)
      requires Acyclic(config, rank) && Sorted(config.prefixes) && |query.aNumber| < 20 && |query.bNumber| < 20
      modifies this`server
      ensures Decision(r, server) == Decide(config, rank, query, id, old(server))
      decreases rank(id)
    {
      hide FilterOf, Sorted;
      if id !in config.tables {
        return Fail(TableNotFound(id));
      }
      var table := config.tables[id];
      if table.serverId in config.servers && server != table.serverId {
        server := table.serverId;
      }
      ghost var answer := Decide(config, rank, query, id, old(server));
      var k := 0;
      while k < |table.routes|
        invariant 0 <= k <= |table.routes|
        invariant DecideFrom(config, rank, query, id, k, server) == answer
      {
        var route := table.routes[k];
        NoFilter(config, query);
        if route.aNumberId != 0 {
          var a := FilterByNumber(route.aNumberId, query.aNumber);
          if a.Fail? { return Fail(a.error); }
          if !a.value { k := k + 1; continue; }
        }
        if route.bNumberId != 0 {
          var b := FilterByNumber(route.bNumberId, query.bNumber);
          if b.Fail? { return Fail(b.error); }
          if !b.value { k := k + 1; continue; }
        }
        if route.outcomeId != 0 {
          if !PhaseAllows(config, query, route.outcomeId) { k := k + 1; continue; }
          return Ok(route.outcomeId);
        }
        if route.nestedId != 0 {
          if route.nestedId !in config.tables { return Fail(TableNotFound(route.nestedId)); }
          var nested := ProcessRouteTable(route.nestedId, rank);
          if nested != Ok(0) { return nested; }
        }
        k := k + 1;
      }
      r := Ok(0);
    }
  }

  lemma NoFilter(c: Config, q: Query)
    ensures FilterOf(c, 0, q.aNumber) == Ok(true) && FilterOf(c, 0, q.bNumber) == Ok(true)
  {
  }

  // ---- the flattening ------------------------------------------------------------------------

  /** What the walk through the tables meets, freed of the tables: a rule with its outcome, or the
      entry into a nested table with that table's server; each with every pair of filters on
      the way to it. */
  datatype Mark =
    | Rule(filters: seq<(int, int)>, outcome: int)
    | Enter(filters: seq<(int, int)>, serverId: int)

  ghost function UnderOne(filter: (int, int), mark: Mark): Mark {
    match mark
    case Rule(filters, outcome) => Rule([filter] + filters, outcome)
    case Enter(filters, serverId) => Enter([filter] + filters, serverId)
  }

  ghost function Under(filter: (int, int), marks: seq<Mark>): (r: seq<Mark>)
    ensures |r| == |marks|
  {
    seq(|marks|, i requires 0 <= i < |marks| => UnderOne(filter, marks[i]))
  }

  /** The rules of a table and the entries below it, in depth-first order. */
  ghost function Marks(c: Config, rank: int -> nat, id: int, k: nat): seq<Mark>
    requires Acyclic(c, rank) && id in c.tables && k <= |c.tables[id].routes|
    decreases rank(id), |c.tables[id].routes| - k
  {
    if k == |c.tables[id].routes| then []
    else
      var route := c.tables[id].routes[k];
      var filter := (route.aNumberId, route.bNumberId);
      (if route.outcomeId != 0 then [Rule([filter], route.outcomeId)]
       else if route.nestedId in c.tables && route.nestedId != 0 then
         Under(filter, [Enter([], c.tables[route.nestedId].serverId)] + Marks(c, rank, route.nestedId, 0))
       else []) + Marks(c, rank, id, k + 1)
  }

  /** The flattening of a table: its own entry, then everything in it. */
  ghost function Flattening(c: Config, rank: int -> nat, id: int): seq<Mark>
    requires Acyclic(c, rank) && id in c.tables
  {
    [Enter([], c.tables[id].serverId)] + Marks(c, rank, id, 0)
  }

  /** A number passes a filter when the filter is absent or some list it names has a prefix of it. */
  ghost predicate Accepts(c: Config, numberId: int, number: string) {
    numberId == 0 ||
    (numberId in c.numbers &&
     exists i :: 0 <= i < |c.numbers[numberId]| && Listed(c.prefixes, c.numbers[numberId][i], number))
  }

  ghost predicate Through(c: Config, q: Query, filter: (int, int)) {
    Accepts(c, filter.0, q.aNumber) && Accepts(c, filter.1, q.bNumber)
  }

  /** Every filter on the way lets the call pass. */
  ghost predicate Reached(c: Config, q: Query, mark: Mark) {
    forall i :: 0 <= i < |mark.filters| ==> Through(c, q, mark.filters[i])
  }

  ghost predicate Applies(c: Config, q: Query, mark: Mark) {
    mark.Rule? && Reached(c, q, mark) && PhaseAllows(c, q, mark.outcome)
  }

  /** The position of the first rule that applies, or the end. */
  ghost function Stop(c: Config, q: Query, marks: seq<Mark>): (i: nat)
    ensures i <= |marks| && (i < |marks| ==> Applies(c, q, marks[i]))
    ensures forall j :: 0 <= j < i ==> !Applies(c, q, marks[j])
  {
    if marks == [] || Applies(c, q, marks[0]) then 0 else Stop(c, q, marks[1..]) + 1
  }

  /** The known servers of the tables that are entered along some marks. */
  ghost function Entered(c: Config, q: Query, marks: seq<Mark>): seq<int> {
    if marks == [] then []
    else (if marks[0].Enter? && Reached(c, q, marks[0]) &&
          marks[0].serverId in c.servers then [marks[0].serverId] else []) +
         Entered(c, q, marks[1..])
  }

  function LastOr(s: seq<int>, otherwise: int): int {
    if s == [] then otherwise else s[|s| - 1]
  }

  /** The outcome of the first rule that applies, zero when none does; the server of the last
      known table entered before it, or the one the call was in. */
  ghost function Read(c: Config, q: Query, marks: seq<Mark>, server: int): Decision {
    var stop := Stop(c, q, marks);
    Decision(Ok(if stop < |marks| then marks[stop].outcome else 0), LastOr(Entered(c, q, marks[..stop]), server))
  }

  /** Everything named exists. */
  ghost predicate WellFormed(c: Config) {
    (forall id :: id in c.numbers ==> forall l :: l in c.numbers[id] ==> l in c.prefixlists) &&
    forall id, k :: id in c.tables && 0 <= k < |c.tables[id].routes| ==> RouteWellFormed(c, c.tables[id].routes[k])
  }

  ghost predicate RouteWellFormed(c: Config, route: Route) {
    (route.aNumberId != 0 ==> route.aNumberId in c.numbers) &&
      (route.bNumberId != 0 ==> route.bNumberId in c.numbers) &&
    (route.nestedId != 0 ==> route.nestedId in c.tables)
  }

  lemma {:induction false} PassesIfListed(c: Config, lists: seq<int>, number: string)
    requires forall l :: l in lists ==> l in c.prefixlists
    ensures Passes(c, lists, number) == Ok(exists i :: 0 <= i < |lists| && Listed(c.prefixes, lists[i], number))
  {
    hide Listed;
    if lists != [] {
      PassesIfListed(c, lists[1..], number);
      assert forall i :: 0 < i < |lists| ==> lists[i] == lists[1..][i - 1];
    }
  }

  lemma FilterIsAccepts(c: Config, numberId: int, number: string)
    requires WellFormed(c) && (numberId != 0 ==> numberId in c.numbers)
    ensures FilterOf(c, numberId, number) == Ok(Accepts(c, numberId, number))
  {
    hide Listed;
    if numberId != 0 { PassesIfListed(c, c.numbers[numberId], number); }
  }

  // ---- reading mark by mark ----------------------------------------------------------

  lemma {:induction false} ReadNothing(c: Config, q: Query, server: int)
    ensures Read(c, q, [], server) == Decision(Ok(0), server)
  {
  }

  lemma {:induction false} ReadOne(c: Config, q: Query, mark: Mark, rest: seq<Mark>, server: int)
    ensures Applies(c, q, mark) ==> Read(c, q, [mark] + rest, server) == Decision(Ok(mark.outcome), server)
    ensures !Applies(c, q, mark) ==>
              var enters := mark.Enter? && Reached(c, q, mark) && mark.serverId in c.servers;
              Read(c, q, [mark] + rest, server) == Read(c, q, rest, if enters then mark.serverId else server)
  {
    hide Reached, PhaseAllows, Applies;
    var all := [mark] + rest;
    assert all[1..] == rest;
    if Applies(c, q, mark) {
      assert all[..0] == [];
    } else {
      var stop := Stop(c, q, rest);
      assert all[..stop + 1][1..] == rest[..stop];
      assert all[..stop + 1][0] == mark;
      RuleDoesNotEnter(c, q, mark);
    }
  }

  lemma {:induction false} RuleDoesNotEnter(c: Config, q: Query, mark: Mark)
    ensures Applies(c, q, mark) ==> mark.Rule?
  {
  }

  /** What stands first is read first; what follows is read where that left the call. */
  lemma {:induction false} ReadBoth(c: Config, q: Query, front: seq<Mark>, rest: seq<Mark>, server: int)
    requires forall m :: m in front && m.Rule? ==> m.outcome != 0
    ensures var first := Read(c, q, front, server);
            Read(c, q, front + rest, server) == if first.outcome != Ok(0) then first else Read(c, q, rest, first.server)
    decreases |front|
  {
    hide Applies, Reached, Read;
    if front == [] {
      ReadNothing(c, q, server);
      assert front + rest == rest;
    } else {
      var mark, more := front[0], front[1..];
      assert front == [mark] + more && front + rest == [mark] + (more + rest);
      assert mark in front;
      ReadOne(c, q, mark, more, server);
      ReadOne(c, q, mark, more + rest, server);
      RuleDoesNotEnter(c, q, mark);
      if !Applies(c, q, mark) {
        ReadBoth(c, q, more, rest, if mark.Enter? && Reached(c, q, mark) && mark.serverId in c.servers
                 then mark.serverId else server);
      }
    }
  }

  /** Marks under a filter that blocks are passed over; under one that does not they read as before. */
  lemma {:induction false} ReadUnder(c: Config, q: Query, filter: (int, int), marks: seq<Mark>, server: int)
    ensures Read(c, q, Under(filter, marks), server) ==
            if Through(c, q, filter) then Read(c, q, marks, server) else Decision(Ok(0), server)
    decreases |marks|
  {
    hide Through, Applies, Reached, Read;
    ReadNothing(c, q, server);
    if marks != [] {
      var mark, more := marks[0], marks[1..];
      assert Under(filter, marks) == [UnderOne(filter, mark)] + Under(filter, more);
      assert marks == [mark] + more;
      UnderReached(c, q, filter, mark);
      RuleDoesNotEnter(c, q, mark);
      ReadOne(c, q, mark, more, server);
      ReadOne(c, q, UnderOne(filter, mark), Under(filter, more), server);
      ReadUnder(c, q, filter, more, server);
      if mark.Enter? { ReadUnder(c, q, filter, more, mark.serverId); }
    }
  }

  lemma UnderReached(c: Config, q: Query, filter: (int, int), mark: Mark)
    ensures Reached(c, q, UnderOne(filter, mark)) <==> Through(c, q, filter) && Reached(c, q, mark)
    ensures Applies(c, q, UnderOne(filter, mark)) <==> Through(c, q, filter) && Applies(c, q, mark)
  {
    hide Through;
    var all := [filter] + mark.filters;
    assert all[0] == filter;
    assert forall i :: 0 <= i < |mark.filters| ==> mark.filters[i] == all[i + 1];
    if forall i :: 0 <= i < |all| ==> Through(c, q, all[i]) {
      forall i | 0 <= i < |mark.filters|
        ensures Through(c, q, mark.filters[i])
      {
        assert Through(c, q, all[i + 1]);
      }
    }
  }

  lemma {:induction false} RulesHaveOutcomes(c: Config, rank: int -> nat, id: int, k: nat)
    requires Acyclic(c, rank) && id in c.tables && k <= |c.tables[id].routes|
    ensures forall m :: m in Marks(c, rank, id, k) && m.Rule? ==> m.outcome != 0
    decreases rank(id), |c.tables[id].routes| - k
  {
    if k < |c.tables[id].routes| {
      var route := c.tables[id].routes[k];
      RulesHaveOutcomes(c, rank, id, k + 1);
      if route.outcomeId == 0 && route.nestedId in c.tables && route.nestedId != 0 {
        RulesHaveOutcomes(c, rank, route.nestedId, 0);
        UnderHasOutcomes((route.aNumberId, route.bNumberId), Flattening(c, rank, route.nestedId));
      }
    }
  }

  lemma {:induction false} UnderHasOutcomes(filter: (int, int), marks: seq<Mark>)
    requires forall m :: m in marks && m.Rule? ==> m.outcome != 0
    ensures forall m :: m in Under(filter, marks) && m.Rule? ==> m.outcome != 0
  {
    forall i | 0 <= i < |marks| && Under(filter, marks)[i].Rule?
      ensures Under(filter, marks)[i].outcome != 0
    {
      assert marks[i] in marks;
    }
  }

  /** A table decides, and leaves the call in the server, that reading its flattening gives. */
  lemma {:induction false} TablesMeanTheirFlattening(c: Config, rank: int -> nat, q: Query, id: int, server: int)
    requires Acyclic(c, rank) && WellFormed(c) && id in c.tables
    ensures Decide(c, rank, q, id, server) == Read(c, q, Flattening(c, rank, id), server)
    decreases rank(id), 1, 0
  {
    hide Read;
    var enter := Enter([], c.tables[id].serverId);
    ReadOne(c, q, enter, Marks(c, rank, id, 0), server);
    FlattenFrom(c, rank, q, id, 0, if c.tables[id].serverId in c.servers then c.tables[id].serverId else server);
  }

  lemma {:induction false} FlattenFrom(c: Config, rank: int -> nat, q: Query, id: int, k: nat, server: int)
    requires Acyclic(c, rank) && WellFormed(c) && id in c.tables && k <= |c.tables[id].routes|
    ensures DecideFrom(c, rank, q, id, k, server) == Read(c, q, Marks(c, rank, id, k), server)
    decreases rank(id), 0, |c.tables[id].routes| - k
  {
    hide FilterOf, Accepts, Applies, PhaseAllows, Reached, Read, Decide;
    if k == |c.tables[id].routes| {
      ReadNothing(c, q, server);
    } else {
      var route := c.tables[id].routes[k];
      var filter := (route.aNumberId, route.bNumberId);
      assert RouteWellFormed(c, route);
      FilterIsAccepts(c, route.aNumberId, q.aNumber);
      FilterIsAccepts(c, route.bNumberId, q.bNumber);
      var rest := Marks(c, rank, id, k + 1);
      FlattenFrom(c, rank, q, id, k + 1, server);
      if route.outcomeId != 0 {
        ReadOne(c, q, Rule([filter], route.outcomeId), rest, server);
        OneRule(c, q, filter, route.outcomeId);
      } else if route.nestedId != 0 {
        var nested := Flattening(c, rank, route.nestedId);
        RulesHaveOutcomes(c, rank, route.nestedId, 0);
        UnderHasOutcomes(filter, nested);
        ReadBoth(c, q, Under(filter, nested), rest, server);
        ReadUnder(c, q, filter, nested, server);
        TablesMeanTheirFlattening(c, rank, q, route.nestedId, server);
        FlattenFrom(c, rank, q, id, k + 1, Decide(c, rank, q, route.nestedId, server).server);
      } else {
        assert [] + rest == rest;
      }
    }
  }

  lemma OneRule(c: Config, q: Query, filter: (int, int), outcome: int)
    ensures Applies(c, q, Rule([filter], outcome)) <==> Through(c, q, filter) && PhaseAllows(c, q, outcome)
  {
    hide Through, PhaseAllows;
    assert [filter][0] == filter;
  }

  /** The server is where it was exactly when no table of a known server was entered before the
      walk stopped, or the last one entered belongs to that server; whether that table decided
      anything does not matter. */
  lemma {:induction false} ServerStaysIff(c: Config, rank: int -> nat, q: Query, id: int, server: int)
    requires Acyclic(c, rank) && WellFormed(c) && id in c.tables
    ensures var marks := Flattening(c, rank, id);
            var entered := Entered(c, q, marks[..Stop(c, q, marks)]);
            Decide(c, rank, q, id, server).server == server <==> entered == [] || entered[|entered| - 1] == server
  {
    hide Decide, Flattening, Stop, Entered;
    TablesMeanTheirFlattening(c, rank, q, id, server);
  }

  /** So the server is not set back when a nested table decides nothing: here the outcome comes
      from a table of server 10, and the call is left in server 20. */
  lemma {:induction false} ServerOfLastTableEntered(c: Config, rank: int -> nat, q: Query)
    requires c == Config(map[1 := Table(10, [Route(0, 0, 0, 2), Route(0, 0, 7, 0)]), 2 := Table(20, [])],
                         map[], {}, [], map[], {10, 20})
    requires forall id :: rank(id) == if id == 1 then 1 else 0
    ensures Acyclic(c, rank) && WellFormed(c) && Decide(c, rank, q, 1, 10) == Decision(Ok(7), 20)
  {
    assert c.tables[1].routes[0].nestedId == 2 && c.tables[1].routes[1].nestedId == 0;
    assert DecideFrom(c, rank, q, 2, 0, 20) == Decision(Ok(0), 20);
    assert Decide(c, rank, q, 2, 10) == Decision(Ok(0), 20);
    assert DecideFrom(c, rank, q, 1, 1, 20) == Decision(Ok(7), 20);
  }
}
