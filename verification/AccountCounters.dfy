/** The running sums kept for each account: the current day, its international
    part, the current month, and everything since the last invoice. A leg on a
    newer day or month restarts the sum; a leg on an older one is left out. */
module AccountCounters {
  import opened Models
  import opened Calendar

  datatype AccountRow = AccountRow(
    accountId: int,
    amountMonth: int,
    sumMonth: real,
    amountDay: int,
    sumDay: real,
    sumMnDay: real,
    amountDate: int,
    sum: real)

  const BLANK := AccountRow(0, 0, 0.0, 0, 0.0, 0.0, 0, 0.0)

  /** Legs without an account, and legs that cost next to nothing, are not counted. */
  predicate Counted(info: CallInfo) {
    info.account.Some? && !(-0.000001 < info.call.cost < 0.000001)
  }

  /** Period starts closer than half a day are the same period. */
  predicate Near(a: int, b: int) {
    -43200 < a - b < 43200
  }

  function Opened(row: AccountRow, info: CallInfo): AccountRow
    requires Counted(info)
  {
    if row.accountId == 0 then
      row.(accountId := info.call.accountId,
           amountMonth := info.utcMonth,
           amountDay := info.utcDay,
           amountDate := info.account.value.amountDate)
    else row
  }

  function PostMonth(row: AccountRow, info: CallInfo): AccountRow {
    if Near(info.utcMonth, row.amountMonth) then
      row.(sumMonth := row.sumMonth + info.call.cost)
    else if info.utcMonth > row.amountMonth then
      row.(amountMonth := info.utcMonth, sumMonth := info.call.cost)
    else row
  }

  function PostDay(row: AccountRow, info: CallInfo): AccountRow {
    var c := info.call;
    if Near(info.utcDay, row.amountDay) then
      row.(sumDay := row.sumDay + c.cost,
           sumMnDay := if c.IsInternational() then row.sumMnDay + c.cost else row.sumMnDay)
    else if info.utcDay > row.amountDay then
      row.(amountDay := info.utcDay, sumDay := c.cost,
           sumMnDay := if c.IsInternational() then c.cost else 0.0)
    else row
  }

  function PostSum(row: AccountRow, info: CallInfo): AccountRow
    requires Counted(info)
  {
    if info.call.connectTime >= info.account.value.amountDate then
      row.(sum := row.sum + info.call.cost)
    else row
  }

  /** One counted leg. */
  function Post(row: AccountRow, info: CallInfo): AccountRow
    requires Counted(info)
  {
    PostSum(PostDay(PostMonth(Opened(row, info), info), info), info)
  }

  /** Any number of legs, in order. */
  function PostAll(row: AccountRow, infos: seq<CallInfo>): AccountRow {
    if infos == [] then row
    else
      var before := PostAll(row, infos[..|infos| - 1]);
      var info := infos[|infos| - 1];
      if Counted(info) then Post(before, info) else before
  }

  // ---- what the sums mean -----------------------------------------------------

  /** Which legs a sum is about. */
  datatype Scope = OnDay(day: int) | InternationalOn(day: int) | InMonth(month: int) | Uninvoiced

  predicate InScope(scope: Scope, info: CallInfo)
    requires Counted(info)
  {
    match scope
    case OnDay(day) => info.utcDay == day
    case InternationalOn(day) => info.utcDay == day && info.call.IsInternational()
    case InMonth(month) => info.utcMonth == month
    case Uninvoiced => info.call.connectTime >= info.account.value.amountDate
  }

  /** The cost of all counted legs in a scope. */
  function Total(scope: Scope, infos: seq<CallInfo>): real {
    if infos == [] then 0.0
    else
      var info := infos[|infos| - 1];
      Total(scope, infos[..|infos| - 1]) +
      if Counted(info) && InScope(scope, info) then info.call.cost else 0.0
  }

  /** The latest day among a starting day and the counted legs. */
  function LatestDay(start: int, infos: seq<CallInfo>): (latest: int)
    ensures start <= latest
  {
    if infos == [] then start
    else
      var before := LatestDay(start, infos[..|infos| - 1]);
      var info := infos[|infos| - 1];
      if Counted(info) && info.utcDay > before then info.utcDay else before
  }

  function LatestMonth(start: int, infos: seq<CallInfo>): (latest: int)
    ensures start <= latest
  {
    if infos == [] then start
    else
      var before := LatestMonth(start, infos[..|infos| - 1]);
      var info := infos[|infos| - 1];
      if Counted(info) && info.utcMonth > before then info.utcMonth else before
  }

  /** The day and month of a leg are the UTC day and month of its connect time. */
  predicate Dated(info: CallInfo) {
    && info.utcDay == GetTday(info.call.connectTime, 0)
    && info.utcMonth == GetTmonth(info.call.connectTime, 0)
  }

  /** Periods that differ, differ by half a day or more. */
  predicate Apart(a: int, b: int) {
    a == b || a + 43200 <= b || b + 43200 <= a
  }

  /** All days and months in play, those of a starting row included, are apart. */
  predicate AllApart(start: AccountRow, infos: seq<CallInfo>) {
    && (forall i | 0 <= i < |infos| ::
          Apart(infos[i].utcDay, start.amountDay) && Apart(infos[i].utcMonth, start.amountMonth))
    && (forall i, j | 0 <= i < |infos| && 0 <= j < |infos| ::
          Apart(infos[i].utcDay, infos[j].utcDay) && Apart(infos[i].utcMonth, infos[j].utcMonth))
  }

  /** Calendar days and months are apart. */
  lemma DatedAreApart(a: CallInfo, b: CallInfo)
    requires Dated(a) && Dated(b)
    ensures Apart(a.utcDay, b.utcDay) && Apart(a.utcMonth, b.utcMonth)
  {
    DaysApart(a.call.connectTime, b.call.connectTime, 0);
    MonthsApart(a.call.connectTime, b.call.connectTime, 0);
  }

  lemma AllDatedAreApart(first: CallInfo, infos: seq<CallInfo>)
    requires first in infos && Counted(first)
    requires forall i | 0 <= i < |infos| :: Dated(infos[i])
    ensures AllApart(Opened(BLANK, first), infos)
  {
    forall i, j | 0 <= i < |infos| && 0 <= j < |infos|
      ensures Apart(infos[i].utcDay, infos[j].utcDay) && Apart(infos[i].utcMonth, infos[j].utcMonth)
    {
      DatedAreApart(infos[i], infos[j]);
    }
  }

  /** What the day sums must show after legs were posted to an existing row. */
  predicate ShowsDay(row: AccountRow, start: AccountRow, infos: seq<CallInfo>) {
    && row.amountDay == LatestDay(start.amountDay, infos)
    && row.sumDay == Total(OnDay(row.amountDay), infos)
                     + (if row.amountDay == start.amountDay then start.sumDay else 0.0)
    && row.sumMnDay == Total(InternationalOn(row.amountDay), infos)
                       + (if row.amountDay == start.amountDay then start.sumMnDay else 0.0)
  }

  predicate ShowsMonth(row: AccountRow, start: AccountRow, infos: seq<CallInfo>) {
    && row.amountMonth == LatestMonth(start.amountMonth, infos)
    && row.sumMonth == Total(InMonth(row.amountMonth), infos)
                       + (if row.amountMonth == start.amountMonth then start.sumMonth else 0.0)
  }

  predicate ShowsSum(row: AccountRow, start: AccountRow, infos: seq<CallInfo>) {
    && row.accountId == start.accountId
    && row.amountDate == start.amountDate
    && row.sum == start.sum + Total(Uninvoiced, infos)
  }

  /** No leg counts towards a day or month later than the latest seen. */
  lemma {:induction false} NothingLater(start: AccountRow, infos: seq<CallInfo>, day: int, month: int)
    ensures day > LatestDay(start.amountDay, infos) ==>
              Total(OnDay(day), infos) == 0.0 && Total(InternationalOn(day), infos) == 0.0
    ensures month > LatestMonth(start.amountMonth, infos) ==> Total(InMonth(month), infos) == 0.0
  {
    if infos != [] {
      NothingLater(start, infos[..|infos| - 1], day, month);
    }
  }

  lemma PostShowsDay(before: AccountRow, start: AccountRow, infos: seq<CallInfo>)
    requires infos != [] && AllApart(start, infos)
    requires ShowsDay(before, start, infos[..|infos| - 1])
    ensures ShowsDay(PostDay(before, infos[|infos| - 1]), start, infos) || !Counted(infos[|infos| - 1])
  {
    var front := infos[..|infos| - 1];
    var info := infos[|infos| - 1];
    LatestIsReached(start.amountDay, start.amountMonth, front);
    assert forall i | 0 <= i < |front| :: front[i] == infos[i];
    assert Apart(info.utcDay, before.amountDay);
    NothingLater(start, front, info.utcDay, info.utcMonth);
  }

  lemma PostShowsMonth(before: AccountRow, start: AccountRow, infos: seq<CallInfo>)
    requires infos != [] && AllApart(start, infos)
    requires ShowsMonth(before, start, infos[..|infos| - 1])
    ensures ShowsMonth(PostMonth(before, infos[|infos| - 1]), start, infos) || !Counted(infos[|infos| - 1])
  {
    var front := infos[..|infos| - 1];
    var info := infos[|infos| - 1];
    LatestIsReached(start.amountDay, start.amountMonth, front);
    assert forall i | 0 <= i < |front| :: front[i] == infos[i];
    assert Apart(info.utcMonth, before.amountMonth);
    NothingLater(start, front, info.utcDay, info.utcMonth);
  }

  lemma PostShows(before: AccountRow, start: AccountRow, infos: seq<CallInfo>)
    requires infos != [] && AllApart(start, infos) && before.accountId != 0 && Counted(infos[|infos| - 1])
    requires ShowsDay(before, start, infos[..|infos| - 1])
    requires ShowsMonth(before, start, infos[..|infos| - 1])
    requires ShowsSum(before, start, infos[..|infos| - 1])
    ensures var row := Post(before, infos[|infos| - 1]);
            ShowsDay(row, start, infos) && ShowsMonth(row, start, infos) && ShowsSum(row, start, infos)
  {
    var info := infos[|infos| - 1];
    PostShowsMonth(before, start, infos);
    var monthly := PostMonth(before, info);
    PostShowsDay(monthly, start, infos);
    var daily := PostDay(monthly, info);
    assert daily.amountMonth == monthly.amountMonth && daily.sumMonth == monthly.sumMonth;
    assert daily.sum == before.sum;
  }

  /** After any legs, in any order, the sums are those of the latest day and month. */
  lemma {:induction false} PostAllShows(start: AccountRow, infos: seq<CallInfo>)
    requires start.accountId != 0 && AllApart(start, infos)
    ensures var row := PostAll(start, infos);
            ShowsDay(row, start, infos) && ShowsMonth(row, start, infos) && ShowsSum(row, start, infos)
  {
    if infos != [] {
      var front := infos[..|infos| - 1];
      var info := infos[|infos| - 1];
      assert forall i | 0 <= i < |front| :: front[i] == infos[i];
      PostAllShows(start, front);
      if Counted(info) {
        PostShows(PostAll(start, front), start, infos);
      }
    }
  }

  // ---- the order of the legs does not matter ------------------------------------

  lemma {:induction false} RemoveAt(infos: seq<CallInfo>, i: int, scope: Scope, start: int)
    requires 0 <= i < |infos|
    ensures var rest := infos[..i] + infos[i + 1..]; var info := infos[i];
            && Total(scope, infos) == Total(scope, rest) +
              (if Counted(info) && InScope(scope, info) then info.call.cost else 0.0)
            && LatestDay(start, infos) == (var d := LatestDay(start, rest);
                                           if Counted(info) && info.utcDay > d then info.utcDay else d)
            && LatestMonth(start, infos) == (var m := LatestMonth(start, rest);
                                             if Counted(info) && info.utcMonth > m then info.utcMonth else m)
    decreases |infos|
  {
    var rest := infos[..i] + infos[i + 1..];
    if i == |infos| - 1 {
      assert rest == infos[..i];
    } else {
      var front := infos[..|infos| - 1];
      RemoveAt(front, i, scope, start);
      assert rest[..|rest| - 1] == front[..i] + front[i + 1..];
      assert rest[|rest| - 1] == infos[|infos| - 1];
    }
  }

  /** The last leg of one order stands somewhere in the other; without it the two
      orders still hold the same legs. */
  lemma FindLast(a: seq<CallInfo>, b: seq<CallInfo>) returns (i: nat)
    requires a != [] && multiset(a) == multiset(b)
    ensures i < |b| && b[i] == a[|a| - 1]
    ensures multiset(a[..|a| - 1]) == multiset(b[..i] + b[i + 1..])
  {
    var last := a[|a| - 1];
    assert last in multiset(b);
    i :| 0 <= i < |b| && b[i] == last;
    assert a == a[..|a| - 1] + [last];
    assert b == b[..i] + [last] + b[i + 1..];
    assert multiset(a[..|a| - 1]) == multiset(a) - multiset{last};
    assert multiset(b[..i] + b[i + 1..]) == multiset(b) - multiset{last};
  }

  lemma {:induction false} SameTotals(a: seq<CallInfo>, b: seq<CallInfo>, scope: Scope, start: int)
    requires multiset(a) == multiset(b)
    ensures Total(scope, a) == Total(scope, b)
    ensures LatestDay(start, a) == LatestDay(start, b)
    ensures LatestMonth(start, a) == LatestMonth(start, b)
    decreases |a|
  {
    if a == [] {
      assert |multiset(b)| == 0;
    } else {
      var i := FindLast(a, b);
      SameTotals(a[..|a| - 1], b[..i] + b[i + 1..], scope, start);
      RemoveAt(b, i, scope, start);
    }
  }

  lemma SameLegs(a: seq<CallInfo>, b: seq<CallInfo>, info: CallInfo)
    requires multiset(a) == multiset(b)
    ensures info in a <==> info in b
  {
    assert info in multiset(a) <==> info in multiset(b);
  }

  lemma SameApart(start: AccountRow, a: seq<CallInfo>, b: seq<CallInfo>)
    requires AllApart(start, a) && multiset(a) == multiset(b)
    ensures AllApart(start, b)
  {
    forall i | 0 <= i < |b| ensures b[i] in a { SameLegs(a, b, b[i]); }
  }

  /** Posting the same legs in another order gives the same row. */
  lemma {:induction false} OrderDoesNotMatter(start: AccountRow, a: seq<CallInfo>, b: seq<CallInfo>)
    requires start.accountId != 0 && AllApart(start, a)
    requires multiset(a) == multiset(b)
    ensures PostAll(start, a) == PostAll(start, b)
  {
    SameApart(start, a, b);
    PostAllShows(start, a);
    PostAllShows(start, b);
    SameTotals(a, b, Uninvoiced, start.amountDay);
    SameTotals(a, b, Uninvoiced, start.amountMonth);
    var row := PostAll(start, a);
    SameTotals(a, b, OnDay(row.amountDay), 0);
    SameTotals(a, b, InternationalOn(row.amountDay), 0);
    SameTotals(a, b, InMonth(row.amountMonth), 0);
  }

  /** Legs of one account: they carry its id and its invoice date. */
  predicate OfAccount(account: Client, infos: seq<CallInfo>) {
    && account.id != 0
    && forall i | 0 <= i < |infos| ::
         infos[i].call.accountId == account.id && (infos[i].account.Some? ==> infos[i].account.value == account)
  }

  /** The first counted leg, which opens the row of a fresh account. */
  function FirstCounted(infos: seq<CallInfo>): (i: nat)
    requires exists i :: 0 <= i < |infos| && Counted(infos[i])
    ensures i < |infos| && Counted(infos[i])
    ensures forall j | 0 <= j < i :: !Counted(infos[j])
  {
    if Counted(infos[0]) then 0
    else
      assert exists i :: 0 <= i < |infos[1..]| && Counted(infos[1..][i]) by {
        var i :| 0 <= i < |infos| && Counted(infos[i]);
        assert infos[1..][i - 1] == infos[i];
      }
      var i := FirstCounted(infos[1..]);
      assert forall j | 0 < j < |infos| :: infos[1..][j - 1] == infos[j];
      i + 1
  }

  /** Posting to a blank row is posting to the row its first counted leg opens. */
  lemma {:induction false} BlankIsOpened(account: Client, infos: seq<CallInfo>, first: nat)
    requires OfAccount(account, infos)
    requires first < |infos| && Counted(infos[first]) && forall j | 0 <= j < first :: !Counted(infos[j])
    ensures PostAll(BLANK, infos) == PostAll(Opened(BLANK, infos[first]), infos)
  {
    var front := infos[..|infos| - 1];
    if first < |front| {
      BlankIsOpened(account, front, first);
    } else {
      NothingPosted(BLANK, front);
      NothingPosted(Opened(BLANK, infos[first]), front);
    }
  }

  lemma {:induction false} NothingPosted(start: AccountRow, infos: seq<CallInfo>)
    requires forall j | 0 <= j < |infos| :: !Counted(infos[j])
    ensures PostAll(start, infos) == start
  {
    if infos != [] {
      NothingPosted(start, infos[..|infos| - 1]);
    }
  }

  /** The latest day and month: no counted leg is later, and it is reached. */
  lemma {:induction false} LatestIsReached(day: int, month: int, infos: seq<CallInfo>)
    ensures forall i | 0 <= i < |infos| && Counted(infos[i]) ::
              infos[i].utcDay <= LatestDay(day, infos) && infos[i].utcMonth <= LatestMonth(month, infos)
    ensures LatestDay(day, infos) == day
         || exists i :: 0 <= i < |infos| && Counted(infos[i]) && LatestDay(day, infos) == infos[i].utcDay
    ensures LatestMonth(month, infos) == month
         || exists i :: 0 <= i < |infos| && Counted(infos[i]) && LatestMonth(month, infos) == infos[i].utcMonth
  {
    if infos != [] {
      var front := infos[..|infos| - 1];
      LatestIsReached(day, month, front);
      assert forall i | 0 <= i < |front| :: front[i] == infos[i];
    }
  }

  /** A fresh account ends with the sums of the latest day and month of its counted
      legs and their cost since the last invoice, whatever the order of the legs. */
  lemma {:induction false} FreshAccountShows(account: Client, infos: seq<CallInfo>)
    requires OfAccount(account, infos)
    requires forall i | 0 <= i < |infos| :: Dated(infos[i])
    requires exists i :: 0 <= i < |infos| && Counted(infos[i])
    ensures var row := PostAll(BLANK, infos);
            && row.accountId == account.id && row.amountDate == account.amountDate
            && (exists i :: 0 <= i < |infos| && Counted(infos[i]) && row.amountDay == infos[i].utcDay)
            && (exists i :: 0 <= i < |infos| && Counted(infos[i]) && row.amountMonth == infos[i].utcMonth)
            && (forall i | 0 <= i < |infos| && Counted(infos[i]) ::
                  infos[i].utcDay <= row.amountDay && infos[i].utcMonth <= row.amountMonth)
            && row.sumDay == Total(OnDay(row.amountDay), infos)
            && row.sumMnDay == Total(InternationalOn(row.amountDay), infos)
            && row.sumMonth == Total(InMonth(row.amountMonth), infos)
            && row.sum == Total(Uninvoiced, infos)
  {
    var first := FirstCounted(infos);
    var start := Opened(BLANK, infos[first]);
    BlankIsOpened(account, infos, first);
    AllDatedAreApart(infos[first], infos);
    hide PostAll, Total, LatestDay, LatestMonth, AllApart;
    PostAllShows(start, infos);
    LatestIsReached(start.amountDay, start.amountMonth, infos);
  }

  /** The same for an account without a row: any order of its legs opens the same row. */
  lemma {:induction false} FreshOrderDoesNotMatter(account: Client, a: seq<CallInfo>, b: seq<CallInfo>)
    requires OfAccount(account, a)
    requires forall i | 0 <= i < |a| :: Dated(a[i])
    requires multiset(a) == multiset(b)
    ensures PostAll(BLANK, a) == PostAll(BLANK, b)
  {
    forall i | 0 <= i < |b| ensures b[i] in a { SameLegs(a, b, b[i]); }
    if exists i :: 0 <= i < |a| && Counted(a[i]) {
      var i := FirstCounted(a);
      SameLegs(a, b, a[i]);
      var j := FirstCounted(b);
      BlankIsOpened(account, a, i);
      BlankIsOpened(account, b, j);
      AllDatedAreApart(a[i], a);
      var startA, startB := Opened(BLANK, a[i]), Opened(BLANK, b[j]);
      OrderDoesNotMatter(startA, a, b);
      AllDatedAreApart(b[j], b);
      StartDoesNotMatter(startA, startB, b);
    } else {
      forall i | 0 <= i < |b| ensures !Counted(b[i]) { assert b[i] in a; }
      NothingPosted(BLANK, a);
      NothingPosted(BLANK, b);
    }
  }

  /** Which counted leg opened a blank row leaves no trace once it is posted. */
  lemma {:induction false} StartDoesNotMatter(p: AccountRow, q: AccountRow, infos: seq<CallInfo>)
    requires p.accountId != 0 && AllApart(p, infos) && AllApart(q, infos)
    requires q == p.(amountDay := q.amountDay, amountMonth := q.amountMonth)
    requires p.sumDay == p.sumMnDay == p.sumMonth == 0.0
    requires exists i :: 0 <= i < |infos| && Counted(infos[i]) &&
                         infos[i].utcDay == p.amountDay && infos[i].utcMonth == p.amountMonth
    requires exists i :: 0 <= i < |infos| && Counted(infos[i]) &&
                         infos[i].utcDay == q.amountDay && infos[i].utcMonth == q.amountMonth
    ensures PostAll(p, infos) == PostAll(q, infos)
  {
    PostAllShows(p, infos);
    PostAllShows(q, infos);
    LatestIsReached(p.amountDay, p.amountMonth, infos);
    LatestIsReached(q.amountDay, q.amountMonth, infos);
  }
}
