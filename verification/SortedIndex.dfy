/** The sorted lists that prices, networks and number prefixes are looked up in: nested
    binary searches inside a loop over ever shorter prefixes of the number. */
module SortedIndex {
  import opened Models

  datatype IndexRow<T> = IndexRow(list: int, prefix: string, from: int, to: int, value: T)

  // ---- order of strings -----------------------------------------------------------

  /** The order of strcmp. */
  predicate Less(a: string, b: string)
    decreases b
  {
    b != [] && (a == [] || a[0] < b[0] || (a[0] == b[0] && Less(a[1..], b[1..])))
  }

  lemma {:induction false} LessIsStrict(a: string, b: string)
    ensures !(Less(a, b) && Less(b, a))
    ensures !Less(a, b) && !Less(b, a) <==> a == b
    decreases b
  {
    if a != [] && b != [] {
      LessIsStrict(a[1..], b[1..]);
      assert a[0] == b[0] && a[1..] == b[1..] ==> a == b by {
        if a[0] == b[0] && a[1..] == b[1..] { assert a == [a[0]] + a[1..] == [b[0]] + b[1..] == b; }
      }
    }
  }

  lemma {:induction false} LessIsTransitive(a: string, b: string, c: string)
    requires Less(a, b) && Less(b, c)
    ensures Less(a, c)
    decreases c
  {
    if a != [] && a[0] == b[0] == c[0] {
      LessIsTransitive(a[1..], b[1..], c[1..]);
    }
  }

  // ---- numbers as text ----------------------------------------------------------------

  /** The largest number of the source's width. */
  const MAX_NUMBER: nat := 0x7fff_ffff_ffff_ffff

  function Decimal(n: nat): (s: string)
    ensures s != []
  {
    (if n < 10 then [] else Decimal(n / 10)) + [(('0' as int) + n % 10) as char]
  }

  /** The number as it is printed. */
  function NumberText(n: int): (s: string)
    ensures s != []
  {
    if n < 0 then ['-'] + Decimal(-n) else Decimal(n)
  }

  function Pow10(k: nat): nat {
    if k == 0 then 1 else 10 * Pow10(k - 1)
  }

  lemma {:induction false} DecimalSize(n: nat, k: nat)
    requires 0 < k && n < Pow10(k)
    ensures |Decimal(n)| <= k
    decreases k
  {
    if n >= 10 {
      DecimalSize(n / 10, k - 1);
    }
  }

  /** The texts that fit the source's buffer of 20 characters. */
  lemma TextFits(n: int)
    requires -1_000_000_000_000_000_000 < n <= MAX_NUMBER
    ensures |NumberText(n)| < 20
  {
    hide Decimal;
    assert Pow10(9) == 1_000_000_000;
    assert Pow10(18) == 1_000_000_000_000_000_000 && Pow10(19) == 10_000_000_000_000_000_000;
    if n < 0 { DecimalSize(-n, 18); } else { DecimalSize(n, 19); }
  }

  /** Cut short, the text of a number is that of a smaller one. */
  lemma {:induction false} CutDecimal(n: nat, len: nat) returns (m: nat)
    requires 0 < len <= |Decimal(n)|
    ensures m <= n && Decimal(m) == Decimal(n)[..len]
  {
    if len == |Decimal(n)| {
      m := n;
    } else {
      m := CutDecimal(n / 10, len);
      assert Decimal(n)[..|Decimal(n)| - 1] == Decimal(n / 10);
      assert Decimal(n)[..len] == Decimal(n / 10)[..len];
    }
  }

  // ---- binary search ------------------------------------------------------------------

  /** Elements below the key come first. */
  ghost predicate BelowFirst<R>(s: seq<R>, lo: nat, hi: nat, below: R -> bool) {
    forall i, j :: lo <= i < j < hi <= |s| && below(s[j]) ==> below(s[i])
  }

  /** Elements above the key come last. */
  ghost predicate AboveLast<R>(s: seq<R>, lo: nat, hi: nat, above: R -> bool) {
    forall i, j :: lo <= i < j < hi <= |s| && above(s[i]) ==> above(s[j])
  }

  function Half(len: nat): (half: nat)
    ensures len > 0 ==> half < len
  {
    len / 2
  }

  /** Where the library's lower_bound ends: the bisection from `first` over `len` elements. */
  function LowerAt<R>(s: seq<R>, first: nat, len: nat, below: R -> bool): (left: nat)
    requires first + len <= |s|
    ensures first <= left <= first + len && (left < first + len ==> !below(s[left]))
    decreases len
  {
    if len == 0 then first
    else
      var half := Half(len);
      if below(s[first + half]) then LowerAt(s, first + half + 1, len - half - 1, below)
      else LowerAt(s, first, half, below)
  }

  function UpperAt<R>(s: seq<R>, first: nat, len: nat, above: R -> bool): (right: nat)
    requires first + len <= |s|
    ensures first <= right <= first + len
    decreases len
  {
    if len == 0 then first
    else
      var half := Half(len);
      if above(s[first + half]) then UpperAt(s, first, half, above)
      else UpperAt(s, first + half + 1, len - half - 1, above)
  }

  /** Where the library's equal_range ends: once an element neither below nor above the key is met,
      the two bounds are sought on its two sides. */
  function EqualAt<R>(s: seq<R>, first: nat, len: nat, below: R -> bool, above: R -> bool): (r: (nat, nat))
    requires first + len <= |s|
    ensures first <= r.0 <= r.1 <= first + len
    decreases len
  {
    if len == 0 then (first, first)
    else
      var half := Half(len);
      var mid := first + half;
      if below(s[mid]) then EqualAt(s, mid + 1, len - half - 1, below, above)
      else if above(s[mid]) then EqualAt(s, first, half, below, above)
      else (LowerAt(s, first, half, below), UpperAt(s, mid + 1, len - half - 1, above))
  }

  /** One step of each bisection. */
  lemma {:induction false} LowerAtStep<R>(s: seq<R>, first: nat, len: nat, below: R -> bool)
    requires first + len <= |s| && len > 0
    ensures var half := Half(len);
            LowerAt(s, first, len, below) ==
            if below(s[first + half]) then LowerAt(s, first + half + 1, len - half - 1, below)
              else LowerAt(s, first, half, below)
  {
  }

  lemma {:induction false} EqualAtStep<R>(s: seq<R>, first: nat, len: nat, below: R -> bool, above: R -> bool)
    requires first + len <= |s| && len > 0
    ensures var half := Half(len);
            EqualAt(s, first, len, below, above) ==
            if below(s[first + half]) then EqualAt(s, first + half + 1, len - half - 1, below, above)
            else if above(s[first + half]) then EqualAt(s, first, half, below, above)
            else (LowerAt(s, first, half, below), UpperAt(s, first + half + 1, len - half - 1, above))
  {
    hide LowerAt, UpperAt;
  }

  method LowerBound<R>(s: seq<R>, lo: nat, hi: nat, below: R -> bool) returns (left: nat)
    requires lo <= hi <= |s|
    ensures left == LowerAt(s, lo, hi - lo, below)
  {
    var first, len := lo, hi - lo;
    while len > 0
      invariant lo <= first <= first + len <= hi
      invariant LowerAt(s, first, len, below) == LowerAt(s, lo, hi - lo, below)
    {
      var half := len / 2;
      var mid := first + half;
      if below(s[mid]) {
        first := mid + 1;
        len := len - half - 1;
      } else {
        len := half;
      }
    }
    left := first;
  }

  method UpperBound<R>(s: seq<R>, lo: nat, hi: nat, above: R -> bool) returns (right: nat)
    requires lo <= hi <= |s|
    ensures right == UpperAt(s, lo, hi - lo, above)
  {
    var first, len := lo, hi - lo;
    while len > 0
      invariant lo <= first <= first + len <= hi
      invariant UpperAt(s, first, len, above) == UpperAt(s, lo, hi - lo, above)
    {
      var half := len / 2;
      var mid := first + half;
      if above(s[mid]) {
        len := half;
      } else {
        first := mid + 1;
        len := len - half - 1;
      }
    }
    right := first;
  }

  method EqualRange<R>(s: seq<R>, lo: nat, hi: nat, below: R -> bool, above: R -> bool) returns (left: nat, right: nat)
    requires lo <= hi <= |s|
    ensures (left, right) == EqualAt(s, lo, hi - lo, below, above)
  {
    hide EqualAt, LowerAt, UpperAt;
    var first, len := lo, hi - lo;
    while len > 0
      invariant lo <= first <= first + len <= hi
      invariant EqualAt(s, first, len, below, above) == EqualAt(s, lo, hi - lo, below, above)
    {
      var half := len / 2;
      var mid := first + half;
      EqualAtStep(s, first, len, below, above);
      if below(s[mid]) {
        first := mid + 1;
        len := len - half - 1;
      } else if above(s[mid]) {
        len := half;
      } else {
        left := LowerBound(s, first, mid, below);
        right := UpperBound(s, mid + 1, first + len, above);
        return;
      }
    }
    EqualAtEnd(s, first, below, above);
    return first, first;
  }

  lemma {:induction false} EqualAtEnd<R>(s: seq<R>, first: nat, below: R -> bool, above: R -> bool)
    requires first <= |s|
    ensures EqualAt(s, first, 0, below, above) == (first, first)
  {
  }

  lemma {:induction false} LowerAtSplits<R>(s: seq<R>, first: nat, len: nat, below: R -> bool)
    requires first + len <= |s| && BelowFirst(s, first, first + len, below)
    ensures forall i :: first <= i < first + len ==> (below(s[i]) <==> i < LowerAt(s, first, len, below))
    decreases len
  {
    hide Half;
    if len > 0 {
      var half := Half(len);
      if below(s[first + half]) {
        LowerAtSplits(s, first + half + 1, len - half - 1, below);
      } else {
        LowerAtSplits(s, first, half, below);
      }
    }
  }

  lemma {:induction false} UpperAtSplits<R>(s: seq<R>, first: nat, len: nat, above: R -> bool)
    requires first + len <= |s| && AboveLast(s, first, first + len, above)
    ensures forall i :: first <= i < first + len ==> (above(s[i]) <==> UpperAt(s, first, len, above) <= i)
    decreases len
  {
    hide Half;
    if len > 0 {
      var half := Half(len);
      if above(s[first + half]) {
        UpperAtSplits(s, first, half, above);
      } else {
        UpperAtSplits(s, first + half + 1, len - half - 1, above);
      }
    }
  }

  /** With both orders kept equal_range delimits exactly the elements neither below nor above the key. */
  lemma {:induction false} EqualAtIsExact<R>(s: seq<R>, first: nat, len: nat, below: R -> bool, above: R -> bool)
    requires first + len <= |s| && BelowFirst(s, first, first + len, below) && AboveLast(s, first, first + len, above)
    ensures var r := EqualAt(s, first, len, below, above);
            forall i :: first <= i < first + len ==> (r.0 <= i < r.1 <==> !below(s[i]) && !above(s[i]))
    decreases len
  {
    hide EqualAt, LowerAt, UpperAt, Half;
    if len > 0 {
      var half := Half(len);
      var mid := first + half;
      EqualAtStep(s, first, len, below, above);
      if below(s[mid]) {
        EqualAtIsExact(s, mid + 1, len - half - 1, below, above);
      } else if above(s[mid]) {
        EqualAtIsExact(s, first, half, below, above);
      } else {
        LowerAtSplits(s, first, half, below);
        UpperAtSplits(s, mid + 1, len - half - 1, above);
      }
    }
  }

  /** When only those above come last, what it delimits still starts with an element that is neither. */
  lemma {:induction false} EqualAtIsSound<R>(s: seq<R>, first: nat, len: nat, below: R -> bool, above: R -> bool)
    requires first + len <= |s| && AboveLast(s, first, first + len, above)
    ensures var r := EqualAt(s, first, len, below, above); r.0 < r.1 ==> !below(s[r.0]) && !above(s[r.0])
    decreases len
  {
    hide EqualAt, LowerAt, UpperAt, Half;
    if len == 0 {
      EqualAtEnd(s, first, below, above);
    } else {
      var half := Half(len);
      var mid := first + half;
      EqualAtStep(s, first, len, below, above);
      if below(s[mid]) {
        EqualAtIsSound(s, mid + 1, len - half - 1, below, above);
      } else if above(s[mid]) {
        EqualAtIsSound(s, first, half, below, above);
      }
    }
  }

  // ---- lists ------------------------------------------------------------------------------

  /** The order the lists are loaded in: list, prefix, start of validity. */
  predicate InOrder<T>(a: IndexRow<T>, b: IndexRow<T>) {
    a.list < b.list || (a.list == b.list && (Less(a.prefix, b.prefix) || (a.prefix == b.prefix && a.from <= b.from)))
  }

  ghost predicate Sorted<T>(rows: seq<IndexRow<T>>) {
    forall i, j :: 0 <= i < j < |rows| ==> InOrder(rows[i], rows[j])
  }

  predicate Matches<T>(row: IndexRow<T>, list: int, prefix: string, t: int) {
    row.list == list && row.prefix == prefix && row.from <= t <= row.to
  }

  /** The first row among the first `n` that matches exactly; -1 when there is none. */
  function FirstMatch<T>(rows: seq<IndexRow<T>>, n: nat, list: int, prefix: string, t: int): (r: int)
    requires n <= |rows|
    ensures -1 <= r < n
    ensures r >= 0 ==> Matches(rows[r], list, prefix, t)
    ensures forall i :: 0 <= i < (if r >= 0 then r else n) ==> !Matches(rows[i], list, prefix, t)
  {
    if n == 0 then -1
    else
      var r := FirstMatch(rows, n - 1, list, prefix, t);
      if r >= 0 then r else if Matches(rows[n - 1], list, prefix, t) then n - 1 else -1
  }

  /** A row of the list answers for the number at the time. */
  predicate Answers<T>(row: IndexRow<T>, list: int, number: string, t: int) {
    row.list == list && row.prefix != [] && row.prefix <= number && row.from <= t <= row.to
  }

  /** What a scan of the whole list is after: a row that answers with the longest prefix, the
      first such; -1 exactly when no row answers. */
  ghost predicate Longest<T>(rows: seq<IndexRow<T>>, list: int, number: string, t: int, r: int) {
    -1 <= r < |rows| &&
    (r == -1 ==> forall j :: 0 <= j < |rows| ==> !Answers(rows[j], list, number, t)) &&
    (r >= 0 ==> Answers(rows[r], list, number, t)) &&
    (r >= 0 ==> forall j :: 0 <= j < |rows| && Answers(rows[j], list, number, t) ==>
                  |rows[j].prefix| < |rows[r].prefix| || (|rows[j].prefix| == |rows[r].prefix| && r <= j))
  }

  lemma LongestIsUnique<T>(rows: seq<IndexRow<T>>, list: int, number: string, t: int, r: int, q: int)
    requires Longest(rows, list, number, t, r) && Longest(rows, list, number, t, q)
    ensures r == q
  {
  }

  lemma RangeOfList<T>(rows: seq<IndexRow<T>>, list: int)
    requires Sorted(rows)
    ensures BelowFirst(rows, 0, |rows|, (e: IndexRow<T>) => e.list < list)
    ensures AboveLast(rows, 0, |rows|, (e: IndexRow<T>) => list < e.list)
  {
  }

  lemma RangeOfPrefix<T>(rows: seq<IndexRow<T>>, lo: nat, hi: nat, list: int, prefix: string)
    requires Sorted(rows) && lo <= hi <= |rows| && forall i :: lo <= i < hi ==> rows[i].list == list
    ensures BelowFirst(rows, lo, hi, (e: IndexRow<T>) => Less(e.prefix, prefix))
    ensures AboveLast(rows, lo, hi, (e: IndexRow<T>) => Less(prefix, e.prefix))
  {
    forall i, j | lo <= i < j < hi
      ensures Less(rows[j].prefix, prefix) ==> Less(rows[i].prefix, prefix)
      ensures Less(prefix, rows[i].prefix) ==> Less(prefix, rows[j].prefix)
    {
      assert InOrder(rows[i], rows[j]);
      if rows[i].prefix != rows[j].prefix {
        if Less(rows[j].prefix, prefix) { LessIsTransitive(rows[i].prefix, rows[j].prefix, prefix); }
        if Less(prefix, rows[i].prefix) { LessIsTransitive(prefix, rows[i].prefix, rows[j].prefix); }
      }
    }
  }

  lemma RangeOfTime<T>(rows: seq<IndexRow<T>>, lo: nat, hi: nat, list: int, prefix: string, t: int)
    requires Sorted(rows) && lo <= hi <= |rows|
    requires forall i :: lo <= i < hi ==> rows[i].list == list && rows[i].prefix == prefix
    ensures AboveLast(rows, lo, hi, (e: IndexRow<T>) => t < e.from)
  {
    forall i, j | lo <= i < j < hi
      ensures t < rows[i].from ==> t < rows[j].from
    {
      LessIsStrict(rows[i].prefix, rows[j].prefix);
      assert InOrder(rows[i], rows[j]);
    }
  }

  // ---- the nested searches -------------------------------------------------------------

  /** Where the two outer searches of _find end. */
  function PrefixRangeAt<T>(rows: seq<IndexRow<T>>, list: int, prefix: string): (r: (nat, nat))
    ensures r.0 <= r.1 <= |rows|
  {
    var l := EqualAt(rows, 0, |rows|, (e: IndexRow<T>) => e.list < list, (e: IndexRow<T>) => list < e.list);
    EqualAt(rows, l.0, l.1 - l.0, (e: IndexRow<T>) => Less(e.prefix, prefix),
            (e: IndexRow<T>) => Less(prefix, e.prefix))
  }

  /** They delimit exactly the rows of the list with that prefix. */
  lemma PrefixRangeIsExact<T>(rows: seq<IndexRow<T>>, list: int, prefix: string)
    requires Sorted(rows)
    ensures var r := PrefixRangeAt(rows, list, prefix);
            forall i :: 0 <= i < |rows| ==> (r.0 <= i < r.1 <==> rows[i].list == list && rows[i].prefix == prefix)
  {
    hide Sorted, InOrder, Less, EqualAt, BelowFirst, AboveLast;
    RangeOfList(rows, list);
    EqualAtIsExact(rows, 0, |rows|, (e: IndexRow<T>) => e.list < list, (e: IndexRow<T>) => list < e.list);
    var l := EqualAt(rows, 0, |rows|, (e: IndexRow<T>) => e.list < list, (e: IndexRow<T>) => list < e.list);
    RangeOfPrefix(rows, l.0, l.1, list, prefix);
    EqualAtIsExact(rows, l.0, l.1 - l.0, (e: IndexRow<T>) => Less(e.prefix, prefix),
                   (e: IndexRow<T>) => Less(prefix, e.prefix));
    forall i | 0 <= i < |rows|
      ensures rows[i].prefix == prefix <==> !Less(rows[i].prefix, prefix) && !Less(prefix, rows[i].prefix)
    {
      LessIsStrict(rows[i].prefix, prefix);
    }
  }

  /** What the search by time finds among the rows of one list and prefix; -1 for nothing. */
  function TimeAt<T>(rows: seq<IndexRow<T>>, first: nat, len: nat, t: int): (r: int)
    requires first + len <= |rows|
    ensures r == -1 || first <= r < first + len
  {
    var w := EqualAt(rows, first, len, (e: IndexRow<T>) => e.to < t, (e: IndexRow<T>) => t < e.from);
    if w.0 < w.1 then w.0 else -1
  }

  function FindExactAt<T>(rows: seq<IndexRow<T>>, list: int, prefix: string, t: int): (r: int)
    ensures -1 <= r < |rows|
  {
    var p := PrefixRangeAt(rows, list, prefix);
    TimeAt(rows, p.0, p.1 - p.0, t)
  }

  /** What the loop over ever shorter prefixes finds. */
  function FindAt<T>(rows: seq<IndexRow<T>>, list: int, number: string, t: int, len: nat): (r: int)
    requires len <= |number|
    ensures -1 <= r < |rows|
    decreases len
  {
    if len == 0 then -1
    else
      var r := FindExactAt(rows, list, number[..len], t);
      if r >= 0 then r else FindAt(rows, list, number, t, len - 1)
  }

  /** The two outer searches of _find. */
  method PrefixRange<T>(rows: seq<IndexRow<T>>, list: int, prefix: string) returns (begin: nat, end: nat)
    requires prefix != []
    ensures (begin, end) == PrefixRangeAt(rows, list, prefix)
  {
    hide EqualAt, Less;
    begin, end := EqualRange(rows, 0, |rows|, (e: IndexRow<T>) => e.list < list, (e: IndexRow<T>) => list < e.list);
    begin, end := EqualRange(rows, begin, end, (e: IndexRow<T>) => Less(e.prefix, prefix),
                             (e: IndexRow<T>) => Less(prefix, e.prefix));
  }

  /** The three nested searches of _find. */
  method FindExact<T>(rows: seq<IndexRow<T>>, list: int, prefix: string, t: int) returns (r: int)
    requires prefix != []
    ensures r == FindExactAt(rows, list, prefix, t)
    ensures Sorted(rows) && r >= 0 ==> Matches(rows[r], list, prefix, t)
  {
    hide EqualAt, PrefixRangeAt, Sorted, Matches;
    if Sorted(rows) { FindExactIsSound(rows, list, prefix, t); }
    var begin, end := PrefixRange(rows, list, prefix);
    begin, end := EqualRange(rows, begin, end, (e: IndexRow<T>) => e.to < t, (e: IndexRow<T>) => t < e.from);
    r := if begin < end then begin else -1;
  }

  /** The lookup: the number as text, cut shorter until a row is found. Whatever it finds answers; for
      a number that is not negative it is what a scan of the list finds, when every key of the list
      that such a number can have can be searched. */
  method Find<T>(rows: seq<IndexRow<T>>, list: int, number: int, t: int) returns (r: int)
    requires -1_000_000_000_000_000_000 < number <= MAX_NUMBER
    ensures |NumberText(number)| < 20
    ensures r == FindAt(rows, list, NumberText(number), t, |NumberText(number)|)
    ensures Sorted(rows) && r >= 0 ==> Answers(rows[r], list, NumberText(number), t)
    ensures Sorted(rows) && Searchable(rows) && number >= 0 ==> Longest(rows, list, NumberText(number), t, r)
  {
    hide Sorted, Searchable, FindExactAt, Longest, NumberText;
    TextFits(number);
    ghost var text := NumberText(number);
    if Sorted(rows) {
      FindIsSound(rows, list, text, t, |text|);
      if Searchable(rows) && number >= 0 { SearchableFinds(rows, list, number, t); }
    }
    var tmp := NumberText(number);
    var len := |tmp|;
    while len > 0
      invariant 0 <= len <= |tmp| && tmp <= text
      invariant FindAt(rows, list, text, t, len) == FindAt(rows, list, text, t, |text|)
    {
      tmp := tmp[..len];
      assert tmp == text[..len];
      r := FindExact(rows, list, tmp, t);
      if r >= 0 {
        return;
      }
      len := len - 1;
    }
    r := -1;
  }

  lemma FindExactIsSound<T>(rows: seq<IndexRow<T>>, list: int, prefix: string, t: int)
    requires Sorted(rows)
    ensures var r := FindExactAt(rows, list, prefix, t); r >= 0 ==> Matches(rows[r], list, prefix, t)
  {
    hide Sorted, EqualAt, PrefixRangeAt;
    var p := PrefixRangeAt(rows, list, prefix);
    PrefixRangeIsExact(rows, list, prefix);
    RangeOfTime(rows, p.0, p.1, list, prefix, t);
    EqualAtIsSound(rows, p.0, p.1 - p.0, (e: IndexRow<T>) => e.to < t, (e: IndexRow<T>) => t < e.from);
  }

  lemma {:induction false} FindIsSound<T>(rows: seq<IndexRow<T>>, list: int, number: string, t: int, len: nat)
    requires Sorted(rows) && len <= |number|
    ensures var r := FindAt(rows, list, number, t, len); r >= 0 ==> Answers(rows[r], list, number, t)
    decreases len
  {
    hide Sorted, FindExactAt;
    if len > 0 {
      FindExactIsSound(rows, list, number[..len], t);
      FindIsSound(rows, list, number, t, len - 1);
    }
  }

  // ---- what can be searched -----------------------------------------------------------------

  /** No row is valid after a time. */
  predicate AllEnded<T>(rows: seq<IndexRow<T>>, first: nat, end: nat, top: int)
    requires end <= |rows|
  {
    forall j :: first <= j < end ==> rows[j].to <= top || rows[j].to < rows[j].from
  }

  /** The times at which the bisection turns right at its first row. */
  function TopAt<T>(rows: seq<IndexRow<T>>, first: nat, len: nat, low: int): int
    requires 0 < len && first + len <= |rows|
  {
    Max(rows[first + Half(len)].to, low)
  }

  /** The bisection over the rows from `first` at times after `low` passes over no valid row: when it
      turns right at a row that has ended, so has every row to the left, and both halves are alike. */
  predicate Bisects<T>(rows: seq<IndexRow<T>>, first: nat, len: nat, low: int)
    requires first + len <= |rows|
    decreases len
  {
    len == 0 ||
    var half := Half(len);
    var mid := first + half;
    var top := TopAt(rows, first, len, low);
    AllEnded(rows, first, mid, top) &&
    Bisects(rows, first, half, low) && Bisects(rows, mid + 1, len - half - 1, top)
  }

  /** The first of some rows that is valid at the time; -1 when none is. */
  function FirstValid<T>(rows: seq<IndexRow<T>>, first: nat, len: nat, t: int): (r: int)
    requires first + len <= |rows|
    ensures r == -1 || (first <= r < first + len && rows[r].from <= t <= rows[r].to)
    ensures forall i :: first <= i < (if r >= 0 then r else first + len) ==> !(rows[i].from <= t <= rows[i].to)
    decreases len
  {
    if len == 0 then -1
    else if rows[first].from <= t <= rows[first].to then first
    else FirstValid(rows, first + 1, len - 1, t)
  }

  ghost predicate FromInOrder<T>(rows: seq<IndexRow<T>>, first: nat, len: nat)
    requires first + len <= |rows|
  {
    forall i, j :: first <= i < j < first + len ==> rows[i].from <= rows[j].from
  }

  function Ended<T>(t: int): IndexRow<T> -> bool {
    (e: IndexRow<T>) => e.to < t
  }

  lemma {:induction false} BisectsStep<T>(rows: seq<IndexRow<T>>, first: nat, len: nat, low: int)
    requires first + len <= |rows| && len > 0
    ensures var half := Half(len);
            var mid := first + half;
            var top := TopAt(rows, first, len, low);
            Bisects(rows, first, len, low) <==>
            AllEnded(rows, first, mid, top) &&
            Bisects(rows, first, half, low) && Bisects(rows, mid + 1, len - half - 1, top)
  {
  }

  lemma {:induction false} TimeAtStep<T>(rows: seq<IndexRow<T>>, first: nat, len: nat, t: int)
    requires first + len <= |rows| && len > 0
    ensures var half := Half(len);
            var mid := first + half;
            (rows[mid].to < t ==> TimeAt(rows, first, len, t) == TimeAt(rows, mid + 1, len - half - 1, t)) &&
            (rows[mid].to >= t && t < rows[mid].from ==> TimeAt(rows, first, len, t) == TimeAt(rows, first, half, t)) &&
            (rows[mid].from <= t <= rows[mid].to ==>
             TimeAt(rows, first, len, t) == LowerAt(rows, first, half, Ended(t)))
  {
    hide EqualAt, LowerAt, UpperAt;
    EqualAtStep(rows, first, len, (e: IndexRow<T>) => e.to < t, (e: IndexRow<T>) => t < e.from);
  }

  /** Among rows that have all begun, lower_bound finds the first valid one. */
  lemma {:induction false} BisectingBounds<T>(rows: seq<IndexRow<T>>, first: nat, len: nat, low: int, t: int)
    requires first + len <= |rows| && Bisects(rows, first, len, low) && t > low
    requires forall i :: first <= i < first + len ==> rows[i].from <= t
    ensures forall i :: first <= i < LowerAt(rows, first, len, Ended(t)) ==> rows[i].to < t
    decreases len
  {
    hide Bisects, LowerAt, Half;
    if len > 0 {
      var half := Half(len);
      var mid := first + half;
      BisectsStep(rows, first, len, low);
      LowerAtStep(rows, first, len, Ended(t));
      if rows[mid].to < t {
        BisectingBounds(rows, mid + 1, len - half - 1, Max(rows[mid].to, low), t);
      } else {
        BisectingBounds(rows, first, half, low, t);
      }
    }
  }

  lemma {:induction false} BisectingFinds<T>(rows: seq<IndexRow<T>>, first: nat, len: nat, low: int, t: int)
    requires first + len <= |rows| && FromInOrder(rows, first, len) && Bisects(rows, first, len, low) && t > low
    ensures TimeAt(rows, first, len, t) == FirstValid(rows, first, len, t)
    decreases len
  {
    hide Bisects, LowerAt, TimeAt, FirstValid, Half;
    if len > 0 {
      var half := Half(len);
      var mid := first + half;
      BisectsStep(rows, first, len, low);
      TimeAtStep(rows, first, len, t);
      if rows[mid].to < t {
        BisectingFinds(rows, mid + 1, len - half - 1, Max(rows[mid].to, low), t);
      } else if t < rows[mid].from {
        BisectingFinds(rows, first, half, low, t);
      } else {
        BisectingBounds(rows, first, half, low, t);
      }
    }
  }

  /** Row j is valid at the time, and both bisections pass it over. */
  ghost predicate Passed<T>(rows: seq<IndexRow<T>>, first: nat, len: nat, t: int, j: nat)
    requires first + len <= |rows|
  {
    first <= j < first + len && rows[j].from <= t <= rows[j].to && LowerAt(rows, first, len, Ended(t)) > j &&
    (TimeAt(rows, first, len, t) == -1 || TimeAt(rows, first, len, t) > j)
  }

  lemma {:induction false} PassedOnTheLeft<T>(rows: seq<IndexRow<T>>, first: nat, len: nat, t: int, j: nat)
    requires first + len <= |rows| && len > 0 && FromInOrder(rows, first, len)
    requires Passed(rows, first, Half(len), t, j)
    ensures Passed(rows, first, len, t, j)
  {
    hide LowerAt, TimeAt, Half;
    LowerAtStep(rows, first, len, Ended(t));
    TimeAtStep(rows, first, len, t);
  }

  lemma {:induction false} PassedByTurning<T>(rows: seq<IndexRow<T>>, first: nat, len: nat, low: int)
    returns (t: int, j: nat)
    requires first + len <= |rows| && len > 0 && !AllEnded(rows, first, first + Half(len), TopAt(rows, first, len, low))
    ensures t > low && Passed(rows, first, len, t, j)
  {
    hide LowerAt, TimeAt, Half;
    t, j := StillValid(rows, first, first + Half(len), TopAt(rows, first, len, low));
    LowerAtStep(rows, first, len, Ended(t));
    TimeAtStep(rows, first, len, t);
  }

  lemma {:induction false} PassedOnTheRight<T>(rows: seq<IndexRow<T>>, first: nat, len: nat, low: int, t: int, j: nat)
    requires first + len <= |rows| && len > 0 && t > TopAt(rows, first, len, low)
    requires Passed(rows, first + Half(len) + 1, len - Half(len) - 1, t, j)
    ensures t > low && Passed(rows, first, len, t, j)
  {
    hide LowerAt, TimeAt, Half;
    LowerAtStep(rows, first, len, Ended(t));
    TimeAtStep(rows, first, len, t);
  }

  /** A bisection that does not bisect has a time at which some valid row is passed over. */
  lemma {:induction false} PassedOver<T>(rows: seq<IndexRow<T>>, first: nat, len: nat, low: int)
    returns (t: int, j: nat)
    requires first + len <= |rows| && FromInOrder(rows, first, len) && !Bisects(rows, first, len, low)
    ensures t > low && Passed(rows, first, len, t, j)
    decreases len
  {
    hide Bisects, Passed, Half, FromInOrder, AllEnded, TopAt;
    SomethingToBisect(rows, first, len, low);
    BisectsStep(rows, first, len, low);
    var half := Half(len);
    var top := TopAt(rows, first, len, low);
    if !Bisects(rows, first, half, low) {
      FromWithin(rows, first, len, first, half);
      t, j := PassedOver(rows, first, half, low);
      PassedOnTheLeft(rows, first, len, t, j);
    } else if !Bisects(rows, first + half + 1, len - half - 1, top) {
      FromWithin(rows, first, len, first + half + 1, len - half - 1);
      t, j := PassedOver(rows, first + half + 1, len - half - 1, top);
      PassedOnTheRight(rows, first, len, low, t, j);
    } else {
      t, j := PassedByTurning(rows, first, len, low);
    }
  }

  lemma StillValid<T>(rows: seq<IndexRow<T>>, first: nat, mid: nat, top: int) returns (t: int, j: nat)
    requires first <= mid <= |rows| && !AllEnded(rows, first, mid, top)
    ensures first <= j < mid && t > top && rows[j].from <= t <= rows[j].to
  {
    j :| first <= j < mid && rows[j].to > top && rows[j].to >= rows[j].from;
    t := if top + 1 < rows[j].from then rows[j].from else top + 1;
  }

  lemma FromWithin<T>(rows: seq<IndexRow<T>>, first: nat, len: nat, start: nat, n: nat)
    requires first <= start && start + n <= first + len <= |rows| && FromInOrder(rows, first, len)
    ensures FromInOrder(rows, start, n)
  {
  }

  lemma {:induction false} SomethingToBisect<T>(rows: seq<IndexRow<T>>, first: nat, len: nat, low: int)
    requires first + len <= |rows| && !Bisects(rows, first, len, low)
    ensures len > 0
  {
    if len == 0 { BisectsNothing(rows, first, low); }
  }

  lemma {:induction false} BisectsNothing<T>(rows: seq<IndexRow<T>>, first: nat, low: int)
    requires first <= |rows|
    ensures Bisects(rows, first, 0, low)
  {
  }

  /** The search by time finds the first valid row. */
  ghost predicate TimeFound<T>(rows: seq<IndexRow<T>>, first: nat, len: nat, t: int)
    requires first + len <= |rows|
  {
    TimeAt(rows, first, len, t) == FirstValid(rows, first, len, t)
  }

  /** The three searches find the row that a scan for exactly the prefix finds. */
  ghost predicate ExactFound<T>(rows: seq<IndexRow<T>>, list: int, prefix: string, t: int) {
    FindExactAt(rows, list, prefix, t) == FirstMatch(rows, |rows|, list, prefix, t)
  }

  /** The rows of one key can be searched at all times exactly when the bisection over them bisects. */
  lemma {:induction false} TimesAreFoundIff<T>(rows: seq<IndexRow<T>>, first: nat, len: nat)
    requires first + len <= |rows| && len > 0 && FromInOrder(rows, first, len)
    ensures (forall t :: TimeFound(rows, first, len, t)) <==>
            Bisects(rows, first, len, rows[first].from - 1)
  {
    hide Bisects, TimeAt, LowerAt, FirstValid;
    var low := rows[first].from - 1;
    if Bisects(rows, first, len, low) {
      forall t
        ensures TimeFound(rows, first, len, t)
      {
        if t > low { BisectingFinds(rows, first, len, low, t); } else { BeforeAll(rows, first, len, t); }
      }
    } else {
      var t, j := PassedOver(rows, first, len, low);
      assert !TimeFound(rows, first, len, t);
    }
  }

  lemma {:induction false} BeforeAll<T>(rows: seq<IndexRow<T>>, first: nat, len: nat, t: int)
    requires first + len <= |rows| && FromInOrder(rows, first, len) && (len > 0 ==> t < rows[first].from)
    ensures TimeAt(rows, first, len, t) == FirstValid(rows, first, len, t) == -1
  {
    hide EqualAt, FirstValid;
    EqualAtIsSound(rows, first, len, (e: IndexRow<T>) => e.to < t, (e: IndexRow<T>) => t < e.from);
  }

  /** Every key of every list that is the text of a number can be searched. */
  ghost predicate Searchable<T>(rows: seq<IndexRow<T>>) {
    forall list, n: nat :: n <= MAX_NUMBER ==> KeySearchable(rows, list, Decimal(n))
  }

  ghost predicate KeySearchable<T>(rows: seq<IndexRow<T>>, list: int, prefix: string) {
    var p := PrefixRangeAt(rows, list, prefix);
    p.0 < p.1 ==> Bisects(rows, p.0, p.1 - p.0, rows[p.0].from - 1)
  }

  lemma KeyRange<T>(rows: seq<IndexRow<T>>, list: int, prefix: string, t: int)
    requires Sorted(rows)
    ensures var p := PrefixRangeAt(rows, list, prefix);
            FromInOrder(rows, p.0, p.1 - p.0) &&
            FirstValid(rows, p.0, p.1 - p.0, t) == FirstMatch(rows, |rows|, list, prefix, t)
  {
    hide PrefixRangeAt, FirstMatch, FirstValid;
    var p := PrefixRangeAt(rows, list, prefix);
    PrefixRangeIsExact(rows, list, prefix);
    forall i, j | p.0 <= i < j < p.1
      ensures rows[i].from <= rows[j].from
    {
      LessIsStrict(prefix, prefix);
      assert InOrder(rows[i], rows[j]);
    }
    hide Sorted;
    var v, m := FirstValid(rows, p.0, p.1 - p.0, t), FirstMatch(rows, |rows|, list, prefix, t);
    assert v >= 0 ==> Matches(rows[v], list, prefix, t);
    assert m >= 0 ==> p.0 <= m < p.1;
  }

  lemma KeyTime<T>(rows: seq<IndexRow<T>>, list: int, prefix: string, t: int)
    requires Sorted(rows)
    ensures var p := PrefixRangeAt(rows, list, prefix);
            ExactFound(rows, list, prefix, t) <==> TimeFound(rows, p.0, p.1 - p.0, t)
  {
    hide PrefixRangeAt, FirstMatch, FirstValid, TimeAt, Sorted;
    KeyRange(rows, list, prefix, t);
  }

  /** A key can be searched exactly when the three searches agree with the scan at all times. */
  lemma KeyIsFoundIff<T>(rows: seq<IndexRow<T>>, list: int, prefix: string)
    requires Sorted(rows)
    ensures (forall t :: ExactFound(rows, list, prefix, t)) <==> KeySearchable(rows, list, prefix)
  {
    hide PrefixRangeAt, Bisects, Sorted, FromInOrder, ExactFound, TimeFound;
    var p := PrefixRangeAt(rows, list, prefix);
    var first, len := p.0, p.1 - p.0;
    KeyRange(rows, list, prefix, 0);
    forall t
      ensures ExactFound(rows, list, prefix, t) <==> TimeFound(rows, first, len, t)
    {
      KeyTime(rows, list, prefix, t);
    }
    if len > 0 {
      TimesAreFoundIff(rows, first, len);
    } else {
      forall t
        ensures ExactFound(rows, list, prefix, t)
      {
        EmptyIsFound(rows, first, t);
      }
    }
  }

  lemma {:induction false} EmptyIsFound<T>(rows: seq<IndexRow<T>>, first: nat, t: int)
    requires first <= |rows|
    ensures TimeFound(rows, first, 0, t)
  {
    BeforeAll(rows, first, 0, t);
  }

  lemma SearchableFinds<T>(rows: seq<IndexRow<T>>, list: int, number: nat, t: int)
    requires Sorted(rows) && Searchable(rows) && number <= MAX_NUMBER
    ensures Longest(rows, list, NumberText(number), t, FindAt(rows, list, NumberText(number), t, |NumberText(number)|))
  {
    FindsFrom(rows, list, number, t, |Decimal(number)|);
  }

  lemma {:induction false} FindsFrom<T>(rows: seq<IndexRow<T>>, list: int, number: nat, t: int, len: nat)
    requires Sorted(rows) && Searchable(rows) && len <= |Decimal(number)| && number <= MAX_NUMBER
    requires forall j :: 0 <= j < |rows| && Answers(rows[j], list, Decimal(number), t) ==> |rows[j].prefix| <= len
    ensures Longest(rows, list, Decimal(number), t, FindAt(rows, list, Decimal(number), t, len))
    decreases len
  {
    hide Sorted, FindExactAt, FirstMatch, KeySearchable, Decimal;
    if len > 0 {
      var prefix := Decimal(number)[..len];
      var m := CutDecimal(number, len);
      assert KeySearchable(rows, list, Decimal(m));
      KeyIsFoundIff(rows, list, prefix);
      assert ExactFound(rows, list, prefix, t);
      forall j | 0 <= j < |rows|
        ensures Matches(rows[j], list, prefix, t) <==>
                Answers(rows[j], list, Decimal(number), t) && |rows[j].prefix| == len
      {
        assert rows[j].prefix <= Decimal(number) && |rows[j].prefix| == len ==> rows[j].prefix == prefix;
      }
      if FindExactAt(rows, list, prefix, t) < 0 {
        FindsFrom(rows, list, number, t, len - 1);
      }
    }
  }

  /** The lookup finds what a scan for the number finds. */
  ghost predicate Agrees<T>(rows: seq<IndexRow<T>>, list: int, number: nat, t: int) {
    var text := NumberText(number);
    Longest(rows, list, text, t, FindAt(rows, list, text, t, |text|))
  }

  /** The lookup agrees with the scan for every list, number and time exactly when every key that is
      the text of a number can be searched. */
  lemma FindAgreesIff<T>(rows: seq<IndexRow<T>>)
    requires Sorted(rows)
    ensures (forall list, number: nat, t :: number <= MAX_NUMBER ==> Agrees(rows, list, number, t)) <==>
            Searchable(rows)
  {
    hide Sorted, Longest, FindAt, KeySearchable, Decimal, NumberText;
    if Searchable(rows) {
      forall list, number: nat, t | number <= MAX_NUMBER
        ensures Agrees(rows, list, number, t)
      {
        SearchableFinds(rows, list, number, t);
      }
    } else {
      var list, n: nat :| n <= MAX_NUMBER && !KeySearchable(rows, list, Decimal(n));
      var t := UnsearchableMisses(rows, list, n);
      assert !Agrees(rows, list, n, t);
    }
  }

  /** A key that cannot be searched is a number some time of which is answered wrongly. */
  lemma UnsearchableMisses<T>(rows: seq<IndexRow<T>>, list: int, n: nat) returns (t: int)
    requires Sorted(rows) && !KeySearchable(rows, list, Decimal(n))
    ensures !Agrees(rows, list, n, t)
  {
    hide Sorted, FindExactAt, FirstMatch, KeySearchable, Decimal;
    var prefix := Decimal(n);
    KeyIsFoundIff(rows, list, prefix);
    t :| !ExactFound(rows, list, prefix, t);
    assert prefix[..|prefix|] == prefix;
    var r, m := FindAt(rows, list, prefix, t, |prefix|), FirstMatch(rows, |rows|, list, prefix, t);
    FindExactIsSound(rows, list, prefix, t);
    if FindExactAt(rows, list, prefix, t) < 0 {
      ShorterFound(rows, list, prefix, t, |prefix| - 1);
    }
  }

  lemma {:induction false} ShorterFound<T>(rows: seq<IndexRow<T>>, list: int, number: string, t: int, len: nat)
    requires Sorted(rows) && len <= |number|
    ensures var r := FindAt(rows, list, number, t, len); r >= 0 ==> |rows[r].prefix| <= len
    decreases len
  {
    hide Sorted, FindExactAt;
    if len > 0 {
      FindExactIsSound(rows, list, number[..len], t);
      ShorterFound(rows, list, number, t, len - 1);
    }
  }

  /** Validities that end in the order they begin can be searched. */
  lemma {:induction false} EndsInOrderBisect<T>(rows: seq<IndexRow<T>>, first: nat, len: nat, low: int)
    requires first + len <= |rows|
    requires forall i, j :: first <= i < j < first + len ==> rows[i].to <= rows[j].to
    ensures Bisects(rows, first, len, low)
    decreases len
  {
    hide Bisects;
    if len == 0 {
      BisectsNothing(rows, first, low);
    } else {
      BisectsStep(rows, first, len, low);
      var half := Half(len);
      var top := TopAt(rows, first, len, low);
      EndsInOrderBisect(rows, first, half, low);
      EndsInOrderBisect(rows, first + half + 1, len - half - 1, top);
    }
  }

  /** Not every list can be searched: of three nested validities the lookup misses the outer one. */
  lemma OverlapIsMissed(rows: seq<IndexRow<int>>, t: int)
    requires rows == [IndexRow(1, "7", 0, 1000, 0), IndexRow(1, "7", 10, 20, 0), IndexRow(1, "7", 30, 40, 0)] &&
             t == 500
    ensures Sorted(rows) && Answers(rows[0], 1, "7", t) && FindAt(rows, 1, "7", t, 1) == -1
    ensures NumberText(7) == "7"
  {
    hide PrefixRangeAt, Less, EqualAt, TimeAt, Decimal;
    assert Decimal(7) == "7" by { SevenIsPrinted(); }
    OverlapOrder(rows, t);
    PrefixRangeIsExact(rows, 1, "7");
    var p := PrefixRangeAt(rows, 1, "7");
    assert |rows| == 3 && rows[0].prefix == rows[2].prefix == "7" && rows[0].list == rows[2].list == 1;
    assert p.0 <= 0 < p.1 && p.0 <= 2 < p.1;
    TimeIsMissed(rows, t);
    assert "7"[..1] == "7";
    assert FindAt(rows, 1, "7", t, 0) == -1;
  }

  lemma SevenIsPrinted()
    ensures Decimal(7) == "7"
  {
  }

  lemma OverlapOrder(rows: seq<IndexRow<int>>, t: int)
    requires rows == [IndexRow(1, "7", 0, 1000, 0), IndexRow(1, "7", 10, 20, 0), IndexRow(1, "7", 30, 40, 0)]
    ensures Sorted(rows)
  {
  }

  lemma TimeIsMissed(rows: seq<IndexRow<int>>, t: int)
    requires rows == [IndexRow(1, "7", 0, 1000, 0), IndexRow(1, "7", 10, 20, 0), IndexRow(1, "7", 30, 40, 0)] &&
             t == 500
    ensures TimeAt(rows, 0, 3, t) == -1
  {
    var below, above := (e: IndexRow<int>) => e.to < t, (e: IndexRow<int>) => t < e.from;
    assert EqualAt(rows, 3, 0, below, above) == (3, 3);
    assert EqualAt(rows, 2, 1, below, above) == (3, 3);
    assert EqualAt(rows, 0, 3, below, above) == (3, 3);
  }

  // ---- lists without validity ----------------------------------------------------------

  /** Some row of the list has a non-empty prefix of the number. */
  ghost predicate Listed<T>(rows: seq<IndexRow<T>>, list: int, number: string) {
    exists j :: 0 <= j < |rows| && rows[j].list == list && rows[j].prefix != [] && rows[j].prefix <= number
  }

  /** The two nested searches of a prefix list. */
  method FindPrefixExact<T>(rows: seq<IndexRow<T>>, list: int, prefix: string) returns (r: int)
    requires Sorted(rows) && prefix != []
    ensures -1 <= r < |rows| && (r >= 0 ==> rows[r].list == list && rows[r].prefix == prefix)
    ensures r == -1 ==> forall j :: 0 <= j < |rows| ==> rows[j].list != list || rows[j].prefix != prefix
  {
    hide Sorted, PrefixRangeAt;
    PrefixRangeIsExact(rows, list, prefix);
    var begin, end := PrefixRange(rows, list, prefix);
    r := if begin < end then begin else -1;
  }

  /** The lookup in a prefix list finds a row exactly when the number is listed, and then one
      with the longest prefix. The empty prefix is never looked up. */
  method FindPrefix<T>(rows: seq<IndexRow<T>>, list: int, number: string) returns (r: int)
    requires Sorted(rows) && |number| < 20
    ensures -1 <= r < |rows| && (r >= 0 <==> Listed(rows, list, number))
    ensures r >= 0 ==> rows[r].list == list && rows[r].prefix <= number
    ensures r >= 0 ==> forall j :: 0 <= j < |rows| && rows[j].list == list && rows[j].prefix <= number ==>
              |rows[j].prefix| <= |rows[r].prefix|
  {
    hide Sorted;
    var tmp := number;
    var len := |tmp|;
    while len > 0
      invariant 0 <= len <= |tmp| && tmp <= number
      invariant forall j :: 0 <= j < |rows| && rows[j].list == list && rows[j].prefix <= number ==>
                  |rows[j].prefix| <= len
    {
      tmp := tmp[..len];
      r := FindPrefixExact(rows, list, tmp);
      if r >= 0 {
        return;
      }
      len := len - 1;
    }
    r := -1;
  }
}
