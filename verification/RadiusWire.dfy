/** What the bytes of a RADIUS packet mean (sections 3 and 5 of RFC 2865): its attribute
    list, the walk over it, the hidden password and the response authenticator. */
module RadiusWire {
  import opened Octets

  const HEADER_LENGTH: nat := 20
  const MAX_LENGTH: nat := 4096
  const RAW_LENGTH: nat := 4352
  const SECRET_MAX_LENGTH: nat := 256
  const PASSWORD_MAX_LENGTH: nat := 128

  /** A hash with 16-octet digests. What follows holds for every one. */
  type Octets16 = s: seq<Byte> | |s| == 16 witness [0, 0, 0, 0, 0, 0, 0, 0, 0, 0, 0, 0, 0, 0, 0, 0]
  type Hash = seq<Byte> -> Octets16

  // ---- bytes in place ------------------------------------------------------------

  /** Network byte order. */
  function Short(n: nat): (s: seq<Byte>)
    ensures |s| == 2
  {
    [Octet(n / 0x100), Octet(n)]
  }

  function ShortAt(d: seq<Byte>, at: nat): (n: nat)
    requires at + 2 <= |d|
    ensures n < 0x1_0000
  {
    (d[at] as int) * 0x100 + d[at + 1]
  }

  function Long(n: nat): (s: seq<Byte>)
    ensures |s| == 4
  {
    [Octet(n / 0x100_0000), Octet(n / 0x1_0000), Octet(n / 0x100), Octet(n)]
  }

  function LongAt(d: seq<Byte>, at: nat): (n: nat)
    requires at + 4 <= |d|
  {
    (d[at] as int) * 0x100_0000 + (d[at + 1] as int) * 0x1_0000 + (d[at + 2] as int) * 0x100 + d[at + 3]
  }

  lemma ShortReadsBack(n: nat, d: seq<Byte>, at: nat)
    requires n < 0x1_0000 && at + 2 <= |d| && d[at..at + 2] == Short(n)
    ensures ShortAt(d, at) == n
  {
    assert d[at] == d[at..at + 2][0] && d[at + 1] == d[at..at + 2][1];
  }

  lemma LongReadsBack(n: nat, d: seq<Byte>, at: nat)
    requires n < 0x1_0000_0000 && at + 4 <= |d| && d[at..at + 4] == Long(n)
    ensures LongAt(d, at) == n
  {
    var s := d[at..at + 4];
    assert d[at] == s[0] && d[at + 1] == s[1] && d[at + 2] == s[2] && d[at + 3] == s[3];
    FourDigits(n);
  }

  lemma FourDigits(n: nat)
    requires n < 0x1_0000_0000
    ensures n == n / 0x100_0000 % 256 * 0x100_0000 + n / 0x1_0000 % 256 * 0x1_0000 + n / 0x100 % 256 * 0x100 + n % 256
  {
    assert n / 0x100_0000 == n / 0x1_0000 / 256 && n / 0x1_0000 == n / 0x100 / 256;
  }

  // ---- the header -----------------------------------------------------------------

  function Length(d: seq<Byte>): (n: nat)
    requires |d| >= HEADER_LENGTH
    ensures n < 0x1_0000
  {
    ShortAt(d, 2)
  }

  function WithLength(d: seq<Byte>, n: nat): (r: seq<Byte>)
    requires |d| >= HEADER_LENGTH
    ensures |r| == |d|
  {
    Put(d, 2, Short(n))
  }

  function Authenticator(d: seq<Byte>): (a: seq<Byte>)
    requires |d| >= HEADER_LENGTH
    ensures |a| == 16
  {
    d[4..20]
  }

  lemma WithLengthIs(d: seq<Byte>, n: nat)
    requires |d| >= HEADER_LENGTH && n < 0x1_0000
    ensures Length(WithLength(d, n)) == n
    ensures forall k :: 0 <= k < |d| && k != 2 && k != 3 ==> WithLength(d, n)[k] == d[k]
  {
    hide ShortAt, Short;
    assert WithLength(d, n)[2..4] == Short(n);
    ShortReadsBack(n, WithLength(d, n), 2);
  }

  // ---- attributes ---------------------------------------------------------------------

  datatype Attr = Attr(kind: Byte, value: seq<Byte>)

  /** The length octet counts the type and itself, which leaves 253 for the value. */
  ghost predicate Fits(a: Attr) {
    |a.value| <= 253
  }

  ghost predicate AllFit(attrs: seq<Attr>) {
    forall a :: a in attrs ==> Fits(a)
  }

  function AttrBytes(a: Attr): (s: seq<Byte>)
    ensures |s| == |a.value| + 2
  {
    [a.kind, Octet(|a.value| + 2)] + a.value
  }

  function AllBytes(attrs: seq<Attr>): seq<Byte> {
    if attrs == [] then [] else AttrBytes(attrs[0]) + AllBytes(attrs[1..])
  }

  lemma {:induction false} AllBytesAppend(attrs: seq<Attr>, a: Attr)
    ensures AllBytes(attrs + [a]) == AllBytes(attrs) + AttrBytes(a)
  {
    hide AttrBytes;
    if attrs == [] {
      assert attrs + [a] == [a] && [a][1..] == [];
      assert AllBytes([]) == [];
    } else {
      assert (attrs + [a])[1..] == attrs[1..] + [a];
      AllBytesAppend(attrs[1..], a);
    }
  }

  /** More attributes take more octets. */
  lemma {:induction false} AllBytesGrow(attrs: seq<Attr>, k: nat)
    requires k <= |attrs|
    ensures |AllBytes(attrs[..k])| <= |AllBytes(attrs)|
    decreases |attrs| - k
  {
    if k < |attrs| {
      assert attrs[..k + 1] == attrs[..k] + [attrs[k]];
      AllBytesAppend(attrs[..k], attrs[k]);
      AllBytesGrow(attrs, k + 1);
    } else {
      assert attrs[..k] == attrs;
    }
  }

  /** The packet's bytes hold exactly these attributes, in this order. */
  ghost predicate Holds(d: seq<Byte>, attrs: seq<Attr>) {
    |d| == RAW_LENGTH && HEADER_LENGTH <= Length(d) <= MAX_LENGTH && AllFit(attrs) &&
    d[HEADER_LENGTH..Length(d)] == AllBytes(attrs)
  }

  // ---- the walk ------------------------------------------------------------------------

  /** The offsets a walk visits from `at`, on any bytes: it steps by the length octet and
      stops at a zero length or once the step leaves the packet. */
  function Walk(d: seq<Byte>, at: nat, end: nat): (offsets: seq<nat>)
    requires at + 1 < |d| && end < |d|
    ensures |offsets| >= 1 && offsets[0] == at
    ensures forall i :: 0 < i < |offsets| ==> offsets[i - 1] < offsets[i] < end
    decreases end - at
  {
    var step := d[at + 1];
    if step == 0 || at + step >= end then [at] else [at] + Walk(d, at + step, end)
  }

  /** Every offset the walk over a packet visits. */
  function Visits(d: seq<Byte>): seq<nat>
    requires |d| == RAW_LENGTH && Length(d) < RAW_LENGTH
  {
    if Length(d) == HEADER_LENGTH then [] else Walk(d, HEADER_LENGTH, Length(d))
  }

  /** The step from one visit to the next, and where the walk stops. */
  lemma {:induction false} WalkAfter(d: seq<Byte>, at: nat, end: nat, i: nat)
    requires at + 1 < |d| && end < |d| && i < |Walk(d, at, end)|
    ensures var o := Walk(d, at, end)[i];
            o >= at && o + 1 < |d| &&
            (i + 1 < |Walk(d, at, end)| <==> d[o + 1] != 0 && o + d[o + 1] < end) &&
            (i + 1 < |Walk(d, at, end)| ==> Walk(d, at, end)[i + 1] == o + d[o + 1])
    decreases i
  {
    if i > 0 {
      WalkAfter(d, at + d[at + 1], end, i - 1);
    }
  }

  lemma VisitAfter(d: seq<Byte>, i: nat)
    requires |d| == RAW_LENGTH && Length(d) < RAW_LENGTH && i < |Visits(d)|
    ensures var o := Visits(d)[i];
            o >= HEADER_LENGTH && o + 1 < |d| &&
            (i + 1 < |Visits(d)| <==> d[o + 1] != 0 && o + d[o + 1] < Length(d)) &&
            (i + 1 < |Visits(d)| ==> Visits(d)[i + 1] == o + d[o + 1])
  {
    hide Walk, Length;
    WalkAfter(d, HEADER_LENGTH, Length(d), i);
  }

  /** The attribute at an offset. */
  function AttrAt(d: seq<Byte>, at: nat): Attr {
    if at + 1 >= |d| then Attr(0, [])
    else
      var n := d[at + 1];
      Attr(d[at], if 2 <= n && at + n <= |d| then d[at + 2..at + n] else [])
  }

  function AttrsAt(d: seq<Byte>, offsets: seq<nat>): seq<Attr> {
    if offsets == [] then [] else [AttrAt(d, offsets[0])] + AttrsAt(d, offsets[1..])
  }

  /** The first of some offsets with an attribute of the type; 0 when there is none. */
  function FirstOf(d: seq<Byte>, offsets: seq<nat>, kind: Byte): nat {
    if offsets == [] then 0
    else if AttrAt(d, offsets[0]).kind == kind then offsets[0]
    else FirstOf(d, offsets[1..], kind)
  }

  /** Finding means: the first attribute of the type in the list, if there is one. */
  lemma {:induction false} FirstOfFinds(d: seq<Byte>, offsets: seq<nat>, attrs: seq<Attr>, kind: Byte)
    requires AttrsAt(d, offsets) == attrs && 0 !in offsets
    ensures FirstOf(d, offsets, kind) == 0 <==> forall a :: a in attrs ==> a.kind != kind
    ensures FirstOf(d, offsets, kind) != 0 ==>
              exists i :: 0 <= i < |attrs| && attrs[i].kind == kind &&
                (forall j :: 0 <= j < i ==> attrs[j].kind != kind) &&
                          AttrAt(d, FirstOf(d, offsets, kind)) == attrs[i]
  {
    hide AttrAt;
    if offsets != [] {
      var rest := AttrsAt(d, offsets[1..]);
      assert attrs == [AttrAt(d, offsets[0])] + rest;
      if attrs[0].kind == kind {
        assert attrs[0] in attrs;
      } else {
        FirstOfFinds(d, offsets[1..], rest, kind);
        if FirstOf(d, offsets[1..], kind) != 0 {
          var i :| 0 <= i < |rest| && rest[i].kind == kind && (forall j :: 0 <= j < i ==> rest[j].kind != kind) &&
                   AttrAt(d, FirstOf(d, offsets[1..], kind)) == rest[i];
          assert attrs[i + 1] == rest[i];
          assert forall j :: 0 <= j < i + 1 ==> attrs[j].kind != kind;
        }
      }
    }
  }

  /** The walk over a packet that holds some attributes enumerates exactly those, in order. */
  lemma {:induction false} WalkReadsBack(d: seq<Byte>, attrs: seq<Attr>)
    requires Holds(d, attrs)
    ensures AttrsAt(d, Visits(d)) == attrs
  {
    if attrs == [] {
      assert |d[HEADER_LENGTH..Length(d)]| == 0;
    } else {
      WalkFrom(d, HEADER_LENGTH, Length(d), attrs);
    }
  }

  lemma {:induction false} WalkFrom(d: seq<Byte>, at: nat, end: nat, attrs: seq<Attr>)
    requires at <= end < |d| && attrs != [] && AllFit(attrs) && d[at..end] == AllBytes(attrs)
    ensures at + 1 < |d| && AttrsAt(d, Walk(d, at, end)) == attrs
    decreases |attrs|
  {
    hide AttrBytes, Walk, AttrsAt, AttrAt;
    var a, rest := attrs[0], attrs[1..];
    var n := |a.value| + 2;
    assert Fits(a);
    AtFront(d, at, end, a, AllBytes(rest));
    AttrReadsBack(d, at, a);
    assert attrs == [a] + rest;
    if rest == [] {
      assert at + n == end by { assert d[at + n..end] == []; }
      WalkStops(d, at, end);
    } else {
      assert at + n < end by { assert |AllBytes(rest)| > 0; }
      WalkFrom(d, at + n, end, rest);
      WalkSteps(d, at, end);
    }
  }

  lemma AttrReadsBack(d: seq<Byte>, at: nat, a: Attr)
    requires Fits(a) && at + |a.value| + 2 <= |d|
    requires d[at] == a.kind && d[at + 1] == Octet(|a.value| + 2) && d[at + 2..at + |a.value| + 2] == a.value
    ensures AttrAt(d, at) == a && d[at + 1] == |a.value| + 2
  {
  }

  lemma {:induction false} WalkStops(d: seq<Byte>, at: nat, end: nat)
    requires at + 1 < |d| && end < |d| && at + d[at + 1] >= end
    ensures AttrsAt(d, Walk(d, at, end)) == [AttrAt(d, at)]
  {
    assert [at][1..] == [];
  }

  lemma WalkSteps(d: seq<Byte>, at: nat, end: nat)
    requires at + 1 < |d| && end < |d| && 0 < d[at + 1] && at + d[at + 1] < end
    ensures AttrsAt(d, Walk(d, at, end)) == [AttrAt(d, at)] + AttrsAt(d, Walk(d, at + d[at + 1], end))
  {
    var w := Walk(d, at + d[at + 1], end);
    assert ([at] + w)[1..] == w;
  }

  lemma AtFront(d: seq<Byte>, at: nat, end: nat, a: Attr, rest: seq<Byte>)
    requires at <= end < |d| && d[at..end] == AttrBytes(a) + rest
    ensures at + |a.value| + 2 <= end
    ensures d[at] == a.kind && d[at + 1] == Octet(|a.value| + 2) && d[at + 2..at + |a.value| + 2] == a.value
    ensures d[at + |a.value| + 2..end] == rest
  {
    var n := |a.value| + 2;
    assert d[at..end][..n] == AttrBytes(a) && d[at..end][n..] == rest;
    assert d[at..end][..n] == d[at..at + n] && d[at..end][n..] == d[at + n..end];
    assert d[at] == d[at..at + n][0] && d[at + 1] == d[at..at + n][1];
    assert d[at..at + n][2..] == d[at + 2..at + n];
  }

  // ---- appending an attribute ---------------------------------------------------------

  /** The packet after an attribute was added and given a value. */
  function Appended(d: seq<Byte>, a: Attr): (r: seq<Byte>)
    requires |d| == RAW_LENGTH && HEADER_LENGTH <= Length(d) && Length(d) + |a.value| + 2 <= MAX_LENGTH
    ensures |r| == |d|
  {
    Put(WithLength(d, Length(d) + |a.value| + 2), Length(d), AttrBytes(a))
  }

  /** The bytes after a setter: the packet's length grown, the length octet of the attribute
      at `at` set, the value behind it. */
  function ValueSet(d: seq<Byte>, at: nat, value: seq<Byte>): (r: seq<Byte>)
    requires |d| == RAW_LENGTH && at + |value| + 2 <= |d|
    ensures |r| == |d|
  {
    Put(WithLength(d, Length(d) + |value| + 2), at + 1, [Octet(|value| + 2)] + value)
  }

  const VENDOR_SPECIFIC: Byte := 26

  /** Section 5.26 of RFC 2865: the vendor's number, then the vendor's own type, length and value. */
  function VendorAttr(id: nat, kind: Byte, value: seq<Byte>): Attr {
    Attr(VENDOR_SPECIFIC, Long(id) + [kind, Octet(|value| + 2)] + value)
  }

  function VendorSet(d: seq<Byte>, at: nat, value: seq<Byte>): (r: seq<Byte>)
    requires |d| == RAW_LENGTH && at + |value| + 8 <= |d|
    ensures |r| == |d|
  {
    Put(Put(Put(WithLength(d, Length(d) + |value| + 8), at + 1, [Octet(|value| + 8)]), at + 7, [Octet(|value| + 2)]),
        at + 8, value)
  }

  lemma VendorAddedAndSet(d: seq<Byte>, id: nat, kind: Byte, value: seq<Byte>)
    requires |d| == RAW_LENGTH && HEADER_LENGTH <= Length(d) && Length(d) + |value| + 8 <= MAX_LENGTH
    ensures var n := Length(d);
            VendorSet(Put(Put(Put(d, n, [VENDOR_SPECIFIC]), n + 2, Long(id)), n + 6, [kind]), n, value) ==
            Appended(d, VendorAttr(id, kind, value))
  {
    hide Length, Short, Long, Put;
    var n, m := Length(d), Length(d) + |value| + 8;
    var kindOctet, lengthOctet, inner, four := [VENDOR_SPECIFIC], [Octet(|value| + 8)], [Octet(|value| + 2)], Long(id);
    var typed := Put(d, n, kindOctet);
    var begun := Put(Put(typed, n + 2, four), n + 6, [kind]);
    PutBehindHeader(d, n, kindOctet);
    PutBehindHeader(typed, n + 2, four);
    PutBehindHeader(Put(typed, n + 2, four), n + 6, [kind]);
    PutTogether(typed, n + 2, four, [kind]);
    Swapped(typed, n + 2, four + [kind], 2, Short(m));
    Swapped(d, n, kindOctet, 2, Short(m));
    var grown := Put(WithLength(d, m), n, kindOctet);
    assert WithLength(begun, m) == Put(grown, n + 2, four + [kind]);
    Swapped(grown, n + 2, four + [kind], n + 1, lengthOctet);
    PutTogether(WithLength(d, m), n, kindOctet, lengthOctet);
    var front := kindOctet + lengthOctet;
    PutTogether(WithLength(d, m), n, front, four + [kind]);
    PutTogether(Put(WithLength(d, m), n, front + (four + [kind])), n + 7, inner, value);
    PutTogether(WithLength(d, m), n, front + (four + [kind]), inner + value);
    assert front + (four + [kind]) + (inner + value) == AttrBytes(VendorAttr(id, kind, value));
  }

  /** Two writes side by side are one, two writes apart commute. */
  lemma PutTogether(d: seq<Byte>, at: nat, x: seq<Byte>, y: seq<Byte>)
    requires at + |x| + |y| <= |d|
    ensures Put(Put(d, at, x), at + |x|, y) == Put(d, at, x + y)
  {
  }

  lemma Swapped(d: seq<Byte>, at: nat, x: seq<Byte>, before: nat, y: seq<Byte>)
    requires before + |y| <= at && at + |x| <= |d|
    ensures Put(Put(d, at, x), before, y) == Put(Put(d, before, y), at, x)
  {
  }

  /** An attribute added in the free space and then set has been appended. */
  lemma AddedAndSet(d: seq<Byte>, a: Attr)
    requires |d| == RAW_LENGTH && HEADER_LENGTH <= Length(d) && Length(d) + |a.value| + 2 <= MAX_LENGTH
    ensures ValueSet(Put(d, Length(d), [a.kind]), Length(d), a.value) == Appended(d, a)
  {
    hide Length, Short, Put;
    var n := Length(d);
    PutBehindHeader(d, n, [a.kind]);
    Swapped(d, n, [a.kind], 2, Short(n + |a.value| + 2));
    PutTogether(WithLength(d, n + |a.value| + 2), n, [a.kind], [Octet(|a.value| + 2)] + a.value);
    assert [a.kind] + ([Octet(|a.value| + 2)] + a.value) == AttrBytes(a);
  }

  lemma AppendedKeepsHeader(d: seq<Byte>, a: Attr)
    requires |d| == RAW_LENGTH && HEADER_LENGTH <= Length(d) && Length(d) + |a.value| + 2 <= MAX_LENGTH
    ensures Appended(d, a)[..2] == d[..2] && Appended(d, a)[4..20] == d[4..20]
  {
    hide Length, Short, AttrBytes;
  }

  lemma VendorAttrLength(id: nat, kind: Byte, value: seq<Byte>)
    ensures |VendorAttr(id, kind, value).value| == |value| + 6
  {
  }

  lemma PutAt(d: seq<Byte>, at: nat, bytes: seq<Byte>)
    requires |bytes| > 0 && at + |bytes| <= |d|
    ensures Put(d, at, bytes)[at] == bytes[0]
  {
  }

  lemma PutNothing(d: seq<Byte>, at: nat)
    requires at <= |d|
    ensures Put(d, at, []) == d
  {
  }

  lemma PutKeepsAuthenticator(d: seq<Byte>, at: nat, bytes: seq<Byte>)
    requires HEADER_LENGTH <= at && at + |bytes| <= |d|
    ensures Authenticator(Put(d, at, bytes)) == Authenticator(d)
  {
  }

  lemma AuthenticatorIs(d: seq<Byte>)
    requires |d| >= HEADER_LENGTH
    ensures Authenticator(d) == d[4..20]
  {
  }

  lemma WithLengthKeeps(d: seq<Byte>, n: nat)
    requires |d| >= HEADER_LENGTH
    ensures Authenticator(WithLength(d, n)) == Authenticator(d)
  {
    hide Short;
  }

  lemma PrefixKept(d: seq<Byte>, at: nat, bytes: seq<Byte>, n: nat)
    requires n <= at && at + |bytes| <= |d|
    ensures Put(d, at, bytes)[..n] == d[..n]
  {
  }

  /** Bytes written behind the packet do not count. */
  lemma StillHolds(d: seq<Byte>, r: seq<Byte>, attrs: seq<Attr>)
    requires Holds(d, attrs) && |r| == |d| && r[..Length(d)] == d[..Length(d)]
    ensures Holds(r, attrs) && r[..2] == d[..2] && r[4..20] == d[4..20]
  {
    hide Length, AllBytes;
    var n := Length(d);
    assert forall k :: 0 <= k < n ==> r[k] == r[..n][k] == d[..n][k] == d[k];
    SameHeader(d, r);
    assert r[HEADER_LENGTH..n] == d[HEADER_LENGTH..n];
  }

  lemma AppendedHolds(d: seq<Byte>, attrs: seq<Attr>, a: Attr)
    requires Holds(d, attrs) && Fits(a) && Length(d) + |a.value| + 2 <= MAX_LENGTH
    ensures Holds(Appended(d, a), attrs + [a])
  {
    hide AttrBytes, AllBytes, Length, WithLength;
    var r := Appended(d, a);
    var n := Length(d);
    var w := WithLength(d, n + |a.value| + 2);
    WithLengthIs(d, n + |a.value| + 2);
    SameHeader(w, r);
    AllBytesAppend(attrs, a);
    assert r[HEADER_LENGTH..n + |a.value| + 2] == d[HEADER_LENGTH..n] + AttrBytes(a);
  }

  lemma PutBehindHeader(d: seq<Byte>, at: nat, bytes: seq<Byte>)
    requires HEADER_LENGTH <= at && at + |bytes| <= |d|
    ensures Length(Put(d, at, bytes)) == Length(d)
  {
    hide Length;
    SameHeader(d, Put(d, at, bytes));
  }

  lemma SameHeader(d: seq<Byte>, r: seq<Byte>)
    requires |d| == |r| >= HEADER_LENGTH && d[2] == r[2] && d[3] == r[3]
    ensures Length(r) == Length(d)
  {
  }

  /** A value reads back exactly when it fits: the length octet of a longer one wraps. */
  lemma AppendedReadsBackIff(d: seq<Byte>, a: Attr)
    requires |d| == RAW_LENGTH && HEADER_LENGTH <= Length(d) && Length(d) + |a.value| + 2 <= MAX_LENGTH
    ensures AttrAt(Appended(d, a), Length(d)) == a <==> Fits(a)
  {
    hide WithLength;
    var at, r := Length(d), Appended(d, a);
    assert r[at..at + |a.value| + 2] == AttrBytes(a);
    assert r[at] == AttrBytes(a)[0] && r[at + 1] == AttrBytes(a)[1];
    assert r[at + 2..at + |a.value| + 2] == r[at..at + |a.value| + 2][2..] == a.value;
    if Fits(a) { AttrReadsBack(r, at, a); }
  }

  // ---- the hidden password ------------------------------------------------------------

  function Xor(p: seq<Byte>, b: seq<Byte>): (c: seq<Byte>)
    requires |p| == 16 && |b| == 16
    ensures |c| == 16
  {
    seq(16, i requires 0 <= i < 16 => XorByte(p[i], b[i]))
  }

  lemma XorTwice(p: seq<Byte>, b: seq<Byte>)
    requires |p| == 16 && |b| == 16
    ensures Xor(Xor(p, b), b) == p
  {
    hide XorByte;
    forall i | 0 <= i < 16
      ensures Xor(Xor(p, b), b)[i] == p[i]
    {
      XorByteTwice(p[i], b[i]);
    }
  }

  /** How many blocks of 16 octets it takes to hold some octets. */
  function Blocks(n: nat): (blocks: nat)
    ensures n <= 16 * blocks < n + 16
  {
    (n + 15) / 16
  }

  /** Section 5.2 of RFC 2865: each 16 octets are combined with the digest of the secret
      and the cipher text before them, the first with the request authenticator. */
  function HideBlocks(hash: Hash, secret: seq<Byte>, vector: seq<Byte>, p: seq<Byte>, blocks: nat): (c: seq<Byte>)
    requires |p| == 16 * blocks
    ensures |c| == |p|
    decreases blocks
  {
    hide Xor;
    if blocks == 0 then []
    else
      var c := Xor(p[..16], hash(secret + vector));
      c + HideBlocks(hash, secret, c, p[16..], blocks - 1)
  }

  function ShowBlocks(hash: Hash, secret: seq<Byte>, vector: seq<Byte>, c: seq<Byte>, blocks: nat): (p: seq<Byte>)
    requires |c| == 16 * blocks
    ensures |p| == |c|
    decreases blocks
  {
    hide Xor;
    if blocks == 0 then []
    else Xor(c[..16], hash(secret + vector)) + ShowBlocks(hash, secret, c[..16], c[16..], blocks - 1)
  }

  lemma {:induction false} ShowHidden(hash: Hash, secret: seq<Byte>, vector: seq<Byte>, p: seq<Byte>, blocks: nat)
    requires |p| == 16 * blocks
    ensures ShowBlocks(hash, secret, vector, HideBlocks(hash, secret, vector, p, blocks), blocks) == p
    decreases blocks
  {
    hide Xor;
    if blocks > 0 {
      var b := hash(secret + vector);
      var c, rest := Xor(p[..16], b), p[16..];
      var hidden := HideBlocks(hash, secret, vector, p, blocks);
      assert hidden[..16] == c && hidden[16..] == HideBlocks(hash, secret, c, rest, blocks - 1);
      ShowHidden(hash, secret, c, rest, blocks - 1);
      XorTwice(p[..16], b);
      assert p[..16] + rest == p;
    }
  }

  /** A password filled up with null octets to the next multiple of 16. */
  function Padded(password: seq<Byte>): (p: seq<Byte>)
    ensures |p| == 16 * Blocks(|password|) && password <= p
  {
    password + Zeros(16 * Blocks(|password|) - |password|)
  }

  function Hidden(hash: Hash, secret: seq<Byte>, vector: seq<Byte>, password: seq<Byte>): (c: seq<Byte>)
    ensures |c| == 16 * Blocks(|password|)
  {
    HideBlocks(hash, secret, vector, Padded(password), Blocks(|password|))
  }

  lemma HiddenIs(hash: Hash, secret: seq<Byte>, vector: seq<Byte>, password: seq<Byte>)
    ensures Hidden(hash, secret, vector, password) ==
            HideBlocks(hash, secret, vector, Padded(password), Blocks(|password|))
  {
    hide HideBlocks, Padded, Blocks;
  }

  /** Chunk by chunk, the password filled up as it is taken. */
  lemma PaddedChunk(p: seq<Byte>, k: nat, i: nat)
    requires k < |p| && k == 16 * i
    ensures k + 16 <= |Padded(p)|
    ensures Padded(p)[k..][..16] == if |p| - k >= 16 then p[k..k + 16] else p[k..] + Zeros(16 - (|p| - k))
    ensures Padded(p)[k..][16..] == Padded(p)[k + 16..]
  {
  }

  lemma HideStep(hash: Hash, secret: seq<Byte>, vector: seq<Byte>, p: seq<Byte>, blocks: nat)
    requires |p| == 16 * blocks && blocks > 0
    ensures var c := Xor(p[..16], hash(secret + vector));
            HideBlocks(hash, secret, vector, p, blocks) == c + HideBlocks(hash, secret, c, p[16..], blocks - 1)
  {
    hide Xor;
  }

  /** The next chunk of a password, combined, is the next block of what hides it. */
  lemma HideRound(hash: Hash, secret: seq<Byte>, before: seq<Byte>, c: seq<Byte>, p: seq<Byte>, i: nat)
    requires 16 * i < |p| && |before| == 16
    requires var k := 16 * i;
             c == Xor(if |p| - k >= 16 then p[k..k + 16] else p[k..] + Zeros(16 - (|p| - k)), hash(secret + before))
    ensures i < Blocks(|p|)
    ensures var rest := Padded(p)[16 * i..];
            HideBlocks(hash, secret, before, rest, Blocks(|p|) - i) ==
            c + HideBlocks(hash, secret, c, Padded(p)[16 * i + 16..], Blocks(|p|) - i - 1)
  {
    hide HideBlocks, Xor, Blocks, Padded;
    PaddedChunk(p, 16 * i, i);
    HideStep(hash, secret, before, Padded(p)[16 * i..], Blocks(|p|) - i);
  }

  lemma {:induction false} HideNothing(hash: Hash, secret: seq<Byte>, vector: seq<Byte>, p: seq<Byte>)
    requires p == []
    ensures HideBlocks(hash, secret, vector, p, 0) == []
  {
  }

  lemma ShowStep(hash: Hash, secret: seq<Byte>, vector: seq<Byte>, c: seq<Byte>, blocks: nat)
    requires |c| == 16 * blocks && blocks > 0
    ensures ShowBlocks(hash, secret, vector, c, blocks) ==
            Xor(c[..16], hash(secret + vector)) + ShowBlocks(hash, secret, c[..16], c[16..], blocks - 1)
  {
    hide Xor;
  }

  lemma {:induction false} ShowNothing(hash: Hash, secret: seq<Byte>, vector: seq<Byte>, c: seq<Byte>)
    requires c == []
    ensures ShowBlocks(hash, secret, vector, c, 0) == []
  {
  }

  function TrimNuls(s: seq<Byte>): (t: seq<Byte>)
    ensures t <= s && (t == [] || t[|t| - 1] != 0)
  {
    if s == [] || s[|s| - 1] != 0 then s else TrimNuls(s[..|s| - 1])
  }

  lemma {:induction false} TrimPadded(s: seq<Byte>, n: nat)
    ensures TrimNuls(s + Zeros(n)) == TrimNuls(s)
  {
    if n == 0 {
      assert s + Zeros(0) == s;
    } else {
      var long := s + Zeros(n);
      assert long[..|long| - 1] == s + Zeros(n - 1);
      TrimPadded(s, n - 1);
    }
  }

  /** What comes out is the password without its trailing nulls. */
  lemma {:induction false} PasswordRoundTrip(hash: Hash, secret: seq<Byte>, vector: seq<Byte>, password: seq<Byte>)
    ensures TrimNuls(ShowBlocks(hash, secret, vector, Hidden(hash, secret, vector, password), Blocks(|password|))) ==
            TrimNuls(password)
    ensures TrimNuls(password) == password <==> password == [] || password[|password| - 1] != 0
  {
    hide HideBlocks, ShowBlocks;
    ShowHidden(hash, secret, vector, Padded(password), Blocks(|password|));
    TrimPadded(password, 16 * Blocks(|password|) - |password|);
  }

  /** The blocks reserved for a password: at least one, even for the empty password. */
  function Room(password: seq<Byte>): (blocks: nat)
    ensures |password| <= 16 * blocks < |password| + 17
  {
    if password == [] then 1 else Blocks(|password|)
  }

  /** The bytes after a password was set at `at`, and the password read from there. The empty
      password writes no block: what stands in the reserved one stays. */
  function PasswordSet(hash: Hash, d: seq<Byte>, at: nat, secret: seq<Byte>, password: seq<Byte>): (r: seq<Byte>)
    requires |d| == RAW_LENGTH && |password| <= PASSWORD_MAX_LENGTH && at + PASSWORD_MAX_LENGTH + 2 <= |d|
    ensures |r| == |d|
  {
    ValueSet(d, at, if password == [] then d[at + 2..at + 18] else Hidden(hash, secret, Authenticator(d), password))
  }

  /** The password of `n` octets whose blocks of cipher text start at `from`. */
  function PasswordOf(hash: Hash, d: seq<Byte>, from: nat, n: nat, blocks: nat, secret: seq<Byte>): seq<Byte>
    requires |d| >= HEADER_LENGTH && from + 16 * blocks <= |d| && n <= 16 * blocks
  {
    TrimNuls(ShowBlocks(hash, secret, Authenticator(d), d[from..from + 16 * blocks], blocks)[..n])
  }

  /** The password of the attribute at `at`; nothing when its blocks are not within the bytes. */
  function PasswordAt(hash: Hash, d: seq<Byte>, at: nat, secret: seq<Byte>): seq<Byte>
    requires |d| >= HEADER_LENGTH && at + 1 < |d|
  {
    if !PasswordWithin(d, at) then [] else PasswordOf(hash, d, at + 2, d[at + 1] - 2, Blocks(d[at + 1] - 2), secret)
  }

  /** The attribute at `at` has a length of at least two and its blocks lie within the bytes. */
  predicate PasswordWithin(d: seq<Byte>, at: nat)
    requires at + 1 < |d|
  {
    2 <= d[at + 1] && at + 2 + 16 * Blocks(d[at + 1] - 2) <= |d|
  }

  /** A password set in a packet and read from it with the same secret comes out without
      its trailing nulls, the empty one excepted. */
  lemma {:induction false} SetPasswordReadsBack(hash: Hash, d: seq<Byte>, at: nat, secret: seq<Byte>,
                                                password: seq<Byte>)
    requires |d| == RAW_LENGTH && 0 < |password| <= PASSWORD_MAX_LENGTH
    requires HEADER_LENGTH <= at && at + PASSWORD_MAX_LENGTH + 18 <= |d|
    ensures var r := PasswordSet(hash, d, at, secret, password);
            r[at + 1] == 16 * Blocks(|password|) + 2 && PasswordAt(hash, r, at, secret) == TrimNuls(password)
  {
    hide Hidden, TrimNuls, ShowBlocks, ValueSet, Blocks, Authenticator, PasswordOf, PasswordAt, PasswordSet;
    var vector := Authenticator(d);
    var hidden, blocks := Hidden(hash, secret, vector, password), Blocks(|password|);
    ValueSetParts(d, at, hidden);
    WholeBlocks(blocks);
    var r := PasswordSet(hash, d, at, secret, password);
    assert r == ValueSet(d, at, hidden) by { PasswordSetIs(hash, d, at, secret, password); }
    PasswordAtIs(hash, r, at, blocks, secret);
    HiddenReadsBack(hash, r, at + 2, blocks, secret, password);
  }

  /** The empty password is read back as empty exactly when the octets that happened to stand in
      the packet are the digest of the secret and the authenticator. */
  lemma {:induction false} EmptyPasswordReadsBackIff(hash: Hash, d: seq<Byte>, at: nat, secret: seq<Byte>)
    requires |d| == RAW_LENGTH && HEADER_LENGTH <= at && at + PASSWORD_MAX_LENGTH + 2 <= |d|
    ensures var r := PasswordSet(hash, d, at, secret, []);
            r[at + 1] == 18 && r[at + 2..at + 18] == d[at + 2..at + 18] &&
            (PasswordAt(hash, r, at, secret) == [] <==> d[at + 2..at + 18] == hash(secret + Authenticator(d)))
  {
    hide TrimNuls, ShowBlocks, ValueSet, Blocks, Authenticator, PasswordOf, PasswordAt, Xor;
    var r := PasswordSet(hash, d, at, secret, []);
    var stale, digest := d[at + 2..at + 18], hash(secret + Authenticator(d));
    ValueSetParts(d, at, stale);
    WholeBlocks(1);
    PasswordAtIs(hash, r, at, 1, secret);
    PasswordOfIs(hash, r, at + 2, 1, secret);
    ShowStep(hash, secret, Authenticator(r), stale, 1);
    ShowNothing(hash, secret, stale, stale[16..]);
    assert stale[..16] == stale;
    var shown := ShowBlocks(hash, secret, Authenticator(r), stale, 1);
    assert shown == Xor(stale, digest) && shown[..16] == shown;
    AllNulsTrimmed(shown);
    XorSelf(stale, digest);
  }

  lemma {:induction false} AllNulsTrimmed(s: seq<Byte>)
    ensures TrimNuls(s) == [] <==> s == Zeros(|s|)
  {
    if s != [] {
      AllNulsTrimmed(s[..|s| - 1]);
      if s == Zeros(|s|) {
        assert s[..|s| - 1] == Zeros(|s| - 1);
      }
    }
  }

  /** Combined to nothing: the same. */
  lemma XorSelf(p: seq<Byte>, b: seq<Byte>)
    requires |p| == 16 && |b| == 16
    ensures Xor(p, b) == Zeros(16) <==> p == b
  {
    hide XorByte;
    forall i | 0 <= i < 16
      ensures XorByte(p[i], b[i]) == 0 <==> p[i] == b[i]
    {
      XorByteZero(p[i], b[i]);
    }
    if Xor(p, b) == Zeros(16) {
      forall i | 0 <= i < 16
        ensures p[i] == b[i]
      {
        assert Xor(p, b)[i] == Zeros(16)[i] == 0;
      }
    }
  }

  lemma {:induction false} HiddenReadsBack(hash: Hash, r: seq<Byte>, from: nat, blocks: nat, secret: seq<Byte>,
                                           password: seq<Byte>)
    requires |r| >= HEADER_LENGTH && from + 16 * blocks <= |r| && blocks == Blocks(|password|)
    requires r[from..from + 16 * blocks] == Hidden(hash, secret, Authenticator(r), password)
    ensures PasswordOf(hash, r, from, 16 * blocks, blocks, secret) == TrimNuls(password)
  {
    hide *;
    PasswordRoundTrip(hash, secret, Authenticator(r), password);
    var shown := ShowBlocks(hash, secret, Authenticator(r), r[from..from + 16 * blocks], blocks);
    assert shown[..16 * blocks] == shown;
    PasswordOfIs(hash, r, from, blocks, secret);
  }

  lemma PasswordAtShows(hash: Hash, d: seq<Byte>, at: nat, secret: seq<Byte>)
    requires |d| >= HEADER_LENGTH && at + 1 < |d| && PasswordWithin(d, at)
    ensures var n := d[at + 1] - 2;
            PasswordAt(hash, d, at, secret) ==
            TrimNuls(ShowBlocks(hash, secret, Authenticator(d), d[at + 2..at + 2 + 16 * Blocks(n)], Blocks(n))[..n])
  {
    hide ShowBlocks, TrimNuls, Authenticator, Blocks;
  }

  lemma PasswordSetIs(hash: Hash, d: seq<Byte>, at: nat, secret: seq<Byte>, password: seq<Byte>)
    requires |d| == RAW_LENGTH && 0 < |password| <= PASSWORD_MAX_LENGTH && at + PASSWORD_MAX_LENGTH + 2 <= |d|
    ensures PasswordSet(hash, d, at, secret, password) ==
            ValueSet(d, at, Hidden(hash, secret, Authenticator(d), password))
  {
    hide ValueSet, Hidden, Authenticator;
  }

  /** The length octet and then the cipher text, if there is any, make the bytes above. */
  lemma PasswordWritten(hash: Hash, d: seq<Byte>, at: nat, secret: seq<Byte>, password: seq<Byte>)
    requires |d| == RAW_LENGTH && |password| <= PASSWORD_MAX_LENGTH
    requires HEADER_LENGTH <= at && at + PASSWORD_MAX_LENGTH + 18 <= |d|
    ensures var hidden := Hidden(hash, secret, Authenticator(d), password);
            var n := 16 * Room(password) + 2;
            Put(Put(WithLength(d, Length(d) + n), at + 1, [Octet(n)]), at + 2, hidden) ==
            PasswordSet(hash, d, at, secret, password)
  {
    hide Hidden, Length, Short, Authenticator;
    var n := 16 * Room(password) + 2;
    var hidden := Hidden(hash, secret, Authenticator(d), password);
    var grown := WithLength(d, Length(d) + n);
    if password == [] {
      assert grown[at + 2..at + 18] == d[at + 2..at + 18];
      PutNothing(Put(grown, at + 1, [Octet(n)]), at + 2);
      assert hidden == [];
      PutTogether(grown, at + 1, [Octet(n)], d[at + 2..at + 18]);
      PutSame(Put(grown, at + 1, [Octet(n)]), at + 2, d[at + 2..at + 18]);
    } else {
      PutTogether(grown, at + 1, [Octet(n)], hidden);
    }
  }

  lemma PutSame(d: seq<Byte>, at: nat, bytes: seq<Byte>)
    requires at + |bytes| <= |d| && d[at..at + |bytes|] == bytes
    ensures Put(d, at, bytes) == d
  {
  }

  lemma PasswordAtIs(hash: Hash, r: seq<Byte>, at: nat, blocks: nat, secret: seq<Byte>)
    requires |r| >= HEADER_LENGTH && at + 1 < |r| && r[at + 1] == 16 * blocks + 2 && at + 2 + 16 * blocks <= |r|
    requires Blocks(16 * blocks) == blocks
    ensures PasswordAt(hash, r, at, secret) == PasswordOf(hash, r, at + 2, 16 * blocks, blocks, secret)
  {
    hide PasswordOf;
  }

  lemma {:induction false} PasswordOfIs(hash: Hash, r: seq<Byte>, from: nat, blocks: nat, secret: seq<Byte>)
    requires |r| >= HEADER_LENGTH && from + 16 * blocks <= |r|
    ensures PasswordOf(hash, r, from, 16 * blocks, blocks, secret) ==
            TrimNuls(ShowBlocks(hash, secret, Authenticator(r), r[from..from + 16 * blocks], blocks)[..16 * blocks])
  {
    hide ShowBlocks, TrimNuls, Authenticator;
  }

  lemma WholeBlocks(blocks: nat)
    ensures Blocks(16 * blocks) == blocks
  {
  }

  lemma ValueSetParts(d: seq<Byte>, at: nat, value: seq<Byte>)
    requires |d| == RAW_LENGTH && HEADER_LENGTH <= at && at + |value| + 2 <= |d| && |value| <= 253
    ensures var r := ValueSet(d, at, value);
            r[at + 1] == |value| + 2 && r[at + 2..at + 2 + |value|] == value && Authenticator(r) == Authenticator(d)
  {
    hide Length, Short, Authenticator;
    WithLengthKeeps(d, Length(d) + |value| + 2);
    PutKeepsAuthenticator(WithLength(d, Length(d) + |value| + 2), at + 1, [Octet(|value| + 2)] + value);
  }

  // ---- the response authenticator ---------------------------------------------------------

  /** Section 3 of RFC 2865: the digest of the packet up to its length and the secret. */
  function Signature(hash: Hash, d: seq<Byte>, secret: seq<Byte>): (s: seq<Byte>)
    requires |d| == RAW_LENGTH && Length(d) <= MAX_LENGTH
    ensures |s| == 16
  {
    hash(d[..Length(d)] + secret)
  }

  /** The packet after signing: the secret stands behind it, the digest in its authenticator. */
  function Signed(hash: Hash, d: seq<Byte>, secret: seq<Byte>): (r: seq<Byte>)
    requires |d| == RAW_LENGTH && HEADER_LENGTH <= Length(d) <= MAX_LENGTH && |secret| <= SECRET_MAX_LENGTH
    ensures |r| == |d|
  {
    Put(Put(d, Length(d), secret), 4, Signature(hash, d, secret))
  }

  /** A response answers a request: its identifier is the request's and its authenticator is
      the digest of the response that carries the request's authenticator. */
  ghost predicate Accepts(hash: Hash, request: seq<Byte>, response: seq<Byte>, secret: seq<Byte>)
    requires |request| >= HEADER_LENGTH && |response| == RAW_LENGTH && Length(response) <= MAX_LENGTH
  {
    Authenticator(response) == Signature(hash, WithAuthenticator(response, Authenticator(request)), secret) &&
    response[1] == request[1]
  }

  function WithAuthenticator(d: seq<Byte>, a: seq<Byte>): (r: seq<Byte>)
    requires |d| >= HEADER_LENGTH && |a| == 16
    ensures |r| == |d| && Length(r) == Length(d)
  {
    Put(d, 4, a)
  }

  /** Overwriting the authenticator, appending behind the packet and putting the
      authenticator back leaves the packet as it was. */
  lemma Restored(d: seq<Byte>, a: seq<Byte>, secret: seq<Byte>)
    requires |d| == RAW_LENGTH && HEADER_LENGTH <= Length(d) <= MAX_LENGTH && |secret| <= SECRET_MAX_LENGTH && |a| == 16
    ensures var swapped := WithAuthenticator(d, a);
            var longer := Put(swapped, Length(d), secret);
            longer[..Length(d) + |secret|] == swapped[..Length(d)] + secret &&
            Put(longer, 4, d[4..20])[..Length(d)] == d[..Length(d)] &&
            Length(Put(longer, 4, d[4..20])) == Length(d)
  {
    hide Length;
    SameHeader(d, Put(Put(WithAuthenticator(d, a), Length(d), secret), 4, d[4..20]));
  }

  lemma SignedParts(hash: Hash, d: seq<Byte>, secret: seq<Byte>)
    requires |d| == RAW_LENGTH && HEADER_LENGTH <= Length(d) <= MAX_LENGTH && |secret| <= SECRET_MAX_LENGTH
    ensures Length(Signed(hash, d, secret)) == Length(d)
    ensures Authenticator(Signed(hash, d, secret)) == Signature(hash, d, secret)
    ensures forall k :: 0 <= k < Length(d) && !(4 <= k < 20) ==> Signed(hash, d, secret)[k] == d[k]
  {
    hide Length, Signature;
    SameHeader(d, Signed(hash, d, secret));
  }

  /** A response to a request, signed with the secret, is accepted, and it holds the same attributes. */
  lemma SignedIsAccepted(hash: Hash, request: seq<Byte>, response: seq<Byte>, secret: seq<Byte>, attrs: seq<Attr>)
    requires |request| == RAW_LENGTH && |secret| <= SECRET_MAX_LENGTH && Holds(response, attrs)
    requires Authenticator(response) == Authenticator(request) && response[1] == request[1]
    ensures Length(Signed(hash, response, secret)) == Length(response)
    ensures Accepts(hash, request, Signed(hash, response, secret), secret)
    ensures Holds(Signed(hash, response, secret), attrs)
  {
    hide Length, Signature, AllBytes;
    var s := Signed(hash, response, secret);
    var n := Length(response);
    SignedParts(hash, response, secret);
    SamePrefix(hash, WithAuthenticator(s, Authenticator(request)), response, secret);
    assert s[HEADER_LENGTH..n] == response[HEADER_LENGTH..n];
  }

  lemma SamePrefix(hash: Hash, d: seq<Byte>, e: seq<Byte>, secret: seq<Byte>)
    requires |d| == |e| == RAW_LENGTH && HEADER_LENGTH <= Length(e) <= MAX_LENGTH && Length(d) == Length(e)
    requires Authenticator(d) == Authenticator(e)
    requires forall k :: 0 <= k < Length(e) && !(4 <= k < 20) ==> d[k] == e[k]
    ensures d[..Length(d)] == e[..Length(e)] && Signature(hash, d, secret) == Signature(hash, e, secret)
  {
    hide Length;
    assert forall k :: 4 <= k < 20 ==> d[k] == Authenticator(d)[k - 4] && e[k] == Authenticator(e)[k - 4];
  }

  /** Verification accepts exactly what signing produces. */
  lemma AcceptedIffSigned(hash: Hash, request: seq<Byte>, response: seq<Byte>, secret: seq<Byte>)
    requires |request| == RAW_LENGTH && |secret| <= SECRET_MAX_LENGTH
    requires |response| == RAW_LENGTH && HEADER_LENGTH <= Length(response) <= MAX_LENGTH
    ensures var signed := Signed(hash, WithAuthenticator(response, Authenticator(request)), secret);
            var n := Length(response);
            Accepts(hash, request, response, secret) <==> response[1] == request[1] && response[..n] == signed[..n]
  {
    hide Length, Signature;
    var d := WithAuthenticator(response, Authenticator(request));
    var signed, n := Signed(hash, d, secret), Length(response);
    SignedParts(hash, d, secret);
    if Authenticator(response) == Signature(hash, d, secret) {
      SamePrefix(hash, response, signed, secret);
    }
    if response[..n] == signed[..n] {
      assert forall k :: 4 <= k < 20 ==> response[k] == response[..n][k] == signed[..n][k] == signed[k];
    }
  }
}
