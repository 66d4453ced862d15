/** The packet and the attribute cursor of the RADIUS library, writing in place into a
    fixed buffer, proved against what the bytes mean. */
module RadiusPacket {
  import opened Models
  import Md5
  import opened Octets
  import opened RadiusWire

  /** The hash of the library. */
  const MD5: Hash := (m: seq<Byte>) => Md5.Digest(m)

  class RadiusPacket {
    const data: array<Byte>
    var secret: Option<seq<Byte>>
    var password: seq<Byte>
    var passwordOffset: nat
    var oldPassword: seq<Byte>

    ghost predicate Valid()
      reads this, data
    {
      data.Length == RAW_LENGTH && HEADER_LENGTH <= Length(data[..]) <= MAX_LENGTH &&
      (secret.Some? ==> 0 < |secret.value| <= SECRET_MAX_LENGTH) &&
      |password| <= PASSWORD_MAX_LENGTH && |oldPassword| <= PASSWORD_MAX_LENGTH
    }

    /** A new packet: its header alone, the identifier zero, the authenticator random. */
    constructor (code: Byte, random: seq<Byte>)
      requires |random| == 16
      ensures Valid() && fresh(data) && secret.None? && password == [] && oldPassword == []
      ensures data[0] == code && data[1] == 0 && Authenticator(data[..]) == random && Holds(data[..], [])
    {
      data := new Byte[RAW_LENGTH];
      secret, password, passwordOffset, oldPassword := None, [], 0, [];
      new;
      Init(code);
      Write(4, random);
    }

    /** A response: the request's identifier, authenticator and secret. */
    constructor Response(code: Byte, request: RadiusPacket)
      requires request.Valid()
      ensures Valid() && fresh(data) && secret == request.secret && password == [] && oldPassword == []
      ensures data[0] == code && data[1] == request.data[1]
      ensures Authenticator(data[..]) == Authenticator(request.data[..]) && Holds(data[..], [])
    {
      data := new Byte[RAW_LENGTH];
      secret, password, passwordOffset, oldPassword := None, [], 0, [];
      new;
      Init(code);
      data[1] := request.data[1];
      secret := request.secret;
      Write(4, request.data[4..20]);
    }

    method Write(at: nat, bytes: seq<Byte>)
      requires at + |bytes| <= data.Length
      modifies data
      ensures data[..] == Put(old(data[..]), at, bytes)
    {
      Memcpy(data, at, bytes);
    }

    method Init(code: Byte)
      requires data.Length == RAW_LENGTH
      modifies data
      ensures data[0] == code && data[1] == 0 && Length(data[..]) == HEADER_LENGTH
    {
      data[0] := code;
      SetLength(HEADER_LENGTH);
      data[1] := 0;
    }

    method GetLength() returns (n: nat)
      requires data.Length == RAW_LENGTH
      ensures n == Length(data[..])
    {
      n := (data[2] as int) * 0x100 + data[3];
    }

    method SetLength(n: nat)
      requires data.Length == RAW_LENGTH && n < 0x1_0000
      modifies data
      ensures data[..] == WithLength(old(data[..]), n) && Length(data[..]) == n
    {
      WithLengthIs(data[..], n);
      Write(2, Short(n));
    }

    /** Grows the length field when the packet stays within 4096 octets. */
    method AdjustLength(n: nat) returns (ok: bool)
      requires Valid() && n < 0x1_0000
      modifies data
      ensures ok <==> old(Length(data[..])) + n <= MAX_LENGTH
      ensures data[..] == if ok then WithLength(old(data[..]), old(Length(data[..])) + n) else old(data[..])
      ensures Valid()
    {
      var length := GetLength();
      ok := length + n <= MAX_LENGTH;
      if ok {
        SetLength(length + n);
      }
    }

    // ---- the walk -----------------------------------------------------------------

    method GetFirstAttribute(attr: RadiusAttribute) returns (ok: bool)
      requires data.Length == RAW_LENGTH && Length(data[..]) < RAW_LENGTH
      modifies attr
      ensures attr.packet == this && ok == (Visits(data[..]) != [])
      ensures attr.offset == if ok then Visits(data[..])[0] else 0
    {
      var length := GetLength();
      ok := length != HEADER_LENGTH;
      attr.Init(this, if ok then HEADER_LENGTH else 0);
    }

    method GetNextAttribute(attr: RadiusAttribute, ghost i: nat) returns (ok: bool)
      requires data.Length == RAW_LENGTH && Length(data[..]) < RAW_LENGTH && attr.packet == this
      requires i < |Visits(data[..])| && attr.offset == Visits(data[..])[i]
      modifies attr
      ensures attr.packet == this && ok == (i + 1 < |Visits(data[..])|)
      ensures attr.offset == if ok then Visits(data[..])[i + 1] else 0
    {
      VisitAfter(data[..], i);
      var step := attr.GetLength();
      var length := GetLength();
      ok := step != 0 && attr.offset + step < length;
      attr.Init(this, if ok then attr.offset + step else 0);
    }

    /** The first attribute of the type that the walk meets; an invalid one when it meets none. */
    method FindAttribute(kind: Byte, attr: RadiusAttribute) returns (found: bool)
      requires data.Length == RAW_LENGTH && Length(data[..]) < RAW_LENGTH
      modifies attr
      ensures attr.packet == this && attr.offset == FirstOf(data[..], Visits(data[..]), kind)
      ensures found == (attr.offset != 0)
    {
      hide Visits, Length;
      ghost var visits := Visits(data[..]);
      ghost var i := 0;
      var more := GetFirstAttribute(attr);
      assert visits[0..] == visits;
      while attr.IsValid()
        invariant attr.packet == this && i <= |visits|
        invariant attr.offset == if i < |visits| then visits[i] else 0
        invariant FirstOf(data[..], visits[i..], kind) == FirstOf(data[..], visits, kind)
        decreases |visits| - i
      {
        VisitAfter(data[..], i);
        assert visits[i..][1..] == visits[i + 1..];
        var t := attr.GetType();
        if t == kind {
          return true;
        }
        more := GetNextAttribute(attr, i);
        i := i + 1;
      }
      if i < |visits| { VisitAfter(data[..], i); }
      found := false;
    }

    /** The walk of the packet dump: every attribute in turn. */
    method ReadAll(attr: RadiusAttribute) returns (attrs: seq<Attr>)
      requires data.Length == RAW_LENGTH && Length(data[..]) < RAW_LENGTH
      modifies attr
      ensures attrs == AttrsAt(data[..], Visits(data[..]))
    {
      hide Visits, Length, AttrAt;
      ghost var visits := Visits(data[..]);
      ghost var i := 0;
      attrs := [];
      var more := GetFirstAttribute(attr);
      assert visits[0..] == visits;
      while attr.IsValid()
        invariant attr.packet == this && i <= |visits|
        invariant attr.offset == if i < |visits| then visits[i] else 0
        invariant attrs + AttrsAt(data[..], visits[i..]) == AttrsAt(data[..], visits)
        decreases |visits| - i
      {
        VisitAfter(data[..], i);
        assert visits[i..][1..] == visits[i + 1..];
        attrs := attrs + [AttrAt(data[..], attr.offset)];
        more := GetNextAttribute(attr, i);
        i := i + 1;
      }
      if i < |visits| { VisitAfter(data[..], i); }
    }

    // ---- building -----------------------------------------------------------------

    /** The free space of the packet becomes an attribute of the type; nothing counts
        towards the packet until a value is set. */
    method AddAttribute(kind: Byte, attr: RadiusAttribute) returns (ok: bool)
      requires Valid()
      modifies attr, data
      ensures Valid() && attr.packet == this && Length(data[..]) == old(Length(data[..]))
      ensures ok <==> old(Length(data[..])) < MAX_LENGTH - 1
      ensures attr.offset == if ok then old(Length(data[..])) else 0
      ensures data[..] == if ok then Put(old(data[..]), old(Length(data[..])), [kind]) else old(data[..])
    {
      var length := GetLength();
      if length >= MAX_LENGTH - 1 {
        attr.Init(this, 0);
        return false;
      }
      attr.Init(this, length);
      SameHeader(data[..], Put(data[..], length, [kind]));
      Write(length, [kind]);
      ok := true;
    }

    // ---- signing --------------------------------------------------------------------

    /** The secret is appended behind the packet and the digest becomes the authenticator. */
    method ResponseAuthenticator(given: Option<seq<Byte>>)
      requires Valid() && (given.None? ==> secret.Some?)
      requires given.Some? ==> |given.value| <= SECRET_MAX_LENGTH
      modifies data
      ensures Valid()
      ensures data[..] == Signed(MD5, old(data[..]), if given.Some? then given.value else secret.value)
    {
      hide Md5.Digest, Length;
      var key := if given.Some? then given.value else secret.value;
      SignedParts(MD5, data[..], key);
      ghost var was := data[..];
      var length := GetLength();
      SameHeader(was, Put(was, length, key));
      Write(length, key);
      assert data[..length + |key|] == was[..length] + key;
      var digest := Md5.Calc(data[..length + |key|]);
      Write(4, digest);
    }

    /** Accepts the response when it is what a holder of the key would have signed for this
        request; the response is the same up to its length afterwards. */
    method VerifyResponse(response: RadiusPacket) returns (accepted: bool)
      requires Valid() && response.Valid() && secret.Some? && response.data != data
      modifies response.data
      ensures response.Valid() && Length(response.data[..]) == old(Length(response.data[..]))
      ensures response.data[..Length(response.data[..])] == old(response.data[..Length(response.data[..])])
      ensures accepted <==> Accepts(MD5, data[..], old(response.data[..]),
                                    if |oldPassword| > 0 then oldPassword else secret.value)
    {
      hide Md5.Digest, Length, Put;
      var key := if |oldPassword| > 0 then oldPassword else secret.value;
      ghost var was := response.data[..];
      Restored(was, data[4..20], key);
      var received := response.data[4..20];
      response.Write(4, data[4..20]);
      var length := response.GetLength();
      response.Write(length, key);
      var digest := Md5.Calc(response.data[..length + |key|]);
      response.Write(4, received);
      assert response.data[1] == was[1] by {
        assert response.data[..][..length][1] == was[..length][1];
      }
      accepted := digest == received && data[1] == response.data[1];
    }
  }

  /** The loop that encodes: chunk by chunk the cipher text is written where the clear text would be. */
  method HideInto(data: array<Byte>, at: nat, key: seq<Byte>, vector: seq<Byte>, p: seq<Byte>)
    requires |vector| == 16 && |key| <= SECRET_MAX_LENGTH && at + 16 * Blocks(|p|) <= data.Length
    modifies data
    ensures data[..] == Put(old(data[..]), at, Hidden(MD5, key, vector, p))
  {
    hide Md5.Digest, Padded, HideBlocks, Xor, Put, Blocks, Hidden;
    var c := vector;
    ghost var was, padded, written, all := data[..], Padded(p), [], Blocks(|p|);
    PutNothing(was, at);
    var k := 0;
    ghost var i := 0;
    while k < |p|
      invariant k == 16 * i && i <= all && |written| == k && |c| == 16
      invariant data[..] == Put(was, at, written)
      invariant written + HideBlocks(MD5, key, c, padded[k..], all - i) == HideBlocks(MD5, key, vector, padded, all)
      decreases all - i
    {
      ghost var before := c;
      c := HideChunk(p, k, key, c);
      HideRound(MD5, key, before, c, p, i);
      assert written + (c + HideBlocks(MD5, key, c, padded[k + 16..], all - i - 1)) ==
             written + c + HideBlocks(MD5, key, c, padded[k + 16..], all - i - 1);
      PutTogether(was, at, written, c);
      Memcpy(data, at + k, c);
      written := written + c;
      k := k + 16;
      i := i + 1;
    }
    HideNothing(MD5, key, c, padded[k..]);
    HiddenIs(MD5, key, vector, p);
    assert written + [] == written;
  }

  /** The next block of cipher text: a chunk of the password, filled up with nulls, combined
      with the digest of the secret and the block before. */
  method HideChunk(p: seq<Byte>, k: nat, key: seq<Byte>, before: seq<Byte>) returns (c: seq<Byte>)
    requires k < |p| && |key| <= SECRET_MAX_LENGTH && |before| == 16
    ensures |c| == 16
    ensures c == Xor(if |p| - k >= 16 then p[k..k + 16] else p[k..] + Zeros(16 - (|p| - k)), MD5(key + before))
  {
    hide Md5.Digest, Xor;
    var chunk := if |p| - k >= 16 then p[k..k + 16] else p[k..] + Zeros(16 - (|p| - k));
    var b := Md5.Calc(key + before);
    c := Xor(chunk, b);
  }

  /** The loop that decodes block by block. */
  method Decode(all: seq<Byte>, key: seq<Byte>, vector: seq<Byte>, n: nat) returns (plain: seq<Byte>)
    requires |all| == 16 * Blocks(n) && |vector| == 16 && |key| <= SECRET_MAX_LENGTH
    ensures plain == ShowBlocks(MD5, key, vector, all, Blocks(n))
  {
    hide Md5.Digest, ShowBlocks, Xor, Blocks;
    var c := vector;
    plain := [];
    ghost var blocks := Blocks(n);
    var k := 0;
    ghost var i := 0;
    while k < n
      invariant k == 16 * i && i <= blocks && |c| == 16
      invariant plain + ShowBlocks(MD5, key, c, all[k..], blocks - i) == ShowBlocks(MD5, key, vector, all, blocks)
      decreases blocks - i
    {
      var b := Md5.Calc(key + c);
      ShowStep(MD5, key, c, all[k..], blocks - i);
      c := all[k..k + 16];
      assert all[k..][..16] == c && all[k..][16..] == all[k + 16..];
      plain := plain + Xor(c, b);
      k := k + 16;
      i := i + 1;
    }
    ShowNothing(MD5, key, c, all[k..]);
  }

  /** A position inside a packet; positions inside the header mean no attribute. */
  class RadiusAttribute {
    var packet: RadiusPacket?
    var offset: nat

    method Init(p: RadiusPacket, at: nat)
      modifies this
      ensures packet == p && offset == at
    {
      packet, offset := p, at;
    }

    predicate IsValid()
      reads this
    {
      offset >= HEADER_LENGTH
    }

    method GetType() returns (t: Byte)
      requires packet != null && offset < packet.data.Length
      ensures t == if IsValid() then packet.data[offset] else 0
    {
      t := if IsValid() then packet.data[offset] else 0;
    }

    method GetLength() returns (n: nat)
      requires packet != null && offset + 1 < packet.data.Length
      ensures n == if IsValid() then packet.data[offset + 1] else 0
    {
      n := if IsValid() then packet.data[offset + 1] else 0;
    }

    ghost predicate Placed()
      reads this, packet, if packet == null then {} else {packet.data}
    {
      packet != null && packet.Valid() && offset <= Length(packet.data[..])
    }

    // ---- values -----------------------------------------------------------------

    /** The packet grows, the length octet is set, the value is copied behind it. */
    method SetString(value: seq<Byte>) returns (ok: bool)
      requires Placed() && |value| + 2 < 0x1_0000
      modifies if packet == null then {} else {packet.data}
      ensures packet.Valid()
      ensures ok <==> IsValid() && old(Length(packet.data[..])) + |value| + 2 <= MAX_LENGTH
      ensures packet.data[..] == if ok then ValueSet(old(packet.data[..]), offset, value) else old(packet.data[..])
    {
      hide Length, WithLength, Put;
      if !IsValid() {
        return false;
      }
      ok := packet.AdjustLength(|value| + 2);
      if !ok {
        return;
      }
      ghost var grown := packet.data[..];
      PutTogether(grown, offset + 1, [Octet(|value| + 2)], value);
      PutBehindHeader(grown, offset + 1, [Octet(|value| + 2)] + value);
      packet.Write(offset + 1, [Octet(|value| + 2)]);
      packet.Write(offset + 2, value);
    }

    /** A number is stored as the four octets of its network byte order. */
    method SetNumber(value: nat) returns (ok: bool)
      requires Placed() && value < 0x1_0000_0000
      modifies if packet == null then {} else {packet.data}
      ensures packet.Valid()
      ensures ok <==> IsValid() && old(Length(packet.data[..])) + 6 <= MAX_LENGTH
      ensures packet.data[..] == if ok then ValueSet(old(packet.data[..]), offset, Long(value))
              else old(packet.data[..])
    {
      ok := SetString(Long(value));
    }

    method GetNumber() returns (value: nat)
      requires Placed()
      ensures value == if IsValid() then LongAt(packet.data[..], offset + 2) else 0
    {
      if !IsValid() {
        return 0;
      }
      var d := packet.data;
      value := (d[offset + 2] as int) * 0x100_0000 + (d[offset + 3] as int) * 0x1_0000 +
               (d[offset + 4] as int) * 0x100 + d[offset + 5];
    }

    /** The value of an attribute whose length octet counts at least its two header octets. */
    method GetString() returns (value: Option<seq<Byte>>)
      requires packet != null && packet.Valid() && offset + 1 < Length(packet.data[..])
      requires IsValid() ==> 2 <= packet.data[offset + 1]
      ensures value == if IsValid() then Some(AttrAt(packet.data[..], offset).value) else None
    {
      if !IsValid() {
        return None;
      }
      var n := GetLength();
      value := Some(packet.data[offset + 2..offset + n]);
      assert packet.data[..][offset + 2..offset + n] == packet.data[offset + 2..offset + n];
    }

    // ---- vendor attributes ---------------------------------------------------------

    method SetVendorId(id: nat) returns (ok: bool)
      requires Placed() && id < 0x1_0000_0000 && offset == Length(packet.data[..])
      modifies if packet == null then {} else {packet.data}
      ensures packet.Valid() && Length(packet.data[..]) == old(Length(packet.data[..]))
      ensures ok <==> old(packet.data[offset]) == VENDOR_SPECIFIC
      ensures packet.data[..] == if ok then Put(old(packet.data[..]), offset + 2, Long(id)) else old(packet.data[..])
    {
      hide Length, Long;
      var t := GetType();
      ok := t == VENDOR_SPECIFIC;
      if ok {
        SameHeader(packet.data[..], Put(packet.data[..], offset + 2, Long(id)));
        packet.Write(offset + 2, Long(id));
      }
    }

    method SetVendorType(kind: Byte) returns (ok: bool)
      requires Placed() && IsValid()
      modifies if packet == null then {} else {packet.data}
      ensures packet.Valid() && Length(packet.data[..]) == old(Length(packet.data[..])) && ok
      ensures packet.data[..] == Put(old(packet.data[..]), offset + 6, [kind])
    {
      hide Length;
      SameHeader(packet.data[..], Put(packet.data[..], offset + 6, [kind]));
      packet.Write(offset + 6, [kind]);
      ok := true;
    }

    /** The vendor's own length octet counts its type, itself and the value. */
    method SetVendorString(value: seq<Byte>) returns (ok: bool)
      requires Placed() && |value| + 8 < 0x1_0000
      modifies if packet == null then {} else {packet.data}
      ensures packet.Valid()
      ensures ok <==> IsValid() && old(Length(packet.data[..])) + |value| + 8 <= MAX_LENGTH
      ensures packet.data[..] == if ok then VendorSet(old(packet.data[..]), offset, value) else old(packet.data[..])
    {
      hide Length, WithLength, Put;
      if !IsValid() {
        return false;
      }
      ok := packet.AdjustLength(|value| + 8);
      if !ok {
        return;
      }
      ghost var grown := packet.data[..];
      packet.Write(offset + 1, [Octet(|value| + 8)]);
      PutBehindHeader(grown, offset + 1, [Octet(|value| + 8)]);
      grown := packet.data[..];
      packet.Write(offset + 7, [Octet(|value| + 2)]);
      PutBehindHeader(grown, offset + 7, [Octet(|value| + 2)]);
      grown := packet.data[..];
      packet.Write(offset + 8, value);
      PutBehindHeader(grown, offset + 8, value);
    }

    // ---- passwords -------------------------------------------------------------------

    /** The value becomes the hidden password; without a secret nothing is written. */
    method EncodeUserPassword(p: seq<Byte>) returns (ok: bool)
      requires packet != null && packet.Valid() && IsValid() && |p| <= PASSWORD_MAX_LENGTH
      requires offset + 16 * Blocks(|p|) + 2 <= RAW_LENGTH
      modifies if packet == null then {} else {packet.data}
      ensures packet.Valid() && ok == packet.secret.Some?
      ensures packet.data[..] ==
                if ok then Put(old(packet.data[..]), offset + 2,
                               Hidden(MD5, packet.secret.value, Authenticator(old(packet.data[..])), p))
                else old(packet.data[..])
    {
      hide Length, Hidden, Put, Authenticator;
      if packet.secret.None? {
        return false;
      }
      ghost var was := packet.data[..];
      AuthenticatorIs(was);
      var vector := packet.data[4..20];
      assert vector == was[4..20];
      HideInto(packet.data, offset + 2, packet.secret.value, vector, p);
      PutBehindHeader(was, offset + 2, Hidden(MD5, packet.secret.value, vector, p));
      ok := true;
    }

    /** The hidden password becomes the attribute's value and the packet keeps a copy of the
        password; without a secret only the copy is kept and the room reserved. */
    method SetUserPassword(p: seq<Byte>) returns (ok: bool)
      requires Placed() && IsValid() && |p| <= PASSWORD_MAX_LENGTH
      modifies packet, if packet == null then {} else {packet.data}
      ensures packet == old(packet) && packet.Valid() && packet.secret == old(packet.secret)
      ensures ok <==> old(Length(packet.data[..])) + 16 * Room(p) + 2 <= MAX_LENGTH
      ensures ok && packet.secret.Some? ==>
                packet.data[..] == PasswordSet(MD5, old(packet.data[..]), offset, packet.secret.value, p)
      ensures ok && packet.secret.None? ==>
                packet.data[..] == Put(WithLength(old(packet.data[..]),
                                                  old(Length(packet.data[..])) + 16 * Room(p) + 2),
                                       offset + 1, [Octet(16 * Room(p) + 2)])
      ensures ok ==> packet.password == p && packet.passwordOffset == offset
      ensures !ok ==> packet.data[..] == old(packet.data[..]) && packet.password == old(packet.password)
    {
      hide Length, WithLength, Hidden, Put, PasswordSet;
      var n := if |p| == 0 then 16 else (|p| + 15) / 16 * 16;
      ghost var was := packet.data[..];
      ok := packet.AdjustLength(n + 2);
      if !ok {
        return;
      }
      ghost var grown := packet.data[..];
      WithLengthKeeps(was, Length(was) + n + 2);
      PutBehindHeader(grown, offset + 1, [Octet(n + 2)]);
      packet.Write(offset + 1, [Octet(n + 2)]);
      if packet.secret.Some? {
        ghost var hidden := Hidden(MD5, packet.secret.value, Authenticator(was), p);
        PutKeepsAuthenticator(grown, offset + 1, [Octet(n + 2)]);
        PasswordWritten(MD5, was, offset, packet.secret.value, p);
        ok := EncodeUserPassword(p);
      }
      packet.password := p;
      packet.passwordOffset := offset;
    }

    /** The password in the clear: decoded with the given secret or the packet's, or the
        packet's own copy when there is neither. */
    method GetUserPassword(given: Option<seq<Byte>>) returns (password: Option<seq<Byte>>)
      requires packet != null && packet.Valid() && IsValid() && offset + 1 < RAW_LENGTH
      requires given.Some? || packet.secret.Some? ==> PasswordWithin(packet.data[..], offset)
      requires given.Some? ==> 0 < |given.value| <= SECRET_MAX_LENGTH
      ensures var key := if given.Some? then given else packet.secret;
              password == if key.Some? then Some(PasswordAt(MD5, packet.data[..], offset, key.value))
                          else if |packet.password| > 0 then Some(packet.password) else None
    {
      hide Md5.Digest, Length, ShowBlocks, TrimNuls, Blocks, PasswordAt, Authenticator;
      var key := if given.Some? then given else packet.secret;
      if key.None? {
        return if |packet.password| > 0 then Some(packet.password) else None;
      }
      var n := GetLength();
      n := n - 2;
      PasswordAtShows(MD5, packet.data[..], offset, key.value);
      AuthenticatorIs(packet.data[..]);
      var plain := Decode(packet.data[offset + 2..offset + 2 + 16 * Blocks(n)], key.value, packet.data[4..20], n);
      var trimmed := Trim(plain[..n]);
      password := Some(trimmed);
    }

    /** The loop that drops trailing nulls. */
    method Trim(s: seq<Byte>) returns (t: seq<Byte>)
      ensures t == TrimNuls(s)
    {
      var n := |s|;
      assert s[..n] == s;
      while n > 0 && s[n - 1] == 0
        invariant 0 <= n <= |s| && TrimNuls(s[..n]) == TrimNuls(s)
      {
        assert s[..n][..n - 1] == s[..n - 1];
        n := n - 1;
      }
      t := s[..n];
    }
  }

  // ---- an attribute from its addition to its value ------------------------------------

  /** addAttribute followed by setString: the packet holds the attribute after the ones it
      held, or it held too much already and holds what it held. */
  method AddString(packet: RadiusPacket, attr: RadiusAttribute, kind: Byte, value: seq<Byte>, ghost attrs: seq<Attr>)
    returns (ok: bool)
    requires packet.Valid() && |value| <= 253 && Holds(packet.data[..], attrs)
    modifies packet.data, attr
    ensures packet.Valid()
    ensures ok <==> old(Length(packet.data[..])) + |value| + 2 <= MAX_LENGTH
    ensures Holds(packet.data[..], if ok then attrs + [Attr(kind, value)] else attrs)
    ensures packet.data[..2] == old(packet.data[..2]) && packet.data[4..20] == old(packet.data[4..20])
  {
    hide Length, Put, Appended, ValueSet;
    ghost var was := packet.data[..];
    ghost var n := Length(was);
    var added := packet.AddAttribute(kind, attr);
    ok := false;
    if added {
      ok := attr.SetString(value);
      if ok {
        AddedAndSet(was, Attr(kind, value));
        AppendedHolds(was, attrs, Attr(kind, value));
        AppendedKeepsHeader(was, Attr(kind, value));
      } else {
        PrefixKept(was, n, [kind], n);
        StillHolds(was, packet.data[..], attrs);
      }
    }
  }

  /** addAttribute followed by setNumber. */
  method AddNumber(packet: RadiusPacket, attr: RadiusAttribute, kind: Byte, value: nat, ghost attrs: seq<Attr>)
    returns (ok: bool)
    requires packet.Valid() && value < 0x1_0000_0000 && Holds(packet.data[..], attrs)
    modifies packet.data, attr
    ensures packet.Valid()
    ensures ok <==> old(Length(packet.data[..])) + 6 <= MAX_LENGTH
    ensures Holds(packet.data[..], if ok then attrs + [Attr(kind, Long(value))] else attrs)
    ensures packet.data[..2] == old(packet.data[..2]) && packet.data[4..20] == old(packet.data[4..20])
  {
    hide Length, Put, Appended, ValueSet, Long;
    ghost var was := packet.data[..];
    ghost var n := Length(was);
    var added := packet.AddAttribute(kind, attr);
    ok := false;
    if added {
      ok := attr.SetNumber(value);
      if ok {
        AddedAndSet(was, Attr(kind, Long(value)));
        AppendedHolds(was, attrs, Attr(kind, Long(value)));
        AppendedKeepsHeader(was, Attr(kind, Long(value)));
      } else {
        PrefixKept(was, n, [kind], n);
        StillHolds(was, packet.data[..], attrs);
      }
    }
  }

  /** A list of attributes added to a new packet, up to the first that finds no room, is what
      the walk over the packet reads: the whole list exactly when it fits into the packet. */
  method WriteAndRead(packet: RadiusPacket, attr: RadiusAttribute, attrs: seq<Attr>)
    returns (kept: nat, read: seq<Attr>)
    requires packet.Valid() && Holds(packet.data[..], []) && AllFit(attrs)
    modifies packet.data, attr
    ensures packet.Valid() && kept <= |attrs| && Holds(packet.data[..], attrs[..kept]) && read == attrs[..kept]
    ensures kept == |attrs| <==> HEADER_LENGTH + |AllBytes(attrs)| <= MAX_LENGTH
    ensures packet.data[..2] == old(packet.data[..2]) && packet.data[4..20] == old(packet.data[4..20])
  {
    hide Length, AllBytes;
    kept := 0;
    var ok := true;
    assert attrs[..0] == [];
    while ok && kept < |attrs|
      invariant packet.Valid() && kept <= |attrs| && Holds(packet.data[..], attrs[..kept])
      invariant !ok ==> kept < |attrs| && HEADER_LENGTH + |AllBytes(attrs)| > MAX_LENGTH
      invariant packet.data[..2] == old(packet.data[..2]) && packet.data[4..20] == old(packet.data[4..20])
      decreases |attrs| - kept, ok
    {
      var a := attrs[kept];
      assert a in attrs && Fits(a);
      assert attrs[..kept + 1] == attrs[..kept] + [a];
      AllBytesAppend(attrs[..kept], a);
      AllBytesGrow(attrs, kept + 1);
      HoldsSize(packet.data[..], attrs[..kept]);
      ok := AddString(packet, attr, a.kind, a.value, attrs[..kept]);
      if ok {
        kept := kept + 1;
      }
    }
    HoldsSize(packet.data[..], attrs[..kept]);
    if kept == |attrs| {
      assert attrs[..kept] == attrs;
    }
    WalkReadsBack(packet.data[..], attrs[..kept]);
    read := packet.ReadAll(attr);
  }

  lemma HoldsSize(d: seq<Byte>, attrs: seq<Attr>)
    requires Holds(d, attrs)
    ensures Length(d) == HEADER_LENGTH + |AllBytes(attrs)| <= MAX_LENGTH
  {
  }

  /** addAttribute, setVendorId, setVendorType, setVendorString. */
  method AddVendorString(packet: RadiusPacket, attr: RadiusAttribute, id: nat, kind: Byte, value: seq<Byte>,
                         ghost attrs: seq<Attr>)
    returns (ok: bool)
    requires packet.Valid() && |value| <= 247 && id < 0x1_0000_0000 && Holds(packet.data[..], attrs)
    modifies packet.data, attr
    ensures packet.Valid()
    ensures ok <==> old(Length(packet.data[..])) + |value| + 8 <= MAX_LENGTH
    ensures Holds(packet.data[..], if ok then attrs + [VendorAttr(id, kind, value)] else attrs)
    ensures packet.data[..2] == old(packet.data[..2]) && packet.data[4..20] == old(packet.data[4..20])
  {
    hide Length, Put, Appended, VendorSet, Long, VendorAttr;
    ghost var was := packet.data[..];
    ghost var n := Length(was);
    var added := packet.AddAttribute(VENDOR_SPECIFIC, attr);
    ok := false;
    if added {
      PutAt(was, n, [VENDOR_SPECIFIC]);
      ok := attr.SetVendorId(id);
      ok := attr.SetVendorType(kind);
      ok := attr.SetVendorString(value);
      if ok {
        VendorAddedAndSet(was, id, kind, value);
        VendorAttrLength(id, kind, value);
        AppendedHolds(was, attrs, VendorAttr(id, kind, value));
        AppendedKeepsHeader(was, VendorAttr(id, kind, value));
      } else {
        ghost var typed := Put(was, n, [VENDOR_SPECIFIC]);
        PrefixKept(was, n, [VENDOR_SPECIFIC], n);
        PrefixKept(typed, n + 2, Long(id), n);
        PrefixKept(Put(typed, n + 2, Long(id)), n + 6, [kind], n);
        StillHolds(was, packet.data[..], attrs);
      }
    }
  }

  /** A server's answer reaches the client: a response that kept the request's identifier and
      authenticator, signed with the shared secret, is accepted and holds what it held. */
  method SignAndVerify(request: RadiusPacket, response: RadiusPacket, ghost attrs: seq<Attr>) returns (accepted: bool)
    requires request.Valid() && response.Valid() && request.data != response.data
    requires request.secret.Some? && response.secret == request.secret && request.oldPassword == []
    requires response.data[1] == request.data[1] && Authenticator(response.data[..]) == Authenticator(request.data[..])
    requires Holds(response.data[..], attrs)
    modifies response.data
    ensures accepted && Holds(response.data[..], attrs)
  {
    hide Length, Authenticator, Put, Signed, Accepts;
    ghost var was := response.data[..];
    SignedIsAccepted(MD5, request.data[..], was, request.secret.value, attrs);
    response.ResponseAuthenticator(None);
    ghost var signed := response.data[..];
    accepted := request.VerifyResponse(response);
    StillHolds(signed, response.data[..], attrs);
  }
}
