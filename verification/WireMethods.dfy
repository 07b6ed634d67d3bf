/** The codec's loops: the writer fills a buffer from its end, the readers walk forwards. Each is
    proved to compute what module Wire says, so the round trips hold of the program. */
module WireMethods {
  import opened Wire
  import opened WireUnknown

  /* ---------- writing ---------- */

  /** The buffer `now` is `before` with `part` written into the place j..i. */
  ghost predicate Placed(now: seq<byte>, before: seq<byte>, j: nat, i: nat, part: seq<byte>) {
    && i <= |before| && j + |part| == i
    && now == before[..j] + part + before[i..]
  }

  /** Writing a part in front of another writes both. */
  lemma PlacedBoth(now: seq<byte>, mid: seq<byte>, before: seq<byte>, j: nat, k: nat, i: nat, a: seq<byte>, b: seq<byte>)
    requires Placed(mid, before, k, i, b) && Placed(now, mid, j, k, a)
    ensures Placed(now, before, j, i, a + b)
  {
    assert mid[..j] == before[..j];
    assert mid[k..] == b + before[i..];
  }

  lemma PlacedNothing(before: seq<byte>, i: nat)
    requires i <= |before|
    ensures Placed(before, before, i, i, [])
  {
  }

  lemma PlacedOne(before: seq<byte>, j: nat, b: byte)
    requires j < |before|
    ensures Placed(before[j := b], before, j, j + 1, [b])
  {
  }

  method PutByte(buf: array<byte>, i: nat, b: byte) returns (j: nat)
    requires 1 <= i <= buf.Length
    modifies buf
    ensures Placed(buf[..], old(buf[..]), j, i, [b])
  {
    j := i - 1;
    PlacedOne(buf[..], j, b);
    buf[j] := b;
  }

  /** The first bytes of a number stand at base..o; the rest will fill o..offset. */
  ghost predicate Writing(now: seq<byte>, before: seq<byte>, base: nat, o: nat, offset: nat, done: seq<byte>) {
    && base + |done| == o && o <= offset <= |before|
    && now == before[..base] + done + before[o..]
  }

  lemma WriteNext(now: seq<byte>, before: seq<byte>, base: nat, o: nat, offset: nat, done: seq<byte>, b: byte)
    requires Writing(now, before, base, o, offset, done) && o < offset
    ensures |now| == |before| && Writing(now[o := b], before, base, o + 1, offset, done + [b])
  {
    assert before[o..] == [before[o]] + before[o + 1..];
  }

  lemma MoreDigits(done: seq<byte>, w: nat, v: nat)
    requires w >= 128 && done + Varint(w) == Varint(v)
    ensures done + [w % 128 + 128] + Varint(w / 128) == Varint(v)
    ensures |Varint(w)| == 1 + |Varint(w / 128)|
  {
  }

  /** encodeVarint: writes forwards into the place that ends at `offset`. */
  method EncodeVarint(buf: array<byte>, offset: nat, v: nat) returns (base: nat)
    requires Sov(v) <= offset <= buf.Length
    modifies buf
    ensures Placed(buf[..], old(buf[..]), base, offset, Varint(v))
  {
    SovIsLength(v);
    base := offset - Sov(v);
    var o, w := base, v;
    ghost var before, done: seq<byte> := buf[..], [];
    while w >= 128
      invariant base <= o && o + |Varint(w)| == offset
      invariant Writing(buf[..], before, base, o, offset, done)
      invariant done + Varint(w) == Varint(v)
    {
      WriteNext(buf[..], before, base, o, offset, done, w % 128 + 128);
      MoreDigits(done, w, v);
      buf[o] := w % 128 + 128;
      done := done + [w % 128 + 128];
      w := w / 128;
      o := o + 1;
    }
    WriteNext(buf[..], before, base, o, offset, done, w);
    buf[o] := w;
  }

  /** Copies bytes into the place that ends at `i`. */
  method PutBytes(buf: array<byte>, i: nat, b: seq<byte>) returns (j: nat)
    requires |b| <= i <= buf.Length
    modifies buf
    ensures Placed(buf[..], old(buf[..]), j, i, b)
  {
    j := i - |b|;
    forall k | 0 <= k < |b| {
      buf[j + k] := b[k];
    }
    assert buf[j..i] == b;
    assert buf[..] == buf[..j] + buf[j..i] + buf[i..];
    assert buf[..j] == old(buf[..])[..j];
    assert buf[i..] == old(buf[..])[i..];
  }

  /** A length-delimited field, written from its end to its tag. */
  method PutField(buf: array<byte>, i: nat, tag: byte, b: seq<byte>) returns (j: nat)
    requires |Field(tag, b)| <= i <= buf.Length
    modifies buf
    ensures Placed(buf[..], old(buf[..]), j, i, Field(tag, b))
  {
    SovIsLength(|b|);
    ghost var s0 := buf[..];
    var k := PutBytes(buf, i, b);
    ghost var s1 := buf[..];
    var o := EncodeVarint(buf, k, |b|);
    ghost var s2 := buf[..];
    PlacedBoth(s2, s1, s0, o, k, i, Varint(|b|), b);
    j := PutByte(buf, o, tag);
    PlacedBoth(buf[..], s2, s0, j, o, i, [tag], Varint(|b|) + b);
    assert Field(tag, b) == [tag] + (Varint(|b|) + b);
  }

  /** A repeated field, from its last element to its first. */
  method PutFields(buf: array<byte>, i: nat, tag: byte, bs: seq<seq<byte>>) returns (j: nat)
    requires |Fields(tag, bs)| <= i <= buf.Length
    modifies buf
    ensures Placed(buf[..], old(buf[..]), j, i, Fields(tag, bs))
  {
    ghost var start := buf[..];
    j := i;
    var k := |bs|;
    PlacedNothing(start, i);
    assert bs[|bs|..] == [];
    while k > 0
      invariant 0 <= k <= |bs|
      invariant Placed(buf[..], start, j, i, Fields(tag, bs[k..]))
    {
      k := k - 1;
      FieldsTail(tag, bs, k);
      ghost var mid, m := buf[..], j;
      j := PutField(buf, j, tag, bs[k]);
      PlacedBoth(buf[..], mid, start, j, m, i, Field(tag, bs[k]), Fields(tag, bs[k + 1..]));
    }
    assert bs[0..] == bs;
  }

  lemma FieldsTail(tag: byte, bs: seq<seq<byte>>, k: nat)
    requires k < |bs|
    ensures Fields(tag, bs[k..]) == Field(tag, bs[k]) + Fields(tag, bs[k + 1..])
    ensures |Fields(tag, bs[k..])| <= |Fields(tag, bs)|
  {
    assert bs[k..][1..] == bs[k + 1..];
    FieldsShorter(tag, bs, k);
  }

  lemma {:induction false} FieldsShorter(tag: byte, bs: seq<seq<byte>>, k: nat)
    requires k <= |bs|
    ensures |Fields(tag, bs[k..])| <= |Fields(tag, bs)|
    decreases k
  {
    if k == 0 {
      assert bs[0..] == bs;
    } else {
      FieldsShorter(tag, bs[1..], k - 1);
      assert bs[1..][k - 1..] == bs[k..];
    }
  }

  method PutOptField(buf: array<byte>, i: nat, tag: byte, b: seq<byte>) returns (j: nat)
    requires |OptField(tag, b)| <= i <= buf.Length
    modifies buf
    ensures Placed(buf[..], old(buf[..]), j, i, OptField(tag, b))
  {
    j := i;
    PlacedNothing(buf[..], i);
    if |b| > 0 {
      j := PutField(buf, i, tag, b);
    }
  }

  /* ---------- sizes ---------- */

  method SizeOfFields(tag: byte, bs: seq<seq<byte>>) returns (n: nat)
    ensures n == |Fields(tag, bs)|
  {
    n := 0;
    var k := 0;
    assert bs[0..] == bs;
    while k < |bs|
      invariant 0 <= k <= |bs|
      invariant n + |Fields(tag, bs[k..])| == |Fields(tag, bs)|
    {
      FieldsTail(tag, bs, k);
      SovIsLength(|bs[k]|);
      n := n + 1 + |bs[k]| + Sov(|bs[k]|);
      k := k + 1;
    }
  }

  method SizeOfParticipant(m: Participant) returns (n: nat)
    ensures n == |EncodeParticipant(m)|
  {
    n := 0;
    SovIsLength(|m.initiator|);
    if |m.initiator| > 0 {
      n := n + 1 + |m.initiator| + Sov(|m.initiator|);
    }
    var k := SizeOfFields(0x12, m.withholding);
    n := n + k + |m.unknown|;
  }

  method SizeOfNonHash(m: NonHash) returns (n: nat)
    ensures n == |EncodeNonHash(m)|
  {
    n := 0;
    SovIsLength(|m.nodeHash|);
    SovIsLength(|m.privateTxHash|);
    SovIsLength(m.nonce);
    if |m.nodeHash| > 0 {
      n := n + 1 + |m.nodeHash| + Sov(|m.nodeHash|);
    }
    if |m.privateTxHash| > 0 {
      n := n + 1 + |m.privateTxHash| + Sov(|m.privateTxHash|);
    }
    var k := SizeOfFields(0x1a, m.collection);
    n := n + k;
    if m.nonce != 0 {
      n := n + 1 + Sov(m.nonce);
    }
    n := n + |m.unknown|;
  }

  /* ---------- marshalling ---------- */

  /** MarshalToSizedBufferVT of a Participant: the encoding fills the end of the buffer. */
  method MarshalParticipantTo(buf: array<byte>, m: Participant) returns (n: nat)
    requires |EncodeParticipant(m)| <= buf.Length
    modifies buf
    ensures n <= buf.Length && Placed(buf[..], old(buf[..]), buf.Length - n, buf.Length, EncodeParticipant(m))
  {
    ghost var a, d := OptField(0x0a, m.initiator), Fields(0x12, m.withholding);
    ghost var s0 := buf[..];
    var i3 := PutBytes(buf, buf.Length, m.unknown);
    ghost var s1 := buf[..];
    var i2 := PutFields(buf, i3, 0x12, m.withholding);
    ghost var s2 := buf[..];
    PlacedBoth(s2, s1, s0, i2, i3, buf.Length, d, m.unknown);
    var i1 := PutOptField(buf, i2, 0x0a, m.initiator);
    PlacedBoth(buf[..], s2, s0, i1, i2, buf.Length, a, d + m.unknown);
    assert EncodeParticipant(m) == a + (d + m.unknown);
    n := buf.Length - i1;
  }

  /** MarshalToSizedBufferVT of a NonHash. */
  method MarshalNonHashTo(buf: array<byte>, m: NonHash) returns (n: nat)
    requires |EncodeNonHash(m)| <= buf.Length
    modifies buf
    ensures n <= buf.Length && Placed(buf[..], old(buf[..]), buf.Length - n, buf.Length, EncodeNonHash(m))
  {
    ghost var head, tail := NonHashHead(m), NonHashTail(m);
    HeadAndTail(m);
    ghost var s0 := buf[..];
    var i2 := PutTail(buf, m);
    ghost var s1 := buf[..];
    var i1 := PutHead(buf, i2, m);
    PlacedBoth(buf[..], s1, s0, i1, i2, buf.Length, head, tail);
    n := buf.Length - i1;
  }

  function NonHashHead(m: NonHash): seq<byte> {
    OptField(0x0a, m.nodeHash) + OptField(0x12, m.privateTxHash)
  }

  function NonHashTail(m: NonHash): seq<byte> {
    Fields(0x1a, m.collection) + (NonceField(m.nonce) + m.unknown)
  }

  lemma HeadAndTail(m: NonHash)
    ensures EncodeNonHash(m) == NonHashHead(m) + NonHashTail(m)
  {
  }

  /** The first fields of a NonHash, which are written last. */
  method PutHead(buf: array<byte>, i: nat, m: NonHash) returns (j: nat)
    requires |NonHashHead(m)| <= i <= buf.Length
    modifies buf
    ensures Placed(buf[..], old(buf[..]), j, i, NonHashHead(m))
  {
    ghost var s0 := buf[..];
    var k := PutOptField(buf, i, 0x12, m.privateTxHash);
    ghost var s1 := buf[..];
    j := PutOptField(buf, k, 0x0a, m.nodeHash);
    PlacedBoth(buf[..], s1, s0, j, k, i, OptField(0x0a, m.nodeHash), OptField(0x12, m.privateTxHash));
  }

  /** The last fields of a NonHash, which are written first. */
  method PutTail(buf: array<byte>, m: NonHash) returns (j: nat)
    requires |NonHashTail(m)| <= buf.Length
    modifies buf
    ensures Placed(buf[..], old(buf[..]), j, buf.Length, NonHashTail(m))
  {
    ghost var d, e := Fields(0x1a, m.collection), NonceField(m.nonce);
    ghost var s0 := buf[..];
    var i5 := PutBytes(buf, buf.Length, m.unknown);
    ghost var s1 := buf[..];
    var i4 := PutNonce(buf, i5, m.nonce);
    ghost var s2 := buf[..];
    PlacedBoth(s2, s1, s0, i4, i5, buf.Length, e, m.unknown);
    j := PutFields(buf, i4, 0x1a, m.collection);
    PlacedBoth(buf[..], s2, s0, j, i4, buf.Length, d, e + m.unknown);
  }

  method PutNonce(buf: array<byte>, i: nat, v: nat) returns (j: nat)
    requires |NonceField(v)| <= i <= buf.Length
    modifies buf
    ensures Placed(buf[..], old(buf[..]), j, i, NonceField(v))
  {
    j := i;
    ghost var s0 := buf[..];
    PlacedNothing(s0, i);
    if v != 0 {
      SovIsLength(v);
      var o := EncodeVarint(buf, i, v);
      ghost var s1 := buf[..];
      j := PutByte(buf, o, 0x20);
      PlacedBoth(buf[..], s1, s0, j, o, i, [0x20], Varint(v));
    }
  }

  /** MarshalVT of a Participant: a buffer of exactly the size is filled completely. */
  method MarshalParticipant(m: Participant) returns (data: seq<byte>)
    ensures data == EncodeParticipant(m)
  {
    var size := SizeOfParticipant(m);
    var buf := new byte[size];
    var n := MarshalParticipantTo(buf, m);
    data := buf[..n];
  }

  /** MarshalVT of a NonHash. */
  method MarshalNonHash(m: NonHash) returns (data: seq<byte>)
    ensures data == EncodeNonHash(m)
  {
    var size := SizeOfNonHash(m);
    var buf := new byte[size];
    var n := MarshalNonHashTo(buf, m);
    data := buf[..n];
  }

  /* ---------- reading ---------- */

  /** `whole` is what remains to be read plus the bits read so far. */
  predicate Continues(whole: Parsed<nat>, acc: nat, rest: Parsed<nat>) {
    whole == match rest case Bad(e) => Bad(e) case Good(v, next) => Good(acc + v, next)
  }

  /** The varint loop that every decoder repeats. */
  method ReadVarint(data: seq<byte>, start: nat) returns (r: Parsed<nat>)
    ensures r == VarintAt(data, start)
  {
    var i, k: nat, scale: nat, value: nat := start, 0, 1, 0;
    while true
      invariant Continues(VarintAt(data, start), value, VarintFrom(data, i, k, scale))
      decreases |data| - i
    {
      if k >= 10 {
        return Bad(IntOverflow);
      }
      if i >= |data| {
        return Bad(UnexpectedEOF);
      }
      var b := data[i];
      i := i + 1;
      value := value + Low(b, scale);
      if b < 128 {
        return Good(value, i);
      }
      k, scale := k + 1, scale * 128;
    }
  }

  method ReadBytes(data: seq<byte>, start: nat) returns (r: Parsed<seq<byte>>)
    ensures r == BytesAt(data, start)
  {
    var len := ReadVarint(data, start);
    if len.Bad? {
      return Bad(len.error);
    }
    var n := len.value % TWO64;
    if n >= TWO63 {
      return Bad(InvalidLength);
    }
    var post := len.next + n;
    if post >= TWO63 {
      return Bad(InvalidLength);
    }
    if post > |data| {
      return Bad(UnexpectedEOF);
    }
    return Good(data[len.next..post], post);
  }

  /** skip. */
  method Skip(data: seq<byte>) returns (r: Parsed<()>)
    ensures r == SkipFrom(data, 0, 0)
  {
    var i, depth := 0, 0;
    while i < |data|
      invariant SkipFrom(data, 0, 0) == SkipFrom(data, i, depth)
      decreases |data| - i
    {
      var wire := ReadVarint(data, i);
      if wire.Bad? {
        return Bad(wire.error);
      }
      var after := SkipValue(data, wire.next, wire.value % 8, depth);
      if after.Bad? {
        return Bad(after.error);
      }
      i, depth := after.next, after.value;
      if depth == 0 {
        return Good((), i);
      }
    }
    return Bad(UnexpectedEOF);
  }

  method ReadUnknown(data: seq<byte>, start: nat) returns (r: Parsed<seq<byte>>)
    requires start < |data|
    ensures r == UnknownAt(data, start)
  {
    var n := Skip(data[start..]);
    if n.Bad? {
      return Bad(n.error);
    }
    if start + n.next > |data| {
      return Bad(UnexpectedEOF);
    }
    return Good(data[start..start + n.next], start + n.next);
  }

  method ReadTag(data: seq<byte>, start: nat) returns (r: Parsed<Tag>)
    ensures r == TagAt(data, start)
  {
    var wire := ReadVarint(data, start);
    if wire.Bad? {
      return Bad(wire.error);
    }
    var tag := Tag(ToInt32(wire.value / 8), wire.value % 8);
    if tag.wireType == 4 {
      return Bad(EndOfGroup);
    }
    if tag.field <= 0 {
      return Bad(IllegalTag);
    }
    return Good(tag, wire.next);
  }

  /** One round of UnmarshalVT of a Participant. */
  method ReadParticipantField(data: seq<byte>, i: nat, m: Participant) returns (r: Next<Participant>)
    requires i < |data|
    ensures r == ParticipantField(data, i, m)
  {
    var tag := ReadTag(data, i);
    if tag.Bad? {
      return Fail(tag.error);
    }
    if tag.value.field == 1 || tag.value.field == 2 {
      if tag.value.wireType != 2 {
        return Fail(WrongWireType);
      }
      var b := ReadBytes(data, tag.next);
      if b.Bad? {
        return Fail(b.error);
      }
      return More(b.next, if tag.value.field == 1 then SetInitiator(m, b.value) else AddWithholding(m, b.value));
    }
    var raw := ReadUnknown(data, i);
    if raw.Bad? {
      return Fail(raw.error);
    }
    return More(raw.next, m.(unknown := m.unknown + raw.value));
  }

  /** One round of UnmarshalVT of a NonHash. */
  method ReadNonHashField(data: seq<byte>, i: nat, m: NonHash) returns (r: Next<NonHash>)
    requires i < |data|
    ensures r == NonHashField(data, i, m)
  {
    var tag := ReadTag(data, i);
    if tag.Bad? {
      return Fail(tag.error);
    }
    var field := tag.value.field;
    if 1 <= field <= 3 {
      if tag.value.wireType != 2 {
        return Fail(WrongWireType);
      }
      var b := ReadBytes(data, tag.next);
      if b.Bad? {
        return Fail(b.error);
      }
      return More(b.next, if field == 1 then SetNodeHash(m, b.value)
                          else if field == 2 then SetPrivateTxHash(m, b.value) else AddCollection(m, b.value));
    }
    if field == 4 {
      if tag.value.wireType != 0 {
        return Fail(WrongWireType);
      }
      var v := ReadVarint(data, tag.next);
      if v.Bad? {
        return Fail(v.error);
      }
      return More(v.next, m.(nonce := v.value));
    }
    var raw := ReadUnknown(data, i);
    if raw.Bad? {
      return Fail(raw.error);
    }
    return More(raw.next, m.(unknown := m.unknown + raw.value));
  }

  /** UnmarshalVT of a Participant. */
  method UnmarshalParticipant(data: seq<byte>) returns (r: Result<Participant>)
    ensures r == DecodeParticipant(data)
  {
    ghost var step := ParticipantStep(data);
    var i, m := 0, EMPTY_PARTICIPANT;
    while i < |data|
      invariant 0 <= i <= |data|
      invariant DecodeParticipant(data) == Decode(|data|, step, i, m)
    {
      var next := ReadParticipantField(data, i, m);
      assert step(i, m) == next;
      if next.Fail? {
        return Err(next.error);
      }
      i, m := next.next, next.message;
    }
    return Ok(m);
  }

  /** UnmarshalVT of a NonHash. */
  method UnmarshalNonHash(data: seq<byte>) returns (r: Result<NonHash>)
    ensures r == DecodeNonHash(data)
  {
    ghost var step := NonHashStep(data);
    var i, m := 0, EMPTY_NON_HASH;
    while i < |data|
      invariant 0 <= i <= |data|
      invariant DecodeNonHash(data) == Decode(|data|, step, i, m)
    {
      var next := ReadNonHashField(data, i, m);
      assert step(i, m) == next;
      if next.Fail? {
        return Err(next.error);
      }
      i, m := next.next, next.message;
    }
    return Ok(m);
  }

  /** Marshalling and unmarshalling a message gives it back, with the unknown fields it carries. */
  method ParticipantThroughTheWire(m: Participant, ghost bs: seq<seq<byte>>) returns (r: Result<Participant>)
    requires m.unknown == Joined(bs) && AllUnknown(bs, {1, 2}) && |EncodeParticipant(m)| < TWO63
    ensures r == Ok(m)
  {
    var data := MarshalParticipant(m);
    ParticipantKeepsUnknown(m, bs);
    r := UnmarshalParticipant(data);
  }

  method NonHashThroughTheWire(m: NonHash, ghost bs: seq<seq<byte>>) returns (r: Result<NonHash>)
    requires m.unknown == Joined(bs) && AllUnknown(bs, {1, 2, 3, 4}) && m.nonce < TWO64 && |EncodeNonHash(m)| < TWO63
    ensures r == Ok(m)
  {
    var data := MarshalNonHash(m);
    NonHashKeepsUnknown(m, bs);
    r := UnmarshalNonHash(data);
  }
}
