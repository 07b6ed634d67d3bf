/** The wire codec of two messages: a reader that goes forwards and a writer that fills the buffer
    from its end. Integers wrap as 64-bit ones do. */
module Wire {

  type byte = x: nat | x < 256

  const TWO31: nat := 0x8000_0000
  const TWO32: nat := 0x1_0000_0000
  const TWO63: nat := 0x8000_0000_0000_0000
  const TWO64: nat := 0x1_0000_0000_0000_0000

  datatype Error = UnexpectedEOF | IntOverflow | InvalidLength | EndOfGroup | IllegalTag | WrongWireType | IllegalWireType

  /** What is read at some place, and the place after it. */
  datatype Parsed<+T> = Good(value: T, next: nat) | Bad(error: Error)

  datatype Result<+T> = Ok(value: T) | Err(error: Error)

  /* ---------- base 128 varints ---------- */

  function Varint(v: nat): (s: seq<byte>)
    ensures |s| >= 1
  {
    if v < 128 then [v] else [v % 128 + 128] + Varint(v / 128)
  }

  function BitLen(x: nat): nat {
    if x == 0 then 0 else 1 + BitLen(x / 2)
  }

  /** sov: the bit length of x | 1, in groups of seven. */
  function Sov(x: nat): nat {
    (BitLen(if x % 2 == 0 then x + 1 else x) + 6) / 7
  }

  lemma {:induction false} BitLenShift(x: nat)
    requires x >= 128
    ensures BitLen(x) == 7 + BitLen(x / 128)
  {
    var a := x / 2;
    var b := a / 2;
    var d := b / 2;
    var e := d / 2;
    var f := e / 2;
    var g := f / 2;
    assert g / 2 == x / 128;
    assert BitLen(x) == 1 + BitLen(a) == 2 + BitLen(b) == 3 + BitLen(d) == 4 + BitLen(e) == 5 + BitLen(f) == 6 + BitLen(g);
  }

  lemma {:induction false} BitLenSmall(x: nat)
    requires 1 <= x < 128
    ensures 1 <= BitLen(x) <= 7
  {
    BitLenBelow(x, 7, 128);
  }

  lemma {:induction false} BitLenBelow(x: nat, n: nat, limit: nat)
    requires limit == Pow2(n) && x < limit
    ensures BitLen(x) <= n
    decreases n
  {
    if x > 0 {
      assert Pow2(n) == 2 * Pow2(n - 1);
      BitLenBelow(x / 2, n - 1, limit / 2);
    }
  }

  function Pow2(n: nat): nat {
    if n == 0 then 1 else 2 * Pow2(n - 1)
  }

  lemma BitLenOdd(x: nat)
    requires x > 0
    ensures BitLen(if x % 2 == 0 then x + 1 else x) == BitLen(x)
  {
    assert (x + 1) / 2 == x / 2 || x % 2 == 1;
  }

  /** The size function gives the length of the encoding. */
  lemma {:induction false} SovIsLength(x: nat)
    ensures Sov(x) == |Varint(x)|
  {
    if x == 0 {
      assert BitLen(1) == 1;
    } else {
      BitLenOdd(x);
      if x < 128 {
        BitLenSmall(x);
      } else {
        SovIsLength(x / 128);
        BitLenOdd(x / 128);
        BitLenShift(x);
      }
    }
  }

  function Pow128(n: nat): nat {
    if n == 0 then 1 else 128 * Pow128(n - 1)
  }

  lemma {:induction false} VarintFits(v: nat, n: nat)
    requires n >= 1 && v < Pow128(n)
    ensures |Varint(v)| <= n
    decreases n
  {
    if v >= 128 {
      assert Pow128(n) == 128 * Pow128(n - 1);
      assert n > 1;
      VarintFits(v / 128, n - 1);
    }
  }

  /** A 64-bit number takes at most ten bytes. */
  lemma VarintOf64(v: nat)
    requires v < TWO64
    ensures |Varint(v)| <= 10
  {
    assert Pow128(5) == 128 * 128 * 128 * 128 * 128;
    assert Pow128(10) == 128 * 128 * 128 * 128 * 128 * Pow128(5);
    VarintFits(v, 10);
  }

  /** What one byte adds: its low seven bits, shifted. */
  function Low(b: byte, scale: nat): nat {
    b % 128 * scale % TWO64
  }

  /** The decoding loop from byte number k on, whose bits count `scale` times; bits beyond the 64th
      are lost, and an eleventh byte is an overflow. */
  function VarintFrom(data: seq<byte>, i: nat, k: nat, scale: nat): (r: Parsed<nat>)
    ensures r.Good? ==> i < r.next <= |data|
    decreases |data| - i
  {
    if k >= 10 then Bad(IntOverflow)
    else if i >= |data| then Bad(UnexpectedEOF)
    else
      var low := Low(data[i], scale);
      if data[i] < 128 then Good(low, i + 1)
      else
        match VarintFrom(data, i + 1, k + 1, scale * 128)
        case Good(v, next) => Good(low + v, next)
        case Bad(e) => Bad(e)
  }

  function VarintAt(data: seq<byte>, i: nat): (r: Parsed<nat>)
    ensures r.Good? ==> i < r.next <= |data|
  {
    VarintFrom(data, i, 0, 1)
  }

  /** `part` stands in the data at index i. */
  predicate At(data: seq<byte>, i: nat, part: seq<byte>) {
    i + |part| <= |data| && data[i..i + |part|] == part
  }

  lemma AtSplit(data: seq<byte>, i: nat, a: seq<byte>, b: seq<byte>)
    requires At(data, i, a + b)
    ensures At(data, i, a) && At(data, i + |a|, b)
  {
    assert data[i..i + |a|] == (a + b)[..|a|];
    assert data[i + |a|..i + |a| + |b|] == (a + b)[|a|..];
  }

  lemma ScaleSplit(v: nat, scale: nat)
    ensures v % 128 * scale + v / 128 * (scale * 128) == v * scale
  {
    assert v == v / 128 * 128 + v % 128;
    assert v / 128 * (scale * 128) == v / 128 * 128 * scale;
  }

  lemma LowLast(v: byte, scale: nat)
    requires v < 128 && v * scale < TWO64
    ensures Low(v, scale) == v * scale
  {
  }

  lemma LowMore(v: nat, scale: nat)
    requires v >= 128 && v * scale < TWO64
    ensures Low(v % 128 + 128, scale) + v / 128 * (scale * 128) == v * scale
    ensures v / 128 * (scale * 128) < TWO64
  {
    ScaleSplit(v, scale);
    assert (v % 128 + 128) % 128 == v % 128;
    assert v % 128 * scale >= 0 && v / 128 * (scale * 128) >= 0;
  }

  lemma {:induction false} VarintDecodes(data: seq<byte>, i: nat, v: nat, k: nat, scale: nat)
    requires At(data, i, Varint(v)) && v * scale < TWO64 && k + |Varint(v)| <= 10
    ensures VarintFrom(data, i, k, scale) == Good(v * scale, i + |Varint(v)|)
    decreases v
  {
    if v < 128 {
      assert data[i] == data[i..i + 1][0] == v;
      LowLast(v, scale);
    } else {
      AtSplit(data, i, [v % 128 + 128], Varint(v / 128));
      assert data[i] == data[i..i + 1][0] == v % 128 + 128;
      LowMore(v, scale);
      VarintDecodes(data, i + 1, v / 128, k + 1, scale * 128);
    }
  }

  /** Every 64-bit number is read back. */
  lemma VarintRoundTrip(data: seq<byte>, i: nat, v: nat)
    requires v < TWO64 && At(data, i, Varint(v))
    ensures VarintAt(data, i) == Good(v, i + |Varint(v)|)
  {
    VarintOf64(v);
    VarintDecodes(data, i, v, 0, 1);
  }

  /** A number of ten bytes or more that never ends is an overflow, a shorter one that never ends is cut
      off. */
  lemma VarintFails(data: seq<byte>, i: nat)
    requires i <= |data| && forall k :: i <= k < |data| && k < i + 10 ==> data[k] >= 128
    ensures VarintAt(data, i) == Bad(if i + 10 <= |data| then IntOverflow else UnexpectedEOF)
  {
    NeverEnds(data, i, 0, 1);
  }

  lemma {:induction false} NeverEnds(data: seq<byte>, i: nat, k: nat, scale: nat)
    requires k <= 10 && i <= |data| && forall j :: i <= j < |data| && j < i + 10 - k ==> data[j] >= 128
    ensures VarintFrom(data, i, k, scale) == Bad(if i + 10 - k <= |data| then IntOverflow else UnexpectedEOF)
    decreases 10 - k
  {
    if k < 10 && i < |data| {
      NeverEnds(data, i + 1, k + 1, scale * 128);
    }
  }

  /* ---------- tags, byte strings, skipping ---------- */

  datatype Tag = Tag(field: int, wireType: nat)

  /** The low 32 bits, as a signed number. */
  function ToInt32(x: nat): int {
    var low := x % TWO32;
    if low < TWO31 then low else low - TWO32
  }

  /** A field's tag; a group end or a number that is not positive is refused. */
  function TagAt(data: seq<byte>, i: nat): (r: Parsed<Tag>)
    ensures r.Good? ==> i < r.next <= |data|
  {
    match VarintAt(data, i)
    case Bad(e) => Bad(e)
    case Good(wire, next) =>
      var tag := Tag(ToInt32(wire / 8), wire % 8);
      if tag.wireType == 4 then Bad(EndOfGroup)
      else if tag.field <= 0 then Bad(IllegalTag)
      else Good(tag, next)
  }

  /** A length and as many bytes. Lengths and ends that do not fit a signed 64-bit number are
      negative in the program. */
  function BytesAt(data: seq<byte>, i: nat): (r: Parsed<seq<byte>>)
    ensures r.Good? ==> i < r.next <= |data|
  {
    match VarintAt(data, i)
    case Bad(e) => Bad(e)
    case Good(len, next) =>
      if len % TWO64 >= TWO63 then Bad(InvalidLength)
      else if next + len % TWO64 >= TWO63 then Bad(InvalidLength)
      else if next + len % TWO64 > |data| then Bad(UnexpectedEOF)
      else Good(data[next..next + len % TWO64], next + len % TWO64)
  }

  /** A tag that ends a group, and one without a field number, are refused. */
  lemma TagFails(data: seq<byte>, i: nat, wire: nat)
    requires At(data, i, Varint(wire)) && wire < TWO64
    ensures wire % 8 == 4 ==> TagAt(data, i) == Bad(EndOfGroup)
    ensures wire < 8 && wire != 4 ==> TagAt(data, i) == Bad(IllegalTag)
    ensures TWO31 <= wire / 8 < TWO32 && wire % 8 != 4 ==> TagAt(data, i) == Bad(IllegalTag)
    ensures 1 <= wire / 8 < TWO31 && wire % 8 != 4 ==> TagAt(data, i) == Good(Tag(wire / 8, wire % 8), i + |Varint(wire)|)
  {
    VarintRoundTrip(data, i, wire);
  }

  /** A length that is not a positive signed number is invalid; one that reaches beyond the data is cut off. */
  lemma LengthFails(data: seq<byte>, i: nat, len: nat)
    requires At(data, i, Varint(len)) && len < TWO64 && |data| < TWO63
    ensures len >= TWO63 ==> BytesAt(data, i) == Bad(InvalidLength)
    ensures |data| < i + |Varint(len)| + len < TWO63 ==> BytesAt(data, i) == Bad(UnexpectedEOF)
  {
    VarintRoundTrip(data, i, len);
  }

  /** Bits beyond the 64th are lost. */
  lemma TopBitsLost()
    ensures VarintAt([255, 255, 255, 255, 255, 255, 255, 255, 255, 127], 0) == Good(TWO64 - 1, 10)
  {
    var data: seq<byte> := [255, 255, 255, 255, 255, 255, 255, 255, 255, 127];
    assert VarintFrom(data, 9, 9, 0x8000_0000_0000_0000) == Good(0x8000_0000_0000_0000, 10);
    assert VarintFrom(data, 8, 8, 0x100_0000_0000_0000) == Good(0xff00_0000_0000_0000, 10);
    assert VarintFrom(data, 7, 7, 0x2_0000_0000_0000) == Good(0xfffe_0000_0000_0000, 10);
    assert VarintFrom(data, 6, 6, 0x400_0000_0000) == Good(0xffff_fc00_0000_0000, 10);
    assert VarintFrom(data, 5, 5, 0x8_0000_0000) == Good(0xffff_fff8_0000_0000, 10);
    assert VarintFrom(data, 4, 4, 0x1000_0000) == Good(0xffff_ffff_f000_0000, 10);
    assert VarintFrom(data, 3, 3, 0x20_0000) == Good(0xffff_ffff_ffe0_0000, 10);
    assert VarintFrom(data, 2, 2, 0x4000) == Good(0xffff_ffff_ffff_c000, 10);
    assert VarintFrom(data, 1, 1, 0x80) == Good(0xffff_ffff_ffff_ff80, 10);
  }

  /** skip: passes one unknown field, which may be a group of fields. The result may lie beyond the
      end of the data. */
  function SkipFrom(data: seq<byte>, i: nat, depth: nat): (r: Parsed<()>)
    ensures r.Good? ==> r.next > i
    decreases |data| - i
  {
    if i >= |data| then Bad(UnexpectedEOF)
    else
      match VarintAt(data, i)
      case Bad(e) => Bad(e)
      case Good(wire, next) =>
        var after: Parsed<nat> := SkipValue(data, next, wire % 8, depth);
        match after
        case Bad(e) => Bad(e)
        case Good(d, end) => if d == 0 then Good((), end) else SkipFrom(data, end, d)
  }

  /** Passes a field's value; the result's value is the new group depth. */
  function SkipValue(data: seq<byte>, i: nat, wireType: nat, depth: nat): (r: Parsed<nat>)
    ensures r.Good? ==> r.next >= i
  {
    match wireType
    case 0 => (match VarintAt(data, i) case Bad(e) => Bad(e) case Good(_, next) => Good(depth, next))
    case 1 => Good(depth, i + 8)
    case 2 =>
      (match VarintAt(data, i)
       case Bad(e) => Bad(e)
       case Good(len, next) =>
         if len % TWO64 >= TWO63 || next + len % TWO64 >= TWO63 then Bad(InvalidLength) else Good(depth, next + len % TWO64))
    case 3 => Good(depth + 1, i)
    case 4 => if depth == 0 then Bad(EndOfGroup) else Good(depth - 1, i)
    case 5 => Good(depth, i + 4)
    case _ => Bad(IllegalWireType)
  }

  /** The raw bytes of an unknown field. */
  function UnknownAt(data: seq<byte>, i: nat): (r: Parsed<seq<byte>>)
    requires i < |data|
    ensures r.Good? ==> i < r.next <= |data|
  {
    match SkipFrom(data[i..], 0, 0)
    case Bad(e) => Bad(e)
    case Good(_, n) => if i + n > |data| then Bad(UnexpectedEOF) else Good(data[i..i + n], i + n)
  }

  /* ---------- fields ---------- */

  /** A length-delimited field. */
  function Field(tag: byte, b: seq<byte>): seq<byte> {
    [tag] + Varint(|b|) + b
  }

  function OptField(tag: byte, b: seq<byte>): seq<byte> {
    if b == [] then [] else Field(tag, b)
  }

  function Fields(tag: byte, bs: seq<seq<byte>>): seq<byte>
    decreases |bs|
  {
    if bs == [] then [] else Field(tag, bs[0]) + Fields(tag, bs[1..])
  }

  lemma FieldTag(data: seq<byte>, i: nat, tag: byte, rest: seq<byte>)
    requires At(data, i, [tag] + rest) && tag < 128 && tag / 8 >= 1 && tag % 8 != 4
    ensures TagAt(data, i) == Good(Tag(tag / 8, tag % 8), i + 1)
    ensures At(data, i + 1, rest)
  {
    AtSplit(data, i, [tag], rest);
    assert Varint(tag) == [tag];
    VarintRoundTrip(data, i, tag);
  }

  /** A field written by Field is read back. */
  lemma FieldReads(data: seq<byte>, i: nat, tag: byte, b: seq<byte>)
    requires At(data, i, Field(tag, b)) && tag < 128 && tag / 8 >= 1 && tag % 8 != 4 && |data| < TWO63
    ensures TagAt(data, i) == Good(Tag(tag / 8, tag % 8), i + 1)
    ensures BytesAt(data, i + 1) == Good(b, i + |Field(tag, b)|)
  {
    assert Field(tag, b) == [tag] + (Varint(|b|) + b);
    FieldTag(data, i, tag, Varint(|b|) + b);
    BytesRead(data, i + 1, b);
  }

  lemma BytesRead(data: seq<byte>, i: nat, b: seq<byte>)
    requires At(data, i, Varint(|b|) + b) && |data| < TWO63
    ensures BytesAt(data, i) == Good(b, i + |Varint(|b|)| + |b|)
  {
    AtSplit(data, i, Varint(|b|), b);
    VarintRoundTrip(data, i, |b|);
    SmallLength(|b|);
    var next := i + |Varint(|b|)|;
    assert data[next..next + |b|] == b;
  }

  lemma SmallLength(n: nat)
    requires n < TWO63
    ensures n % TWO64 == n
  {
  }

  /* ---------- messages ---------- */

  datatype Participant = Participant(initiator: seq<byte>, withholding: seq<seq<byte>>, unknown: seq<byte>)

  datatype NonHash = NonHash(nodeHash: seq<byte>, privateTxHash: seq<byte>, collection: seq<seq<byte>>, nonce: nat, unknown: seq<byte>)

  const EMPTY_PARTICIPANT := Participant([], [], [])

  const EMPTY_NON_HASH := NonHash([], [], [], 0, [])

  function EncodeParticipant(m: Participant): seq<byte> {
    OptField(0x0a, m.initiator) + Fields(0x12, m.withholding) + m.unknown
  }

  function NonceField(v: nat): seq<byte> {
    if v == 0 then [] else [0x20] + Varint(v)
  }

  function EncodeNonHash(m: NonHash): seq<byte> {
    OptField(0x0a, m.nodeHash) + OptField(0x12, m.privateTxHash) + Fields(0x1a, m.collection) + NonceField(m.nonce) + m.unknown
  }

  /** One round of a decoder: on to the next field, or an error. */
  datatype Next<+M> = More(next: nat, message: M) | Fail(error: Error)

  /** A round moves forward and stays inside the data. */
  ghost predicate Advances<M(!new)>(len: nat, step: (nat, M) -> Next<M>) {
    forall i: nat, m :: i < len && step(i, m).More? ==> i < step(i, m).next <= len
  }

  /** The outer loop of every decoder. */
  function Decode<M(!new)>(len: nat, step: (nat, M) -> Next<M>, i: nat, m: M): Result<M>
    requires Advances(len, step) && i <= len
    decreases len - i
  {
    if i == len then Ok(m)
    else
      match step(i, m)
      case Fail(e) => Err(e)
      case More(next, m') => Decode(len, step, next, m')
  }

  function ParticipantField(data: seq<byte>, i: nat, m: Participant): (r: Next<Participant>)
    ensures i < |data| && r.More? ==> i < r.next <= |data|
  {
    match TagAt(data, i)
    case Bad(e) => Fail(e)
    case Good(tag, next) =>
      if tag.field == 1 || tag.field == 2 then
        if tag.wireType != 2 then Fail(WrongWireType)
        else
          match BytesAt(data, next)
          case Bad(e) => Fail(e)
          case Good(b, end) => More(end, if tag.field == 1 then SetInitiator(m, b) else AddWithholding(m, b))
      else
        match UnknownAt(data, i)
        case Bad(e) => Fail(e)
        case Good(raw, end) => More(end, m.(unknown := m.unknown + raw))
  }

  function NonHashField(data: seq<byte>, i: nat, m: NonHash): (r: Next<NonHash>)
    ensures i < |data| && r.More? ==> i < r.next <= |data|
  {
    match TagAt(data, i)
    case Bad(e) => Fail(e)
    case Good(tag, next) =>
      if 1 <= tag.field <= 3 then
        if tag.wireType != 2 then Fail(WrongWireType)
        else
          match BytesAt(data, next)
          case Bad(e) => Fail(e)
          case Good(b, end) =>
            More(end, if tag.field == 1 then SetNodeHash(m, b) else if tag.field == 2 then SetPrivateTxHash(m, b) else AddCollection(m, b))
      else if tag.field == 4 then
        if tag.wireType != 0 then Fail(WrongWireType)
        else
          match VarintAt(data, next)
          case Bad(e) => Fail(e)
          case Good(v, end) => More(end, m.(nonce := v))
      else
        match UnknownAt(data, i)
        case Bad(e) => Fail(e)
        case Good(raw, end) => More(end, m.(unknown := m.unknown + raw))
  }

  function ParticipantStep(data: seq<byte>): (step: (nat, Participant) -> Next<Participant>)
    ensures Advances(|data|, step)
    ensures forall i, m {:trigger step(i, m)} :: step(i, m) == ParticipantField(data, i, m)
  {
    (i: nat, m: Participant) => ParticipantField(data, i, m)
  }

  function NonHashStep(data: seq<byte>): (step: (nat, NonHash) -> Next<NonHash>)
    ensures Advances(|data|, step)
    ensures forall i, m {:trigger step(i, m)} :: step(i, m) == NonHashField(data, i, m)
  {
    (i: nat, m: NonHash) => NonHashField(data, i, m)
  }

  /** UnmarshalVT of a Participant, as a function. */
  function DecodeParticipant(data: seq<byte>): Result<Participant> {
    Decode(|data|, ParticipantStep(data), 0, EMPTY_PARTICIPANT)
  }

  /** UnmarshalVT of a NonHash, as a function. */
  function DecodeNonHash(data: seq<byte>): Result<NonHash> {
    Decode(|data|, NonHashStep(data), 0, EMPTY_NON_HASH)
  }

  function SetInitiator(m: Participant, b: seq<byte>): Participant {
    m.(initiator := b)
  }

  function SetNodeHash(m: NonHash, b: seq<byte>): NonHash {
    m.(nodeHash := b)
  }

  function SetPrivateTxHash(m: NonHash, b: seq<byte>): NonHash {
    m.(privateTxHash := b)
  }

  function AddWithholding(m: Participant, b: seq<byte>): Participant {
    m.(withholding := m.withholding + [b])
  }

  function AddCollection(m: NonHash, b: seq<byte>): NonHash {
    m.(collection := m.collection + [b])
  }

  /* ---------- round trips ---------- */

  /** A round reads a field with this tag and adds its bytes to the message. */
  ghost predicate StepsField<M(!new)>(data: seq<byte>, step: (nat, M) -> Next<M>, add: (M, seq<byte>) -> M, tag: byte) {
    forall i: nat, m, b :: At(data, i, Field(tag, b)) ==> step(i, m) == More(i + |Field(tag, b)|, add(m, b))
  }

  /** The result of decoding stays the same when such a field is read. */
  ghost predicate ReadsField<M(!new)>(data: seq<byte>, decode: (nat, M) -> Result<M>, add: (M, seq<byte>) -> M, tag: byte) {
    forall i: nat, m, b :: At(data, i, Field(tag, b)) ==> decode(i, m) == decode(i + |Field(tag, b)|, add(m, b))
  }

  /** Decoding from any place on. */
  function DecodeFrom<M(!new)>(len: nat, step: (nat, M) -> Next<M>): (nat, M) -> Result<M>
    requires Advances(len, step)
  {
    (i: nat, m: M) => if i <= len then Decode(len, step, i, m) else Err(UnexpectedEOF)
  }

  function AddAll<M>(add: (M, seq<byte>) -> M, m: M, bs: seq<seq<byte>>): M
    decreases |bs|
  {
    if bs == [] then m else AddAll(add, add(m, bs[0]), bs[1..])
  }

  lemma OneField<M(!new)>(len: nat, step: (nat, M) -> Next<M>, i: nat, m: M, j: nat, n: M)
    requires Advances(len, step) && i < len && step(i, m) == More(j, n)
    ensures j <= len && Decode(len, step, i, m) == Decode(len, step, j, n)
  {
  }

  lemma FieldInside(data: seq<byte>, i: nat, tag: byte, b: seq<byte>)
    requires At(data, i, Field(tag, b))
    ensures i < |data|
  {
  }

  lemma FirstReads<M(!new)>(data: seq<byte>, step: (nat, M) -> Next<M>, add: (M, seq<byte>) -> M, tag: byte,
                            i: nat, m: M, b: seq<byte>)
    requires Advances(|data|, step) && StepsField(data, step, add, tag) && At(data, i, Field(tag, b))
    ensures Decode(|data|, step, i, m) == Decode(|data|, step, i + |Field(tag, b)|, add(m, b))
  {
    FieldInside(data, i, tag, b);
    OneField(|data|, step, i, m, i + |Field(tag, b)|, add(m, b));
  }

  lemma StepsReads<M(!new)>(data: seq<byte>, step: (nat, M) -> Next<M>, add: (M, seq<byte>) -> M, tag: byte)
    requires Advances(|data|, step) && StepsField(data, step, add, tag)
    ensures ReadsField(data, DecodeFrom(|data|, step), add, tag)
  {
    var decode := DecodeFrom(|data|, step);
    forall i: nat, m, b | At(data, i, Field(tag, b)) ensures decode(i, m) == decode(i + |Field(tag, b)|, add(m, b)) {
      FirstReads(data, step, add, tag, i, m, b);
    }
  }

  lemma FieldsSplit(data: seq<byte>, i: nat, tag: byte, bs: seq<seq<byte>>)
    requires At(data, i, Fields(tag, bs)) && bs != []
    ensures At(data, i, Field(tag, bs[0])) && At(data, i + |Field(tag, bs[0])|, Fields(tag, bs[1..]))
    ensures |Fields(tag, bs)| == |Field(tag, bs[0])| + |Fields(tag, bs[1..])|
  {
    AtSplit(data, i, Field(tag, bs[0]), Fields(tag, bs[1..]));
  }

  /** A repeated field is read element by element. */
  lemma {:induction false} RepeatedReads<M(!new)>(data: seq<byte>, decode: (nat, M) -> Result<M>, add: (M, seq<byte>) -> M, tag: byte,
                                            i: nat, m: M, bs: seq<seq<byte>>)
    requires ReadsField(data, decode, add, tag) && At(data, i, Fields(tag, bs))
    ensures decode(i, m) == decode(i + |Fields(tag, bs)|, AddAll(add, m, bs))
    decreases |bs|
  {
    if bs != [] {
      FieldsSplit(data, i, tag, bs);
      RepeatedReads(data, decode, add, tag, i + |Field(tag, bs[0])|, add(m, bs[0]), bs[1..]);
    }
  }

  lemma OptionalReads<M(!new)>(data: seq<byte>, decode: (nat, M) -> Result<M>, add: (M, seq<byte>) -> M, tag: byte,
                               i: nat, m: M, b: seq<byte>)
    requires ReadsField(data, decode, add, tag) && At(data, i, OptField(tag, b))
    ensures decode(i, m) == decode(i + |OptField(tag, b)|, if b == [] then m else add(m, b))
  {
  }

  lemma {:induction false} AllWithheld(m: Participant, bs: seq<seq<byte>>)
    ensures AddAll(AddWithholding, m, bs) == m.(withholding := m.withholding + bs)
    decreases |bs|
  {
    if bs == [] {
      assert m.withholding + bs == m.withholding;
    } else {
      AllWithheld(AddWithholding(m, bs[0]), bs[1..]);
      assert m.withholding + [bs[0]] + bs[1..] == m.withholding + bs;
    }
  }

  lemma {:induction false} AllCollected(m: NonHash, bs: seq<seq<byte>>)
    ensures AddAll(AddCollection, m, bs) == m.(collection := m.collection + bs)
    decreases |bs|
  {
    if bs == [] {
      assert m.collection + bs == m.collection;
    } else {
      AllCollected(AddCollection(m, bs[0]), bs[1..]);
      assert m.collection + [bs[0]] + bs[1..] == m.collection + bs;
    }
  }

  /** The fields of a participant, read from the front of the data. */
  lemma ParticipantReads(data: seq<byte>, decode: (nat, Participant) -> Result<Participant>, m: Participant)
    requires At(data, 0, EncodeParticipant(m)) && m.unknown == []
    requires ReadsField(data, decode, SetInitiator, 0x0a) && ReadsField(data, decode, AddWithholding, 0x12)
    ensures decode(0, EMPTY_PARTICIPANT) == decode(|EncodeParticipant(m)|, m)
  {
    var first := OptField(0x0a, m.initiator);
    var rest := Fields(0x12, m.withholding);
    assert EncodeParticipant(m) == first + rest;
    AtSplit(data, 0, first, rest);
    var start := EMPTY_PARTICIPANT.(initiator := m.initiator);
    OptionalReads(data, decode, SetInitiator, 0x0a, 0, EMPTY_PARTICIPANT, m.initiator);
    RepeatedReads(data, decode, AddWithholding, 0x12, |first|, start, m.withholding);
    AllWithheld(start, m.withholding);
    assert start.withholding + m.withholding == m.withholding;
  }

  lemma FieldOfParticipant(data: seq<byte>, i: nat, m: Participant, tag: byte, b: seq<byte>)
    requires |data| < TWO63 && At(data, i, Field(tag, b)) && (tag == 0x0a || tag == 0x12)
    ensures ParticipantField(data, i, m)
         == More(i + |Field(tag, b)|, if tag == 0x0a then SetInitiator(m, b) else AddWithholding(m, b))
  {
    FieldReads(data, i, tag, b);
  }

  lemma ParticipantDecoder(data: seq<byte>)
    requires |data| < TWO63
    ensures var decode := DecodeFrom(|data|, ParticipantStep(data));
            ReadsField(data, decode, SetInitiator, 0x0a) && ReadsField(data, decode, AddWithholding, 0x12)
  {
    var step := ParticipantStep(data);
    forall i: nat, p, b | At(data, i, Field(0x0a, b)) ensures step(i, p) == More(i + |Field(0x0a, b)|, SetInitiator(p, b)) {
      FieldOfParticipant(data, i, p, 0x0a, b);
    }
    forall i: nat, p, b | At(data, i, Field(0x12, b)) ensures step(i, p) == More(i + |Field(0x12, b)|, AddWithholding(p, b)) {
      FieldOfParticipant(data, i, p, 0x12, b);
    }
    StepsReads(data, step, SetInitiator, 0x0a);
    StepsReads(data, step, AddWithholding, 0x12);
  }

  /** A participant without unknown fields is read back from its encoding. */
  lemma ParticipantRoundTrip(m: Participant)
    requires m.unknown == [] && |EncodeParticipant(m)| < TWO63
    ensures DecodeParticipant(EncodeParticipant(m)) == Ok(m)
  {
    var data := EncodeParticipant(m);
    ParticipantDecoder(data);
    assert At(data, 0, data);
    ParticipantReads(data, DecodeFrom(|data|, ParticipantStep(data)), m);
  }

  /** The parts of an encoded NonHash stand one after the other. */
  lemma NonHashParts(data: seq<byte>, a: seq<byte>, b: seq<byte>, d: seq<byte>, e: seq<byte>)
    requires At(data, 0, a + b + d + e)
    ensures At(data, 0, a) && At(data, |a|, b) && At(data, |a| + |b|, d) && At(data, |a| + |b| + |d|, e)
  {
    assert a + b + d + e == a + (b + (d + e));
    AtSplit(data, 0, a, b + (d + e));
    AtSplit(data, |a|, b, d + e);
    AtSplit(data, |a| + |b|, d, e);
  }

  /** What the round trip needs of a decoder of NonHash messages. */
  ghost predicate NonHashDecoder(data: seq<byte>, decode: (nat, NonHash) -> Result<NonHash>) {
    && ReadsField(data, decode, SetNodeHash, 0x0a)
    && ReadsField(data, decode, SetPrivateTxHash, 0x12)
    && ReadsField(data, decode, AddCollection, 0x1a)
    && forall i: nat, m: NonHash, v: nat :: At(data, i, NonceField(v)) && v < TWO64 && m.nonce == 0 ==>
         decode(i, m) == decode(i + |NonceField(v)|, m.(nonce := v))
  }

  /** The fields of a NonHash, read from the front of the data. */
  lemma NonHashReads(data: seq<byte>, decode: (nat, NonHash) -> Result<NonHash>, m: NonHash)
    requires At(data, 0, EncodeNonHash(m)) && m.unknown == [] && m.nonce < TWO64 && NonHashDecoder(data, decode)
    ensures decode(0, EMPTY_NON_HASH) == decode(|EncodeNonHash(m)|, m)
  {
    var a, b := OptField(0x0a, m.nodeHash), OptField(0x12, m.privateTxHash);
    var d, e := Fields(0x1a, m.collection), NonceField(m.nonce);
    assert EncodeNonHash(m) == a + b + d + e;
    NonHashParts(data, a, b, d, e);
    var m1 := EMPTY_NON_HASH.(nodeHash := m.nodeHash);
    var m2 := m1.(privateTxHash := m.privateTxHash);
    var m3 := m2.(collection := m.collection);
    OptionalReads(data, decode, SetNodeHash, 0x0a, 0, EMPTY_NON_HASH, m.nodeHash);
    OptionalReads(data, decode, SetPrivateTxHash, 0x12, |a|, m1, m.privateTxHash);
    RepeatedReads(data, decode, AddCollection, 0x1a, |a| + |b|, m2, m.collection);
    AllCollected(m2, m.collection);
    assert m2.collection + m.collection == m.collection;
    assert decode(|a| + |b| + |d|, m3) == decode(|a| + |b| + |d| + |e|, m);
  }

  lemma NonceReads(data: seq<byte>, step: (nat, NonHash) -> Next<NonHash>, i: nat, m: NonHash, v: nat)
    requires Advances(|data|, step) && v < TWO64 && m.nonce == 0 && At(data, i, NonceField(v))
    requires v != 0 ==> step(i, m) == More(i + |NonceField(v)|, m.(nonce := v))
    ensures Decode(|data|, step, i, m) == Decode(|data|, step, i + |NonceField(v)|, m.(nonce := v))
  {
    if v == 0 {
      assert m.(nonce := 0) == m;
    } else {
      OneField(|data|, step, i, m, i + |NonceField(v)|, m.(nonce := v));
    }
  }

  lemma FieldOfNonHash(data: seq<byte>, i: nat, m: NonHash, tag: byte, b: seq<byte>)
    requires |data| < TWO63 && At(data, i, Field(tag, b)) && (tag == 0x0a || tag == 0x12 || tag == 0x1a)
    ensures NonHashField(data, i, m)
         == More(i + |Field(tag, b)|,
                 if tag == 0x0a then SetNodeHash(m, b) else if tag == 0x12 then SetPrivateTxHash(m, b) else AddCollection(m, b))
  {
    FieldReads(data, i, tag, b);
  }

  lemma NonceOfNonHash(data: seq<byte>, i: nat, m: NonHash, v: nat)
    requires v != 0 && At(data, i, NonceField(v)) && v < TWO64
    ensures NonHashField(data, i, m) == More(i + |NonceField(v)|, m.(nonce := v))
  {
    FieldTag(data, i, 0x20, Varint(v));
    VarintRoundTrip(data, i + 1, v);
  }

  lemma NonHashDecodes(data: seq<byte>)
    requires |data| < TWO63
    ensures NonHashDecoder(data, DecodeFrom(|data|, NonHashStep(data)))
  {
    var step := NonHashStep(data);
    forall i: nat, p, b | At(data, i, Field(0x0a, b)) ensures step(i, p) == More(i + |Field(0x0a, b)|, SetNodeHash(p, b)) {
      FieldOfNonHash(data, i, p, 0x0a, b);
    }
    forall i: nat, p, b | At(data, i, Field(0x12, b)) ensures step(i, p) == More(i + |Field(0x12, b)|, SetPrivateTxHash(p, b)) {
      FieldOfNonHash(data, i, p, 0x12, b);
    }
    forall i: nat, p, b | At(data, i, Field(0x1a, b)) ensures step(i, p) == More(i + |Field(0x1a, b)|, AddCollection(p, b)) {
      FieldOfNonHash(data, i, p, 0x1a, b);
    }
    var decode := DecodeFrom(|data|, step);
    forall i: nat, p: NonHash, v: nat | At(data, i, NonceField(v)) && v < TWO64 && p.nonce == 0
      ensures decode(i, p) == decode(i + |NonceField(v)|, p.(nonce := v))
    {
      if v != 0 {
        NonceOfNonHash(data, i, p, v);
      }
      NonceReads(data, step, i, p, v);
    }
    StepsReads(data, step, SetNodeHash, 0x0a);
    StepsReads(data, step, SetPrivateTxHash, 0x12);
    StepsReads(data, step, AddCollection, 0x1a);
  }

  /** A NonHash without unknown fields is read back from its encoding, for every 64-bit nonce. */
  lemma NonHashRoundTrip(m: NonHash)
    requires m.unknown == [] && m.nonce < TWO64 && |EncodeNonHash(m)| < TWO63
    ensures DecodeNonHash(EncodeNonHash(m)) == Ok(m)
  {
    var data := EncodeNonHash(m);
    NonHashDecodes(data);
    assert At(data, 0, data);
    NonHashReads(data, DecodeFrom(|data|, NonHashStep(data)), m);
  }
}
