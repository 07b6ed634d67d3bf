/** Fields that a message does not know: what stands for them on the wire, that skipping passes exactly one
    of them, and that a message read back carries them unchanged. */
module WireUnknown {
  import opened Wire

  /** One tag with what belongs to it; a group stands between an opening and a closing tag. */
  datatype Part =
    | OfVarint(field: nat, v: nat)
    | OfFixed64(field: nat, b: seq<byte>)
    | OfBytes(field: nat, b: seq<byte>)
    | Open(field: nat)
    | Close(field: nat)
    | OfFixed32(field: nat, b: seq<byte>)

  predicate Sound(p: Part) {
    && 1 <= p.field < TWO31
    && match p
       case OfVarint(_, v) => v < TWO64
       case OfFixed64(_, b) => |b| == 8
       case OfBytes(_, b) => |b| < TWO63
       case OfFixed32(_, b) => |b| == 4
       case _ => true
  }

  function WireType(p: Part): (wireType: nat)
    ensures wireType < 8
  {
    match p
    case OfVarint(_, _) => 0
    case OfFixed64(_, _) => 1
    case OfBytes(_, _) => 2
    case Open(_) => 3
    case Close(_) => 4
    case OfFixed32(_, _) => 5
  }

  function TagBytes(p: Part): (s: seq<byte>)
    ensures |s| >= 1
  {
    Varint(p.field * 8 + WireType(p))
  }

  function Body(p: Part): seq<byte> {
    match p
    case OfVarint(_, v) => Varint(v)
    case OfFixed64(_, b) => b
    case OfBytes(_, b) => Varint(|b|) + b
    case OfFixed32(_, b) => b
    case _ => []
  }

  function PartBytes(p: Part): seq<byte> {
    TagBytes(p) + Body(p)
  }

  function AllBytes(parts: seq<Part>): seq<byte>
    decreases |parts|
  {
    if parts == [] then [] else PartBytes(parts[0]) + AllBytes(parts[1..])
  }

  /** The depth of groups after a part, at depth `depth` before it. */
  function DepthAfter(p: Part, depth: nat): nat {
    if p.Open? then depth + 1 else if p.Close? && depth > 0 then depth - 1 else depth
  }

  /** The parts close all groups, and only with the last one. */
  predicate Nested(parts: seq<Part>, depth: nat)
    decreases |parts|
  {
    && parts != [] && Sound(parts[0]) && (parts[0].Close? ==> depth > 0)
    && if |parts| == 1 then DepthAfter(parts[0], depth) == 0
       else DepthAfter(parts[0], depth) > 0 && Nested(parts[1..], DepthAfter(parts[0], depth))
  }

  /** A whole field: a single part, or a group with all that stands in it. */
  predicate IsField(parts: seq<Part>) {
    Nested(parts, 0)
  }

  /* ---------- skipping ---------- */

  lemma TagIs(data: seq<byte>, i: nat, p: Part)
    requires At(data, i, PartBytes(p)) && p.field < TWO31
    ensures VarintAt(data, i) == Good(p.field * 8 + WireType(p), i + |TagBytes(p)|)
    ensures (p.field * 8 + WireType(p)) / 8 == p.field && (p.field * 8 + WireType(p)) % 8 == WireType(p)
    ensures At(data, i + |TagBytes(p)|, Body(p))
  {
    AtSplit(data, i, TagBytes(p), Body(p));
    VarintRoundTrip(data, i, p.field * 8 + WireType(p));
  }

  lemma BodySkipped(data: seq<byte>, i: nat, p: Part, depth: nat)
    requires Sound(p) && |data| < TWO63 && At(data, i, Body(p)) && (p.Close? ==> depth > 0)
    ensures SkipValue(data, i, WireType(p), depth) == Good(DepthAfter(p, depth), i + |Body(p)|)
  {
    if p.OfVarint? {
      VarintRoundTrip(data, i, p.v);
    } else if p.OfBytes? {
      AtSplit(data, i, Varint(|p.b|), p.b);
      VarintRoundTrip(data, i, |p.b|);
      SmallLength(|p.b|);
    }
  }

  lemma PartSkipped(data: seq<byte>, i: nat, p: Part, depth: nat)
    requires Sound(p) && |data| < TWO63 && At(data, i, PartBytes(p)) && (p.Close? ==> depth > 0)
    ensures i < |data|
    ensures var end, d := i + |PartBytes(p)|, DepthAfter(p, depth);
            SkipFrom(data, i, depth) == if d == 0 then Good((), end) else SkipFrom(data, end, d)
  {
    TagIs(data, i, p);
    BodySkipped(data, i + |TagBytes(p)|, p, depth);
  }

  lemma AtBoth(data: seq<byte>, i: nat, all: seq<byte>, a: seq<byte>, b: seq<byte>)
    requires At(data, i, all) && all == a + b
    ensures At(data, i, a) && At(data, i + |a|, b) && |all| == |a| + |b|
  {
    AtSplit(data, i, a, b);
  }

  lemma FirstOfAll(data: seq<byte>, i: nat, parts: seq<Part>)
    requires parts != [] && At(data, i, AllBytes(parts))
    ensures At(data, i, PartBytes(parts[0])) && At(data, i + |PartBytes(parts[0])|, AllBytes(parts[1..]))
    ensures |AllBytes(parts)| == |PartBytes(parts[0])| + |AllBytes(parts[1..])|
  {
    AtBoth(data, i, AllBytes(parts), PartBytes(parts[0]), AllBytes(parts[1..]));
  }

  /** Skipping from a place, in a group of some depth. */
  type Skipper = (nat, nat) -> Parsed<()>

  function SkipperOf(data: seq<byte>): Skipper {
    (i: nat, depth: nat) => SkipFrom(data, i, depth)
  }

  /** What skipping does with one part. */
  predicate Passes(data: seq<byte>, skip: Skipper, i: nat, p: Part, depth: nat) {
    Sound(p) && At(data, i, PartBytes(p)) && (p.Close? ==> depth > 0) ==>
      var end, d := i + |PartBytes(p)|, DepthAfter(p, depth);
      skip(i, depth) == if d == 0 then Good((), end) else skip(end, d)
  }

  ghost predicate PassesAll(data: seq<byte>, skip: Skipper) {
    forall i: nat, p: Part, depth: nat :: Passes(data, skip, i, p, depth)
  }

  lemma PartsSkipped(data: seq<byte>)
    requires |data| < TWO63
    ensures PassesAll(data, SkipperOf(data))
  {
    forall i: nat, p: Part, depth: nat ensures Passes(data, SkipperOf(data), i, p, depth) {
      if Sound(p) && At(data, i, PartBytes(p)) && (p.Close? ==> depth > 0) {
        PartSkipped(data, i, p, depth);
      }
    }
  }

  /** Skipping passes exactly the parts that close all groups. */
  lemma {:induction false} NestedSkipped(data: seq<byte>, skip: Skipper, i: nat, parts: seq<Part>, depth: nat)
    requires Nested(parts, depth) && PassesAll(data, skip) && At(data, i, AllBytes(parts))
    ensures skip(i, depth) == Good((), i + |AllBytes(parts)|)
    decreases |parts|
  {
    FirstOfAll(data, i, parts);
    assert Passes(data, skip, i, parts[0], depth);
    if |parts| > 1 {
      NestedSkipped(data, skip, i + |PartBytes(parts[0])|, parts[1..], DepthAfter(parts[0], depth));
    } else {
      assert AllBytes(parts[1..]) == [];
    }
  }

  /** The bytes of a whole field whose number the message does not use. */
  ghost predicate IsUnknown(b: seq<byte>, known: set<nat>) {
    exists parts: seq<Part> :: IsField(parts) && b == AllBytes(parts) && parts[0].field !in known
  }

  lemma SliceStands(data: seq<byte>, i: nat, b: seq<byte>)
    requires At(data, i, b)
    ensures At(data[i..], 0, b)
  {
    assert data[i..][0..|b|] == data[i..i + |b|];
  }

  /** The bytes of an unknown field are taken as they are. */
  lemma UnknownRead(data: seq<byte>, i: nat, b: seq<byte>, known: set<nat>)
    requires IsUnknown(b, known) && |data| < TWO63 && At(data, i, b)
    ensures i < |data| && UnknownAt(data, i) == Good(b, i + |b|)
  {
    SliceStands(data, i, b);
    UnknownSkipped(data[i..], b, known);
  }

  lemma UnknownSkipped(rest: seq<byte>, b: seq<byte>, known: set<nat>)
    requires IsUnknown(b, known) && |rest| < TWO63 && At(rest, 0, b)
    ensures 0 < |rest| && SkipFrom(rest, 0, 0) == Good((), |b|)
  {
    var parts: seq<Part> :| IsField(parts) && b == AllBytes(parts) && parts[0].field !in known;
    PartsSkipped(rest);
    NestedSkipped(rest, SkipperOf(rest), 0, parts, 0);
    FirstOfAll(rest, 0, parts);
  }

  lemma UnknownTag(data: seq<byte>, i: nat, b: seq<byte>, known: set<nat>)
    requires IsUnknown(b, known) && At(data, i, b)
    ensures TagAt(data, i).Good? && TagAt(data, i).value.field > 0 && forall f :: f in known ==> TagAt(data, i).value.field != f
  {
    var parts: seq<Part> :| IsField(parts) && b == AllBytes(parts) && parts[0].field !in known;
    FirstOfAll(data, i, parts);
    FirstTag(data, i, parts[0]);
  }

  lemma FirstTag(data: seq<byte>, i: nat, p: Part)
    requires Sound(p) && !p.Close? && At(data, i, PartBytes(p))
    ensures TagAt(data, i).Good? && TagAt(data, i).value.field == p.field
  {
    TagIs(data, i, p);
    SmallField(p.field);
  }

  lemma SmallField(field: nat)
    requires field < TWO31
    ensures ToInt32(field) == field
  {
  }

  /* ---------- messages with unknown fields ---------- */

  function Joined(bs: seq<seq<byte>>): seq<byte>
    decreases |bs|
  {
    if bs == [] then [] else bs[0] + Joined(bs[1..])
  }

  ghost predicate AllUnknown(bs: seq<seq<byte>>, known: set<nat>) {
    forall k :: 0 <= k < |bs| ==> IsUnknown(bs[k], known)
  }

  /** The result of decoding stays the same when an unknown field is taken over into the message. */
  ghost predicate Takes<M>(data: seq<byte>, decode: (nat, M) -> Result<M>, add: (M, seq<byte>) -> M, known: set<nat>,
                           i: nat, m: M, b: seq<byte>)
  {
    IsUnknown(b, known) && At(data, i, b) ==> decode(i, m) == decode(i + |b|, add(m, b))
  }

  ghost predicate TakesOver<M(!new)>(data: seq<byte>, decode: (nat, M) -> Result<M>, add: (M, seq<byte>) -> M, known: set<nat>) {
    forall i: nat, m, b :: Takes(data, decode, add, known, i, m, b)
  }

  lemma {:induction false} UnknownTaken<M(!new)>(data: seq<byte>, decode: (nat, M) -> Result<M>, add: (M, seq<byte>) -> M,
                                                 known: set<nat>, i: nat, m: M, bs: seq<seq<byte>>)
    requires TakesOver(data, decode, add, known) && AllUnknown(bs, known) && At(data, i, Joined(bs))
    ensures decode(i, m) == decode(i + |Joined(bs)|, AddAll(add, m, bs))
    decreases |bs|
  {
    if bs != [] {
      AtSplit(data, i, bs[0], Joined(bs[1..]));
      assert Takes(data, decode, add, known, i, m, bs[0]);
      UnknownTaken(data, decode, add, known, i + |bs[0]|, add(m, bs[0]), bs[1..]);
    }
  }

  lemma KeepsUnknown<M(!new)>(data: seq<byte>, decode: (nat, M) -> Result<M>, add: (M, seq<byte>) -> M, known: set<nat>,
                              first: seq<byte>, start: M, plain: M, bs: seq<seq<byte>>)
    requires data == first + Joined(bs) && decode(0, start) == decode(|first|, plain)
    requires TakesOver(data, decode, add, known) && AllUnknown(bs, known)
    ensures decode(0, start) == decode(|data|, AddAll(add, plain, bs))
  {
    assert At(data, 0, first + Joined(bs));
    AtSplit(data, 0, first, Joined(bs));
    UnknownTaken(data, decode, add, known, |first|, plain, bs);
  }

  /** A round takes an unknown field over into the message. */
  ghost predicate RoundTakes<M>(data: seq<byte>, step: (nat, M) -> Next<M>, add: (M, seq<byte>) -> M, known: set<nat>,
                                i: nat, m: M, b: seq<byte>)
  {
    IsUnknown(b, known) && At(data, i, b) ==> i < |data| && step(i, m) == More(i + |b|, add(m, b))
  }

  lemma RoundsTakeOver<M(!new)>(data: seq<byte>, step: (nat, M) -> Next<M>, add: (M, seq<byte>) -> M, known: set<nat>)
    requires Advances(|data|, step) && forall i: nat, m, b :: RoundTakes(data, step, add, known, i, m, b)
    ensures TakesOver(data, DecodeFrom(|data|, step), add, known)
  {
    var decode := DecodeFrom(|data|, step);
    forall i: nat, m, b ensures Takes(data, decode, add, known, i, m, b) {
      assert RoundTakes(data, step, add, known, i, m, b);
      if IsUnknown(b, known) && At(data, i, b) {
        OneField(|data|, step, i, m, i + |b|, add(m, b));
      }
    }
  }

  lemma Finished<M(!new)>(len: nat, step: (nat, M) -> Next<M>, m: M)
    requires Advances(len, step)
    ensures Decode(len, step, len, m) == Ok(m)
  {
  }

  /* ---------- participants ---------- */

  function AddToParticipant(m: Participant, b: seq<byte>): Participant {
    m.(unknown := m.unknown + b)
  }

  lemma {:induction false} AllAddedToParticipant(m: Participant, bs: seq<seq<byte>>)
    ensures AddAll(AddToParticipant, m, bs) == m.(unknown := m.unknown + Joined(bs))
    decreases |bs|
  {
    if bs == [] {
      assert m.unknown + [] == m.unknown;
    } else {
      AllAddedToParticipant(AddToParticipant(m, bs[0]), bs[1..]);
      assert m.unknown + bs[0] + Joined(bs[1..]) == m.unknown + Joined(bs);
    }
  }

  lemma ParticipantFieldTaken(data: seq<byte>, i: nat, m: Participant, b: seq<byte>)
    requires IsUnknown(b, {1, 2}) && |data| < TWO63 && At(data, i, b)
    ensures i < |data| && ParticipantStep(data)(i, m) == More(i + |b|, AddToParticipant(m, b))
  {
    UnknownTag(data, i, b, {1, 2});
    UnknownRead(data, i, b, {1, 2});
  }

  lemma ParticipantTakesOver(data: seq<byte>)
    requires |data| < TWO63
    ensures TakesOver(data, DecodeFrom(|data|, ParticipantStep(data)), AddToParticipant, {1, 2})
  {
    var step := ParticipantStep(data);
    forall i: nat, m, b ensures RoundTakes(data, step, AddToParticipant, {1, 2}, i, m, b) {
      if IsUnknown(b, {1, 2}) && At(data, i, b) {
        ParticipantFieldTaken(data, i, m, b);
      }
    }
    RoundsTakeOver(data, step, AddToParticipant, {1, 2});
  }

  lemma ParticipantFront(m: Participant)
    ensures EncodeParticipant(m) == EncodeParticipant(m.(unknown := [])) + m.unknown
    ensures At(EncodeParticipant(m), 0, EncodeParticipant(m.(unknown := [])))
  {
  }

  /** A participant is read back from its encoding with whatever unknown fields it carries. */
  lemma ParticipantKeepsUnknown(m: Participant, bs: seq<seq<byte>>)
    requires m.unknown == Joined(bs) && AllUnknown(bs, {1, 2}) && |EncodeParticipant(m)| < TWO63
    ensures DecodeParticipant(EncodeParticipant(m)) == Ok(m)
  {
    var data, plain := EncodeParticipant(m), m.(unknown := []);
    var decode := DecodeFrom(|data|, ParticipantStep(data));
    ParticipantFront(m);
    ParticipantDecoder(data);
    ParticipantReads(data, decode, plain);
    ParticipantTakesOver(data);
    KeepsUnknown(data, decode, AddToParticipant, {1, 2}, EncodeParticipant(plain), EMPTY_PARTICIPANT, plain, bs);
    AllAddedToParticipant(plain, bs);
    assert [] + m.unknown == m.unknown;
    Finished(|data|, ParticipantStep(data), m);
  }

  /* ---------- node hashes ---------- */

  function AddToNonHash(m: NonHash, b: seq<byte>): NonHash {
    m.(unknown := m.unknown + b)
  }

  lemma {:induction false} AllAddedToNonHash(m: NonHash, bs: seq<seq<byte>>)
    ensures AddAll(AddToNonHash, m, bs) == m.(unknown := m.unknown + Joined(bs))
    decreases |bs|
  {
    if bs == [] {
      assert m.unknown + [] == m.unknown;
    } else {
      AllAddedToNonHash(AddToNonHash(m, bs[0]), bs[1..]);
      assert m.unknown + bs[0] + Joined(bs[1..]) == m.unknown + Joined(bs);
    }
  }

  lemma NonHashFieldTaken(data: seq<byte>, i: nat, m: NonHash, b: seq<byte>)
    requires IsUnknown(b, {1, 2, 3, 4}) && |data| < TWO63 && At(data, i, b)
    ensures i < |data| && NonHashStep(data)(i, m) == More(i + |b|, AddToNonHash(m, b))
  {
    UnknownTag(data, i, b, {1, 2, 3, 4});
    UnknownRead(data, i, b, {1, 2, 3, 4});
  }

  lemma NonHashTakesOver(data: seq<byte>)
    requires |data| < TWO63
    ensures TakesOver(data, DecodeFrom(|data|, NonHashStep(data)), AddToNonHash, {1, 2, 3, 4})
  {
    var step := NonHashStep(data);
    forall i: nat, m, b ensures RoundTakes(data, step, AddToNonHash, {1, 2, 3, 4}, i, m, b) {
      if IsUnknown(b, {1, 2, 3, 4}) && At(data, i, b) {
        NonHashFieldTaken(data, i, m, b);
      }
    }
    RoundsTakeOver(data, step, AddToNonHash, {1, 2, 3, 4});
  }

  lemma NonHashFront(m: NonHash)
    ensures EncodeNonHash(m) == EncodeNonHash(m.(unknown := [])) + m.unknown
    ensures At(EncodeNonHash(m), 0, EncodeNonHash(m.(unknown := [])))
  {
  }

  /** So is a NonHash. */
  lemma NonHashKeepsUnknown(m: NonHash, bs: seq<seq<byte>>)
    requires m.unknown == Joined(bs) && AllUnknown(bs, {1, 2, 3, 4}) && m.nonce < TWO64 && |EncodeNonHash(m)| < TWO63
    ensures DecodeNonHash(EncodeNonHash(m)) == Ok(m)
  {
    var data, plain := EncodeNonHash(m), m.(unknown := []);
    var decode := DecodeFrom(|data|, NonHashStep(data));
    NonHashFront(m);
    NonHashDecodes(data);
    NonHashReads(data, decode, plain);
    NonHashTakesOver(data);
    KeepsUnknown(data, decode, AddToNonHash, {1, 2, 3, 4}, EncodeNonHash(plain), EMPTY_NON_HASH, plain, bs);
    AllAddedToNonHash(plain, bs);
    assert [] + m.unknown == m.unknown;
    Finished(|data|, NonHashStep(data), m);
  }
}
