/** Building and checking the content of a new view: the request chosen for every sequence
    number (assignSequenceNumbers) and the checkpoint it starts from (selectInitialCheckpoint).
    The declarative rules come first; the two methods at the end are the program's loops, proved
    to compute them. */
module NewView {
  import opened Quorum

  type Digest = string

  /** The digest of the null request. */
  const NULL_REQUEST: Digest := ""

  datatype Option<+T> = None | Some(value: T)

  /** A P or Q entry of a view-change message. */
  datatype VcPq = VcPq(n: nat, d: Digest, v: nat)

  datatype CheckpointState = CheckpointState(height: nat, digest: Digest, isConfig: bool)

  /** The signed part of a view-change message. */
  datatype VcBasis = VcBasis(view: nat, h: nat, id: nat, pset: seq<VcPq>, qset: seq<VcPq>,
                             cset: seq<CheckpointState>)

  /** One assigned number of a new view. */
  datatype XEntry = XEntry(n: nat, d: Digest)

  /* ---------- the rule for one sequence number ---------- */

  /** Entry `e` of some P set does not contradict choosing `em` for the same number. */
  predicate Compatible(e: VcPq, em: VcPq) {
    e.n == em.n ==> e.v < em.v || (e.v == em.v && e.d == em.d)
  }

  /** Basis `m` counts towards A1 for `em`. */
  predicate SupportsA1(m: VcBasis, em: VcPq) {
    m.h < em.n && forall i :: 0 <= i < |m.pset| ==> Compatible(m.pset[i], em)
  }

  predicate Backs(e: VcPq, em: VcPq) {
    e.n == em.n && e.v >= em.v && e.d == em.d
  }

  /** Basis `m` counts towards A2 for `em`. */
  predicate SupportsA2(m: VcBasis, em: VcPq) {
    exists i :: 0 <= i < |m.qset| && Backs(m.qset[i], em)
  }

  /** Basis `m` counts towards the null request for `n`. */
  predicate SupportsNull(m: VcBasis, n: nat) {
    m.h < n && forall i :: 0 <= i < |m.pset| ==> m.pset[i].n != n
  }

  function A1Voters(s: seq<VcBasis>, em: VcPq): set<nat> {
    set i: nat | i < |s| && SupportsA1(s[i], em)
  }

  function A2Voters(s: seq<VcBasis>, em: VcPq): set<nat> {
    set i: nat | i < |s| && SupportsA2(s[i], em)
  }

  function NullVoters(s: seq<VcBasis>, n: nat): set<nat> {
    set i: nat | i < |s| && SupportsNull(s[i], n)
  }

  /** The numbers below k. */
  function Indices(k: nat): (r: set<nat>)
    ensures forall i: nat :: i in r <==> i < k
    ensures |r| == k
  {
    if k == 0 then {} else Indices(k - 1) + {k - 1}
  }

  lemma AllEntries(t: seq<VcBasis>, voters: set<nat>)
    requires forall i: nat :: i in voters <==> i < |t|
    ensures |voters| == |t|
  {
    assert voters == Indices(|t|);
  }

  predicate Selectable(c: Config, s: seq<VcBasis>, em: VcPq)
    requires c.n >= 1
  {
    |A1Voters(s, em)| >= c.Q() && |A2Voters(s, em)| >= c.Weak()
  }

  /** The first selectable entry for `n` in a P set. */
  function FirstInP(c: Config, s: seq<VcBasis>, p: seq<VcPq>, n: nat): Option<Digest>
    requires c.n >= 1
  {
    if p == [] then None
    else if p[0].n == n && Selectable(c, s, p[0]) then Some(p[0].d)
    else FirstInP(c, s, p[1..], n)
  }

  /** The first selectable entry for `n` among the bases from index `i` on. */
  function FirstFrom(c: Config, s: seq<VcBasis>, i: nat, n: nat): Option<Digest>
    requires c.n >= 1 && i <= |s|
    decreases |s| - i
  {
    if i == |s| then None
    else
      var here := FirstInP(c, s, s[i].pset, n);
      if here.Some? then here else FirstFrom(c, s, i + 1, n)
  }

  /** What the set of bases says about one number: a digest, the null request, or nothing. */
  datatype Slot = Chosen(d: Digest) | NullSlot | Stuck

  function SlotOf(c: Config, s: seq<VcBasis>, n: nat): Slot
    requires c.n >= 1
  {
    var r := FirstFrom(c, s, 0, n);
    if r.Some? then Chosen(r.value)
    else if |NullVoters(s, n)| >= c.Q() then NullSlot
    else Stuck
  }

  /** The highest number in (h, top] that got a digest; h when there is none. */
  function HighestChosen(slots: nat -> Slot, h: nat, top: nat): (n: nat)
    requires h <= top
    ensures h <= n <= top
    ensures n > h ==> slots(n).Chosen?
    ensures forall k :: n < k <= top ==> !slots(k).Chosen?
    decreases top
  {
    if top == h then h
    else if slots(top).Chosen? then top
    else HighestChosen(slots, h, top - 1)
  }

  /** The last number kept after null requests at the top are pruned. A chosen digest that is
      itself the null request is pruned when it is the highest chosen one. */
  function LastKept(slots: nat -> Slot, h: nat, l: nat): (n: nat)
    ensures h <= n <= h + l
  {
    var top := HighestChosen(slots, h, h + l);
    if top > h && slots(top) == Chosen(NULL_REQUEST) then top - 1 else top
  }

  function SlotDigest(slot: Slot): Digest {
    if slot.Chosen? then slot.d else NULL_REQUEST
  }

  /** None when some number of (h, h+l] is stuck, else the numbers h+1, h+2, ... up to the last
      one kept, each with the digest its slot says. */
  function ListOf(slots: nat -> Slot, h: nat, l: nat): (r: Option<seq<XEntry>>)
    ensures r.None? <==> exists n :: h < n <= h + l && slots(n).Stuck?
    ensures r.Some? ==> |r.value| == LastKept(slots, h, l) - h
    ensures r.Some? ==> forall i :: 0 <= i < |r.value| ==> r.value[i] == XEntry(h + 1 + i, SlotDigest(slots(h + 1 + i)))
  {
    if exists n :: h < n <= h + l && slots(n).Stuck? then None
    else Some(seq(LastKept(slots, h, l) - h, i requires 0 <= i => XEntry(h + 1 + i, SlotDigest(slots(h + 1 + i)))))
  }

  function Slots(c: Config, s: seq<VcBasis>): nat -> Slot
    requires c.n >= 1
  {
    (n: nat) => SlotOf(c, s, n)
  }

  /** The assignment rule of a new view with base h. */
  function Assignment(c: Config, s: seq<VcBasis>, h: nat): Option<seq<XEntry>>
    requires c.n >= 1
  {
    ListOf(Slots(c, s), h, c.l)
  }

  lemma {:induction false} FirstInPSome(c: Config, s: seq<VcBasis>, p: seq<VcPq>, n: nat) returns (j: nat)
    requires c.n >= 1
    requires FirstInP(c, s, p, n).Some?
    ensures j < |p| && p[j].n == n && FirstInP(c, s, p, n) == Some(p[j].d) && Selectable(c, s, p[j])
    ensures forall k :: 0 <= k < j && p[k].n == n ==> !Selectable(c, s, p[k])
  {
    if p[0].n == n && Selectable(c, s, p[0]) {
      j := 0;
    } else {
      j := FirstInPSome(c, s, p[1..], n);
      j := j + 1;
    }
  }

  lemma {:induction false} FirstInPNone(c: Config, s: seq<VcBasis>, p: seq<VcPq>, n: nat, j: nat)
    requires c.n >= 1
    requires FirstInP(c, s, p, n).None?
    requires j < |p| && p[j].n == n
    ensures !Selectable(c, s, p[j])
  {
    if j > 0 {
      FirstInPNone(c, s, p[1..], n, j - 1);
    }
  }

  /** No selectable entry for n stands in the bases from i on before entry j of base m. */
  ghost predicate NoneBefore(c: Config, s: seq<VcBasis>, i: nat, n: nat, m: nat, j: nat)
    requires c.n >= 1 && m < |s|
  {
    forall a: nat, b: nat :: i <= a <= m && b < |s[a].pset| && (a < m || b < j) && s[a].pset[b].n == n ==>
      !Selectable(c, s, s[a].pset[b])
  }

  lemma {:induction false} FirstFromSome(c: Config, s: seq<VcBasis>, i: nat, n: nat) returns (m: nat, j: nat)
    requires c.n >= 1 && i <= |s|
    requires FirstFrom(c, s, i, n).Some?
    ensures m < |s| && j < |s[m].pset| && s[m].pset[j].n == n
    ensures FirstFrom(c, s, i, n) == Some(s[m].pset[j].d) && Selectable(c, s, s[m].pset[j])
    ensures i <= m && NoneBefore(c, s, i, n, m, j)
    decreases |s| - i
  {
    if FirstInP(c, s, s[i].pset, n).Some? {
      m := i;
      j := FirstInPSome(c, s, s[i].pset, n);
    } else {
      m, j := FirstFromSome(c, s, i + 1, n);
      forall b: nat | b < |s[i].pset| && s[i].pset[b].n == n ensures !Selectable(c, s, s[i].pset[b]) {
        FirstInPNone(c, s, s[i].pset, n, b);
      }
    }
  }

  lemma {:induction false} FirstFromNone(c: Config, s: seq<VcBasis>, i: nat, n: nat, m: nat, j: nat)
    requires c.n >= 1 && i <= m < |s|
    requires FirstFrom(c, s, i, n).None?
    requires j < |s[m].pset| && s[m].pset[j].n == n
    ensures !Selectable(c, s, s[m].pset[j])
    decreases |s| - i
  {
    if i == m {
      FirstInPNone(c, s, s[i].pset, n, j);
    } else {
      FirstFromNone(c, s, i + 1, n, m, j);
    }
  }

  /** These bases start below the entry's number and hold no P entry for it that is newer, or as new and for
      another request. */
  ghost predicate NoneContradicts(s: seq<VcBasis>, em: VcPq, places: set<nat>) {
    forall i :: i in places ==>
      && i < |s| && s[i].h < em.n
      && forall e :: e in s[i].pset && e.n == em.n ==> e.v < em.v || (e.v == em.v && e.d == em.d)
  }

  /** Each of these bases holds a Q entry for the same request that is at least as new. */
  ghost predicate EachBacks(s: seq<VcBasis>, em: VcPq, places: set<nat>) {
    forall i :: i in places ==> i < |s| && exists e :: e in s[i].qset && e.n == em.n && e.d == em.d && e.v >= em.v
  }

  /** These bases start below n and hold no P entry for it. */
  ghost predicate NoneSpeaks(s: seq<VcBasis>, n: nat, places: set<nat>) {
    forall i :: i in places ==> i < |s| && s[i].h < n && forall e :: e in s[i].pset ==> e.n != n
  }

  /** An entry can be selected if and only if a quorum of bases does not contradict it and F + 1 back it. */
  lemma SelectableIff(c: Config, s: seq<VcBasis>, em: VcPq)
    requires c.n >= 1
    ensures Selectable(c, s, em) <==>
              && (exists a: set<nat> :: NoneContradicts(s, em, a) && |a| >= c.Q())
              && (exists b: set<nat> :: EachBacks(s, em, b) && |b| >= c.F() + 1)
  {
    forall a: set<nat> | NoneContradicts(s, em, a) ensures |a| <= |A1Voters(s, em)| {
      SubsetCount(a, A1Voters(s, em));
    }
    forall b: set<nat> | EachBacks(s, em, b) ensures |b| <= |A2Voters(s, em)| {
      forall i | i in b ensures i in A2Voters(s, em) {
        BacksSomewhere(s[i], em);
      }
      SubsetCount(b, A2Voters(s, em));
    }
    assert NoneContradicts(s, em, A1Voters(s, em)) && EachBacks(s, em, A2Voters(s, em));
  }

  lemma BacksSomewhere(m: VcBasis, em: VcPq)
    requires exists e :: e in m.qset && e.n == em.n && e.d == em.d && e.v >= em.v
    ensures SupportsA2(m, em)
  {
    var e :| e in m.qset && e.n == em.n && e.d == em.d && e.v >= em.v;
    var i :| 0 <= i < |m.qset| && m.qset[i] == e;
  }

  ghost predicate SelectableAt(c: Config, s: seq<VcBasis>, n: nat, m: nat, j: nat)
    requires c.n >= 1
  {
    m < |s| && j < |s[m].pset| && s[m].pset[j].n == n && Selectable(c, s, s[m].pset[j])
  }

  /** What a number gets: the request of the first P entry for it that can be selected; the null request if
      there is none and a quorum of bases does not speak of it; and otherwise nothing. */
  lemma SlotIs(c: Config, s: seq<VcBasis>, n: nat)
    requires c.n >= 1
    ensures var slot := SlotOf(c, s, n);
            && (slot.Chosen? <==> exists m: nat, j: nat :: SelectableAt(c, s, n, m, j))
            && (slot.Chosen? ==>
                  exists m: nat, j: nat :: SelectableAt(c, s, n, m, j) && slot.d == s[m].pset[j].d && NoneBefore(c, s, 0, n, m, j))
            && (slot.NullSlot? <==>
                  && (forall m: nat, j: nat :: !SelectableAt(c, s, n, m, j))
                  && exists a: set<nat> :: NoneSpeaks(s, n, a) && |a| >= c.Q())
  {
    var r := FirstFrom(c, s, 0, n);
    if r.Some? {
      var m, j := FirstFromSome(c, s, 0, n);
      assert SelectableAt(c, s, n, m, j);
    } else {
      forall m: nat, j: nat ensures !SelectableAt(c, s, n, m, j) {
        if m < |s| && j < |s[m].pset| && s[m].pset[j].n == n {
          FirstFromNone(c, s, 0, n, m, j);
        }
      }
    }
    forall a: set<nat> | NoneSpeaks(s, n, a) ensures |a| <= |NullVoters(s, n)| {
      SubsetCount(a, NullVoters(s, n));
    }
    assert NoneSpeaks(s, n, NullVoters(s, n));
  }

  /* ---------- the rule for the initial checkpoint ---------- */

  function Holders(s: seq<VcBasis>, cs: CheckpointState): set<nat> {
    set i: nat | i < |s| && cs in s[i].cset
  }

  /** Bases whose low watermark is at or below `height`. */
  function LowVoters(s: seq<VcBasis>, height: nat): set<nat> {
    set i: nat | i < |s| && s[i].h <= height
  }

  /** A weak certificate (a quorum for a config checkpoint) and a quorum of low watermarks. */
  predicate Qualifies(c: Config, s: seq<VcBasis>, cs: CheckpointState)
    requires c.n >= 1
  {
    && |Holders(s, cs)| >= c.Weak()
    && (cs.isConfig ==> |Holders(s, cs)| >= c.Q())
    && |LowVoters(s, cs.height)| >= c.Q()
  }

  /** The initial checkpoint: a highest one that qualifies. */
  ghost predicate IsInitialCheckpoint(c: Config, s: seq<VcBasis>, cs: CheckpointState)
    requires c.n >= 1
  {
    Qualifies(c, s, cs) && forall other :: Qualifies(c, s, other) ==> other.height <= cs.height
  }

  /** Different places of the list hold the checkpoint. */
  ghost predicate HoldCheckpoint(s: seq<VcBasis>, cs: CheckpointState, places: set<nat>) {
    forall i :: i in places ==> i < |s| && cs in s[i].cset
  }

  ghost predicate HaveLowMarks(s: seq<VcBasis>, height: nat, places: set<nat>) {
    forall i :: i in places ==> i < |s| && s[i].h <= height
  }

  /** F + 1 bases hold the checkpoint, a quorum of them when it changes the configuration, and a quorum of
      low watermarks are not above it. */
  ghost predicate CertifiedBy(c: Config, s: seq<VcBasis>, cs: CheckpointState, held: set<nat>, low: set<nat>)
    requires c.n >= 1
  {
    && HoldCheckpoint(s, cs, held) && |held| >= (if cs.isConfig then c.Q() else c.F() + 1)
    && HaveLowMarks(s, cs.height, low) && |low| >= c.Q()
  }

  /** Such bases are what makes a checkpoint qualify, and nothing less does. */
  lemma QualifiesIff(c: Config, s: seq<VcBasis>, cs: CheckpointState)
    requires c.n >= 1
    ensures Qualifies(c, s, cs) <==> exists held: set<nat>, low: set<nat> :: CertifiedBy(c, s, cs, held, low)
  {
    if Qualifies(c, s, cs) {
      assert CertifiedBy(c, s, cs, Holders(s, cs), LowVoters(s, cs.height));
    }
    forall held: set<nat>, low: set<nat> | CertifiedBy(c, s, cs, held, low) ensures Qualifies(c, s, cs) {
      SubsetCount(held, Holders(s, cs));
      SubsetCount(low, LowVoters(s, cs.height));
    }
  }

  /** With at most one weakly certified value per height, what is selected does not depend on
      the order in which the candidates are visited. */
  lemma InitialCheckpointUnique(c: Config, s: seq<VcBasis>, a: CheckpointState, b: CheckpointState)
    requires c.n >= 1
    requires forall x, y :: |Holders(s, x)| >= c.Weak() && |Holders(s, y)| >= c.Weak() && x.height == y.height ==> x == y
    requires IsInitialCheckpoint(c, s, a) && IsInitialCheckpoint(c, s, b)
    ensures a == b
  {
    assert a.height == b.height;
  }

  /* ---------- senders and quorums ---------- */

  /** One basis per replica. The new primary reads its bases from a store keyed by (view, id). */
  predicate OnePerReplica(c: Config, s: seq<VcBasis>) {
    && (forall i :: 0 <= i < |s| ==> s[i].id in c.Replicas())
    && (forall i, j :: 0 <= i < j < |s| ==> s[i].id != s[j].id)
  }

  /** The entries of a list of bases that were sent by members of `x`. */
  function EntriesFrom(s: seq<VcBasis>, x: set<nat>): set<nat> {
    set i: nat | i < |s| && s[i].id in x
  }

  /** No few senders fill a quorum of the list: neither the replicas that may be faulty or outside a
      quorum, nor, for a weak certificate, those that may be faulty. A backup counts entries and does
      not compare their senders, so a list it is sent need not be like this. */
  ghost predicate SafeSenders(c: Config, s: seq<VcBasis>)
    requires c.n >= 1
  {
    && (forall i :: 0 <= i < |s| ==> s[i].id in c.Replicas())
    && (forall x: set<nat> :: |x| <= c.n - c.Q() + c.F() ==> |EntriesFrom(s, x)| < c.Q())
    && (forall x: set<nat> :: |x| <= c.F() ==> |EntriesFrom(s, x)| <= c.F())
  }

  function Senders(s: seq<VcBasis>, voters: set<nat>): set<nat> {
    set i | i in voters && i < |s| :: s[i].id
  }

  lemma SenderStep(s: seq<VcBasis>, rest: set<nat>, i: nat)
    requires i < |s|
    ensures Senders(s, rest + {i}) == Senders(s, rest) + {s[i].id}
  {
  }

  /** A list has at least as many entries as senders, and as many when no sender repeats. */
  lemma {:induction false} SenderCount(s: seq<VcBasis>, voters: set<nat>)
    requires forall i :: i in voters ==> i < |s|
    ensures |Senders(s, voters)| <= |voters|
    ensures (forall i, j :: 0 <= i < j < |s| ==> s[i].id != s[j].id) ==> |Senders(s, voters)| == |voters|
    decreases |voters|
  {
    if voters != {} {
      var i :| i in voters;
      var rest := voters - {i};
      assert voters == rest + {i};
      SenderStep(s, rest, i);
      SenderCount(s, rest);
    }
  }

  /** Distinct senders are safe. */
  lemma OneIsSafe(c: Config, s: seq<VcBasis>)
    requires c.Valid() && OnePerReplica(c, s)
    ensures SafeSenders(c, s)
  {
    forall x: set<nat> ensures |EntriesFrom(s, x)| <= |x| {
      SenderCount(s, EntriesFrom(s, x));
      SubsetCount(Senders(s, EntriesFrom(s, x)), x);
    }
  }

  /** A quorum of entries and a quorum of replicas meet in an honest replica. */
  lemma HonestVoterIn(c: Config, s: seq<VcBasis>, voters: set<nat>, quorum: set<nat>) returns (i: nat)
    requires c.Valid() && SafeSenders(c, s)
    requires forall j :: j in voters ==> j < |s|
    requires |voters| >= c.Q()
    requires quorum <= c.Replicas() && |quorum| >= c.Q()
    ensures i in voters && i < |s| && s[i].id in quorum && s[i].id in c.Honest()
  {
    var others := (c.Replicas() - quorum) + c.byz;
    OthersFew(c, quorum);
    if forall j :: j in voters ==> s[j].id in others {
      SubsetCount(voters, EntriesFrom(s, others));
    }
    i :| i in voters && s[i].id !in others;
  }

  /** At most N - Q + F replicas are faulty or outside a quorum. */
  lemma OthersFew(c: Config, quorum: set<nat>)
    requires c.Valid() && quorum <= c.Replicas() && |quorum| >= c.Q()
    ensures |(c.Replicas() - quorum) + c.byz| <= c.n - c.Q() + c.F()
  {
    assert c.Replicas() == (c.Replicas() - quorum) + quorum;
    InclusionExclusion(c.Replicas() - quorum, c.byz);
  }

  /** F + 1 entries include one of an honest replica. */
  lemma HonestAmongWeak(c: Config, s: seq<VcBasis>, voters: set<nat>) returns (i: nat)
    requires c.Valid() && SafeSenders(c, s)
    requires forall j :: j in voters ==> j < |s|
    requires |voters| >= c.Weak()
    ensures i in voters && i < |s| && s[i].id in c.Honest()
  {
    if forall j :: j in voters ==> s[j].id in c.byz {
      SubsetCount(voters, EntriesFrom(s, c.byz));
    }
    i :| i in voters && s[i].id !in c.byz;
  }

  /* ---------- a committed request survives ---------- */

  /** What honest bases must say about number `n` once a quorum `q` of replicas has committed
      digest `d` there in view `v`. Faulty bases are unconstrained. */
  ghost predicate RecordsCommit(c: Config, s: seq<VcBasis>, q: set<nat>, v: nat, n: nat, d: Digest) {
    && (forall i :: 0 <= i < |s| && s[i].id in c.Honest() && s[i].id in q && s[i].h < n ==>
          exists j :: 0 <= j < |s[i].pset| && s[i].pset[j].n == n && s[i].pset[j].v >= v && s[i].pset[j].d == d)
    && (forall i, j :: 0 <= i < |s| && s[i].id in c.Honest() && 0 <= j < |s[i].qset| ==>
          s[i].qset[j].n == n && s[i].qset[j].v > v ==> s[i].qset[j].d == d)
  }

  /** Only the committed digest can be selected for its number. */
  lemma SelectableIsCommitted(c: Config, s: seq<VcBasis>, q: set<nat>, v: nat, n: nat, d: Digest, em: VcPq)
    requires c.Valid() && SafeSenders(c, s)
    requires q <= c.Replicas() && |q| >= c.Q()
    requires RecordsCommit(c, s, q, v, n, d)
    requires em.n == n && Selectable(c, s, em)
    ensures em.d == d
  {
    var i := HonestVoterIn(c, s, A1Voters(s, em), q);
    var j :| 0 <= j < |s[i].pset| && s[i].pset[j].n == n && s[i].pset[j].v >= v && s[i].pset[j].d == d;
    assert Compatible(s[i].pset[j], em);
    if em.d != d {
      var k := HonestAmongWeak(c, s, A2Voters(s, em));
    }
  }

  lemma NullImpossible(c: Config, s: seq<VcBasis>, q: set<nat>, v: nat, n: nat, d: Digest)
    requires c.Valid() && SafeSenders(c, s)
    requires q <= c.Replicas() && |q| >= c.Q()
    requires RecordsCommit(c, s, q, v, n, d)
    ensures |NullVoters(s, n)| < c.Q()
  {
    if |NullVoters(s, n)| >= c.Q() {
      var i := HonestVoterIn(c, s, NullVoters(s, n), q);
    }
  }

  /** A chosen number of the window is in the list, unless it is a null request pruned at the top. */
  lemma ChosenIsListed(slots: nat -> Slot, h: nat, l: nat, n: nat, d: Digest)
    requires h < n && ListOf(slots, h, l).Some?
    requires n <= h + l ==> slots(n) == Chosen(d)
    ensures var xs := ListOf(slots, h, l).value;
            && (n - h <= |xs| ==> xs[n - h - 1] == XEntry(n, d))
            && (d != NULL_REQUEST ==> (n - h <= |xs| <==> n <= h + l))
            && (d == NULL_REQUEST ==> (n - h <= |xs| <==> exists k :: n < k <= h + l && slots(k).Chosen?))
  {
    var top := HighestChosen(slots, h, h + l);
    if n <= h + l && d == NULL_REQUEST && top > n {
      assert n < top <= h + l && slots(top).Chosen?;
    }
  }

  /** Where the list ends, exactly: a number is listed if and only if it, or a higher one, is chosen for a
      real request, or some higher one is chosen at all. Each listed number has what was chosen for it, or
      the null request. */
  lemma ListedIff(slots: nat -> Slot, h: nat, l: nat, n: nat)
    requires h < n <= h + l && ListOf(slots, h, l).Some?
    ensures var xs := ListOf(slots, h, l).value;
            && |xs| <= l
            && (n <= h + |xs| <==>
                  exists m :: n <= m <= h + l && slots(m).Chosen? && (slots(m).d != NULL_REQUEST || m > n))
            && (n <= h + |xs| ==> xs[n - h - 1].n == n)
            && (n <= h + |xs| && slots(n).Chosen? ==> xs[n - h - 1].d == slots(n).d)
            && (n <= h + |xs| && !slots(n).Chosen? ==> slots(n).NullSlot? && xs[n - h - 1].d == NULL_REQUEST)
  {
    var top := HighestChosen(slots, h, h + l);
    if n <= top {
      assert slots(top).Chosen?;
    }
  }

  /** A new view preserves commits: when the bases allow any assignment, a committed number above
      the base is given exactly its committed digest. A non-null digest is in the list if and only
      if its number is inside the window; a committed null request is kept if and only if some
      higher number of the window is chosen. */
  lemma CommitPreserved(c: Config, s: seq<VcBasis>, h: nat, q: set<nat>, v: nat, n: nat, d: Digest)
    requires c.Valid() && SafeSenders(c, s)
    requires q <= c.Replicas() && |q| >= c.Q()
    requires RecordsCommit(c, s, q, v, n, d)
    requires h < n
    requires Assignment(c, s, h).Some?
    ensures var xs := Assignment(c, s, h).value;
            && (n - h <= |xs| ==> xs[n - h - 1] == XEntry(n, d))
            && (d != NULL_REQUEST ==> (n - h <= |xs| <==> n <= h + c.l))
            && (d == NULL_REQUEST ==> (n - h <= |xs| <==> exists k :: n < k <= h + c.l && SlotOf(c, s, k).Chosen?))
  {
    var slots := Slots(c, s);
    if n <= h + c.l {
      NullImpossible(c, s, q, v, n, d);
      assert !slots(n).Stuck?;
      var m, j := FirstFromSome(c, s, 0, n);
      SelectableIsCommitted(c, s, q, v, n, d, s[m].pset[j]);
    }
    ChosenIsListed(slots, h, c.l, n, d);
    assert forall k :: slots(k) == SlotOf(c, s, k);
  }

  /** Bases for view w of three replicas that prepared the null request under number 1 in view u,
      whose Q sets hold further entries besides. */
  function NullBases(w: nat, u: nat, also: seq<VcPq>): seq<VcBasis> {
    seq(3, i requires 0 <= i => VcBasis(w, 0, i + 1, [VcPq(1, NULL_REQUEST, u)], [VcPq(1, NULL_REQUEST, u)] + also, []))
  }

  lemma AllVote(voters: set<nat>)
    requires {0, 1, 2} <= voters
    ensures |voters| >= 3
  {
    SubsetCount({0, 1, 2}, voters);
  }

  lemma NullBasesDecided(c: Config, w: nat, u: nat, also: seq<VcPq>, n: nat)
    requires c.n == 4 && n >= 1
    ensures SlotOf(c, NullBases(w, u, also), n) == if n == 1 then Chosen(NULL_REQUEST) else NullSlot
  {
    var s := NullBases(w, u, also);
    var em := VcPq(1, NULL_REQUEST, u);
    assert forall i :: 0 <= i < |s| ==> s[i].pset == [em] && s[i].pset[0] == em && s[i].qset[0] == em;
    AllVote(if n == 1 then A1Voters(s, em) else NullVoters(s, n));
    if FirstFrom(c, s, 0, n).Some? {
      var m, j := FirstFromSome(c, s, 0, n);
    } else if n == 1 {
      AllVote(A2Voters(s, em));
      FirstFromNone(c, s, 0, 1, 0, 0);
    }
  }

  lemma NullTop(slots: nat -> Slot, l: nat)
    requires forall n :: 0 < n <= l ==> slots(n) == if n == 1 then Chosen(NULL_REQUEST) else NullSlot
    ensures ListOf(slots, 0, l) == Some([])
  {
    assert LastKept(slots, 0, l) == 0;
  }

  lemma NullBasesEmpty(c: Config, w: nat, u: nat, also: seq<VcPq>)
    requires c.n == 4
    ensures Assignment(c, NullBases(w, u, also), 0) == Some([])
  {
    var slots := Slots(c, NullBases(w, u, also));
    forall n | 0 < n <= c.l ensures slots(n) == if n == 1 then Chosen(NULL_REQUEST) else NullSlot {
      NullBasesDecided(c, w, u, also, n);
    }
    NullTop(slots, c.l);
  }

  /** A committed null request can be lost: the bases all record it, and the new view is empty. */
  lemma NullCommitPruned(c: Config, v: nat)
    requires c.n == 4
    ensures RecordsCommit(c, NullBases(v + 1, v, []), {1, 2, 3}, v, 1, NULL_REQUEST)
    ensures Assignment(c, NullBases(v + 1, v, []), 0) == Some([])
  {
    var s := NullBases(v + 1, v, []);
    var em := VcPq(1, NULL_REQUEST, v);
    assert forall i :: 0 <= i < |s| ==> s[i].pset[0] == em && s[i].qset == [em];
    NullBasesEmpty(c, v + 1, v, []);
  }

  /** So can a request committed afterwards under the same number: replicas that executed the null
      request in view u repeat their commit for what view v assigns without preparing it, so their
      bases for a later view back d in Q but still hold the null request in P, and it is the null
      request that is chosen and pruned. */
  lemma RepeatedCommitLost(c: Config, d: Digest, u: nat, v: nat, w: nat)
    requires c.n == 4 && u < v < w && d != NULL_REQUEST
    ensures var s := NullBases(w, u, [VcPq(1, d, v)]);
            && (forall i :: 0 <= i < |s| ==> VcPq(1, d, v) in s[i].qset)
            && Assignment(c, s, 0) == Some([])
  {
    NullBasesEmpty(c, w, u, [VcPq(1, d, v)]);
  }

  /* ---------- the program ---------- */

  /** Counts the bases of s[..i] that satisfy A1; the outer counters are the sizes of the voter
      sets restricted to the bases scanned. */
  lemma A1Step(s: seq<VcBasis>, em: VcPq, i: nat)
    requires i < |s|
    ensures A1Voters(s[..i + 1], em) == A1Voters(s[..i], em) + (if SupportsA1(s[i], em) then {i} else {})
    ensures |A1Voters(s[..i + 1], em)| == |A1Voters(s[..i], em)| + (if SupportsA1(s[i], em) then 1 else 0)
  {
    assert i !in A1Voters(s[..i], em);
    forall j: nat ensures j in A1Voters(s[..i + 1], em) <==> j in A1Voters(s[..i], em) || (j == i && SupportsA1(s[i], em)) {
      if j < i { assert s[..i + 1][j] == s[..i][j] == s[j]; }
    }
  }

  lemma A2Step(s: seq<VcBasis>, em: VcPq, i: nat)
    requires i < |s|
    ensures |A2Voters(s[..i + 1], em)| == |A2Voters(s[..i], em)| + (if SupportsA2(s[i], em) then 1 else 0)
  {
    assert i !in A2Voters(s[..i], em);
    assert A2Voters(s[..i + 1], em) == A2Voters(s[..i], em) + (if SupportsA2(s[i], em) then {i} else {}) by {
      forall j: nat ensures j in A2Voters(s[..i + 1], em) <==> j in A2Voters(s[..i], em) || (j == i && SupportsA2(s[i], em)) {
        if j < i { assert s[..i + 1][j] == s[..i][j] == s[j]; }
      }
    }
  }

  lemma NullStep(s: seq<VcBasis>, n: nat, i: nat)
    requires i < |s|
    ensures |NullVoters(s[..i + 1], n)| == |NullVoters(s[..i], n)| + (if SupportsNull(s[i], n) then 1 else 0)
  {
    assert i !in NullVoters(s[..i], n);
    assert NullVoters(s[..i + 1], n) == NullVoters(s[..i], n) + (if SupportsNull(s[i], n) then {i} else {}) by {
      forall j: nat ensures j in NullVoters(s[..i + 1], n) <==> j in NullVoters(s[..i], n) || (j == i && SupportsNull(s[i], n)) {
        if j < i { assert s[..i + 1][j] == s[..i][j] == s[j]; }
      }
    }
  }

  /** The two inner counts for one candidate `em`, with their early exits. */
  method CheckCandidate(c: Config, set_: seq<VcBasis>, n: nat, em: VcPq) returns (ok: bool)
    requires c.n >= 1 && em.n == n
    ensures ok == Selectable(c, set_, em)
  {
    var quorum := 0;
    var i := 0;
    while i < |set_|
      invariant 0 <= i <= |set_|
      invariant quorum == |A1Voters(set_[..i], em)|
    {
      A1Step(set_, em, i);
      var mp := set_[i];
      var counts := mp.h < n;
      var j := 0;
      while counts && j < |mp.pset|
        invariant 0 <= j <= |mp.pset|
        invariant counts ==> mp.h < n && forall k :: 0 <= k < j ==> Compatible(mp.pset[k], em)
        invariant !counts ==> !SupportsA1(mp, em)
      {
        var emp := mp.pset[j];
        if emp.n == n && !(emp.v < em.v || (emp.v == em.v && emp.d == em.d)) {
          assert !Compatible(mp.pset[j], em);
          counts := false;
        }
        j := j + 1;
      }
      if counts {
        quorum := quorum + 1;
      }
      i := i + 1;
    }
    assert set_[..|set_|] == set_;
    if quorum < c.Q() {
      return false;
    }
    quorum := 0;
    i := 0;
    while i < |set_|
      invariant 0 <= i <= |set_|
      invariant quorum == |A2Voters(set_[..i], em)|
    {
      A2Step(set_, em, i);
      var mp := set_[i];
      var found := false;
      var j := 0;
      while !found && j < |mp.qset|
        invariant 0 <= j <= |mp.qset|
        invariant found ==> SupportsA2(mp, em)
        invariant !found ==> forall k :: 0 <= k < j ==> !Backs(mp.qset[k], em)
      {
        var emp := mp.qset[j];
        if emp.n == n && emp.v >= em.v && emp.d == em.d {
          assert Backs(mp.qset[j], em);
          found := true;
        }
        j := j + 1;
      }
      if found {
        quorum := quorum + 1;
      }
      i := i + 1;
    }
    return quorum >= c.Weak();
  }

  /** The null count for one number. */
  method CountNull(set_: seq<VcBasis>, n: nat) returns (quorum: nat)
    ensures quorum == |NullVoters(set_, n)|
  {
    quorum := 0;
    var i := 0;
    while i < |set_|
      invariant 0 <= i <= |set_|
      invariant quorum == |NullVoters(set_[..i], n)|
    {
      NullStep(set_, n, i);
      var m := set_[i];
      var counts := m.h < n;
      var j := 0;
      while counts && j < |m.pset|
        invariant 0 <= j <= |m.pset|
        invariant counts ==> m.h < n && forall k :: 0 <= k < j ==> m.pset[k].n != n
        invariant !counts ==> !SupportsNull(m, n)
      {
        if m.pset[j].n == n {
          counts := false;
        }
        j := j + 1;
      }
      if counts {
        quorum := quorum + 1;
      }
      i := i + 1;
    }
    assert set_[..|set_|] == set_;
  }

  lemma FirstInPStep(c: Config, s: seq<VcBasis>, p: seq<VcPq>, n: nat, j: nat)
    requires c.n >= 1 && j < |p|
    ensures FirstInP(c, s, p[j..], n)
         == if p[j].n == n && Selectable(c, s, p[j]) then Some(p[j].d) else FirstInP(c, s, p[j + 1..], n)
  {
    assert p[j..][1..] == p[j + 1..];
  }

  /** Scans the bases for the first selectable entry for `n`. */
  method FindRequest(c: Config, set_: seq<VcBasis>, n: nat) returns (r: Option<Digest>)
    requires c.n >= 1
    ensures r == FirstFrom(c, set_, 0, n)
  {
    var i := 0;
    while i < |set_|
      invariant 0 <= i <= |set_|
      invariant FirstFrom(c, set_, 0, n) == FirstFrom(c, set_, i, n)
    {
      var m := set_[i];
      var j := 0;
      while j < |m.pset|
        invariant 0 <= j <= |m.pset|
        invariant FirstInP(c, set_, m.pset, n) == FirstInP(c, set_, m.pset[j..], n)
      {
        FirstInPStep(c, set_, m.pset, n, j);
        var em := m.pset[j];
        if n == em.n {
          var ok := CheckCandidate(c, set_, n, em);
          if ok {
            return Some(em.d);
          }
        }
        j := j + 1;
      }
      i := i + 1;
    }
    return None;
  }

  predicate Pruned(msgMap: map<nat, Digest>, maxN: nat, k: nat)
    requires k in msgMap
  {
    k >= maxN && msgMap[k] == NULL_REQUEST
  }

  /** Deletes the null requests from maxN on, visiting the keys in any order. */
  method Prune(msgMap: map<nat, Digest>, maxN: nat) returns (kept: map<nat, Digest>)
    ensures kept == map k | k in msgMap && !Pruned(msgMap, maxN, k) :: msgMap[k]
  {
    kept := msgMap;
    var todo := msgMap.Keys;
    while todo != {}
      invariant todo <= msgMap.Keys
      invariant kept == map k | k in msgMap && (k in todo || !Pruned(msgMap, maxN, k)) :: msgMap[k]
      decreases |todo|
    {
      var n :| n in todo;
      if n >= maxN && msgMap[n] == NULL_REQUEST {
        kept := kept - {n};
      }
      todo := todo - {n};
    }
  }

  /** Rebuilds the list from the number of keys left, reading a missing key as the null digest. */
  method RebuildList(kept: map<nat, Digest>, h: nat) returns (xs: seq<XEntry>)
    ensures |xs| == |kept|
    ensures forall i :: 0 <= i < |xs| ==> xs[i] == XEntry(h + 1 + i, if h + 1 + i in kept then kept[h + 1 + i] else NULL_REQUEST)
  {
    var x := h + 1;
    xs := [];
    for i := 0 to |kept|
      invariant x == h + 1 + i && |xs| == i
      invariant forall j :: 0 <= j < i ==> xs[j] == XEntry(h + 1 + j, if h + 1 + j in kept then kept[h + 1 + j] else NULL_REQUEST)
    {
      xs := xs + [XEntry(x, if x in kept then kept[x] else NULL_REQUEST)];
      x := x + 1;
    }
  }

  /** The numbers h+1..last. */
  function Span(h: nat, last: nat): (r: set<nat>)
    requires h <= last
    ensures forall k: nat :: k in r <==> h < k <= last
    ensures |r| == last - h
    decreases last
  {
    if last == h then {} else Span(h, last - 1) + {last}
  }

  /** The map built by the first loop holds the slots of h+1..n-1, and maxN the highest chosen one. */
  ghost predicate Filled(slots: nat -> Slot, h: nat, n: nat, msgMap: map<nat, Digest>, maxN: nat)
    requires h < n
  {
    && (forall k :: k in msgMap <==> h < k < n)
    && (forall k :: h < k < n ==> !slots(k).Stuck? && msgMap[k] == SlotDigest(slots(k)))
    && maxN == if HighestChosen(slots, h, n - 1) > h then HighestChosen(slots, h, n - 1) else h + 1
  }

  lemma FilledStep(slots: nat -> Slot, h: nat, n: nat, msgMap: map<nat, Digest>, maxN: nat)
    requires h < n && Filled(slots, h, n, msgMap, maxN) && !slots(n).Stuck?
    ensures Filled(slots, h, n + 1, msgMap[n := SlotDigest(slots(n))], if slots(n).Chosen? then n else maxN)
  {
  }

  /** Pruning leaves exactly the numbers h+1..LastKept, so the list has no gap. */
  lemma KeptKeys(slots: nat -> Slot, h: nat, l: nat, msgMap: map<nat, Digest>, maxN: nat, kept: map<nat, Digest>)
    requires Filled(slots, h, h + l + 1, msgMap, maxN)
    requires kept == map k | k in msgMap && !Pruned(msgMap, maxN, k) :: msgMap[k]
    ensures kept.Keys == Span(h, LastKept(slots, h, l))
    ensures |kept| == LastKept(slots, h, l) - h
  {
    var top := HighestChosen(slots, h, h + l);
    var last := LastKept(slots, h, l);
    forall k: nat ensures k in kept.Keys <==> h < k <= last {
      if h < k <= h + l {
        if k > top {
          assert slots(k) == NullSlot;
          assert Pruned(msgMap, maxN, k);
        } else if k == top {
          assert slots(k).Chosen?;
        }
      }
    }
    assert |kept| == |kept.Keys|;
  }

  lemma RebuiltIsListOf(slots: nat -> Slot, h: nat, l: nat, msgMap: map<nat, Digest>, maxN: nat,
                        kept: map<nat, Digest>, xs: seq<XEntry>)
    requires Filled(slots, h, h + l + 1, msgMap, maxN)
    requires kept == map k | k in msgMap && !Pruned(msgMap, maxN, k) :: msgMap[k]
    requires |xs| == |kept|
    requires forall i :: 0 <= i < |xs| ==> xs[i] == XEntry(h + 1 + i, if h + 1 + i in kept then kept[h + 1 + i] else NULL_REQUEST)
    ensures ListOf(slots, h, l) == Some(xs)
  {
    KeptKeys(slots, h, l, msgMap, maxN, kept);
    forall i | 0 <= i < |xs| ensures xs[i] == XEntry(h + 1 + i, SlotDigest(slots(h + 1 + i))) {
      assert h + 1 + i in Span(h, LastKept(slots, h, l));
    }
    var r := ListOf(slots, h, l);
    assert r.Some?;
    assert r.value == xs;
  }

  /** One round of the outer loop: what the bases say about number `n`. */
  method DecideSlot(c: Config, set_: seq<VcBasis>, n: nat) returns (slot: Slot)
    requires c.n >= 1
    ensures slot == SlotOf(c, set_, n)
  {
    var r := FindRequest(c, set_, n);
    if r.Some? {
      return Chosen(r.value);
    }
    var quorum := CountNull(set_, n);
    return if quorum >= c.Q() then NullSlot else Stuck;
  }

  /** The outer loop: fills the map, or finds a number that can be given nothing. */
  method FillSlots(c: Config, set_: seq<VcBasis>, h: nat) returns (ok: bool, msgMap: map<nat, Digest>, maxN: nat)
    requires c.n >= 1
    ensures ok ==> Filled(Slots(c, set_), h, h + c.l + 1, msgMap, maxN)
    ensures !ok ==> exists n :: h < n <= h + c.l && Slots(c, set_)(n).Stuck?
  {
    ghost var slots := Slots(c, set_);
    ok, msgMap, maxN := true, map[], h + 1;
    var n: nat := h + 1;
    while n <= h + c.l
      invariant h + 1 <= n <= h + c.l + 1
      invariant ok && Filled(slots, h, n, msgMap, maxN)
    {
      var slot := DecideSlot(c, set_, n);
      assert slot == slots(n);
      if slot.Stuck? {
        return false, msgMap, maxN;
      }
      FilledStep(slots, h, n, msgMap, maxN);
      msgMap := msgMap[n := SlotDigest(slot)];
      if slot.Chosen? {
        maxN := n;
      }
      n := n + 1;
    }
  }

  /** assignSequenceNumbers. The map is pruned by walking its keys in any order, and the list is
      rebuilt from the number of keys left. */
  method AssignSequenceNumbers(c: Config, set_: seq<VcBasis>, h: nat) returns (msgList: Option<seq<XEntry>>)
    requires c.n >= 1
    ensures msgList == Assignment(c, set_, h)
  {
    var ok, msgMap, maxN := FillSlots(c, set_, h);
    if !ok {
      return None;
    }
    var kept := Prune(msgMap, maxN);
    var xs := RebuildList(kept, h);
    RebuiltIsListOf(Slots(c, set_), h, c.l, msgMap, maxN, kept, xs);
    msgList := Some(xs);
  }

  lemma HoldersStep(s: seq<VcBasis>, cs: CheckpointState, i: nat)
    requires i < |s|
    ensures |Holders(s[..i + 1], cs)| == |Holders(s[..i], cs)| + (if cs in s[i].cset then 1 else 0)
  {
    assert i !in Holders(s[..i], cs);
    assert Holders(s[..i + 1], cs) == Holders(s[..i], cs) + (if cs in s[i].cset then {i} else {}) by {
      forall j: nat ensures j in Holders(s[..i + 1], cs) <==> j in Holders(s[..i], cs) || (j == i && cs in s[i].cset) {
        if j < i { assert s[..i + 1][j] == s[..i][j] == s[j]; }
      }
    }
  }

  lemma LowStep(s: seq<VcBasis>, height: nat, i: nat)
    requires i < |s|
    ensures |LowVoters(s[..i + 1], height)| == |LowVoters(s[..i], height)| + (if s[i].h <= height then 1 else 0)
  {
    assert i !in LowVoters(s[..i], height);
    assert LowVoters(s[..i + 1], height) == LowVoters(s[..i], height) + (if s[i].h <= height then {i} else {}) by {
      forall j: nat ensures j in LowVoters(s[..i + 1], height) <==> j in LowVoters(s[..i], height) || (j == i && s[i].h <= height) {
        if j < i { assert s[..i + 1][j] == s[..i][j] == s[j]; }
      }
    }
  }

  /** `counts` is what collecting the checkpoint sets of the bases `s` gives. */
  ghost predicate Collected(s: seq<VcBasis>, counts: map<CheckpointState, nat>) {
    && (forall cs :: cs in counts ==> counts[cs] == |Holders(s, cs)|)
    && (forall cs :: cs !in counts ==> |Holders(s, cs)| == 0)
  }

  /** Adds one basis: a checkpoint that its set repeats is counted once. */
  method CollectBasis(s: seq<VcBasis>, i: nat, counts: map<CheckpointState, nat>) returns (r: map<CheckpointState, nat>)
    requires i < |s| && Collected(s[..i], counts)
    ensures Collected(s[..i + 1], r)
  {
    r := counts;
    var record: set<CheckpointState> := {};
    var j := 0;
    while j < |s[i].cset|
      invariant 0 <= j <= |s[i].cset|
      invariant forall cs :: cs in record <==> cs in s[i].cset[..j]
      invariant forall cs :: cs in r <==> cs in counts || cs in record
      invariant forall cs :: cs in r ==> r[cs] == (if cs in counts then counts[cs] else 0) + (if cs in record then 1 else 0)
    {
      var cs := s[i].cset[j];
      if cs !in record {
        r := r[cs := (if cs in r then r[cs] else 0) + 1];
        record := record + {cs};
      }
      j := j + 1;
    }
    forall cs ensures |Holders(s[..i + 1], cs)| == |Holders(s[..i], cs)| + (if cs in record then 1 else 0) {
      HoldersStep(s, cs, i);
    }
  }

  method CountLow(s: seq<VcBasis>, height: nat) returns (quorum: nat)
    ensures quorum == |LowVoters(s, height)|
  {
    quorum := 0;
    for i := 0 to |s|
      invariant quorum == |LowVoters(s[..i], height)|
    {
      LowStep(s, height, i);
      if s[i].h <= height {
        quorum := quorum + 1;
      }
    }
    assert s[..|s|] == s;
  }

  /** selectInitialCheckpoint, with the candidates visited in any order. */
  method SelectInitialCheckpoint(c: Config, set_: seq<VcBasis>) returns (r: Option<CheckpointState>)
    requires c.n >= 1
    ensures r.Some? ==> IsInitialCheckpoint(c, set_, r.value)
    ensures r.None? ==> forall cs :: !Qualifies(c, set_, cs)
    ensures forall cs, held, low :: CertifiedBy(c, set_, cs, held, low) ==> r.Some? && r.value.height >= cs.height
    ensures r.Some? ==> exists held, low :: CertifiedBy(c, set_, r.value, held, low)
  {
    forall cs ensures Qualifies(c, set_, cs) <==> exists held, low :: CertifiedBy(c, set_, cs, held, low) {
      QualifiesIff(c, set_, cs);
    }
    r := HighestQualified(c, set_);
    ghost var found := r;
    forall cs, held, low | CertifiedBy(c, set_, cs, held, low) ensures found.Some? && found.value.height >= cs.height {
      assert Qualifies(c, set_, cs);
    }
  }

  /** The loops of selectInitialCheckpoint. */
  method HighestQualified(c: Config, set_: seq<VcBasis>) returns (r: Option<CheckpointState>)
    requires c.n >= 1
    ensures r.Some? ==> IsInitialCheckpoint(c, set_, r.value)
    ensures r.None? ==> forall cs :: !Qualifies(c, set_, cs)
  {
    var counts: map<CheckpointState, nat> := map[];
    for i := 0 to |set_|
      invariant Collected(set_[..i], counts)
    {
      counts := CollectBasis(set_, i, counts);
    }
    assert set_[..|set_|] == set_;
    r := None;
    var todo := counts.Keys;
    while todo != {}
      invariant todo <= counts.Keys
      invariant r.Some? ==> Qualifies(c, set_, r.value)
      invariant forall cs :: Qualifies(c, set_, cs) && cs !in todo ==> r.Some? && cs.height <= r.value.height
      decreases |todo|
    {
      var cs :| cs in todo;
      todo := todo - {cs};
      var held := counts[cs];
      if held >= c.Weak() && (cs.isConfig ==> held >= c.Q()) {
        var quorum := CountLow(set_, cs.height);
        if quorum >= c.Q() {
          var best: nat := if r.Some? then r.value.height else 0;
          if best <= cs.height {
            r := Some(cs);
          }
        }
      }
    }
  }
}
