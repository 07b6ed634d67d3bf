/** New views of a system of four replicas, one of them faulty, built from a few bases. */
module SmallViews {
  import opened Quorum
  import opened NewView
  import opened Replica
  import opened Protocol
  import opened NewViewSenders
  import opened NewViewHandlers

  /** Four replicas, rotation, replica 1 faulty, no checkpoint at height 1. */
  ghost predicate Four(c: Config) {
    && c.Valid() && c.n == 4 && c.l >= 1 && c.byz == {1} && !c.ckptAt(1)
    && forall v: nat :: c.Primary(v) == v % 4 + 1
  }

  /** There is such a system, for every window size. */
  lemma FourExists(l: nat)
    requires l >= 1
    ensures Four(Config(4, l, (h: nat) => h == 0, Rotation(4), {1}))
  {
    var c := Config(4, l, (h: nat) => h == 0, Rotation(4), {1});
    assert c.F() == 1 && |c.byz| == 1;
  }

  lemma FourFacts(c: Config)
    requires Four(c)
    ensures c.Q() == 3 && c.F() == 1 && c.Weak() == 2 && c.Honest() == {2, 3, 4}
    ensures c.Replicas() == {1, 2, 3, 4}
  {
  }

  function Genesis(g: Digest): CheckpointState {
    CheckpointState(0, g, false)
  }

  /** A basis that holds the genesis checkpoint and the given entries. */
  function Basis(g: Digest, w: nat, r: nat, pset: seq<VcPq>, qset: seq<VcPq>): VcBasis {
    VcBasis(w, 0, r, pset, qset, [Genesis(g)])
  }

  /** Three or four such bases of different senders. */
  ghost predicate Gathered(g: Digest, w: nat, s: seq<VcBasis>) {
    && (|s| == 3 || |s| == 4)
    && (forall i :: 0 <= i < |s| ==> s[i] == Basis(g, w, s[i].id, s[i].pset, s[i].qset) && 1 <= s[i].id <= 4)
    && s[0].id != s[1].id && s[0].id != s[2].id && s[1].id != s[2].id
    && (|s| == 4 ==> s[3].id != s[0].id && s[3].id != s[1].id && s[3].id != s[2].id)
  }

  lemma GatheredOnce(c: Config, g: Digest, w: nat, s: seq<VcBasis>)
    requires c.n == 4 && Gathered(g, w, s)
    ensures OnePerReplica(c, s)
  {
  }

  lemma GatheredCheckpoint(c: Config, g: Digest, w: nat, s: seq<VcBasis>)
    requires Four(c) && Gathered(g, w, s)
    ensures IsInitialCheckpoint(c, s, Genesis(g))
  {
    FourFacts(c);
    AllEntries(s, Holders(s, Genesis(g)));
    AllEntries(s, LowVoters(s, 0));
    forall other: CheckpointState | other != Genesis(g) ensures |Holders(s, other)| == 0 {
      assert Holders(s, other) == {};
    }
  }

  /** The new views that pass a backup's check, with their checkpoints. */
  ghost function Passing(c: Config, v: nat): iset<(NewViewMsg, CheckpointState)>
    requires c.n >= 1
  {
    iset nv: NewViewMsg, cs: CheckpointState | PassesCheck(c, v, nv, cs) :: (nv, cs)
  }

  lemma GatheredPasses(c: Config, g: Digest, w: nat, s: seq<VcBasis>, xs: seq<XEntry>)
    requires Four(c) && Gathered(g, w, s) && Assignment(c, s, 0) == Some(xs)
    ensures (Listing(s, 0, xs), Genesis(g)) in Passing(c, w)
  {
    GatheredCheckpoint(c, g, w, s);
    ListingPasses(c, w, s, Genesis(g), xs);
  }

  /* ---------- what is assigned ---------- */

  /** Whichever P entry is selectable for n, it carries d, and one is. */
  lemma OnlyChoice(c: Config, s: seq<VcBasis>, n: nat, m: nat, j: nat)
    requires c.n >= 1 && m < |s| && j < |s[m].pset| && s[m].pset[j].n == n && Selectable(c, s, s[m].pset[j])
    requires forall i: nat, k: nat :: i < |s| && k < |s[i].pset| && s[i].pset[k].n == n && s[i].pset[k].d != s[m].pset[j].d ==>
               !Selectable(c, s, s[i].pset[k])
    ensures SlotOf(c, s, n) == Chosen(s[m].pset[j].d)
  {
    if FirstFrom(c, s, 0, n).None? {
      FirstFromNone(c, s, 0, n, m, j);
    } else {
      var a, b := FirstFromSome(c, s, 0, n);
    }
  }

  /** Numbers above `top` without P entries, and the given slots up to it. */
  ghost predicate SlotsAre(c: Config, s: seq<VcBasis>, slots: seq<Slot>)
    requires c.n >= 1
  {
    && |slots| <= c.l
    && (forall n: nat :: 1 <= n <= |slots| ==> SlotOf(c, s, n) == slots[n - 1])
    && forall n: nat :: |slots| < n <= c.l ==> SlotOf(c, s, n) == NullSlot
  }

  lemma FirstStuck(c: Config, s: seq<VcBasis>)
    requires c.n >= 1 && c.l >= 1 && SlotOf(c, s, 1) == Stuck
    ensures Assignment(c, s, 0) == None
  {
    assert Slots(c, s)(1).Stuck?;
    assert ListOf(Slots(c, s), 0, c.l).None?;
  }

  lemma NothingAssigned(c: Config, s: seq<VcBasis>, slots: seq<Slot>)
    requires c.n >= 1 && SlotsAre(c, s, slots) && (slots == [] || slots == [NullSlot] || slots == [Chosen(NULL_REQUEST)])
    ensures Assignment(c, s, 0) == Some([])
  {
    forall n: nat | 0 < n <= c.l ensures Slots(c, s)(n) == if n <= |slots| then slots[n - 1] else NullSlot {
    }
    assert LastKept(Slots(c, s), 0, c.l) == 0;
  }

  lemma OneAssigned(c: Config, s: seq<VcBasis>, d: Digest)
    requires c.n >= 1 && SlotsAre(c, s, [Chosen(d)]) && d != NULL_REQUEST
    ensures Assignment(c, s, 0) == Some([XEntry(1, d)])
  {
    var slots := Slots(c, s);
    assert slots(1) == Chosen(d);
    TopIs(slots, c.l, 1);
    assert ListOf(slots, 0, c.l).value == [XEntry(1, d)];
  }

  /** A number below one that is chosen is kept, also when it got the null request. */
  lemma TwoAssigned(c: Config, s: seq<VcBasis>, first: Slot, d: Digest)
    requires c.n >= 1 && SlotsAre(c, s, [first, Chosen(d)]) && !first.Stuck? && d != NULL_REQUEST
    ensures Assignment(c, s, 0) == Some([XEntry(1, SlotDigest(first)), XEntry(2, d)])
  {
    var slots := Slots(c, s);
    assert slots(1) == first && slots(2) == Chosen(d);
    TopIs(slots, c.l, 2);
    assert ListOf(slots, 0, c.l).value == [XEntry(1, SlotDigest(first)), XEntry(2, d)];
  }

  lemma TopIs(slots: nat -> Slot, l: nat, top: nat)
    requires 1 <= top <= l && slots(top).Chosen? && slots(top).d != NULL_REQUEST
    requires forall n: nat :: 0 < n <= l ==> !slots(n).Stuck? && (n > top ==> slots(n) == NullSlot)
    ensures ListOf(slots, 0, l).Some? && |ListOf(slots, 0, l).value| == top
  {
    assert HighestChosen(slots, 0, l) == top;
    assert LastKept(slots, 0, l) == top;
  }

  /** Numbers that no basis speaks of get the null request. */
  lemma RestIsNull(c: Config, g: Digest, w: nat, s: seq<VcBasis>, slots: seq<Slot>)
    requires Four(c) && Gathered(g, w, s) && |slots| <= c.l
    requires forall i, j :: 0 <= i < |s| && 0 <= j < |s[i].pset| ==> s[i].pset[j].n <= |slots| || s[i].pset[j].n > c.l
    requires forall n: nat :: 1 <= n <= |slots| ==> SlotOf(c, s, n) == slots[n - 1]
    ensures SlotsAre(c, s, slots)
  {
    FourFacts(c);
    forall n: nat | |slots| < n <= c.l ensures SlotOf(c, s, n) == NullSlot {
      NullAbove(c, s, n);
    }
  }

  lemma NoEntryIsNull(c: Config, g: Digest, w: nat, s: seq<VcBasis>, n: nat)
    requires Four(c) && Gathered(g, w, s) && n >= 1
    requires forall i, j :: 0 <= i < |s| && 0 <= j < |s[i].pset| ==> s[i].pset[j].n != n
    ensures SlotOf(c, s, n) == NullSlot
  {
    FourFacts(c);
    NullAbove(c, s, n);
  }

  /** No basis contradicts the entry, and two of them back it. */
  lemma Supported(c: Config, s: seq<VcBasis>, em: VcPq, i: nat, j: nat)
    requires Four(c) && |s| >= 3 && i < j < |s|
    requires (forall k :: 0 <= k < |s| ==> SupportsA1(s[k], em)) && SupportsA2(s[i], em) && SupportsA2(s[j], em)
    ensures Selectable(c, s, em)
  {
    FourFacts(c);
    AllEntries(s, A1Voters(s, em));
    SubsetCount({i, j}, A2Voters(s, em));
  }

  /** One basis that contradicts an entry, or two without it in Q, rule it out. */
  lemma Contradicted(c: Config, s: seq<VcBasis>, em: VcPq, i: nat)
    requires Four(c) && |s| == 3 && i < 3 && !SupportsA1(s[i], em)
    ensures !Selectable(c, s, em)
  {
    FourFacts(c);
    var others := {0, 1, 2} - {i};
    assert |others| == 2;
    SubsetCount(A1Voters(s, em), others);
  }

  lemma Unbacked(c: Config, s: seq<VcBasis>, em: VcPq, i: nat)
    requires Four(c) && |s| == 3 && i < 3 && forall k :: 0 <= k < 3 && k != i ==> !SupportsA2(s[k], em)
    ensures !Selectable(c, s, em)
  {
    FourFacts(c);
    SubsetCount(A2Voters(s, em), {i});
  }
}
