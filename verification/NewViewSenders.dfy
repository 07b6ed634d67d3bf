/** Which lists of bases preserve commits. A backup recomputes a new view from the list it received
    and counts entries, whoever sent them; so what a list guarantees depends on how often each sender
    stands in it. This module proves the exact condition, SafeSenders. */
module NewViewSenders {
  import opened Quorum
  import opened NewView
  import opened Replica
  import opened Protocol

  /* ---------- the condition ---------- */

  ghost predicate SameSenders(s: seq<VcBasis>, t: seq<VcBasis>) {
    |s| == |t| && forall i :: 0 <= i < |s| ==> s[i].id == t[i].id
  }

  /** One commit, one faulty set and one content of the list: if the list records the commit as far
      as honest senders are concerned and assigns anything, it assigns the committed digest. */
  ghost predicate Kept(c: Config, s: seq<VcBasis>, byz: set<nat>, t: seq<VcBasis>, q: set<nat>, v: nat, n: nat, d: Digest, h: nat)
    requires c.Valid()
  {
    var b := c.(byz := byz);
    && byz <= c.Replicas() && |byz| <= c.F()
    && SameSenders(s, t) && q <= c.Replicas() && |q| >= c.Q() && d != NULL_REQUEST
    && RecordsCommit(b, t, q, v, n, d) && h < n <= h + c.l && Assignment(b, t, h).Some?
    ==> var xs := Assignment(b, t, h).value;
        n - h <= |xs| && xs[n - h - 1] == XEntry(n, d)
  }

  /** With these senders, every commit survives, whoever is faulty and whatever the bases say. */
  ghost predicate PreservesCommits(c: Config, s: seq<VcBasis>)
    requires c.Valid()
  {
    forall byz, t, q, v, n, d, h :: Kept(c, s, byz, t, q, v, n, d, h)
  }

  /* ---------- it is enough ---------- */

  lemma SameEntries(s: seq<VcBasis>, t: seq<VcBasis>, x: set<nat>)
    requires SameSenders(s, t)
    ensures EntriesFrom(s, x) == EntriesFrom(t, x)
  {
  }

  lemma SameSafety(c: Config, s: seq<VcBasis>, byz: set<nat>, t: seq<VcBasis>)
    requires c.Valid() && SafeSenders(c, s) && SameSenders(s, t)
    ensures SafeSenders(c.(byz := byz), t)
  {
    forall x: set<nat> ensures EntriesFrom(t, x) == EntriesFrom(s, x) {
      SameEntries(s, t, x);
    }
  }

  lemma SafeKeeps(c: Config, s: seq<VcBasis>, byz: set<nat>, t: seq<VcBasis>, q: set<nat>, v: nat, n: nat, d: Digest, h: nat)
    requires c.Valid() && SafeSenders(c, s)
    ensures Kept(c, s, byz, t, q, v, n, d, h)
  {
    var b := c.(byz := byz);
    if byz <= c.Replicas() && |byz| <= c.F() && SameSenders(s, t) && q <= c.Replicas() && |q| >= c.Q()
       && RecordsCommit(b, t, q, v, n, d) && h < n && Assignment(b, t, h).Some? {
      SameSafety(c, s, byz, t);
      CommitPreserved(b, t, h, q, v, n, d);
    }
  }

  /* ---------- it is needed ---------- */

  lemma {:induction false} TakeSome(x: set<nat>, k: nat) returns (y: set<nat>)
    requires k <= |x|
    ensures y <= x && |y| == k
    decreases |x|
  {
    if k == |x| {
      y := x;
    } else {
      var e :| e in x;
      y := TakeSome(x - {e}, k);
    }
  }

  /** With at most N - Q + F senders on it, a set can be made of faulty replicas and ones outside a
      quorum. */
  lemma SplitSenders(c: Config, x: set<nat>) returns (byz: set<nat>, q: set<nat>)
    requires c.Valid() && x <= c.Replicas() && |x| <= c.n - c.Q() + c.F()
    ensures byz <= x && |byz| <= c.F() && q == c.Replicas() - (x - byz) && |q| >= c.Q()
  {
    var f := c.F();
    byz := TakeSome(x, if |x| < f then |x| else f);
    q := c.Replicas() - (x - byz);
    LeftOver(x, byz);
    LeftOver(c.Replicas(), x - byz);
    QuorumFits(c);
  }

  lemma QuorumFits(c: Config)
    requires c.Valid()
    ensures c.F() < c.Q() <= c.n && 1 <= c.F() && 1 <= c.n - c.Q() + c.F()
  {
  }

  lemma LeftOver(a: set<nat>, b: set<nat>)
    requires b <= a
    ensures |a - b| == |a| - |b|
  {
    assert a == b + (a - b);
  }

  /** Bases of the given senders: those of `x` say one thing, all others another. */
  function Content(s: seq<VcBasis>, x: set<nat>, inside: seq<VcPq>, outside: seq<VcPq>, qset: seq<VcPq>): (t: seq<VcBasis>)
    ensures SameSenders(s, t)
    ensures forall i :: 0 <= i < |t| ==>
              t[i] == VcBasis(2, 0, s[i].id, if s[i].id in x then inside else outside, if s[i].id in x then qset else [], [])
  {
    seq(|s|, i requires 0 <= i < |s| =>
      VcBasis(2, 0, s[i].id, if s[i].id in x then inside else outside, if s[i].id in x then qset else [], []))
  }

  /** Numbers nobody prepared get the null request. */
  lemma NullAbove(c: Config, t: seq<VcBasis>, n: nat)
    requires c.Valid() && |t| >= c.Q() && n >= 1
    requires forall i :: 0 <= i < |t| ==> t[i].h == 0 && forall j :: 0 <= j < |t[i].pset| ==> t[i].pset[j].n != n
    ensures SlotOf(c, t, n) == NullSlot
  {
    if FirstFrom(c, t, 0, n).Some? {
      var m, j := FirstFromSome(c, t, 0, n);
    }
    AllEntries(t, NullVoters(t, n));
  }

  lemma EmptyList(slots: nat -> Slot, l: nat)
    requires forall n :: 0 < n <= l ==> slots(n) == NullSlot
    ensures ListOf(slots, 0, l) == Some([])
  {
    assert LastKept(slots, 0, l) == 0;
  }

  /** A quorum of entries from replicas that may be faulty or outside a commit quorum lets the null
      request win. */
  lemma FewFillQuorum(c: Config, s: seq<VcBasis>, x: set<nat>)
    requires c.Valid() && c.l >= 1 && forall i :: 0 <= i < |s| ==> s[i].id in c.Replicas()
    requires x <= c.Replicas() && |x| <= c.n - c.Q() + c.F() && |EntriesFrom(s, x)| >= c.Q()
    ensures !PreservesCommits(c, s)
  {
    var byz, q := SplitSenders(c, x);
    var t := Content(s, x, [], [VcPq(1, "d", 0)], []);
    SubsetCount(EntriesFrom(s, x), Indices(|t|));
    OutsideRecords(c.(byz := byz), s, x, t, q);
    StillValid(c, byz);
    QuorumOfNulls(c.(byz := byz), s, x, t);
    Refuted(c, s, byz, t, q, "d", []);
  }

  lemma StillValid(c: Config, byz: set<nat>)
    requires c.Valid() && byz <= c.Replicas() && |byz| <= c.F()
    ensures var b := c.(byz := byz);
            b.Valid() && b.Q() == c.Q() && b.F() == c.F() && b.l == c.l && b.Replicas() == c.Replicas()
  {
  }

  /** A commit of d under number 1 that the list does not assign. */
  lemma Refuted(c: Config, s: seq<VcBasis>, byz: set<nat>, t: seq<VcBasis>, q: set<nat>, d: Digest, xs: seq<XEntry>)
    requires c.Valid() && c.l >= 1 && byz <= c.Replicas() && |byz| <= c.F()
    requires SameSenders(s, t) && q <= c.Replicas() && |q| >= c.Q() && d != NULL_REQUEST
    requires RecordsCommit(c.(byz := byz), t, q, 0, 1, d) && Assignment(c.(byz := byz), t, 0) == Some(xs)
    requires xs == [] || xs[0] != XEntry(1, d)
    ensures !PreservesCommits(c, s)
  {
    assert !Kept(c, s, byz, t, q, 0, 1, d, 0);
  }

  lemma OutsideRecords(b: Config, s: seq<VcBasis>, x: set<nat>, t: seq<VcBasis>, q: set<nat>)
    requires t == Content(s, x, [], [VcPq(1, "d", 0)], [])
    requires forall r :: r in b.Honest() && r in q ==> r !in x
    ensures RecordsCommit(b, t, q, 0, 1, "d")
  {
    assert forall i :: 0 <= i < |t| && s[i].id !in x ==> t[i].pset[0] == VcPq(1, "d", 0);
  }

  lemma QuorumOfNulls(c: Config, s: seq<VcBasis>, x: set<nat>, t: seq<VcBasis>)
    requires c.Valid() && t == Content(s, x, [], [VcPq(1, "d", 0)], []) && |EntriesFrom(s, x)| >= c.Q() && |t| >= c.Q()
    ensures Assignment(c, t, 0) == Some([])
  {
    NothingBacked(c, t, 1);
    SubsetCount(EntriesFrom(s, x), NullVoters(t, 1));
    var slots := Slots(c, t);
    forall n | 0 < n <= c.l ensures slots(n) == NullSlot {
      if n > 1 {
        NullAbove(c, t, n);
      }
    }
    EmptyList(slots, c.l);
  }

  lemma NothingBacked(c: Config, t: seq<VcBasis>, n: nat)
    requires c.n >= 1 && forall i :: 0 <= i < |t| ==> t[i].qset == []
    ensures FirstFrom(c, t, 0, n).None?
  {
    forall em: VcPq ensures |A2Voters(t, em)| == 0 {
      assert A2Voters(t, em) == {};
    }
    if FirstFrom(c, t, 0, n).Some? {
      var m, j := FirstFromSome(c, t, 0, n);
    }
  }

  /** F + 1 entries from replicas that may be faulty let another digest win. */
  lemma FewFillWeak(c: Config, s: seq<VcBasis>, x: set<nat>)
    requires c.Valid() && c.l >= 1 && |s| >= c.Q() && forall i :: 0 <= i < |s| ==> s[i].id in c.Replicas()
    requires x <= c.Replicas() && |x| <= c.F() && |EntriesFrom(s, x)| > c.F()
    ensures !PreservesCommits(c, s)
  {
    var b := c.(byz := x);
    var d, e := VcPq(1, "d", 0), VcPq(1, "e", 1);
    var t := Content(s, x, [e], [d], [e]);
    assert forall i :: 0 <= i < |t| && t[i].id in b.Honest() ==> t[i].pset[0] == d && t[i].qset == [];
    assert RecordsCommit(b, t, c.Replicas(), 0, 1, "d");
    StillValid(c, x);
    OtherListed(b, s, x, t);
    HonestQuorum(c, {});
    Refuted(c, s, x, t, c.Replicas(), "d", [XEntry(1, "e")]);
  }

  lemma OtherListed(c: Config, s: seq<VcBasis>, x: set<nat>, t: seq<VcBasis>)
    requires c.Valid() && c.l >= 1 && |s| >= c.Q() && |EntriesFrom(s, x)| > c.F()
    requires t == Content(s, x, [VcPq(1, "e", 1)], [VcPq(1, "d", 0)], [VcPq(1, "e", 1)])
    ensures Assignment(c, t, 0) == Some([XEntry(1, "e")])
  {
    OtherChosen(c, s, x, t);
    var slots := Slots(c, t);
    forall n | 0 < n <= c.l ensures slots(n) == if n == 1 then Chosen("e") else NullSlot {
      if n > 1 {
        NullAbove(c, t, n);
      }
    }
    OneChosen(slots, c.l);
  }

  lemma OneChosen(slots: nat -> Slot, l: nat)
    requires l >= 1 && forall n :: 0 < n <= l ==> slots(n) == if n == 1 then Chosen("e") else NullSlot
    ensures ListOf(slots, 0, l) == Some([XEntry(1, "e")])
  {
    assert slots(1).Chosen?;
    assert HighestChosen(slots, 0, l) == 1;
    assert |"e"| != |NULL_REQUEST|;
    assert LastKept(slots, 0, l) == 1;
    assert ListOf(slots, 0, l).Some?;
    assert ListOf(slots, 0, l).value == [XEntry(1, "e")];
  }

  lemma OtherChosen(c: Config, s: seq<VcBasis>, x: set<nat>, t: seq<VcBasis>)
    requires c.Valid() && |s| >= c.Q() && |EntriesFrom(s, x)| > c.F()
    requires t == Content(s, x, [VcPq(1, "e", 1)], [VcPq(1, "d", 0)], [VcPq(1, "e", 1)])
    ensures SlotOf(c, t, 1) == Chosen("e")
  {
    var d, e := VcPq(1, "d", 0), VcPq(1, "e", 1);
    assert forall i :: 0 <= i < |t| ==> t[i].pset == (if s[i].id in x then [e] else [d]) && t[i].pset[0] == if s[i].id in x then e else d;
    AllEntries(t, A1Voters(t, e));
    forall i | i in EntriesFrom(s, x) ensures i in A2Voters(t, e) {
      assert t[i].qset[0] == e;
    }
    SubsetCount(EntriesFrom(s, x), A2Voters(t, e));
    var one :| one in EntriesFrom(s, x);
    if FirstFrom(c, t, 0, 1).None? {
      FirstFromNone(c, t, 0, 1, one, 0);
    } else {
      var m, j := FirstFromSome(c, t, 0, 1);
      assert A2Voters(t, d) == {};
    }
  }

  /* ---------- main results ---------- */

  /** A list of senders preserves every commit, for every faulty set and every content, if and only
      if no N - Q + F senders fill a quorum of it and no F senders fill a weak certificate. */
  lemma SafeSendersIff(c: Config, s: seq<VcBasis>)
    requires c.Valid() && c.l >= 1 && |s| >= c.Q() && forall i :: 0 <= i < |s| ==> s[i].id in c.Replicas()
    ensures PreservesCommits(c, s) <==> SafeSenders(c, s)
  {
    if SafeSenders(c, s) {
      forall byz, t, q, v, n, d, h ensures Kept(c, s, byz, t, q, v, n, d, h) {
        SafeKeeps(c, s, byz, t, q, v, n, d, h);
      }
    } else {
      UnsafeLoses(c, s);
    }
  }

  lemma UnsafeLoses(c: Config, s: seq<VcBasis>)
    requires c.Valid() && c.l >= 1 && |s| >= c.Q() && forall i :: 0 <= i < |s| ==> s[i].id in c.Replicas()
    requires !SafeSenders(c, s)
    ensures !PreservesCommits(c, s)
  {
    if x: set<nat> :| |x| <= c.n - c.Q() + c.F() && |EntriesFrom(s, x)| >= c.Q() {
      OnlyReplicas(c, s, x);
      FewFillQuorum(c, s, x * c.Replicas());
    } else {
      var x: set<nat> :| |x| <= c.F() && |EntriesFrom(s, x)| > c.F();
      OnlyReplicas(c, s, x);
      FewFillWeak(c, s, x * c.Replicas());
    }
  }

  lemma OnlyReplicas(c: Config, s: seq<VcBasis>, x: set<nat>)
    requires forall i :: 0 <= i < |s| ==> s[i].id in c.Replicas()
    ensures EntriesFrom(s, x * c.Replicas()) == EntriesFrom(s, x) && |x * c.Replicas()| <= |x|
  {
    SubsetCount(x * c.Replicas(), x);
  }

  /** One sender's basis, repeated. */
  function Repeated(w: nat, p: nat, cp: CheckpointState, k: nat): (s: seq<VcBasis>)
    ensures |s| == k && forall i :: 0 <= i < k ==> s[i] == VcBasis(w, cp.height, p, [], [], [cp])
  {
    seq(k, i requires 0 <= i => VcBasis(w, cp.height, p, [], [], [cp]))
  }

  /** A list that repeats one sender's basis passes a backup's check and assigns nothing, so no commit
      above its base survives in it; it is not safe. */
  lemma RepeatedSenderPasses(c: Config, w: nat, p: nat, cp: CheckpointState)
    requires c.Valid() && p in c.Replicas()
    ensures var s := Repeated(w, p, cp, c.Q());
            && PassesCheck(c, w, NewViewMsg(s, cp.height, cp.height, map[]), cp)
            && Assignment(c, s, cp.height) == Some([])
            && !SafeSenders(c, s)
            && (p in c.byz ==> forall q, v, n, d :: RecordsCommit(c, s, q, v, n, d))
  {
    var s := Repeated(w, p, cp, c.Q());
    RepeatedCheckpoint(c, w, p, cp);
    RepeatedAssignsNothing(c, w, p, cp);
    AllEntries(s, EntriesFrom(s, {p}));
    QuorumFits(c);
    RepeatedUnsafe(c, s, p);
  }

  lemma RepeatedUnsafe(c: Config, s: seq<VcBasis>, p: nat)
    requires c.Valid() && |EntriesFrom(s, {p})| >= c.Q()
    ensures !SafeSenders(c, s)
  {
    QuorumFits(c);
    assert |{p}| == 1;
  }

  lemma RepeatedCheckpoint(c: Config, w: nat, p: nat, cp: CheckpointState)
    requires c.Valid()
    ensures IsInitialCheckpoint(c, Repeated(w, p, cp, c.Q()), cp)
  {
    var s := Repeated(w, p, cp, c.Q());
    AllEntries(s, Holders(s, cp));
    AllEntries(s, LowVoters(s, cp.height));
    forall other: CheckpointState | other != cp ensures |Holders(s, other)| == 0 {
      assert Holders(s, other) == {};
    }
  }

  lemma RepeatedAssignsNothing(c: Config, w: nat, p: nat, cp: CheckpointState)
    requires c.Valid()
    ensures Assignment(c, Repeated(w, p, cp, c.Q()), cp.height) == Some([])
  {
    var s := Repeated(w, p, cp, c.Q());
    var slots := Slots(c, s);
    forall n | cp.height < n <= cp.height + c.l ensures slots(n) == NullSlot {
      NothingBacked(c, s, n);
      AllEntries(s, NullVoters(s, n));
    }
    assert LastKept(slots, cp.height, c.l) == cp.height;
  }
}
