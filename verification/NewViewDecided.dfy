/** When a new view can be built. With exactly a quorum of bases, a number is decided if and only if
    no two P entries dispute it and F + 1 Q sets stand behind the winning one; whoever collects the
    bases can check this on them. Bases that come later never undo a decision. */
module NewViewDecided {
  import opened Quorum
  import opened NewView

  /** Basis i has a P entry j for number n. */
  ghost predicate Entry(s: seq<VcBasis>, n: nat, i: nat, j: nat) {
    i < |s| && j < |s[i].pset| && s[i].pset[j].n == n
  }

  /** No P entry for n contradicts this one, and F + 1 Q sets back it. */
  ghost predicate Settles(c: Config, s: seq<VcBasis>, n: nat, i: nat, j: nat)
    requires c.n >= 1
  {
    && Entry(s, n, i, j)
    && (forall k: nat, m: nat :: Entry(s, n, k, m) ==> Compatible(s[k].pset[m], s[i].pset[j]))
    && |A2Voters(s, s[i].pset[j])| >= c.Weak()
  }

  ghost predicate Unclaimed(s: seq<VcBasis>, n: nat) {
    forall i: nat, j: nat :: !Entry(s, n, i, j)
  }

  ghost predicate Undisputed(c: Config, s: seq<VcBasis>, n: nat)
    requires c.n >= 1
  {
    Unclaimed(s, n) || exists i: nat, j: nat :: Settles(c, s, n, i, j)
  }

  ghost predicate AllBelow(s: seq<VcBasis>, n: nat) {
    forall i :: 0 <= i < |s| ==> s[i].h < n
  }

  /* ---------- one number ---------- */

  lemma SettledIsSelectable(c: Config, s: seq<VcBasis>, n: nat, i: nat, j: nat)
    requires c.n >= 1 && |s| >= c.Q() && AllBelow(s, n) && Settles(c, s, n, i, j)
    ensures Selectable(c, s, s[i].pset[j])
  {
    var em := s[i].pset[j];
    forall k: nat | k < |s| ensures k in A1Voters(s, em) {
      forall m: nat | m < |s[k].pset| ensures Compatible(s[k].pset[m], em) {
        assert s[k].pset[m].n == n ==> Entry(s, n, k, m);
      }
    }
    AllEntries(s, A1Voters(s, em));
  }

  lemma UndisputedDecides(c: Config, s: seq<VcBasis>, n: nat)
    requires c.n >= 1 && |s| >= c.Q() && AllBelow(s, n) && Undisputed(c, s, n)
    ensures !SlotOf(c, s, n).Stuck?
  {
    if Unclaimed(s, n) {
      forall k: nat | k < |s| ensures k in NullVoters(s, n) {
        forall m: nat | m < |s[k].pset| ensures s[k].pset[m].n != n {
          assert !Entry(s, n, k, m);
        }
      }
      AllEntries(s, NullVoters(s, n));
    } else {
      var i: nat, j: nat :| Settles(c, s, n, i, j);
      SettledIsSelectable(c, s, n, i, j);
      if FirstFrom(c, s, 0, n).None? {
        FirstFromNone(c, s, 0, n, i, j);
      }
    }
  }

  /** A set of indices as large as the list holds every index. */
  lemma Everyone(s: seq<VcBasis>, voters: set<nat>)
    requires (forall i :: i in voters ==> i < |s|) && |voters| >= |s|
    ensures forall i: nat :: i < |s| ==> i in voters
  {
    var all := Indices(|s|);
    if x :| x in all && x !in voters {
      SubsetCount(voters, all - {x});
    }
  }

  lemma DecidedIsUndisputed(c: Config, s: seq<VcBasis>, n: nat)
    requires c.n >= 1 && |s| == c.Q() && !SlotOf(c, s, n).Stuck?
    ensures Undisputed(c, s, n)
  {
    if FirstFrom(c, s, 0, n).Some? {
      var i, j := FirstFromSome(c, s, 0, n);
      var em := s[i].pset[j];
      Everyone(s, A1Voters(s, em));
      forall k: nat, m: nat | Entry(s, n, k, m) ensures Compatible(s[k].pset[m], em) {
        assert k in A1Voters(s, em);
      }
      assert Settles(c, s, n, i, j);
    } else {
      Everyone(s, NullVoters(s, n));
      forall i: nat, j: nat ensures !Entry(s, n, i, j) {
        if i < |s| {
          assert i in NullVoters(s, n);
        }
      }
    }
  }

  /** A quorum of bases decides a number if and only if it is undisputed among them. */
  lemma SlotDecidedIff(c: Config, s: seq<VcBasis>, n: nat)
    requires c.n >= 1 && |s| == c.Q() && AllBelow(s, n)
    ensures !SlotOf(c, s, n).Stuck? <==> Undisputed(c, s, n)
  {
    if !SlotOf(c, s, n).Stuck? {
      DecidedIsUndisputed(c, s, n);
    } else if Undisputed(c, s, n) {
      UndisputedDecides(c, s, n);
    }
  }

  /** The whole list: a quorum of bases yields a new view if and only if every number of the window
      is undisputed. */
  lemma AssignmentIff(c: Config, s: seq<VcBasis>, h: nat)
    requires c.n >= 1 && |s| == c.Q() && AllBelow(s, h + 1)
    ensures Assignment(c, s, h).Some? <==> forall n :: h < n <= h + c.l ==> Undisputed(c, s, n)
  {
    forall n | h < n <= h + c.l ensures Slots(c, s)(n).Stuck? <==> !Undisputed(c, s, n) {
      SlotDecidedIff(c, s, n);
    }
  }

  /* ---------- when the entries of one view agree ---------- */

  ghost predicate OneDigestPerView(s: seq<VcBasis>, n: nat) {
    forall i: nat, j: nat, k: nat, m: nat :: Entry(s, n, i, j) && Entry(s, n, k, m) ==>
      s[i].pset[j].v == s[k].pset[m].v ==> s[i].pset[j].d == s[k].pset[m].d
  }

  ghost predicate IsTop(s: seq<VcBasis>, n: nat, i: nat, j: nat) {
    Entry(s, n, i, j) && forall k: nat, m: nat :: Entry(s, n, k, m) ==> s[k].pset[m].v <= s[i].pset[j].v
  }

  /** F + 1 Q sets back every P entry of the highest view for n. */
  ghost predicate TopBacked(c: Config, s: seq<VcBasis>, n: nat)
    requires c.n >= 1
  {
    forall i: nat, j: nat :: IsTop(s, n, i, j) ==> |A2Voters(s, s[i].pset[j])| >= c.Weak()
  }

  lemma {:induction false} Greatest(s: set<nat>) returns (m: nat)
    requires s != {}
    ensures m in s && forall x :: x in s ==> x <= m
    decreases |s|
  {
    m :| m in s;
    if s != {m} {
      var rest := s - {m};
      assert s == rest + {m};
      var k := Greatest(rest);
      m := if k > m then k else m;
    }
  }

  lemma TopExists(s: seq<VcBasis>, n: nat) returns (i: nat, j: nat)
    requires !Unclaimed(s, n)
    ensures IsTop(s, n, i, j)
  {
    var views := set i: nat, j: nat | i < |s| && j < |s[i].pset| && Entry(s, n, i, j) :: s[i].pset[j].v;
    var i0: nat, j0: nat :| Entry(s, n, i0, j0);
    assert s[i0].pset[j0].v in views;
    var top := Greatest(views);
    i, j :| i < |s| && j < |s[i].pset| && Entry(s, n, i, j) && s[i].pset[j].v == top;
    forall k: nat, m: nat | Entry(s, n, k, m) ensures s[k].pset[m].v <= top {
      assert s[k].pset[m].v in views;
    }
  }

  /** The P entries of the highest view for n carry one digest. */
  ghost predicate TopAgrees(s: seq<VcBasis>, n: nat) {
    forall i: nat, j: nat, k: nat, m: nat :: IsTop(s, n, i, j) && IsTop(s, n, k, m) ==> s[i].pset[j].d == s[k].pset[m].d
  }

  /** Only the entries of the highest view matter: they must agree and be backed. */
  lemma UndisputedIffTop(c: Config, s: seq<VcBasis>, n: nat)
    requires c.n >= 1
    ensures Undisputed(c, s, n) <==> TopAgrees(s, n) && TopBacked(c, s, n)
  {
    if Undisputed(c, s, n) {
      if !Unclaimed(s, n) {
        var k: nat, m: nat :| Settles(c, s, n, k, m);
        forall i: nat, j: nat | IsTop(s, n, i, j) ensures s[i].pset[j] == s[k].pset[m] {
          assert Compatible(s[i].pset[j], s[k].pset[m]);
        }
      }
    } else if TopAgrees(s, n) && TopBacked(c, s, n) {
      var i, j := TopExists(s, n);
      TopSettles(c, s, n, i, j);
    }
  }

  lemma TopSettles(c: Config, s: seq<VcBasis>, n: nat, i: nat, j: nat)
    requires c.n >= 1 && TopAgrees(s, n) && TopBacked(c, s, n) && IsTop(s, n, i, j)
    ensures Settles(c, s, n, i, j)
  {
    forall k: nat, m: nat | Entry(s, n, k, m) ensures Compatible(s[k].pset[m], s[i].pset[j]) {
      if s[k].pset[m].v == s[i].pset[j].v {
        assert IsTop(s, n, k, m);
      }
    }
  }

  /** Where the entries of each view agree, only the backing of the highest one matters. */
  lemma UndisputedIffTopBacked(c: Config, s: seq<VcBasis>, n: nat)
    requires c.n >= 1 && OneDigestPerView(s, n)
    ensures Undisputed(c, s, n) <==> TopBacked(c, s, n)
  {
    UndisputedIffTop(c, s, n);
    OneDigestTops(s, n);
  }

  lemma OneDigestTops(s: seq<VcBasis>, n: nat)
    requires OneDigestPerView(s, n)
    ensures TopAgrees(s, n)
  {
    forall i: nat, j: nat, k: nat, m: nat | IsTop(s, n, i, j) && IsTop(s, n, k, m)
      ensures s[i].pset[j].d == s[k].pset[m].d
    {
      assert Entry(s, n, i, j) && Entry(s, n, k, m);
    }
  }

  /* ---------- more bases ---------- */

  /** The bases of s stand in t, at different places. */
  ghost predicate Embeds(s: seq<VcBasis>, t: seq<VcBasis>, f: nat -> nat) {
    && (forall i: nat :: i < |s| ==> f(i) < |t| && t[f(i)] == s[i])
    && forall i: nat, j: nat :: i < j < |s| ==> f(i) != f(j)
  }

  lemma {:induction false} ImageCount(a: set<nat>, b: set<nat>, f: nat -> nat)
    requires forall i: nat :: i in a ==> f(i) in b
    requires forall i: nat, j: nat :: i in a && j in a && i < j ==> f(i) != f(j)
    ensures |a| <= |b|
    decreases |a|
  {
    if a != {} {
      var x :| x in a;
      ImageCount(a - {x}, b - {f(x)}, f);
    }
  }

  lemma SelectableStays(c: Config, s: seq<VcBasis>, t: seq<VcBasis>, f: nat -> nat, em: VcPq)
    requires c.n >= 1 && Embeds(s, t, f) && Selectable(c, s, em)
    ensures Selectable(c, t, em)
  {
    ImageCount(A1Voters(s, em), A1Voters(t, em), f);
    ImageCount(A2Voters(s, em), A2Voters(t, em), f);
  }

  /** Further bases, whatever they say and whoever sends them, leave a decided number decided. */
  lemma MoreBasesDecide(c: Config, s: seq<VcBasis>, t: seq<VcBasis>, f: nat -> nat, n: nat)
    requires c.n >= 1 && Embeds(s, t, f) && !SlotOf(c, s, n).Stuck?
    ensures !SlotOf(c, t, n).Stuck?
  {
    if FirstFrom(c, s, 0, n).Some? {
      var i, j := FirstFromSome(c, s, 0, n);
      SelectableStays(c, s, t, f, s[i].pset[j]);
      if FirstFrom(c, t, 0, n).None? {
        FirstFromNone(c, t, 0, n, f(i), j);
      }
    } else {
      ImageCount(NullVoters(s, n), NullVoters(t, n), f);
    }
  }

  lemma MoreBasesAssign(c: Config, s: seq<VcBasis>, t: seq<VcBasis>, f: nat -> nat, h: nat)
    requires c.n >= 1 && Embeds(s, t, f) && Assignment(c, s, h).Some?
    ensures Assignment(c, t, h).Some?
  {
    forall n | h < n <= h + c.l ensures !Slots(c, t)(n).Stuck? {
      assert !Slots(c, s)(n).Stuck?;
      MoreBasesDecide(c, s, t, f, n);
    }
  }

  /** A quorum of bases yields a new view, and goes on doing so whatever bases are added to it, if and
      only if for every number of the window its P entries of the highest view agree and are backed. */
  lemma AssignedWhateverIsAdded(c: Config, s: seq<VcBasis>, h: nat)
    requires c.n >= 1 && |s| == c.Q() && AllBelow(s, h + 1)
    ensures (forall t: seq<VcBasis>, f: nat -> nat :: Embeds(s, t, f) ==> Assignment(c, t, h).Some?)
       <==> (forall n: nat :: h < n <= h + c.l ==> TopAgrees(s, n) && TopBacked(c, s, n))
  {
    AssignmentIff(c, s, h);
    forall n: nat ensures Undisputed(c, s, n) <==> TopAgrees(s, n) && TopBacked(c, s, n) {
      UndisputedIffTop(c, s, n);
    }
    if Assignment(c, s, h).Some? {
      forall t: seq<VcBasis>, f: nat -> nat | Embeds(s, t, f) ensures Assignment(c, t, h).Some? {
        MoreBasesAssign(c, s, t, f, h);
      }
    } else {
      var same := (i: nat) => i;
      assert Embeds(s, s, same);
    }
  }
}
