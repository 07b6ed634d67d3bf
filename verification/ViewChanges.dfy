/** What a view-change message says over a whole run: it is always acceptable, its P and Q sets
    are the true maxima, and nothing above the low watermark is ever lost from them. */
module ViewChanges {
  import opened Quorum
  import opened NewView
  import opened Replica
  import opened ReplicaInv
  import opened Protocol
  import opened ProtocolKeeps

  /* ---------- honest view changes are acceptable ---------- */

  /** A P or Q entry belongs to an earlier view and lies above the sender's low watermark. */
  predicate CorrectEntry(b: VcBasis, e: VcPq) {
    e.v < b.view && e.n > b.h
  }

  /** What correctViewChange asks of a basis. */
  ghost predicate IsCorrect(b: VcBasis) {
    && (forall e :: e in b.pset + b.qset ==> CorrectEntry(b, e))
    && (forall cs :: cs in b.cset ==> cs.height >= b.h)
  }

  method CorrectViewChange(b: VcBasis) returns (ok: bool)
    ensures ok <==> IsCorrect(b)
    ensures ok <==>
              && (forall e :: e in b.pset || e in b.qset ==> e.v < b.view && e.n > b.h)
              && (forall cs :: cs in b.cset ==> cs.height >= b.h)
  {
    assert forall e :: e in b.pset + b.qset <==> e in b.pset || e in b.qset;
    var entries := b.pset + b.qset;
    for i := 0 to |entries|
      invariant forall k :: 0 <= k < i ==> CorrectEntry(b, entries[k])
    {
      if !(entries[i].v < b.view && entries[i].n > b.h) {
        assert !CorrectEntry(b, entries[i]);
        return false;
      }
    }
    for i := 0 to |b.cset|
      invariant forall k :: 0 <= k < i ==> b.cset[k].height >= b.h
    {
      if !(b.cset[i].height >= b.h) {
        assert b.cset[i] in b.cset;
        return false;
      }
    }
    return true;
  }

  /** Every basis an honest replica has sent, in any reachable state, passes correctViewChange. */
  lemma HonestViewChangeAcceptable(c: Config, genesis: Digest, steps: seq<Action>, sys: Sys, r: nat, b: VcBasis)
    requires c.Valid() && Reaches(c, genesis, steps, sys) && CheckedSteps(c, steps)
    requires r in sys && b in sys[r].hist.bases
    ensures IsCorrect(b)
  {
    ReachableInv(c, genesis, steps, sys);
    NodeOf(c, sys, r);
    BasisCorrect(c, r, sys[r], b);
  }

  lemma BasisCorrect(c: Config, r: nat, s: Node, b: VcBasis)
    requires BasisInv(c, r, s, b)
    ensures IsCorrect(b)
  {
    EntriesCorrect(b);
  }

  lemma EntriesCorrect(b: VcBasis)
    requires forall i :: 0 <= i < |b.pset| ==> b.pset[i].n > b.h && b.pset[i].v < b.view
    requires forall i :: 0 <= i < |b.qset| ==> b.qset[i].n > b.h && b.qset[i].v < b.view
    requires forall i :: 0 <= i < |b.cset| ==> b.cset[i].height >= b.h
    ensures IsCorrect(b)
  {
    forall e | e in b.pset + b.qset ensures CorrectEntry(b, e) {
      if e in b.pset {
        var i :| 0 <= i < |b.pset| && b.pset[i] == e;
      } else {
        var i :| 0 <= i < |b.qset| && b.qset[i] == e;
      }
    }
  }

  /* ---------- P and Q sets are maxima ---------- */

  /** Two results of calcPSet on one state agree: the order in which certificates are visited
      does not matter. */
  lemma PSetUnique(c: Config, r: nat, s: Node, p: map<nat, PEntry>, q: map<nat, PEntry>)
    requires NodeInv(c, r, s) && IsPSet(c, s.plist, s.certs, p) && IsPSet(c, s.plist, s.certs, q)
    ensures p == q
  {
    PSetKeys(c, s, p, q);
    PSetKeys(c, s, q, p);
    forall n | n in p && n in q ensures p[n] == q[n] {
      PEntryUnique(c, s, p, q, n);
    }
  }

  lemma PSetKeys(c: Config, s: Node, p: map<nat, PEntry>, q: map<nat, PEntry>)
    requires c.n >= 1 && IsPSet(c, s.plist, s.certs, p) && IsPSet(c, s.plist, s.certs, q)
    ensures p.Keys <= q.Keys
    ensures forall n :: n in p ==> q[n].v >= p[n].v
  {
  }

  lemma PEntryUnique(c: Config, s: Node, p: map<nat, PEntry>, q: map<nat, PEntry>, n: nat)
    requires c.n >= 1 && CertInv(s) && IsPSet(c, s.plist, s.certs, p) && IsPSet(c, s.plist, s.certs, q)
    requires n in p && n in q
    ensures p[n] == q[n]
  {
    PSetKeys(c, s, p, q);
    PSetKeys(c, s, q, p);
    var a := MsgId(p[n].v, n, p[n].d);
    var b := MsgId(q[n].v, n, q[n].d);
    if a in s.certs && Prepared(c, s.certs, a) && b in s.certs && Prepared(c, s.certs, b) {
      assert s.seqMap[n] == a.d == b.d;
    }
  }

  lemma QSetUnique(old_: map<QIdx, nat>, certs: map<MsgId, Cert>, p: map<QIdx, nat>, q: map<QIdx, nat>)
    requires IsQSet(old_, certs, p) && IsQSet(old_, certs, q)
    ensures p == q
  {
    QSetBelow(old_, certs, p, q);
    QSetBelow(old_, certs, q, p);
    forall x | x in p && x in q ensures p[x] == q[x] {
    }
  }

  lemma QSetBelow(old_: map<QIdx, nat>, certs: map<MsgId, Cert>, p: map<QIdx, nat>, q: map<QIdx, nat>)
    requires IsQSet(old_, certs, p) && IsQSet(old_, certs, q)
    ensures p.Keys <= q.Keys && forall x :: x in p ==> p[x] <= q[x]
  {
  }

  /** The P set of an honest basis holds, for a number above its low watermark, an entry of the
      highest view in which the sender ever prepared something there before the basis' view. */
  lemma BasisHoldsMaximum(c: Config, genesis: Digest, steps: seq<Action>, sys: Sys, r: nat, b: VcBasis, id: MsgId)
    requires c.Valid() && Reaches(c, genesis, steps, sys) && CheckedSteps(c, steps)
    requires r in sys && b in sys[r].hist.bases
    requires id in sys[r].hist.prepared && b.h < id.n && id.v < b.view
    ensures exists e :: e in b.pset && e.n == id.n && Covers(PEntry(e.v, e.d), id)
                        && MsgId(e.v, e.n, e.d) in sys[r].hist.prepared
  {
    ReachableInv(c, genesis, steps, sys);
    NodeOf(c, sys, r);
    assert BasisInv(c, r, sys[r], b);
    assert PCovered(b, id);
    var i :| 0 <= i < |b.pset| && b.pset[i].n == id.n && Covers(PEntry(b.pset[i].v, b.pset[i].d), id);
    assert b.pset[i] in b.pset;
  }

  /* ---------- what every run keeps ---------- */

  /** Between two states of one replica: the view and the low watermark never go back, executed
      blocks are only appended, and a P or Q entry above the low watermark stays with a view at
      least as high. */
  ghost predicate Advances(s: Node, t: Node) {
    && s.view <= t.view && s.h <= t.h
    && |s.executed| <= |t.executed| && t.executed[..|s.executed|] == s.executed
    && (forall n :: n in s.plist && n > t.h ==> n in t.plist && t.plist[n].v >= s.plist[n].v)
    && (forall x :: x in s.qlist && x.n > t.h ==> x in t.qlist && t.qlist[x] >= s.qlist[x])
  }

  lemma AdvancesTrans(s: Node, t: Node, u: Node)
    requires Advances(s, t) && Advances(t, u)
    ensures Advances(s, u)
  {
    assert u.executed[..|s.executed|] == u.executed[..|t.executed|][..|s.executed|];
  }

  lemma MoveAdvances(s: Node, n: nat)
    ensures Advances(s, MoveWatermarks(s, n))
  {
  }

  lemma EnterAdvances(c: Config, r: nat, s: Node, nv: NewViewMsg)
    requires c.n >= 1
    ensures Advances(s, Enter(c, r, s, nv))
  {
    MoveAdvances(s, nv.base);
  }

  lemma StepAdvances(c: Config, sys: Sys, a: Action)
    requires c.n >= 1 && Enabled(c, sys, a)
    ensures Advances(sys[a.r], Apply(c, sys[a.r], a))
  {
    var s := sys[a.r];
    match a
    case DoStable(r, height) => MoveAdvances(s, height);
    case DoEnter(r, nv, cs) => EnterAdvances(c, r, s, nv);
    case DoExecute(r, id) => assert (s.executed + [id])[..|s.executed|] == s.executed;
    case _ =>
  }

  /** Over every run, whatever the faulty replicas do. */
  lemma {:induction false} RunAdvances(c: Config, from: Sys, steps: seq<Action>, to: Sys, r: nat)
    requires c.n >= 1 && Run(c, from, steps, to) && r in from
    ensures r in to && Advances(from[r], to[r])
    decreases |steps|
  {
    if steps != [] {
      var last := steps[|steps| - 1];
      var before := RunLast(c, from, steps, to);
      RunAdvances(c, from, steps[..|steps| - 1], before, r);
      if r == last.r {
        StepAdvances(c, before, last);
        AdvancesTrans(from[r], before[r], to[r]);
      }
    }
  }

  /** Only votes differ: the replica has accepted, executed and reported nothing since. */
  predicate Held(s: Node, t: Node) {
    && t.waiting == s.waiting && t.executed == s.executed && t.view == s.view && t.inViewChange == s.inViewChange
    && t.h == s.h && t.seqNo == s.seqNo && t.seqMap == s.seqMap && t.ckpts == s.ckpts
    && t.plist == s.plist && t.qlist == s.qlist && t.hist.accepted == s.hist.accepted
  }

  /** Between a checkpoint block and its report a replica executes, accepts and changes nothing,
      over any run that holds no report of that replica: it only sends votes still due. */
  lemma {:induction false} CheckpointBarrier(c: Config, from: Sys, steps: seq<Action>, to: Sys, r: nat)
    requires c.n >= 1 && Run(c, from, steps, to) && r in from && from[r].waiting
    requires forall i :: 0 <= i < |steps| ==> steps[i].r == r ==> !steps[i].DoReport?
    ensures r in to && Held(from[r], to[r])
    decreases |steps|
  {
    if steps != [] {
      var last := steps[|steps| - 1];
      var before := RunLast(c, from, steps, to);
      CheckpointBarrier(c, from, steps[..|steps| - 1], before, r);
      assert steps[|steps| - 1] == last;
      StepHolds(c, before, last, to, r);
    }
  }

  lemma StepHolds(c: Config, sys: Sys, a: Action, next: Sys, r: nat)
    requires c.n >= 1 && Enabled(c, sys, a) && next == Next(c, sys, a)
    requires r in sys && sys[r].waiting && (a.r == r ==> !a.DoReport?)
    ensures r in next && Held(sys[r], next[r])
  {
    if r == a.r {
      VotesHeld(c, sys, a);
    }
  }

  lemma VotesHeld(c: Config, sys: Sys, a: Action)
    requires c.n >= 1 && Enabled(c, sys, a) && sys[a.r].waiting && !a.DoReport?
    ensures Held(sys[a.r], Apply(c, sys[a.r], a))
  {
  }

  /** In every reachable state what a replica keeps lies above its low watermark: certificates,
      which are of the current view only, and P and Q entries; local checkpoints may be at it. */
  lemma StoresAboveWatermark(c: Config, genesis: Digest, steps: seq<Action>, sys: Sys, r: nat)
    requires c.Valid() && Reaches(c, genesis, steps, sys) && CheckedSteps(c, steps) && r in sys
    ensures var s := sys[r];
            && (forall id :: id in s.certs ==> id.v == s.view && id.n > s.h)
            && (forall n :: n in s.plist ==> n > s.h && s.plist[n].v < s.view)
            && (forall x :: x in s.qlist ==> x.n > s.h && s.qlist[x] < s.view)
            && (forall k :: k in s.ckpts ==> s.h <= k <= |s.executed| && c.ckptAt(k))
  {
    ReachableInv(c, genesis, steps, sys);
    NodeOf(c, sys, r);
  }

  /** Executed numbers are 1, 2, 3, ... over every run, each backed by a commit quorum. */
  lemma ExecutionInOrder(c: Config, genesis: Digest, steps: seq<Action>, sys: Sys, r: nat, i: nat)
    requires c.Valid() && Reaches(c, genesis, steps, sys) && CheckedSteps(c, steps) && r in sys && i < |sys[r].executed|
    ensures sys[r].executed[i].n == i + 1 && CommitQuorum(c, sys, sys[r].executed[i])
  {
    ReachableInv(c, genesis, steps, sys);
    NodeOf(c, sys, r);
    LinksOf(c, sys, r);
  }
}
