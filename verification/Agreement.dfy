/** Safety over whole runs: no two honest replicas commit or execute different requests under one
    sequence number, as long as the new views entered have lists that no few senders dominate, no null
    request was executed under the number, and the number stayed inside the windows. */
module Agreement {
  import opened Quorum
  import opened NewView
  import opened Replica
  import opened ReplicaInv
  import opened Protocol
  import opened ProtocolKeeps

  /** No honest replica has executed a null request under number n. */
  ghost predicate NoNullExecuted(sys: Sys, n: nat) {
    forall r :: r in sys && 1 <= n <= |sys[r].executed| ==> sys[r].executed[n - 1].d != NULL_REQUEST
  }

  /** Every honest commit for number n was sent inside the sender's window, n <= H + L. */
  ghost predicate CommitsInWindow(c: Config, sys: Sys, n: nat) {
    forall r, m :: r in sys && m in sys[r].hist.commits && m.id.n == n ==> n <= m.h + c.l
  }

  /** No new view entered by an honest replica has its window end below n. */
  ghost predicate ViewsReach(c: Config, sys: Sys, n: nat) {
    forall r, v :: r in sys && v in sys[r].hist.entered ==> n <= sys[r].hist.entered[v].base + c.l
  }

  /** Number n stays inside the windows: either honest replicas commit it only inside their own
      (what an honest primary's proposals guarantee), or every new view covers it. */
  ghost predicate Windowed(c: Config, sys: Sys, n: nat) {
    CommitsInWindow(c, sys, n) || ViewsReach(c, sys, n)
  }

  /** The lowest view in which a non-null digest gathered a commit quorum for its number. */
  ghost predicate FirstCommit(c: Config, sys: Sys, id: MsgId)
    requires c.n >= 1
  {
    && id.d != NULL_REQUEST && CommitQuorum(c, sys, id)
    && forall other: MsgId :: other.n == id.n && other.v < id.v && other.d != NULL_REQUEST ==> !CommitQuorum(c, sys, other)
  }

  lemma {:induction false} FindFirstCommit(c: Config, sys: Sys, id: MsgId) returns (first: MsgId)
    requires c.n >= 1 && id.d != NULL_REQUEST && CommitQuorum(c, sys, id)
    ensures FirstCommit(c, sys, first) && first.n == id.n && first.v <= id.v
    decreases id.v
  {
    if lower: MsgId :| lower.n == id.n && lower.v < id.v && lower.d != NULL_REQUEST && CommitQuorum(c, sys, lower) {
      first := FindFirstCommit(c, sys, lower);
    } else {
      first := id;
    }
  }

  lemma CommitterRecords(c: Config, sys: Sys, r: nat, id: MsgId) returns (m: CommitMsg)
    requires SysInv(c, sys) && r in c.Honest() && r in CommitVoters(c, sys, id)
    ensures m in sys[r].hist.commits && m.id == id
    ensures id in sys[r].hist.accepted && m.h <= sys[r].h
    ensures id in sys[r].hist.prepared || ExecutedBefore(sys[r], id.n, id.v)
  {
    NodeOf(c, sys, r);
    m :| m in sys[r].hist.commits && m.id == id;
  }

  /** What a replica executed gathered a commit quorum. */
  lemma ExecutedWasCommitted(c: Config, sys: Sys, r: nat, n: nat)
    requires SysInv(c, sys) && r in sys && 1 <= n <= |sys[r].executed|
    ensures sys[r].executed[n - 1].n == n && CommitQuorum(c, sys, sys[r].executed[n - 1])
  {
    NodeOf(c, sys, r);
    LinksOf(c, sys, r);
  }

  lemma EarlierExecution(c: Config, sys: Sys, r: nat, n: nat, v: nat)
    requires SysInv(c, sys) && r in sys && ExecutedBefore(sys[r], n, v) && NoNullExecuted(sys, n)
    ensures exists e: MsgId :: e.n == n && e.v < v && e.d != NULL_REQUEST && CommitQuorum(c, sys, e)
  {
    ExecutedWasCommitted(c, sys, r, n);
  }

  /** In the lowest committing view every honest committer had prepared the request: a commit
      repeated for an executed number would need an earlier commit quorum. */
  lemma FirstCommittersPrepared(c: Config, sys: Sys, first: MsgId, r: nat)
    requires SysInv(c, sys) && FirstCommit(c, sys, first) && NoNullExecuted(sys, first.n)
    requires r in c.Honest() && r in CommitVoters(c, sys, first)
    ensures first in sys[r].hist.prepared
  {
    var m := CommitterRecords(c, sys, r, first);
    if ExecutedBefore(sys[r], first.n, first.v) {
      EarlierExecution(c, sys, r, first.n, first.v);
    }
  }

  /** An honest basis for a later view accounts for the request its sender prepared. */
  lemma BasisRecords(c: Config, sys: Sys, b: VcBasis, id: MsgId) returns (j: nat)
    requires b.id in sys && BasisInv(c, b.id, sys[b.id], b) && sys[b.id].hist.prepared <= sys[b.id].hist.accepted
    requires id in sys[b.id].hist.prepared && id.v < b.view && b.h < id.n
    ensures j < |b.pset| && b.pset[j].n == id.n && Covers(PEntry(b.pset[j].v, b.pset[j].d), id)
    ensures b.pset[j].v < b.view && MsgId(b.pset[j].v, id.n, b.pset[j].d) in sys[b.id].hist.accepted
  {
    assert PCovered(b, id);
    j :| 0 <= j < |b.pset| && b.pset[j].n == id.n && Covers(PEntry(b.pset[j].v, b.pset[j].d), id);
    assert MsgId(b.pset[j].v, b.pset[j].n, b.pset[j].d) in sys[b.id].hist.prepared;
  }

  /** The low watermarks of the bases bring a committed number into the window of the new view. */
  lemma CommitInsideWindow(c: Config, sys: Sys, v: nat, nv: NewViewMsg, cs: CheckpointState, id: MsgId)
    requires SysInv(c, sys) && IsNewView(c, v, nv, cs) && AllSent(c, sys, nv.bases)
    requires CommitQuorum(c, sys, id) && CommitsInWindow(c, sys, id.n) && id.v < v
    ensures id.n <= nv.base + c.l
  {
    var i := HonestVoterIn(c, nv.bases, LowVoters(nv.bases, nv.base), CommitVoters(c, sys, id));
    var b := nv.bases[i];
    var m := CommitterRecords(c, sys, b.id, id);
    BasisFacts(c, sys, b);
  }

  lemma AcceptedFrom(c: Config, sys: Sys, r: nat, id: MsgId) returns (nv: NewViewMsg, cs: CheckpointState)
    requires SafeInv(c, sys) && r in sys && id in sys[r].hist.accepted && id.v > 0
    ensures IsNewView(c, id.v, nv, cs) && AllSent(c, sys, nv.bases) && id.n > nv.base
    ensures id.n in nv.xset ==> Assigns(nv, id)
    ensures id.v in sys[r].hist.entered && sys[r].hist.entered[id.v] == nv
  {
    NodeOf(c, sys, r);
    LinksOf(c, sys, r);
    SafeOf(c, sys, r);
    nv := sys[r].hist.entered[id.v];
    cs :| PassesCheck(c, id.v, nv, cs);
  }

  /** After the lowest committing view, honest replicas accept only the committed digest for the
      number. By induction on the view: every new view is built from bases that record the commit. */
  lemma {:induction false} AcceptedAfterCommit(c: Config, sys: Sys, first: MsgId, r: nat, id: MsgId)
    requires SafeInv(c, sys) && FirstCommit(c, sys, first)
    requires NoNullExecuted(sys, first.n) && Windowed(c, sys, first.n)
    requires r in sys && id in sys[r].hist.accepted && id.n == first.n && id.v > first.v
    ensures id.d == first.d
    decreases id.v, 1
  {
    var nv, cs := AcceptedFrom(c, sys, r, id);
    var q := CommitVoters(c, sys, first);
    forall i | 0 <= i < |nv.bases| && nv.bases[i].id in c.Honest()
      ensures BasisAgrees(nv.bases[i], q, first)
    {
      HonestBasisAgrees(c, sys, first, nv.bases[i], id.v);
    }
    if CommitsInWindow(c, sys, first.n) {
      CommitInsideWindow(c, sys, id.v, nv, cs, first);
    }
    QuorumIds(c, sys, first);
    NewViewCarries(c, id.v, nv, cs, q, first);
  }

  lemma QuorumIds(c: Config, sys: Sys, id: MsgId)
    requires c.n >= 1 && CommitQuorum(c, sys, id)
    ensures CommitVoters(c, sys, id) <= c.Replicas() && |CommitVoters(c, sys, id)| >= c.Q()
  {
  }

  /** A new view built from bases that agree on a commit assigns the committed digest. */
  lemma NewViewCarries(c: Config, v: nat, nv: NewViewMsg, cs: CheckpointState, q: set<nat>, first: MsgId)
    requires c.Valid() && IsNewView(c, v, nv, cs)
    requires q <= c.Replicas() && |q| >= c.Q()
    requires forall i :: 0 <= i < |nv.bases| && nv.bases[i].id in c.Honest() ==> BasisAgrees(nv.bases[i], q, first)
    requires nv.base < first.n <= nv.base + c.l && first.d != NULL_REQUEST
    ensures Assigns(nv, first)
  {
    CommitPreserved(c, nv.bases, nv.base, q, first.v, first.n, first.d);
    var xs := Assignment(c, nv.bases, nv.base).value;
    assert xs[first.n - nv.base - 1] == XEntry(first.n, first.d);
  }

  ghost predicate BasisAgrees(b: VcBasis, q: set<nat>, first: MsgId) {
    && (b.id in q && b.h < first.n ==>
          exists j :: 0 <= j < |b.pset| && b.pset[j].n == first.n && b.pset[j].v >= first.v && b.pset[j].d == first.d)
    && (forall j :: 0 <= j < |b.qset| ==> b.qset[j].n == first.n && b.qset[j].v > first.v ==> b.qset[j].d == first.d)
  }

  lemma {:induction false} HonestBasisAgrees(c: Config, sys: Sys, first: MsgId, b: VcBasis, v: nat)
    requires SafeInv(c, sys) && FirstCommit(c, sys, first)
    requires NoNullExecuted(sys, first.n) && Windowed(c, sys, first.n)
    requires b.id in c.Honest() && SentBasis(c, sys, b) && b.view == v > first.v
    ensures BasisAgrees(b, CommitVoters(c, sys, first), first)
    decreases v, 0
  {
    BasisFacts(c, sys, b);
    if b.id in CommitVoters(c, sys, first) && b.h < first.n {
      FirstCommittersPrepared(c, sys, first, b.id);
      var j := BasisRecords(c, sys, b, first);
      if b.pset[j].v > first.v {
        AcceptedAfterCommit(c, sys, first, b.id, MsgId(b.pset[j].v, first.n, b.pset[j].d));
      }
    }
    forall j | 0 <= j < |b.qset| && b.qset[j].n == first.n && b.qset[j].v > first.v ensures b.qset[j].d == first.d {
      AcceptedAfterCommit(c, sys, first, b.id, MsgId(b.qset[j].v, first.n, b.qset[j].d));
    }
  }

  /** Two commit quorums for one number carry the same non-null digest, whatever their views. */
  lemma CommitQuorumsAgree(c: Config, sys: Sys, a: MsgId, b: MsgId)
    requires SafeInv(c, sys)
    requires a.n == b.n && a.d != NULL_REQUEST && b.d != NULL_REQUEST
    requires CommitQuorum(c, sys, a) && CommitQuorum(c, sys, b)
    requires NoNullExecuted(sys, a.n) && Windowed(c, sys, a.n)
    ensures a.d == b.d
  {
    var first := FindFirstCommit(c, sys, a);
    AgreesWithFirst(c, sys, first, a);
    AgreesWithFirst(c, sys, first, b);
  }

  lemma AgreesWithFirst(c: Config, sys: Sys, first: MsgId, id: MsgId)
    requires SafeInv(c, sys) && FirstCommit(c, sys, first)
    requires id.n == first.n && id.d != NULL_REQUEST && CommitQuorum(c, sys, id)
    requires NoNullExecuted(sys, first.n) && Windowed(c, sys, first.n)
    ensures id.d == first.d
  {
    assert id.v >= first.v;
    var r := QuorumsShareHonest(c, CommitVoters(c, sys, id), CommitVoters(c, sys, first));
    var m := CommitterRecords(c, sys, r, id);
    var k := CommitterRecords(c, sys, r, first);
    if id.v > first.v {
      AcceptedAfterCommit(c, sys, first, r, id);
    } else {
      NodeOf(c, sys, r);
    }
  }

  /* ---------- main results ---------- */

  /** Agreement over every run: honest replicas that hold committed certificates for one number,
      in the same or in different views, hold the same non-null digest. */
  lemma CommittedCertificatesAgree(c: Config, genesis: Digest, steps: seq<Action>, sys: Sys,
                                   r1: nat, a: MsgId, r2: nat, b: MsgId)
    requires c.Valid() && Reaches(c, genesis, steps, sys) && GuardedSteps(c, steps)
    requires r1 in sys && a in sys[r1].certs && Committed(c, sys[r1].certs, a)
    requires r2 in sys && b in sys[r2].certs && Committed(c, sys[r2].certs, b)
    requires a.n == b.n && a.d != NULL_REQUEST && b.d != NULL_REQUEST
    requires NoNullExecuted(sys, a.n) && Windowed(c, sys, a.n)
    ensures a.d == b.d
  {
    GuardedInv(c, genesis, steps, sys);
    LinksOf(c, sys, r1);
    LinksOf(c, sys, r2);
    CertsBacked(c, sys, sys[r1], a);
    CertsBacked(c, sys, sys[r2], b);
    CommitQuorumsAgree(c, sys, a, b);
  }

  /** A new view preserves commits: in every reachable state, whatever set of bases for a later view
      a primary collects, if a list is assigned at all it gives a committed number its digest. */
  lemma CommitSurvivesNewView(c: Config, genesis: Digest, steps: seq<Action>, sys: Sys, id: MsgId,
                              s: seq<VcBasis>, w: nat, h: nat)
    requires c.Valid() && Reaches(c, genesis, steps, sys) && GuardedSteps(c, steps)
    requires CommitQuorum(c, sys, id) && id.d != NULL_REQUEST
    requires NoNullExecuted(sys, id.n) && Windowed(c, sys, id.n)
    requires SafeSenders(c, s) && AllSent(c, sys, s) && w > id.v
    requires forall i :: 0 <= i < |s| ==> s[i].view == w
    requires h < id.n <= h + c.l && Assignment(c, s, h).Some?
    ensures var xs := Assignment(c, s, h).value;
            id.n - h <= |xs| && xs[id.n - h - 1] == XEntry(id.n, id.d)
  {
    GuardedInv(c, genesis, steps, sys);
    var first := FindFirstCommit(c, sys, id);
    AgreesWithFirst(c, sys, first, id);
    BasesAgree(c, sys, first, s, w);
    QuorumIds(c, sys, first);
    CommitPreserved(c, s, h, CommitVoters(c, sys, first), first.v, id.n, id.d);
  }

  lemma BasesAgree(c: Config, sys: Sys, first: MsgId, s: seq<VcBasis>, w: nat)
    requires SafeInv(c, sys) && FirstCommit(c, sys, first)
    requires NoNullExecuted(sys, first.n) && Windowed(c, sys, first.n)
    requires AllSent(c, sys, s) && w > first.v && forall i :: 0 <= i < |s| ==> s[i].view == w
    ensures RecordsCommit(c, s, CommitVoters(c, sys, first), first.v, first.n, first.d)
  {
    forall i | 0 <= i < |s| && s[i].id in c.Honest() ensures BasisAgrees(s[i], CommitVoters(c, sys, first), first) {
      HonestBasisAgrees(c, sys, first, s[i], w);
    }
  }

  /** Total order: what one honest replica has executed is a prefix of what another has, digest
      by digest and number by number. */
  lemma ExecutionsAgree(c: Config, genesis: Digest, steps: seq<Action>, sys: Sys, r1: nat, r2: nat, i: nat)
    requires c.Valid() && Reaches(c, genesis, steps, sys) && GuardedSteps(c, steps)
    requires r1 in sys && r2 in sys && i < |sys[r1].executed| && i < |sys[r2].executed|
    requires NoNullExecuted(sys, i + 1) && Windowed(c, sys, i + 1)
    ensures sys[r1].executed[i].n == i + 1 == sys[r2].executed[i].n
    ensures sys[r1].executed[i].d == sys[r2].executed[i].d
  {
    GuardedInv(c, genesis, steps, sys);
    ExecutedSame(c, sys, r1, r2, i);
  }

  lemma ExecutedAt(c: Config, sys: Sys, r: nat, i: nat) returns (e: MsgId)
    requires SysInv(c, sys) && r in sys && i < |sys[r].executed| && NoNullExecuted(sys, i + 1)
    ensures e == sys[r].executed[i] && e.n == i + 1 && e.d != NULL_REQUEST && CommitQuorum(c, sys, e)
  {
    ExecutedWasCommitted(c, sys, r, i + 1);
    e := sys[r].executed[i];
    assert sys[r].executed[i + 1 - 1].d != NULL_REQUEST;
  }

  lemma ExecutedSame(c: Config, sys: Sys, r1: nat, r2: nat, i: nat)
    requires SafeInv(c, sys)
    requires r1 in sys && r2 in sys && i < |sys[r1].executed| && i < |sys[r2].executed|
    requires NoNullExecuted(sys, i + 1) && Windowed(c, sys, i + 1)
    ensures sys[r1].executed[i].n == i + 1 == sys[r2].executed[i].n
    ensures sys[r1].executed[i].d == sys[r2].executed[i].d
  {
    var a := ExecutedAt(c, sys, r1, i);
    var b := ExecutedAt(c, sys, r2, i);
    CommitQuorumsAgree(c, sys, a, b);
  }
}
