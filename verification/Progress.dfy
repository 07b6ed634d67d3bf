/** What the handlers get done: votes are counted, a batch that is here is prepared, a prepared request is
    committed, and what is committed in turn is executed. Nothing is left that could have been done. */
module Progress {
  import opened Quorum
  import opened NewView
  import opened Replica
  import opened ReplicaInv
  import opened Handlers
  import opened NewViewHandlers
  import opened Protocol

  /* ---------- nothing is lost ---------- */

  predicate CertGrows(a: Cert, b: Cert) {
    && (a.prePrepared ==> b.prePrepared) && (a.sentPrepare ==> b.sentPrepare)
    && (a.sentCommit ==> b.sentCommit) && (a.sentExecute ==> b.sentExecute)
    && a.prepares <= b.prepares && a.commits <= b.commits
  }

  /** Votes and what was sent stay, and blocks are only added. */
  ghost predicate Grows(s: Node, t: Node) {
    && t.view == s.view && t.h == s.h && t.inViewChange == s.inViewChange && s.executed <= t.executed
    && CertsGrow(s.certs, t.certs)
    && s.hist.prepares <= t.hist.prepares && s.hist.commits <= t.hist.commits
  }

  lemma GrowsTrans(s: Node, t: Node, u: Node)
    requires Grows(s, t) && Grows(t, u)
    ensures Grows(s, u)
  {
    forall id | id in s.certs ensures id in u.certs && CertGrows(s.certs[id], u.certs[id]) {
      assert CertGrows(t.certs[id], u.certs[id]);
    }
  }

  lemma {:induction false} ExecutionGrows(c: Config, s: Node, ids: seq<MsgId>)
    requires c.n >= 1
    ensures Grows(s, ExecuteAll(c, s, ids)) && SameVotes(s, ExecuteAll(c, s, ids))
    decreases |ids|
  {
    if ids != [] {
      var t := ExecuteAll(c, s, ids[..|ids| - 1]);
      ExecutionGrows(c, s, ids[..|ids| - 1]);
      OneExecutionGrows(c, t, ids[|ids| - 1]);
      GrowsTrans(s, t, ExecuteIn(c, t, ids[|ids| - 1]));
    }
  }

  lemma OneExecutionGrows(c: Config, s: Node, id: MsgId)
    ensures Grows(s, ExecuteIn(c, s, id)) && SameVotes(s, ExecuteIn(c, s, id))
  {
    if id in s.certs {
      OneCertGrows(s.certs, id, s.certs[id].(sentExecute := true));
    }
  }

  ghost predicate CertsGrow(a: map<MsgId, Cert>, b: map<MsgId, Cert>) {
    forall id :: id in a ==> id in b && CertGrows(a[id], b[id])
  }

  lemma OneCertGrows(certs: map<MsgId, Cert>, id: MsgId, ct: Cert)
    requires id in certs && CertGrows(certs[id], ct)
    ensures CertsGrow(certs, certs[id := ct])
  {
  }

  /** Only the marks of what was executed differ. */
  ghost predicate SameVotes(s: Node, t: Node) {
    && t.certs.Keys == s.certs.Keys && t.hist == s.hist
    && forall id :: id in s.certs ==> t.certs[id] == s.certs[id].(sentExecute := t.certs[id].sentExecute)
  }

  /* ---------- commits ---------- */

  /** A block can be executed: it is the next one, its batch is here, and a quorum of commits, among them
      the replica's own, stands on a quorum of prepares. */
  predicate CanRun(c: Config, s: Node, batches: set<Digest>, id: MsgId)
    requires c.n >= 1
  {
    && !s.waiting && id.n == |s.executed| + 1 && (id.d == NULL_REQUEST || id.d in batches)
    && id in s.certs && s.certs[id].prePrepared && |s.certs[id].prepares| >= c.Q() - 1
    && |s.certs[id].commits| >= c.Q() && s.certs[id].sentCommit && !s.certs[id].sentExecute
  }

  ghost predicate NothingToRun(c: Config, s: Node, batches: set<Digest>)
    requires c.n >= 1
  {
    forall id :: !CanRun(c, s, batches, id)
  }

  ghost predicate NothingElseToRun(c: Config, s: Node, batches: set<Digest>, but: MsgId)
    requires c.n >= 1
  {
    forall id :: id != but ==> !CanRun(c, s, batches, id)
  }

  lemma RunsWhenReady(c: Config, s: Node, batches: set<Digest>)
    requires c.n >= 1
    ensures forall id :: CanRun(c, s, batches, id) <==> Ready(c, s, batches, id)
  {
  }

  /** Whatever a commit completes is executed with it: nothing that could be executed is left. */
  lemma CommitLeavesNothing(c: Config, batches: set<Digest>, s: Node, from: nat, id: MsgId, ids: seq<MsgId>, t: Node)
    requires c.n >= 1 && CommitHandled(c, batches, s, from, id, ids, t)
    requires NothingToRun(c, s, batches) || (id.v == s.view && id.n > s.h && NothingElseToRun(c, s, batches, id))
    ensures NothingToRun(c, t, batches)
  {
    RunsWhenReady(c, t, batches);
    if id.v == s.view && id.n > s.h && !CommitRepeated(s, from, id) {
      var u := RecvCommit(s, from, id);
      if !Executable(c, u, id) {
        forall x ensures !CanRun(c, u, batches, x) {
          assert x != id ==> CanRun(c, u, batches, x) == CanRun(c, s, batches, x);
        }
      }
    }
  }

  /** A legal commit is counted. */
  lemma CommitIsCounted(c: Config, batches: set<Digest>, s: Node, from: nat, id: MsgId, ids: seq<MsgId>, t: Node)
    requires c.n >= 1 && CommitHandled(c, batches, s, from, id, ids, t) && id.v == s.view && id.n > s.h
    ensures id in t.certs && from in t.certs[id].commits
  {
    if !CommitRepeated(s, from, id) {
      ExecutionGrows(c, RecvCommit(s, from, id), ids);
    }
  }

  /** A commit for the next block, whose batch is here, that makes a quorum. */
  predicate CompletesNext(c: Config, s: Node, batches: set<Digest>, from: nat, id: MsgId)
    requires c.n >= 1
  {
    && id.v == s.view && id.n > s.h && !s.waiting && id.n == |s.executed| + 1 && (id.d == NULL_REQUEST || id.d in batches)
    && id in s.certs && s.certs[id].prePrepared && |s.certs[id].prepares| >= c.Q() - 1
    && s.certs[id].sentCommit && !s.certs[id].sentExecute && |s.certs[id].commits + {from}| >= c.Q()
  }

  /** It is executed then. */
  lemma CommitExecutes(c: Config, batches: set<Digest>, s: Node, from: nat, id: MsgId, ids: seq<MsgId>, t: Node)
    requires c.n >= 1 && CertInv(s) && CommitHandled(c, batches, s, from, id, ids, t) && CompletesNext(c, s, batches, from, id)
    ensures s.executed + [id] <= t.executed
  {
    var u := RecvCommit(s, from, id);
    assert Ready(c, u, batches, id);
    assert CertInv(u);
    if ids != [] {
      ReadyPrefix(c, u, batches, ids, 0);
      ReadyUnique(c, u, batches, ids[0], id);
      ExecutedAll(c, u, batches, ids);
      assert ids == [id] + ids[1..];
      assert t.executed == s.executed + [id] + ids[1..];
    }
  }

  lemma CommitGrows(c: Config, batches: set<Digest>, s: Node, from: nat, id: MsgId, ids: seq<MsgId>, t: Node)
    requires c.n >= 1 && CommitHandled(c, batches, s, from, id, ids, t)
    ensures Grows(s, t)
  {
    var u := RecvCommit(s, from, id);
    ExecutionGrows(c, u, ids);
    assert Grows(s, u);
    GrowsTrans(s, u, ExecuteAll(c, u, ids));
  }

  /* ---------- prepares ---------- */

  lemma SentGrows(c: Config, r: nat, batches: set<Digest>, s: Node, id: MsgId, ids: seq<MsgId>, t: Node)
    requires c.n >= 1 && id in s.certs && CommitMaybeSent(c, r, batches, s, id, ids, t)
    ensures Grows(s, t)
  {
    if CanSendCommit(c, r, s, id) {
      CommitGrows(c, batches, MarkCommit(s, id), r, id, ids, t);
      GrowsTrans(s, MarkCommit(s, id), t);
    }
  }

  /** A prepared certificate gets the replica's commit, and the commit is counted. */
  lemma PreparedIsCommitted(c: Config, r: nat, batches: set<Digest>, s: Node, id: MsgId, ids: seq<MsgId>, t: Node)
    requires c.n >= 1 && id in s.certs && CommitMaybeSent(c, r, batches, s, id, ids, t) && id.v == s.view && id.n > s.h
    requires s.certs[id].prePrepared && |s.certs[id].prepares| >= c.Q() - 1 && (r == c.Primary(id.v) || s.certs[id].sentPrepare)
    ensures id in t.certs && t.certs[id].sentCommit
    ensures !s.certs[id].sentCommit ==> CommitMsg(id, s.h) in t.hist.commits && r in t.certs[id].commits
  {
    SentGrows(c, r, batches, s, id, ids, t);
    if !s.certs[id].sentCommit {
      CommitGrows(c, batches, MarkCommit(s, id), r, id, ids, t);
      CommitIsCounted(c, batches, MarkCommit(s, id), r, id, ids, t);
    }
  }

  lemma SentLeavesNothing(c: Config, r: nat, batches: set<Digest>, s: Node, id: MsgId, ids: seq<MsgId>, t: Node)
    requires c.n >= 1 && id in s.certs && CommitMaybeSent(c, r, batches, s, id, ids, t) && id.v == s.view && id.n > s.h
    requires NothingToRun(c, s, batches)
    ensures NothingToRun(c, t, batches)
  {
    if CanSendCommit(c, r, s, id) {
      var u := MarkCommit(s, id);
      forall x | x != id ensures !CanRun(c, u, batches, x) {
        assert CanRun(c, u, batches, x) == CanRun(c, s, batches, x);
      }
      CommitLeavesNothing(c, batches, u, r, id, ids, t);
    }
  }

  /** A new legal prepare is counted, and one that completes the quorum is followed by the commit. */
  lemma PrepareGetsDone(c: Config, r: nat, batches: set<Digest>, s: Node, from: nat, id: MsgId, ids: seq<MsgId>, t: Node)
    requires c.n >= 1 && PrepareHandled(c, r, batches, s, from, id, ids, t)
    requires id.v == s.view && id.n > s.h && from != c.Primary(id.v) && from !in GetCert(s.certs, id).prepares
    ensures id in t.certs && from in t.certs[id].prepares
    ensures var ct := GetCert(s.certs, id);
            ct.prePrepared && |ct.prepares + {from}| >= c.Q() - 1 && (r == c.Primary(id.v) || ct.sentPrepare) ==>
              t.certs[id].sentCommit
  {
    var u := RecvPrepare(s, from, id);
    SentGrows(c, r, batches, u, id, ids, t);
    assert CertGrows(u.certs[id], t.certs[id]);
    var ct := GetCert(s.certs, id);
    if ct.prePrepared && |ct.prepares + {from}| >= c.Q() - 1 && (r == c.Primary(id.v) || ct.sentPrepare) {
      PreparedIsCommitted(c, r, batches, u, id, ids, t);
    }
  }

  lemma PrepareGrows(c: Config, r: nat, batches: set<Digest>, s: Node, from: nat, id: MsgId, ids: seq<MsgId>, t: Node)
    requires c.n >= 1 && PrepareHandled(c, r, batches, s, from, id, ids, t)
    ensures Grows(s, t)
  {
    if t != s {
      var u := RecvPrepare(s, from, id);
      SentGrows(c, r, batches, u, id, ids, t);
      GrowsTrans(s, u, t);
    }
  }

  lemma PrepareLeavesNothing(c: Config, r: nat, batches: set<Digest>, s: Node, pending: set<MsgId>, from: nat, id: MsgId,
                             ids: seq<MsgId>, t: Node)
    requires c.n >= 1 && PrepareHandled(c, r, batches, s, from, id, ids, t)
    requires Consistent(c, s, pending) && NothingToRun(c, s, batches)
    ensures NothingToRun(c, t, batches)
  {
    if t != s && CanRecvPrepare(c, s, from, id) && from !in GetCert(s.certs, id).prepares {
      var u := RecvPrepare(s, from, id);
      forall x ensures !CanRun(c, u, batches, x) {
        assert x != id ==> CanRun(c, u, batches, x) == CanRun(c, s, batches, x);
        assert !CanRun(c, s, batches, x);
      }
      SentLeavesNothing(c, r, batches, u, id, ids, t);
    }
  }

  lemma PrepareSentGrows(c: Config, r: nat, batches: set<Digest>, s: Node, id: MsgId, ids: seq<MsgId>, t: Node)
    requires c.n >= 1 && id in s.certs && PrepareSent(c, r, batches, s, id, ids, t)
    ensures Grows(s, t) && id in t.certs && t.certs[id].sentPrepare && id in t.hist.prepares
  {
    var u := MarkPrepare(s, id);
    PrepareGrows(c, r, batches, u, r, id, ids, t);
    assert CertGrows(u.certs[id], t.certs[id]);
    GrowsTrans(s, u, t);
  }

  /** A backup that sends its prepare counts it, and commits if that completes the quorum. */
  lemma PrepareSentGetsDone(c: Config, r: nat, batches: set<Digest>, s: Node, id: MsgId, ids: seq<MsgId>, t: Node)
    requires c.n >= 1 && id in s.certs && PrepareSent(c, r, batches, s, id, ids, t)
    requires id.v == s.view && id.n > s.h && r != c.Primary(id.v) && s.certs[id].prePrepared && r !in s.certs[id].prepares
    ensures id in t.certs && t.certs[id].sentPrepare && r in t.certs[id].prepares && id in t.hist.prepares
    ensures |s.certs[id].prepares + {r}| >= c.Q() - 1 ==> t.certs[id].sentCommit
  {
    PrepareSentGrows(c, r, batches, s, id, ids, t);
    PrepareGetsDone(c, r, batches, MarkPrepare(s, id), r, id, ids, t);
  }

  /* ---------- pre-prepares ---------- */

  /** A backup takes the pre-prepare into account: it is in the view and above its low watermark, comes from
      the primary, and is not one that has been executed. */
  predicate ComesInTime(c: Config, r: nat, s: Node, from: nat, id: MsgId)
    requires c.n >= 1
  {
    && !s.inViewChange && id.v == s.view && id.n > s.h && from == c.Primary(s.view) && r != from
    && !(id.n <= |s.executed| && id in s.certs && s.certs[id].prePrepared)
  }

  predicate Contradicts(s: Node, id: MsgId, digestOk: bool) {
    !digestOk || (id.n in s.seqMap && s.seqMap[id.n] != id.d)
  }

  predicate BatchHere(batches: set<Digest>, id: MsgId) {
    id.d == NULL_REQUEST || id.d in batches
  }

  /** When a pre-prepare is ignored, when the primary is suspected for it, and when it is accepted. Only an
      accepted one changes the stores. */
  lemma PrePrepareOutcome(c: Config, r: nat, batches: set<Digest>, s: Node, from: nat, id: MsgId, digestOk: bool,
                          pool: PoolAnswer, outcome: Outcome, after: set<Digest>, ids: seq<MsgId>, t: Node)
    requires c.n >= 1 && PrePrepareHandled(c, r, batches, s, from, id, digestOk, pool, outcome, after, ids, t)
    ensures outcome == Ignored <==> !ComesInTime(c, r, s, from, id)
    ensures outcome == SuspectPrimary <==>
              ComesInTime(c, r, s, from, id)
              && (Contradicts(s, id, digestOk)
                  || (!GetCert(s.certs, id).sentPrepare && !BatchHere(batches, id) && pool == PoolFails))
    ensures !ComesInTime(c, r, s, from, id) || Contradicts(s, id, digestOk) ==> t == s && after == batches && ids == []
  {
  }

  /** An accepted pre-prepare is kept, its batch is taken from the pool, and with the batch here the backup
      has sent its prepare, and counted it, and committed if that completed the quorum. */
  lemma PrePrepareGetsDone(c: Config, r: nat, batches: set<Digest>, s: Node, from: nat, id: MsgId, digestOk: bool,
                           pool: PoolAnswer, outcome: Outcome, after: set<Digest>, ids: seq<MsgId>, t: Node)
    requires c.n >= 1 && PrePrepareHandled(c, r, batches, s, from, id, digestOk, pool, outcome, after, ids, t)
    requires ComesInTime(c, r, s, from, id) && !Contradicts(s, id, digestOk)
    ensures id in t.certs && t.certs[id].prePrepared && id in t.hist.accepted
    ensures id.n in t.seqMap && t.seqMap[id.n] == id.d && forall n :: n != id.n ==> (n in t.seqMap <==> n in s.seqMap)
    ensures after == if !GetCert(s.certs, id).sentPrepare && !BatchHere(batches, id) && pool == PoolHas then batches + {id.d}
                     else batches
    ensures BatchHere(batches, id) || pool == PoolHas ==> t.certs[id].sentPrepare
    ensures (BatchHere(batches, id) || pool == PoolHas) && !GetCert(s.certs, id).sentPrepare
              && r !in GetCert(s.certs, id).prepares ==>
              && r in t.certs[id].prepares && id in t.hist.prepares
              && (|GetCert(s.certs, id).prepares + {r}| >= c.Q() - 1 ==> t.certs[id].sentCommit)
  {
    var u := Accept(s, id);
    if u.certs[id].sentPrepare {
      assert t == u;
    } else if BatchHere(batches, id) || pool == PoolHas {
      PrepareSentKeeps(c, r, after, u, id, ids, t);
      PrepareSentGrows(c, r, after, u, id, ids, t);
      if r !in u.certs[id].prepares {
        PrepareSentGetsDone(c, r, after, u, id, ids, t);
      }
    } else {
      assert t == u;
    }
  }

  /** Sending a prepare, with all it triggers, keeps the numbers and what was accepted. */
  lemma PrepareSentKeeps(c: Config, r: nat, batches: set<Digest>, s: Node, id: MsgId, ids: seq<MsgId>, t: Node)
    requires c.n >= 1 && id in s.certs && PrepareSent(c, r, batches, s, id, ids, t)
    ensures t.seqMap == s.seqMap && t.hist.accepted == s.hist.accepted
  {
    var u := RecvPrepare(MarkPrepare(s, id), r, id);
    ExecutionKeeps(c, RecvCommit(MarkCommit(u, id), r, id), ids);
  }

  lemma {:induction false} ExecutionKeeps(c: Config, s: Node, ids: seq<MsgId>)
    requires c.n >= 1
    ensures ExecuteAll(c, s, ids).seqMap == s.seqMap && ExecuteAll(c, s, ids).hist == s.hist
    decreases |ids|
  {
    if ids != [] {
      ExecutionKeeps(c, s, ids[..|ids| - 1]);
    }
  }

  lemma PrePrepareLeavesNothing(c: Config, r: nat, batches: set<Digest>, s: Node, pending: set<MsgId>, from: nat, id: MsgId,
                                digestOk: bool, pool: PoolAnswer, outcome: Outcome, after: set<Digest>, ids: seq<MsgId>, t: Node)
    requires c.n >= 1 && PrePrepareHandled(c, r, batches, s, from, id, digestOk, pool, outcome, after, ids, t)
    requires Consistent(c, s, pending) && NothingToRun(c, s, after)
    ensures NothingToRun(c, t, after)
  {
    if t != s && ComesInTime(c, r, s, from, id) && !Contradicts(s, id, digestOk) {
      var u := Accept(s, id);
      AcceptRunsNothing(c, s, pending, id, after);
      AcceptConsistent(c, s, pending, id);
      if t != u {
        SendingLeavesNothing(c, r, after, u, pending, id, ids, t);
      }
    }
  }

  lemma SendingLeavesNothing(c: Config, r: nat, batches: set<Digest>, s: Node, pending: set<MsgId>, id: MsgId,
                             ids: seq<MsgId>, t: Node)
    requires c.n >= 1 && id in s.certs && PrepareSent(c, r, batches, s, id, ids, t)
    requires Consistent(c, s, pending) && NothingToRun(c, s, batches)
    ensures NothingToRun(c, t, batches)
  {
    var u := MarkPrepare(s, id);
    MarkPrepareConsistent(c, s, pending, id);
    forall x ensures !CanRun(c, u, batches, x) {
      assert CanRun(c, u, batches, x) == CanRun(c, s, batches, x);
    }
    PrepareLeavesNothing(c, r, batches, u, pending, r, id, ids, t);
  }

  lemma AcceptRunsNothing(c: Config, s: Node, pending: set<MsgId>, id: MsgId, batches: set<Digest>)
    requires c.n >= 1 && Consistent(c, s, pending) && NothingToRun(c, s, batches)
    ensures NothingToRun(c, Accept(s, id), batches)
  {
    forall x ensures !CanRun(c, Accept(s, id), batches, x) {
      assert !CanRun(c, s, batches, x);
    }
  }

  /* ---------- entering a new view ---------- */

  /** The first loop: what the new view assigns above the low watermark is pre-prepared under its number,
      and everything else stays; the next number follows the last one listed or executed. */
  lemma EnteringIs(c: Config, r: nat, s: Node, nv: NewViewMsg)
    requires c.n >= 1
    ensures var t := ProcessNewView(c, r, s, nv);
            && !t.inViewChange && t.view == s.view && t.h == s.h && t.executed == s.executed && t.waiting == s.waiting
            && t.seqNo >= nv.top && t.seqNo >= |s.executed| && (t.seqNo == nv.top || t.seqNo == |s.executed|)
            && (forall n :: n in nv.xset && n > s.h ==>
                  var id := MsgId(s.view, n, nv.xset[n]);
                  && id in t.certs && t.certs[id] == GetCert(s.certs, id).(prePrepared := true)
                  && n in t.seqMap && t.seqMap[n] == nv.xset[n])
            && (forall id: MsgId :: id.n !in nv.xset || id.n <= s.h || id.d != nv.xset[id.n] || id.v != s.view ==>
                  GetCert(t.certs, id) == GetCert(s.certs, id))
            && (forall n :: n !in nv.xset || n <= s.h ==>
                  (n in t.seqMap <==> n in s.seqMap) && (n in t.seqMap ==> t.seqMap[n] == s.seqMap[n]))
  {
    var t := ProcessNewView(c, r, s, nv);
    forall n | n in nv.xset && n > s.h
      ensures MsgId(s.view, n, nv.xset[n]) in t.certs
      ensures t.certs[MsgId(s.view, n, nv.xset[n])] == GetCert(s.certs, MsgId(s.view, n, nv.xset[n])).(prePrepared := true)
    {
      assert MsgId(s.view, n, nv.xset[n]) in NewIds(s.view, nv, s.h);
    }
  }

  /** What the second loop owes for one number. */
  ghost predicate ResendDone(c: Config, r: nat, h: nat, lastExec: nat, id: MsgId, t: Node)
    requires c.n >= 1
  {
    id.n > h ==>
      && id in t.certs
      && (r != c.Primary(t.view) ==> t.certs[id].sentPrepare && id in t.hist.prepares)
      && (id.n <= lastExec ==> t.certs[id].sentCommit)
  }

  lemma OneResent(c: Config, r: nat, batches: set<Digest>, s: Node, id: MsgId, t: Node)
    requires c.n >= 1 && Resent(c, r, batches, s, id, t)
    ensures Grows(s, t) && ResendDone(c, r, s.h, |s.executed|, id, t)
  {
    if id.n > s.h {
      var u, a, b :| PrepareResent(c, r, batches, s, id, a, u) && id in u.certs && CommitResent(c, r, batches, u, id, b, t);
      if r != c.Primary(s.view) {
        PrepareSentGrows(c, r, batches, s, id, a, u);
      }
      RecommitDone(c, r, batches, u, id, b, t);
      GrowsTrans(s, u, t);
      assert CertGrows(u.certs[id], t.certs[id]);
    }
  }

  lemma RecommitDone(c: Config, r: nat, batches: set<Digest>, s: Node, id: MsgId, ids: seq<MsgId>, t: Node)
    requires c.n >= 1 && id in s.certs && CommitResent(c, r, batches, s, id, ids, t)
    ensures Grows(s, t) && id in t.certs && (id.n <= |s.executed| ==> t.certs[id].sentCommit)
  {
    if id.n <= |s.executed| {
      var u := MarkRecommit(s, id);
      RecommitGrows(s, id);
      CommitGrows(c, batches, u, r, id, ids, t);
      GrowsTrans(s, u, t);
      StillSent(u, id, t);
    }
  }

  lemma RecommitGrows(s: Node, id: MsgId)
    requires id in s.certs
    ensures Grows(s, MarkRecommit(s, id)) && id in MarkRecommit(s, id).certs && MarkRecommit(s, id).certs[id].sentCommit
  {
    OneCertGrows(s.certs, id, s.certs[id].(sentCommit := true));
  }

  lemma StillSent(s: Node, id: MsgId, t: Node)
    requires Grows(s, t) && id in s.certs && s.certs[id].sentCommit
    ensures id in t.certs && t.certs[id].sentCommit
  {
    assert CertGrows(s.certs[id], t.certs[id]);
  }

  /** The second loop: a backup has prepared everything listed above its low watermark, and every replica
      has committed again what it had executed of it. */
  lemma {:induction false} AllResentDone(c: Config, r: nat, batches: set<Digest>, s: Node, ids: seq<MsgId>, t: Node)
    requires c.n >= 1 && AllResent(c, r, batches, s, ids, t)
    ensures Grows(s, t) && forall i :: 0 <= i < |ids| ==> ResendDone(c, r, s.h, |s.executed|, ids[i], t)
    decreases |ids|
  {
    if ids != [] {
      var init, last := ids[..|ids| - 1], ids[|ids| - 1];
      var mid: Node :| AllResent(c, r, batches, s, init, mid) && Resent(c, r, batches, mid, last, t);
      AllResentDone(c, r, batches, s, init, mid);
      OneResent(c, r, batches, mid, last, t);
      GrowsTrans(s, mid, t);
      forall i | 0 <= i < |ids| ensures ResendDone(c, r, s.h, |s.executed|, ids[i], t) {
        if i < |ids| - 1 {
          DoneStays(c, r, s.h, |s.executed|, init[i], mid, t);
        }
      }
    }
  }

  lemma DoneStays(c: Config, r: nat, h: nat, lastExec: nat, id: MsgId, s: Node, t: Node)
    requires c.n >= 1 && ResendDone(c, r, h, lastExec, id, s) && Grows(s, t)
    ensures ResendDone(c, r, h, lastExec, id, t)
  {
    if id.n > h {
      assert CertGrows(s.certs[id], t.certs[id]);
    }
  }

  /* ---------- all of it ---------- */

  lemma CommitGetsDone(c: Config, batches: set<Digest>, s: Node, from: nat, id: MsgId, ids: seq<MsgId>, t: Node)
    requires c.n >= 1 && CommitHandled(c, batches, s, from, id, ids, t)
    ensures NothingToRun(c, s, batches) ==> NothingToRun(c, t, batches)
    ensures id.v == s.view && id.n > s.h ==> id in t.certs && from in t.certs[id].commits
    ensures CertInv(s) && CompletesNext(c, s, batches, from, id) ==> s.executed + [id] <= t.executed
  {
    if NothingToRun(c, s, batches) {
      CommitLeavesNothing(c, batches, s, from, id, ids, t);
    }
    if id.v == s.view && id.n > s.h {
      CommitIsCounted(c, batches, s, from, id, ids, t);
    }
    if CertInv(s) && CompletesNext(c, s, batches, from, id) {
      CommitExecutes(c, batches, s, from, id, ids, t);
    }
  }

  /** A new legal prepare that completes the quorum of a pre-prepared certificate. */
  predicate CompletesPrepare(c: Config, r: nat, s: Node, from: nat, id: MsgId)
    requires c.n >= 1
  {
    && id.v == s.view && id.n > s.h && from != c.Primary(id.v) && id in s.certs && from !in s.certs[id].prepares
    && s.certs[id].prePrepared && |s.certs[id].prepares + {from}| >= c.Q() - 1
    && (r == c.Primary(id.v) || s.certs[id].sentPrepare)
  }

  lemma PrepareHandledGetsDone(c: Config, r: nat, batches: set<Digest>, s: Node, pending: set<MsgId>, from: nat, id: MsgId,
                               ids: seq<MsgId>, t: Node)
    requires c.n >= 1 && PrepareHandled(c, r, batches, s, from, id, ids, t) && Consistent(c, s, pending)
    ensures NothingToRun(c, s, batches) ==> NothingToRun(c, t, batches)
    ensures id.v == s.view && id.n > s.h && from != c.Primary(id.v) ==> id in t.certs && from in t.certs[id].prepares
    ensures CompletesPrepare(c, r, s, from, id) ==> id in t.certs && t.certs[id].sentCommit
  {
    if NothingToRun(c, s, batches) {
      PrepareLeavesNothing(c, r, batches, s, pending, from, id, ids, t);
    }
    if id.v == s.view && id.n > s.h && from != c.Primary(id.v) && from !in GetCert(s.certs, id).prepares {
      PrepareGetsDone(c, r, batches, s, from, id, ids, t);
    }
  }
}
