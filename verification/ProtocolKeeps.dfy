/** Every step of the protocol keeps the system invariant, so it holds after any run. */
module ProtocolKeeps {
  import opened Quorum
  import opened NewView
  import opened Replica
  import opened ReplicaInv
  import opened ReplicaKeeps
  import opened ReplicaViewKeeps
  import opened Protocol

  /* ---------- what was sent stays sent ---------- */

  ghost predicate HistGrows(s: Node, t: Node) {
    && s.hist.proposals <= t.hist.proposals
    && s.hist.prepares <= t.hist.prepares
    && s.hist.commits <= t.hist.commits
    && s.hist.bases <= t.hist.bases
    && s.hist.newViews <= t.hist.newViews
  }

  ghost predicate SysGrows(sys: Sys, next: Sys) {
    sys.Keys == next.Keys && forall r :: r in sys ==> r in next && HistGrows(sys[r], next[r])
  }

  lemma StepGrows(c: Config, sys: Sys, a: Action)
    requires c.n >= 1 && Enabled(c, sys, a)
    ensures HistGrows(sys[a.r], Apply(c, sys[a.r], a))
  {
  }

  lemma VotersGrow(c: Config, sys: Sys, next: Sys, id: MsgId)
    requires SysGrows(sys, next)
    ensures PrepareVoters(c, sys, id) <= PrepareVoters(c, next, id)
    ensures CommitVoters(c, sys, id) <= CommitVoters(c, next, id)
    ensures c.n >= 1 && PrepareQuorum(c, sys, id) ==> PrepareQuorum(c, next, id)
    ensures c.n >= 1 && CommitQuorum(c, sys, id) ==> CommitQuorum(c, next, id)
  {
    forall x | x in sys && HasCommit(sys[x].hist.commits, id) ensures HasCommit(next[x].hist.commits, id) {
      var m :| m in sys[x].hist.commits && m.id == id;
      assert m in next[x].hist.commits;
    }
    SubsetCount(PrepareVoters(c, sys, id), PrepareVoters(c, next, id));
    SubsetCount(CommitVoters(c, sys, id), CommitVoters(c, next, id));
  }

  lemma VoteLinksGrow(c: Config, sys: Sys, next: Sys, s: Node)
    requires c.n >= 1 && SysGrows(sys, next)
    requires CertLinks(c, sys, s) && PreparedLinks(c, sys, s) && ExecLinks(c, sys, s)
    ensures CertLinks(c, next, s) && PreparedLinks(c, next, s) && ExecLinks(c, next, s)
  {
    forall id { VotersGrow(c, sys, next, id); }
  }

  lemma SentLinksGrow(c: Config, sys: Sys, next: Sys, s: Node)
    requires c.n >= 1 && SysGrows(sys, next)
    requires EnterLinks(c, sys, s) && AcceptLinks(c, sys, s)
    ensures EnterLinks(c, next, s) && AcceptLinks(c, next, s)
  {
    forall v | v in s.hist.entered
      ensures AllSent(c, next, s.hist.entered[v].bases) && SentNewView(c, next, v, s.hist.entered[v])
    {
      AllSentGrows(c, sys, next, s.hist.entered[v].bases);
    }
  }

  lemma AllSentGrows(c: Config, sys: Sys, next: Sys, bases: seq<VcBasis>)
    requires SysGrows(sys, next) && AllSent(c, sys, bases)
    ensures AllSent(c, next, bases)
  {
  }

  lemma LinksGrow(c: Config, sys: Sys, next: Sys, s: Node)
    requires c.n >= 1 && SysGrows(sys, next) && Links(c, sys, s)
    ensures Links(c, next, s)
  {
    VoteLinksGrow(c, sys, next, s);
    SentLinksGrow(c, sys, next, s);
  }

  /* ---------- the replica that moves ---------- */

  /** Prepared certificates are backed by a quorum of prepares, committed ones by commits. */
  lemma CertsBacked(c: Config, sys: Sys, s: Node, id: MsgId)
    requires c.n >= 1 && CertLinks(c, sys, s) && id in s.certs
    ensures Prepared(c, s.certs, id) ==> PrepareQuorum(c, sys, id)
    ensures Committed(c, s.certs, id) ==> CommitQuorum(c, sys, id)
  {
    SubsetCount(s.certs[id].prepares, PrepareVoters(c, sys, id));
    SubsetCount(s.certs[id].commits, CommitVoters(c, sys, id));
  }

  lemma RecvPrepareCerts(c: Config, next: Sys, s: Node, from: nat, id: MsgId)
    requires CertLinks(c, next, s) && from in PrepareVoters(c, next, id)
    ensures CertLinks(c, next, RecvPrepare(s, from, id))
  {
  }

  lemma RecvCommitCerts(c: Config, next: Sys, s: Node, from: nat, id: MsgId)
    requires CertLinks(c, next, s) && from in CommitVoters(c, next, id)
    ensures CertLinks(c, next, RecvCommit(s, from, id))
  {
  }

  lemma SendPrepareCerts(c: Config, next: Sys, r: nat, s: Node, id: MsgId)
    requires CertLinks(c, next, s) && id in s.certs && r in PrepareVoters(c, next, id)
    ensures CertLinks(c, next, SendPrepare(r, s, id))
  {
  }

  lemma SendCommitCerts(c: Config, next: Sys, r: nat, s: Node, id: MsgId)
    requires CertLinks(c, next, s) && id in s.certs && r in CommitVoters(c, next, id)
    ensures CertLinks(c, next, SendCommit(r, s, id))
  {
  }

  /** Every vote of t was already counted in s. */
  ghost predicate FewerVotes(s: Node, t: Node) {
    forall id :: id in t.certs ==>
      t.certs[id].prepares <= GetCert(s.certs, id).prepares && t.certs[id].commits <= GetCert(s.certs, id).commits
  }

  lemma ProcessFewer(c: Config, r: nat, s: Node, nv: NewViewMsg)
    requires c.n >= 1
    ensures FewerVotes(s, ProcessNewView(c, r, s, nv))
  {
    var t := ProcessNewView(c, r, s, nv);
    forall id | id in t.certs
      ensures t.certs[id].prepares <= GetCert(s.certs, id).prepares && t.certs[id].commits <= GetCert(s.certs, id).commits
    {
      assert t.certs[id] == GetCert(s.certs, id) || t.certs[id] == GetCert(s.certs, id).(prePrepared := true);
    }
  }

  lemma EnterFewer(c: Config, r: nat, s: Node, nv: NewViewMsg)
    requires c.n >= 1
    ensures FewerVotes(s, Enter(c, r, s, nv))
  {
    ProcessFewer(c, r, Raise(s, nv), nv);
  }

  lemma MoverFewer(c: Config, sys: Sys, a: Action)
    requires c.n >= 1 && a.r in sys
    requires !a.DoRecvPrepare? && !a.DoRecvCommit? && !a.DoSendPrepare? && !a.DoSendCommit? && !a.DoRecommit?
    ensures FewerVotes(sys[a.r], Apply(c, sys[a.r], a))
  {
    match a
    case DoEnter(r, nv, cs) => EnterFewer(c, r, sys[r], nv);
    case DoEnterLater(r, v, h, nv, cs) => ProcessFewer(c, r, sys[r], nv);
    case _ =>
  }

  lemma CertsFewer(c: Config, next: Sys, s: Node, t: Node)
    requires CertLinks(c, next, s) && FewerVotes(s, t)
    ensures CertLinks(c, next, t)
  {
    forall id, x | id in t.certs && x in t.certs[id].prepares ensures x in PrepareVoters(c, next, id) {
      assert id in s.certs && x in s.certs[id].prepares;
    }
    forall id, x | id in t.certs && x in t.certs[id].commits ensures x in CommitVoters(c, next, id) {
      assert id in s.certs && x in s.certs[id].commits;
    }
  }

  lemma RecommitCerts(c: Config, next: Sys, r: nat, s: Node, id: MsgId)
    requires CertLinks(c, next, s) && id in s.certs && r in CommitVoters(c, next, id)
    ensures CertLinks(c, next, Recommit(r, s, id))
  {
  }

  lemma MoverCounts(c: Config, sys: Sys, a: Action, next: Sys)
    requires c.n >= 1 && Enabled(c, sys, a) && next == Next(c, sys, a)
    requires SysGrows(sys, next) && CertLinks(c, next, sys[a.r])
    requires a.DoRecvPrepare? || a.DoRecvCommit?
    ensures CertLinks(c, next, next[a.r])
  {
    var s := sys[a.r];
    match a
    case DoRecvPrepare(r, from, id) =>
      VotersGrow(c, sys, next, id);
      assert from in PrepareVoters(c, sys, id);
      RecvPrepareCerts(c, next, s, from, id);
    case DoRecvCommit(r, from, id) =>
      VotersGrow(c, sys, next, id);
      assert from in CommitVoters(c, sys, id);
      RecvCommitCerts(c, next, s, from, id);
  }

  lemma MoverSends(c: Config, sys: Sys, a: Action, next: Sys)
    requires c.n >= 1 && Enabled(c, sys, a) && next == Next(c, sys, a)
    requires CertLinks(c, next, sys[a.r]) && a.r in c.Replicas()
    requires a.DoSendPrepare? || a.DoSendCommit? || a.DoRecommit?
    ensures CertLinks(c, next, next[a.r])
  {
    var s := sys[a.r];
    var t := next[a.r];
    match a
    case DoSendPrepare(r, id) => SendPrepareCerts(c, next, r, s, id);
    case DoSendCommit(r, id) =>
      assert CommitMsg(id, s.h) in t.hist.commits;
      SendCommitCerts(c, next, r, s, id);
    case DoRecommit(r, id) =>
      assert CommitMsg(id, s.h) in t.hist.commits;
      RecommitCerts(c, next, r, s, id);
  }

  lemma MoverCerts(c: Config, sys: Sys, a: Action, next: Sys)
    requires c.n >= 1 && Enabled(c, sys, a) && next == Next(c, sys, a)
    requires SysGrows(sys, next) && CertLinks(c, next, sys[a.r]) && CertInv(sys[a.r])
    requires a.r in c.Replicas()
    ensures CertLinks(c, next, next[a.r])
  {
    if a.DoRecvPrepare? || a.DoRecvCommit? {
      MoverCounts(c, sys, a, next);
    } else if a.DoSendPrepare? || a.DoSendCommit? || a.DoRecommit? {
      MoverSends(c, sys, a, next);
    } else {
      MoverFewer(c, sys, a);
      CertsFewer(c, next, sys[a.r], next[a.r]);
    }
  }

  lemma MoverVotes(c: Config, sys: Sys, a: Action, next: Sys)
    requires c.n >= 1 && Enabled(c, sys, a) && next == Next(c, sys, a)
    requires CertLinks(c, next, sys[a.r]) && PreparedLinks(c, next, sys[a.r]) && ExecLinks(c, next, sys[a.r])
    ensures PreparedLinks(c, next, next[a.r]) && ExecLinks(c, next, next[a.r])
  {
    var s := sys[a.r];
    match a
    case DoSendCommit(r, id) => CertsBacked(c, next, s, id);
    case DoExecute(r, id) => CertsBacked(c, next, s, id);
    case DoChangeView(r, w, p, q, b) =>
      forall id | id in s.certs && Prepared(c, s.certs, id) ensures PrepareQuorum(c, next, id) {
        CertsBacked(c, next, s, id);
      }
    case _ =>
  }

  lemma EnterSent(c: Config, next: Sys, r: nat, s: Node, nv: NewViewMsg, cs: CheckpointState)
    requires c.n >= 1 && s.inViewChange && AcceptInv(s) && EnterLinks(c, next, s) && AcceptLinks(c, next, s)
    requires PassesCheck(c, s.view, nv, cs) && AllSent(c, next, nv.bases) && SentNewView(c, next, s.view, nv)
    ensures EnterLinks(c, next, Enter(c, r, s, nv)) && AcceptLinks(c, next, Enter(c, r, s, nv))
  {
    var t := Enter(c, r, s, nv);
    assert t.hist.entered == s.hist.entered[s.view := nv];
  }

  /** A checked new view that is processed later is entered like one that is processed at once. */
  lemma LaterIsEnter(c: Config, sys: Sys, a: Action)
    requires c.n >= 1 && Enabled(c, sys, a) && Checked(c, a) && a.DoEnterLater?
    ensures var s := sys[a.r];
            && Apply(c, s, a) == Enter(c, a.r, s, a.nv) && s.inViewChange && !s.waiting
            && PassesCheck(c, s.view, a.nv, a.cs) && AllSent(c, sys, a.nv.bases) && SentNewView(c, sys, s.view, a.nv)
            && (ExecInv(c, s) ==> CanEnter(s, a.nv, a.cs.digest))
  {
  }

  lemma MoverSent(c: Config, sys: Sys, a: Action, next: Sys)
    requires c.n >= 1 && Enabled(c, sys, a) && next == Next(c, sys, a) && SysGrows(sys, next)
    requires AcceptInv(sys[a.r]) && EnterLinks(c, next, sys[a.r]) && AcceptLinks(c, next, sys[a.r]) && Checked(c, a)
    ensures EnterLinks(c, next, next[a.r]) && AcceptLinks(c, next, next[a.r])
  {
    if a.DoEnter? || a.DoEnterLater? {
      if a.DoEnterLater? {
        LaterIsEnter(c, sys, a);
      }
      AllSentGrows(c, sys, next, a.nv.bases);
      EnterSent(c, next, a.r, sys[a.r], a.nv, a.cs);
    } else if a.DoAccept? || a.DoPropose? {
      AcceptSent(c, next, sys[a.r], next[a.r], a.id);
    } else {
      SameAccepted(c, sys[a.r], a);
      SameSent(c, next, sys[a.r], next[a.r]);
    }
  }

  lemma SameAccepted(c: Config, s: Node, a: Action)
    requires c.n >= 1 && !a.DoEnter? && !a.DoEnterLater? && !a.DoAccept? && !a.DoPropose?
    ensures Apply(c, s, a).hist.entered == s.hist.entered && Apply(c, s, a).hist.accepted == s.hist.accepted
  {
  }

  lemma AcceptSent(c: Config, next: Sys, s: Node, t: Node, id: MsgId)
    requires c.n >= 1 && EnterLinks(c, next, s) && AcceptLinks(c, next, s)
    requires t.hist.entered == s.hist.entered && t.hist.accepted == s.hist.accepted + {id}
    requires SentPrePrepare(c, next, id)
    ensures EnterLinks(c, next, t) && AcceptLinks(c, next, t)
  {
  }

  lemma SameSent(c: Config, next: Sys, s: Node, t: Node)
    requires c.n >= 1 && EnterLinks(c, next, s) && AcceptLinks(c, next, s)
    requires t.hist.entered == s.hist.entered && t.hist.accepted == s.hist.accepted
    ensures EnterLinks(c, next, t) && AcceptLinks(c, next, t)
  {
  }

  /* ---------- one step, then any run ---------- */

  lemma NodeOf(c: Config, sys: Sys, r: nat)
    requires SysInv(c, sys) && r in sys
    ensures NodeInv(c, r, sys[r])
  {
    assert NodePred(c)(r, sys[r]);
  }

  lemma BasisFacts(c: Config, sys: Sys, b: VcBasis)
    requires SysInv(c, sys) && b.id in c.Honest() && SentBasis(c, sys, b)
    ensures b.id in sys && BasisInv(c, b.id, sys[b.id], b)
    ensures sys[b.id].hist.prepared <= sys[b.id].hist.accepted
  {
    NodeOf(c, sys, b.id);
  }

  /** The base of a new view is a checkpoint height: at least one honest replica holds it. */
  lemma BaseIsCheckpoint(c: Config, sys: Sys, v: nat, nv: NewViewMsg, cs: CheckpointState)
    requires SysInv(c, sys)
    requires IsNewView(c, v, nv, cs) && AllSent(c, sys, nv.bases)
    ensures c.ckptAt(nv.base)
  {
    var i := HonestAmongWeak(c, nv.bases, Holders(nv.bases, cs));
    var b := nv.bases[i];
    BasisFacts(c, sys, b);
    var j :| 0 <= j < |b.cset| && b.cset[j] == cs;
  }

  lemma MoverVotesNode(c: Config, sys: Sys, a: Action)
    requires c.n >= 1 && Enabled(c, sys, a) && NodeInv(c, a.r, sys[a.r])
    requires a.DoSendPrepare? || a.DoRecvPrepare? || a.DoSendCommit? || a.DoRecommit? || a.DoRecvCommit? || a.DoExecute?
    ensures NodeInv(c, a.r, Apply(c, sys[a.r], a))
  {
    var s := sys[a.r];
    match a
    case DoSendPrepare(r, id) => SendPrepareKeeps(c, r, s, id);
    case DoRecvPrepare(r, from, id) => RecvPrepareKeeps(c, r, s, from, id);
    case DoSendCommit(r, id) => SendCommitKeeps(c, r, s, id);
    case DoRecommit(r, id) => RecommitKeeps(c, r, s, id);
    case DoRecvCommit(r, from, id) => RecvCommitKeeps(c, r, s, from, id);
    case DoExecute(r, id) => ExecuteKeeps(c, r, s, id);
  }

  lemma MoverViewNode(c: Config, sys: Sys, a: Action)
    requires c.n >= 1 && Enabled(c, sys, a) && NodeInv(c, a.r, sys[a.r])
    requires a.DoStable? || a.DoChangeView? || a.DoAnnounce? || a.DoEnter? || (a.DoEnterLater? && Checked(c, a))
    ensures NodeInv(c, a.r, Apply(c, sys[a.r], a))
  {
    var s := sys[a.r];
    match a
    case DoStable(r, height) => MoveWatermarksKeeps(c, r, s, height);
    case DoChangeView(r, w, p, q, b) =>
      StartViewChangeKeeps(c, r, s, w, p, q);
      SendBasisKeeps(c, r, StartViewChange(c, s, w, p, q), b);
    case DoAnnounce(r, nv, cs) => AnnounceKeeps(c, r, s, nv);
    case DoEnter(r, nv, cs) => EnterKeeps(c, r, s, nv, cs.digest);
    case DoEnterLater(r, v, h, nv, cs) =>
      LaterIsEnter(c, sys, a);
      EnterKeeps(c, r, s, nv, cs.digest);
  }

  lemma MoverNode(c: Config, sys: Sys, a: Action)
    requires c.n >= 1 && Enabled(c, sys, a) && NodeInv(c, a.r, sys[a.r]) && Checked(c, a)
    ensures NodeInv(c, a.r, Apply(c, sys[a.r], a))
  {
    var s := sys[a.r];
    match a
    case DoPropose(r, id) => ProposeKeeps(c, r, s, id);
    case DoAccept(r, id) => AcceptKeeps(c, r, s, id);
    case DoReport(r, digest) => ReportKeeps(c, r, s, digest);
    case DoSendPrepare(_, _) => MoverVotesNode(c, sys, a);
    case DoRecvPrepare(_, _, _) => MoverVotesNode(c, sys, a);
    case DoSendCommit(_, _) => MoverVotesNode(c, sys, a);
    case DoRecommit(_, _) => MoverVotesNode(c, sys, a);
    case DoRecvCommit(_, _, _) => MoverVotesNode(c, sys, a);
    case DoExecute(_, _) => MoverVotesNode(c, sys, a);
    case _ => MoverViewNode(c, sys, a);
  }

  lemma MoverLinks(c: Config, sys: Sys, a: Action, next: Sys)
    requires c.n >= 1 && Enabled(c, sys, a) && next == Next(c, sys, a) && SysGrows(sys, next)
    requires a.r in c.Replicas() && CertInv(sys[a.r]) && AcceptInv(sys[a.r]) && Links(c, sys, sys[a.r]) && Checked(c, a)
    ensures Links(c, next, next[a.r])
  {
    LinksGrow(c, sys, next, sys[a.r]);
    MoverCerts(c, sys, a, next);
    MoverVotes(c, sys, a, next);
    MoverSent(c, sys, a, next);
  }

  lemma NextGrows(c: Config, sys: Sys, a: Action)
    requires c.n >= 1 && Enabled(c, sys, a)
    ensures SysGrows(sys, Next(c, sys, a))
  {
    StepGrows(c, sys, a);
  }

  lemma OthersLinks(c: Config, sys: Sys, next: Sys, mover: nat)
    requires c.n >= 1 && SysGrows(sys, next)
    requires forall r :: r in sys && r != mover ==> next[r] == sys[r]
    requires AllHold(LinkPred(c, sys), sys) && mover in sys && Links(c, next, next[mover])
    ensures AllHold(LinkPred(c, next), next)
  {
    forall r | r in next ensures LinkPred(c, next)(r, next[r]) {
      if r != mover {
        assert LinkPred(c, sys)(r, sys[r]);
        LinksGrow(c, sys, next, sys[r]);
      }
    }
  }

  lemma LinksOf(c: Config, sys: Sys, r: nat)
    requires SysInv(c, sys) && r in sys
    ensures Links(c, sys, sys[r])
  {
    assert LinkPred(c, sys)(r, sys[r]);
  }

  lemma SplitInv(c: Config, sys: Sys, r: nat)
    requires SysInv(c, sys) && r in sys
    ensures r in c.Replicas() && CertInv(sys[r]) && AcceptInv(sys[r])
  {
    NodeOf(c, sys, r);
  }

  lemma StepLinks(c: Config, sys: Sys, a: Action, next: Sys)
    requires c.n >= 1 && Enabled(c, sys, a) && next == Next(c, sys, a)
    requires a.r in c.Replicas() && CertInv(sys[a.r]) && AcceptInv(sys[a.r])
    requires Links(c, sys, sys[a.r]) && AllHold(LinkPred(c, sys), sys) && Checked(c, a)
    ensures next.Keys == sys.Keys && AllHold(LinkPred(c, next), next)
  {
    NextGrows(c, sys, a);
    MoverLinks(c, sys, a, next);
    OthersLinks(c, sys, next, a.r);
  }

  /** Updating one replica keeps whatever holds of every replica. */
  lemma UpdateKeeps(p: (nat, Node) -> bool, sys: Sys, mover: nat, t: Node)
    requires AllHold(p, sys) && p(mover, t)
    ensures AllHold(p, sys[mover := t])
  {
  }

  lemma StepNodes(c: Config, sys: Sys, a: Action)
    requires SysInv(c, sys) && Enabled(c, sys, a) && Checked(c, a)
    ensures AllHold(NodePred(c), sys[a.r := Apply(c, sys[a.r], a)])
  {
    NodeOf(c, sys, a.r);
    MoverNode(c, sys, a);
    UpdateKeeps(NodePred(c), sys, a.r, Apply(c, sys[a.r], a));
  }

  lemma StepKeeps(c: Config, sys: Sys, a: Action, next: Sys)
    requires SysInv(c, sys) && Enabled(c, sys, a) && next == Next(c, sys, a) && Checked(c, a)
    ensures SysInv(c, next)
  {
    SplitInv(c, sys, a.r);
    LinksOf(c, sys, a.r);
    StepLinks(c, sys, a, next);
    StepNodes(c, sys, a);
  }

  /** The invariant of the system survives every run whose new views are checked. */
  lemma {:induction false} RunKeeps(c: Config, sys: Sys, acts: seq<Action>, next: Sys)
    requires SysInv(c, sys) && Run(c, sys, acts, next) && CheckedSteps(c, acts)
    ensures SysInv(c, next)
    decreases |acts|
  {
    if acts != [] {
      var last := acts[|acts| - 1];
      var before := RunLast(c, sys, acts, next);
      RunKeeps(c, sys, acts[..|acts| - 1], before);
      StepKeeps(c, before, last, next);
    }
  }

  lemma StartInv(c: Config, genesis: Digest, start: Sys)
    requires c.Valid() && Init(c, start, genesis)
    ensures SafeInv(c, start)
  {
    forall r | r in start
      ensures NodePred(c)(r, start[r]) && LinkPred(c, start)(r, start[r]) && SafePred(c)(r, start[r])
    {
      InitInv(c, r, genesis);
    }
  }

  /** The system invariant holds in every state that is reached, whatever the faulty replicas send, as
      long as the new views processed pass the check. */
  lemma ReachableInv(c: Config, genesis: Digest, steps: seq<Action>, sys: Sys)
    requires c.Valid() && Reaches(c, genesis, steps, sys) && CheckedSteps(c, steps)
    ensures SysInv(c, sys)
  {
    var start: Sys :| Init(c, start, genesis) && Run(c, start, steps, sys);
    StartInv(c, genesis, start);
    RunKeeps(c, start, steps, sys);
  }

  /* ---------- runs whose new views have lists that no few senders dominate ---------- */

  lemma SafeOf(c: Config, sys: Sys, r: nat)
    requires SafeInv(c, sys) && r in sys
    ensures SafeNode(c, sys[r])
  {
    assert SafePred(c)(r, sys[r]);
  }

  lemma EnterSafe(c: Config, r: nat, s: Node, nv: NewViewMsg, digest: Digest)
    requires NodeInv(c, r, s) && SafeNode(c, s) && !s.waiting && CanEnter(s, nv, digest)
    requires c.ckptAt(nv.base) && Gapless(nv) && SafeSenders(c, nv.bases)
    ensures SafeNode(c, Enter(c, r, s, nv))
  {
    RaiseReachesBase(c, s, nv, digest);
    assert Enter(c, r, s, nv).hist.entered == s.hist.entered[s.view := nv];
  }

  lemma ProposeSafe(c: Config, r: nat, s: Node, id: MsgId)
    requires NodeInv(c, r, s) && SafeNode(c, s) && CanPropose(c, r, s, id)
    ensures SafeNode(c, Propose(s, id))
  {
    ProposeIsNew(c, r, s, id);
  }

  lemma MoverSafe(c: Config, sys: Sys, a: Action)
    requires c.n >= 1 && Enabled(c, sys, a) && NodeInv(c, a.r, sys[a.r]) && SafeNode(c, sys[a.r])
    requires !a.DoEnter? && !a.DoEnterLater?
    ensures SafeNode(c, Apply(c, sys[a.r], a))
  {
    var s := sys[a.r];
    if a.DoPropose? {
      ProposeSafe(c, a.r, s, a.id);
    } else if a.DoAccept? {
      assert EnterInv(s);
    } else {
      SameAccepted(c, s, a);
      StaysSafe(c, s, Apply(c, s, a), a);
    }
  }

  lemma StaysSafe(c: Config, s: Node, t: Node, a: Action)
    requires c.n >= 1 && SafeNode(c, s) && t == Apply(c, s, a)
    requires !a.DoEnter? && !a.DoEnterLater? && !a.DoAccept? && !a.DoPropose?
    requires t.hist.entered == s.hist.entered && t.hist.accepted == s.hist.accepted
    ensures SafeNode(c, t)
  {
  }

  lemma StepSafe(c: Config, sys: Sys, a: Action)
    requires SafeInv(c, sys) && Enabled(c, sys, a) && Guarded(c, a)
    ensures SafeNode(c, Apply(c, sys[a.r], a))
  {
    NodeOf(c, sys, a.r);
    SafeOf(c, sys, a.r);
    if a.DoEnter? || a.DoEnterLater? {
      if a.DoEnterLater? {
        LaterIsEnter(c, sys, a);
      }
      BaseIsCheckpoint(c, sys, sys[a.r].view, a.nv, a.cs);
      EnterSafe(c, a.r, sys[a.r], a.nv, a.cs.digest);
    } else {
      MoverSafe(c, sys, a);
    }
  }

  lemma StepKeepsSafe(c: Config, sys: Sys, a: Action, next: Sys)
    requires SafeInv(c, sys) && Enabled(c, sys, a) && next == Next(c, sys, a) && Guarded(c, a)
    ensures SafeInv(c, next)
  {
    StepKeeps(c, sys, a, next);
    StepSafe(c, sys, a);
    UpdateKeeps(SafePred(c), sys, a.r, Apply(c, sys[a.r], a));
  }

  lemma {:induction false} RunKeepsSafe(c: Config, sys: Sys, acts: seq<Action>, next: Sys)
    requires SafeInv(c, sys) && Run(c, sys, acts, next) && GuardedSteps(c, acts)
    ensures SafeInv(c, next)
    decreases |acts|
  {
    if acts != [] {
      var last := acts[|acts| - 1];
      var before := RunLast(c, sys, acts, next);
      RunKeepsSafe(c, sys, acts[..|acts| - 1], before);
      StepKeepsSafe(c, before, last, next);
    }
  }

  /** After guarded steps the invariant holds, and every new view entered has a list that no few senders
      dominate. */
  lemma GuardedInv(c: Config, genesis: Digest, steps: seq<Action>, sys: Sys)
    requires c.Valid() && Reaches(c, genesis, steps, sys) && GuardedSteps(c, steps)
    ensures SafeInv(c, sys)
  {
    var start: Sys :| Init(c, start, genesis) && Run(c, start, steps, sys);
    StartInv(c, genesis, start);
    RunKeepsSafe(c, start, steps, sys);
  }
}
