/** Each handler keeps the invariants of an honest replica. One lemma per handler; the parts a
    handler does not touch are carried over by the framing lemmas at the start. */
module ReplicaKeeps {
  import opened Quorum
  import opened NewView
  import opened Replica
  import opened ReplicaInv

  /* ---------- framing ---------- */

  /** Everything the history gained belongs to the current view or a later one. */
  ghost predicate Extends(s: Node, t: Node) {
    && t.view >= s.view && t.h >= s.h
    && s.hist.accepted <= t.hist.accepted
    && s.hist.prepared <= t.hist.prepared
    && (forall id :: id in t.hist.accepted && id !in s.hist.accepted ==> id.v >= s.view)
    && (forall id :: id in t.hist.prepared && id !in s.hist.prepared ==> id.v >= s.view)
    && (forall id :: id in t.hist.prepares && id !in s.hist.prepares ==> id.v >= s.view)
    && (forall m :: m in t.hist.commits && m !in s.hist.commits ==> m.id.v >= s.view)
    && (forall v :: v in t.hist.entered && v < s.view ==> v in s.hist.entered && s.hist.entered[v] == t.hist.entered[v])
  }

  /** A basis stays true of its sender: what it reports is frozen. */
  lemma BasisFramed(c: Config, r: nat, s: Node, t: Node, b: VcBasis)
    requires Extends(s, t) && BasisInv(c, r, s, b)
    ensures BasisInv(c, r, t, b)
  {
    assert forall id :: AssignedTo(t, id) && id.v < b.view ==> AssignedTo(s, id);
  }

  lemma BasesFramed(c: Config, r: nat, s: Node, t: Node)
    requires Extends(s, t) && BasesInv(c, r, s) && t.hist.bases == s.hist.bases
    ensures BasesInv(c, r, t)
  {
    forall b | b in t.hist.bases ensures BasisInv(c, r, t, b) {
      BasisFramed(c, r, s, t, b);
    }
  }

  /** A step inside one view that changes only certificates (growing them). */
  ghost predicate SameLists(s: Node, t: Node) {
    && t.view == s.view && t.inViewChange == s.inViewChange && t.h == s.h
    && t.plist == s.plist && t.qlist == s.qlist
  }

  ghost predicate CertsGrow(s: Node, t: Node) {
    forall id :: id in s.certs ==>
      && id in t.certs && (s.certs[id].prePrepared ==> t.certs[id].prePrepared)
      && s.certs[id].prepares <= t.certs[id].prepares
      && (s.certs[id].sentCommit ==> t.certs[id].sentCommit)
  }

  /** Updating one certificate never drops the replica's own commit. */
  lemma OwnUpdated(r: nat, s: Node, t: Node, id: MsgId)
    requires OwnInv(r, s) && id in t.certs && t.certs == s.certs[id := t.certs[id]]
    requires t.certs[id].sentCommit ==> r in t.certs[id].commits
    ensures OwnInv(r, t)
  {
  }

  lemma OwnReceived(r: nat, s: Node, from: nat, id: MsgId)
    requires OwnInv(r, s)
    ensures OwnInv(r, RecvPrepare(s, from, id)) && OwnInv(r, RecvCommit(s, from, id))
  {
    OwnUpdated(r, s, RecvPrepare(s, from, id), id);
    OwnUpdated(r, s, RecvCommit(s, from, id), id);
  }

  lemma OwnAccepted(r: nat, s: Node, id: MsgId)
    requires OwnInv(r, s)
    ensures OwnInv(r, Accept(s, id)) && OwnInv(r, Propose(s, id))
  {
    OwnUpdated(r, s, Accept(s, id), id);
    OwnUpdated(r, s, Propose(s, id), id);
  }

  lemma OwnSent(c: Config, r: nat, s: Node, id: MsgId)
    requires OwnInv(r, s) && id in s.certs
    ensures OwnInv(r, SendPrepare(r, s, id)) && OwnInv(r, Execute(c, s, id))
    ensures OwnInv(r, SendCommit(r, s, id)) && OwnInv(r, Recommit(r, s, id))
  {
    OwnUpdated(r, s, SendPrepare(r, s, id), id);
    OwnUpdated(r, s, Execute(c, s, id), id);
    OwnUpdated(r, s, SendCommit(r, s, id), id);
    OwnUpdated(r, s, Recommit(r, s, id), id);
  }

  lemma RanFramed(s: Node, t: Node)
    requires RanInv(s) && CertsGrow(s, t) && t.view == s.view && t.h == s.h && t.executed == s.executed
    ensures RanInv(t)
  {
    forall i | 0 <= i < |t.executed| && t.executed[i].v == t.view && i + 1 > t.h
      ensures t.executed[i] in t.certs && t.certs[t.executed[i]].prePrepared && t.certs[t.executed[i]].sentCommit
    {
      assert s.executed[i] in s.certs;
    }
  }

  lemma PreparedGrows(c: Config, s: Node, t: Node, id: MsgId)
    requires c.n >= 1 && CertsGrow(s, t) && Prepared(c, s.certs, id)
    ensures Prepared(c, t.certs, id)
  {
    SubsetCount(s.certs[id].prepares, t.certs[id].prepares);
  }

  lemma PFramed(c: Config, s: Node, t: Node)
    requires c.n >= 1 && PInv(c, s) && SameLists(s, t) && CertsGrow(s, t)
    requires t.hist.prepared == s.hist.prepared && s.hist.accepted <= t.hist.accepted
    ensures PInv(c, t)
  {
    forall id | id in t.hist.prepared && id.n > t.h && id.v == t.view ensures Prepared(c, t.certs, id) {
      PreparedGrows(c, s, t, id);
    }
  }

  lemma QFramed(s: Node, t: Node)
    requires QInv(s) && SameLists(s, t) && s.hist.accepted <= t.hist.accepted
    requires forall id :: id in t.hist.accepted && id !in s.hist.accepted ==> id.v == s.view
    ensures QInv(t)
  {
  }

  lemma CommitFramed(s: Node, t: Node)
    requires CommitInv(s) && t.hist.commits == s.hist.commits && s.h <= t.h
    requires s.hist.accepted <= t.hist.accepted && s.hist.prepared <= t.hist.prepared
    requires s.executed <= t.executed
    ensures CommitInv(t)
  {
  }

  lemma PrepareFramed(c: Config, r: nat, s: Node, t: Node)
    requires c.n >= 1 && PrepareInv(c, r, s)
    requires t.hist.prepares == s.hist.prepares && t.hist.entered == s.hist.entered
    requires t.view == s.view && t.inViewChange == s.inViewChange && t.h >= s.h
    requires s.hist.accepted <= t.hist.accepted
    requires forall a :: a in t.hist.accepted && a !in s.hist.accepted ==> a.n > s.h
    ensures PrepareInv(c, r, t)
  {
  }

  lemma ExecFramed(c: Config, s: Node, t: Node)
    requires ExecInv(c, s)
    requires t.view == s.view && t.inViewChange == s.inViewChange && t.h == s.h
    requires t.executed == s.executed && t.ckpts == s.ckpts && t.waiting == s.waiting
    requires s.seqMap.Keys <= t.seqMap.Keys
    ensures ExecInv(c, t)
  {
    assert forall n :: n in s.seqMap ==> n in t.seqMap.Keys;
  }

  lemma AssignedFramed(s: Node, t: Node)
    requires AssignedInv(s)
    requires t.h >= s.h && t.hist.entered == s.hist.entered && s.hist.accepted <= t.hist.accepted
    ensures AssignedInv(t)
  {
    assert forall id :: AssignedTo(t, id) ==> AssignedTo(s, id);
  }

  lemma EnterFramed(s: Node, t: Node)
    requires EnterInv(s)
    requires t.view == s.view && t.inViewChange == s.inViewChange && t.h >= s.h
    requires t.hist.entered == s.hist.entered && t.hist.accepted == s.hist.accepted
    requires forall x :: x in t.hist.newViews ==> x.v > 0
    ensures EnterInv(t)
  {
  }

  lemma PrimaryFramed(c: Config, r: nat, s: Node, t: Node)
    requires c.n >= 1 && PrimaryInv(c, r, s)
    requires t.view == s.view && t.inViewChange == s.inViewChange && t.seqNo == s.seqNo
    requires |t.executed| <= |s.executed| || |t.executed| <= s.seqNo || r != c.Primary(s.view) || s.inViewChange
    requires forall id :: id in t.certs && t.certs[id].prePrepared ==> id in s.certs && s.certs[id].prePrepared
    requires t.hist.proposals == s.hist.proposals && t.hist.entered == s.hist.entered && s.hist.accepted <= t.hist.accepted
    ensures PrimaryInv(c, r, t)
  {
  }

  /* ---------- proposing and accepting ---------- */

  lemma AcceptedOnce(s: Node, id: MsgId)
    requires CertInv(s) && AcceptInv(s)
    requires id.v == s.view && id.n > s.h
    requires id.n in s.seqMap ==> s.seqMap[id.n] == id.d
    ensures forall a :: a in s.hist.accepted && a.v == id.v && a.n == id.n ==> a.d == id.d
  {
  }

  /** The parts that proposing and accepting treat alike: the key becomes pre-prepared. */
  lemma AcceptsRest(c: Config, r: nat, s: Node, id: MsgId, t: Node)
    requires NodeInv(c, r, s)
    requires !s.inViewChange && id.v == s.view && id.n > s.h
    requires SameLists(s, t) && CertsGrow(s, t)
    requires t.executed == s.executed && t.ckpts == s.ckpts && t.waiting == s.waiting && t.seqMap == s.seqMap[id.n := id.d]
    requires t.hist == s.hist.(accepted := s.hist.accepted + {id}, proposals := t.hist.proposals)
    ensures PInv(c, t) && QInv(t) && CommitInv(t) && PrepareInv(c, r, t) && ExecInv(c, t) && AssignedInv(t) && BasesInv(c, r, t)
    ensures RanInv(t)
  {
    RanFramed(s, t);
    PFramed(c, s, t);
    QFramed(s, t);
    CommitFramed(s, t);
    PrepareFramed(c, r, s, t);
    ExecFramed(c, s, t);
    AssignedFramed(s, t);
    BasesFramed(c, r, s, t);
  }

  lemma AcceptCerts(c: Config, r: nat, s: Node, id: MsgId)
    requires c.n >= 1 && CertInv(s) && AcceptInv(s) && CanAccept(c, r, s, id)
    ensures CertInv(Accept(s, id)) && AcceptInv(Accept(s, id))
  {
    AcceptedOnce(s, id);
  }

  lemma AcceptEnters(c: Config, r: nat, s: Node, id: MsgId)
    requires c.n >= 1 && CertInv(s) && AcceptInv(s) && EnterInv(s) && AssignedInv(s) && PrimaryInv(c, r, s)
    requires CanAccept(c, r, s, id)
    ensures EnterInv(Accept(s, id)) && PrimaryInv(c, r, Accept(s, id))
  {
    if s.view > 0 {
      var nv := s.hist.entered[s.view];
      if id.n in nv.xset {
        assert AssignedTo(s, MsgId(id.v, id.n, nv.xset[id.n]));
      }
    }
  }

  lemma AcceptKeeps(c: Config, r: nat, s: Node, id: MsgId)
    requires NodeInv(c, r, s) && CanAccept(c, r, s, id)
    ensures NodeInv(c, r, Accept(s, id))
  {
    OwnAccepted(r, s, id);
    AcceptCerts(c, r, s, id);
    AcceptsRest(c, r, s, id, Accept(s, id));
    AcceptEnters(c, r, s, id);
  }

  /** A primary's next number is new to it. */
  lemma ProposeIsNew(c: Config, r: nat, s: Node, id: MsgId)
    requires c.n >= 1 && CertInv(s) && AcceptInv(s) && ExecInv(c, s) && PrimaryInv(c, r, s) && CanPropose(c, r, s, id)
    ensures id.n > s.h && forall a :: a in s.hist.accepted && a.v == id.v ==> a.n != id.n
  {
  }

  lemma ProposeCerts(c: Config, r: nat, s: Node, id: MsgId)
    requires c.n >= 1 && CertInv(s) && AcceptInv(s) && ExecInv(c, s) && PrimaryInv(c, r, s) && CanPropose(c, r, s, id)
    ensures CertInv(Propose(s, id)) && AcceptInv(Propose(s, id))
  {
    ProposeIsNew(c, r, s, id);
  }

  lemma ProposeEnters(c: Config, r: nat, s: Node, id: MsgId)
    requires c.n >= 1 && EnterInv(s) && ExecInv(c, s) && PrimaryInv(c, r, s) && CanPropose(c, r, s, id)
    ensures EnterInv(Propose(s, id)) && PrimaryInv(c, r, Propose(s, id))
  {
  }

  lemma ProposeKeeps(c: Config, r: nat, s: Node, id: MsgId)
    requires NodeInv(c, r, s) && CanPropose(c, r, s, id)
    ensures NodeInv(c, r, Propose(s, id))
  {
    OwnAccepted(r, s, id);
    ProposeIsNew(c, r, s, id);
    ProposeCerts(c, r, s, id);
    AcceptsRest(c, r, s, id, Propose(s, id));
    ProposeEnters(c, r, s, id);
  }

  /* ---------- votes and execution ---------- */

  /** Steps that leave the lists, the accepted set and every pre-prepared flag alone. */
  ghost predicate OnlyVotes(s: Node, t: Node) {
    && SameLists(s, t) && CertsGrow(s, t)
    && t.seqNo == s.seqNo && t.seqMap == s.seqMap && t.ckpts == s.ckpts
    && (forall id :: id in t.certs ==> id.v == s.view && id.n > s.h)
    && (forall id :: id in t.certs && t.certs[id].prePrepared ==> id in s.certs && s.certs[id].prePrepared)
    && t.hist.accepted == s.hist.accepted && t.hist.entered == s.hist.entered
    && t.hist.proposals == s.hist.proposals && t.hist.bases == s.hist.bases && t.hist.newViews == s.hist.newViews
  }

  lemma VotesKeepCerts(s: Node, t: Node)
    requires CertInv(s) && AcceptInv(s) && OnlyVotes(s, t)
    ensures CertInv(t) && AcceptInv(t)
  {
  }

  /** Everything except the records of what was sent or executed. */
  lemma VotesKeepRest(c: Config, r: nat, s: Node, t: Node)
    requires CertInv(s) && AcceptInv(s) && QInv(s) && EnterInv(s) && AssignedInv(s) && BasesInv(c, r, s)
    requires OnlyVotes(s, t) && Extends(s, t)
    ensures CertInv(t) && AcceptInv(t) && QInv(t) && EnterInv(t) && AssignedInv(t) && BasesInv(c, r, t)
  {
    VotesKeepCerts(s, t);
    QFramed(s, t);
    EnterFramed(s, t);
    AssignedFramed(s, t);
    BasesFramed(c, r, s, t);
  }

  lemma RecvPrepareKeeps(c: Config, r: nat, s: Node, from: nat, id: MsgId)
    requires NodeInv(c, r, s) && CanRecvPrepare(c, s, from, id)
    ensures NodeInv(c, r, RecvPrepare(s, from, id))
  {
    RecvPrepareVotes(s, from, id);
    OwnReceived(r, s, from, id);
    VoteOnlyKeeps(c, r, s, RecvPrepare(s, from, id));
  }

  lemma RecvPrepareVotes(s: Node, from: nat, id: MsgId)
    requires CertInv(s) && InWV(s, id)
    ensures OnlyVotes(s, RecvPrepare(s, from, id))
  {
  }

  lemma RecvCommitKeeps(c: Config, r: nat, s: Node, from: nat, id: MsgId)
    requires NodeInv(c, r, s) && InWV(s, id)
    ensures NodeInv(c, r, RecvCommit(s, from, id))
  {
    RecvCommitVotes(s, from, id);
    OwnReceived(r, s, from, id);
    VoteOnlyKeeps(c, r, s, RecvCommit(s, from, id));
  }

  lemma RecvCommitVotes(s: Node, from: nat, id: MsgId)
    requires CertInv(s) && InWV(s, id)
    ensures OnlyVotes(s, RecvCommit(s, from, id))
  {
  }

  lemma VoteOnlyKeepsSent(c: Config, r: nat, s: Node, t: Node)
    requires c.n >= 1 && PInv(c, s) && CommitInv(s) && PrepareInv(c, r, s) && ExecInv(c, s) && PrimaryInv(c, r, s)
    requires OnlyVotes(s, t) && t.hist == s.hist && t.executed == s.executed && t.waiting == s.waiting
    ensures PInv(c, t) && CommitInv(t) && PrepareInv(c, r, t) && ExecInv(c, t) && PrimaryInv(c, r, t)
  {
    PFramed(c, s, t);
    CommitFramed(s, t);
    PrepareFramed(c, r, s, t);
    ExecFramed(c, s, t);
    PrimaryFramed(c, r, s, t);
  }

  lemma VoteOnlyKeeps(c: Config, r: nat, s: Node, t: Node)
    requires NodeInv(c, r, s) && OnlyVotes(s, t) && OwnInv(r, t)
    requires t.hist == s.hist && t.executed == s.executed && t.waiting == s.waiting
    ensures NodeInv(c, r, t)
  {
    VotesKeepRest(c, r, s, t);
    VoteOnlyKeepsSent(c, r, s, t);
    RanFramed(s, t);
  }

  lemma SendPrepareKeeps(c: Config, r: nat, s: Node, id: MsgId)
    requires NodeInv(c, r, s) && CanSendPrepare(c, r, s, id)
    ensures NodeInv(c, r, SendPrepare(r, s, id))
  {
    var t := SendPrepare(r, s, id);
    SendPrepareVotes(r, s, id);
    OwnSent(c, r, s, id);
    VotesKeepRest(c, r, s, t);
    PFramed(c, s, t);
    CommitFramed(s, t);
    SendPrepareSent(c, r, s, id);
    ExecFramed(c, s, t);
    RanFramed(s, t);
    PrimaryFramed(c, r, s, t);
  }

  lemma SendPrepareVotes(r: nat, s: Node, id: MsgId)
    requires CertInv(s) && id.v == s.view && id in s.certs
    ensures OnlyVotes(s, SendPrepare(r, s, id)) && Extends(s, SendPrepare(r, s, id))
  {
  }

  lemma SendPrepareSent(c: Config, r: nat, s: Node, id: MsgId)
    requires c.n >= 1 && CertInv(s) && PrepareInv(c, r, s) && CanSendPrepare(c, r, s, id)
    ensures PrepareInv(c, r, SendPrepare(r, s, id))
  {
  }

  lemma SendCommitKeeps(c: Config, r: nat, s: Node, id: MsgId)
    requires NodeInv(c, r, s) && CanSendCommit(c, r, s, id)
    ensures NodeInv(c, r, SendCommit(r, s, id))
  {
    var t := SendCommit(r, s, id);
    SendCommitVotes(r, s, id);
    OwnSent(c, r, s, id);
    VotesKeepRest(c, r, s, t);
    SendCommitSent(c, r, s, id);
    PrepareFramed(c, r, s, t);
    ExecFramed(c, s, t);
    RanFramed(s, t);
    PrimaryFramed(c, r, s, t);
  }

  lemma SendCommitVotes(r: nat, s: Node, id: MsgId)
    requires CertInv(s) && id.v == s.view && id in s.certs
    ensures OnlyVotes(s, SendCommit(r, s, id)) && Extends(s, SendCommit(r, s, id))
  {
  }

  lemma SendCommitSent(c: Config, r: nat, s: Node, id: MsgId)
    requires c.n >= 1 && CertInv(s) && PInv(c, s) && CommitInv(s) && CanSendCommit(c, r, s, id)
    ensures PInv(c, SendCommit(r, s, id)) && CommitInv(SendCommit(r, s, id))
  {
    var t := SendCommit(r, s, id);
    forall o | o in t.hist.prepared && o.n > t.h && o.v == t.view ensures Prepared(c, t.certs, o) {
      assert Prepared(c, s.certs, o);
      PreparedGrows(c, s, t, o);
    }
  }

  /** A number executed in an earlier view may be committed again: had it been executed in this view,
      its commit would have been sent. */
  lemma RecommitKeeps(c: Config, r: nat, s: Node, id: MsgId)
    requires NodeInv(c, r, s) && CanRecommit(s, id)
    ensures NodeInv(c, r, Recommit(r, s, id))
  {
    var t := Recommit(r, s, id);
    RecommitVotes(r, s, id);
    OwnSent(c, r, s, id);
    VotesKeepRest(c, r, s, t);
    PFramed(c, s, t);
    RecommitSent(c, s, id);
    NewCommit(s, t, id);
    PrepareFramed(c, r, s, t);
    ExecFramed(c, s, t);
    RanFramed(s, t);
    PrimaryFramed(c, r, s, t);
  }

  lemma RecommitVotes(r: nat, s: Node, id: MsgId)
    requires CertInv(s) && id.v == s.view && id in s.certs
    ensures OnlyVotes(s, Recommit(r, s, id)) && Extends(s, Recommit(r, s, id))
  {
  }

  lemma RecommitSent(c: Config, s: Node, id: MsgId)
    requires CertInv(s) && ExecInv(c, s) && RanInv(s) && CanRecommit(s, id)
    ensures ExecutedBefore(s, id.n, id.v) && id in s.hist.accepted
  {
    if s.executed[id.n - 1].v == s.view {
      CommittedInView(c, s, id);
    }
  }

  lemma CommittedInView(c: Config, s: Node, id: MsgId)
    requires CertInv(s) && ExecInv(c, s) && RanInv(s) && id in s.certs && s.certs[id].prePrepared
    requires 1 <= id.n <= |s.executed| && s.executed[id.n - 1].v == s.view
    ensures s.executed[id.n - 1] == id && s.certs[id].sentCommit
  {
    var e := s.executed[id.n - 1];
    assert s.seqMap[e.n] == e.d;
  }

  lemma NewCommit(s: Node, t: Node, id: MsgId)
    requires CommitInv(s) && id in s.hist.accepted && ExecutedBefore(s, id.n, id.v)
    requires t.hist == s.hist.(commits := s.hist.commits + {CommitMsg(id, s.h)}) && t.h == s.h && t.executed == s.executed
    ensures CommitInv(t)
  {
  }

  lemma ExecuteKeeps(c: Config, r: nat, s: Node, id: MsgId)
    requires NodeInv(c, r, s) && CanExecute(c, s, id)
    ensures NodeInv(c, r, Execute(c, s, id))
  {
    var t := Execute(c, s, id);
    ExecuteVotes(c, s, id);
    OwnSent(c, r, s, id);
    VotesKeepRest(c, r, s, t);
    PFramed(c, s, t);
    CommitFramed(s, t);
    PrepareFramed(c, r, s, t);
    ExecuteRuns(c, s, id);
    ExecuteRan(c, s, id);
    PrimaryFramed(c, r, s, t);
  }

  lemma ExecuteVotes(c: Config, s: Node, id: MsgId)
    requires CertInv(s) && id in s.certs
    ensures OnlyVotes(s, Execute(c, s, id)) && Extends(s, Execute(c, s, id))
  {
  }

  lemma ExecuteRan(c: Config, s: Node, id: MsgId)
    requires c.n >= 1 && RanInv(s) && CanExecute(c, s, id)
    ensures RanInv(Execute(c, s, id))
  {
    var t := Execute(c, s, id);
    forall i | 0 <= i < |t.executed| && t.executed[i].v == t.view && i + 1 > t.h
      ensures t.executed[i] in t.certs && t.certs[t.executed[i]].prePrepared && t.certs[t.executed[i]].sentCommit
    {
      assert i < |s.executed| ==> s.executed[i] in s.certs;
    }
  }

  lemma ExecuteRuns(c: Config, s: Node, id: MsgId)
    requires c.n >= 1 && CertInv(s) && ExecInv(c, s) && CanExecute(c, s, id)
    ensures ExecInv(c, Execute(c, s, id))
  {
  }

  lemma ReportKeeps(c: Config, r: nat, s: Node, digest: Digest)
    requires NodeInv(c, r, s) && s.waiting
    ensures NodeInv(c, r, Report(s, digest))
  {
    var t := Report(s, digest);
    ReportRuns(c, s, digest);
    ReportKeepsStores(c, r, s, t);
    ReportKeepsSent(c, r, s, t);
  }

  lemma ReportKeepsStores(c: Config, r: nat, s: Node, t: Node)
    requires c.n >= 1 && CertInv(s) && AcceptInv(s) && PInv(c, s) && QInv(s) && RanInv(s) && OwnInv(r, s) && PrimaryInv(c, r, s)
    requires t == s.(waiting := t.waiting, ckpts := t.ckpts)
    ensures OwnInv(r, t) && CertInv(t) && AcceptInv(t) && PInv(c, t) && QInv(t) && RanInv(t) && PrimaryInv(c, r, t)
  {
    PFramed(c, s, t);
    QFramed(s, t);
    RanFramed(s, t);
    PrimaryFramed(c, r, s, t);
  }

  lemma ReportKeepsSent(c: Config, r: nat, s: Node, t: Node)
    requires c.n >= 1 && CommitInv(s) && PrepareInv(c, r, s) && EnterInv(s) && AssignedInv(s) && BasesInv(c, r, s)
    requires t == s.(waiting := t.waiting, ckpts := t.ckpts)
    ensures CommitInv(t) && PrepareInv(c, r, t) && EnterInv(t) && AssignedInv(t) && BasesInv(c, r, t)
  {
    CommitFramed(s, t);
    PrepareFramed(c, r, s, t);
    EnterFramed(s, t);
    AssignedFramed(s, t);
    BasesFramed(c, r, s, t);
  }

  lemma ReportRuns(c: Config, s: Node, digest: Digest)
    requires ExecInv(c, s) && s.waiting
    ensures ExecInv(c, Report(s, digest))
  {
  }
}
