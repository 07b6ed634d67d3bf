/** The handlers refine the protocol: whatever a handler does to one replica's stores is a run of
    protocol steps of that replica, so everything proved of the runs holds of the program. */
module Refinement {
  import opened Quorum
  import opened NewView
  import opened Replica
  import opened ReplicaInv
  import opened Protocol
  import opened ProtocolKeeps
  import opened ViewChanges
  import opened Handlers
  import opened NewViewHandlers

  /* ---------- steps of one replica ---------- */

  /** The part of a step's guard that the replica itself checks. */
  ghost predicate LocalGuard(c: Config, r: nat, s: Node, a: Action)
    requires c.n >= 1
  {
    && a.r == r && MayTake(s, a)
    && match a
       case DoPropose(_, id) => CanPropose(c, r, s, id)
       case DoAccept(_, id) => CanAccept(c, r, s, id)
       case DoSendPrepare(_, id) => CanSendPrepare(c, r, s, id)
       case DoRecvPrepare(_, from, id) => CanRecvPrepare(c, s, from, id)
       case DoSendCommit(_, id) => CanSendCommit(c, r, s, id)
       case DoRecommit(_, id) => CanRecommit(s, id)
       case DoRecvCommit(_, from, id) => InWV(s, id)
       case DoExecute(_, id) => CanExecute(c, s, id)
       case DoReport(_, digest) => true
       case DoStable(_, height) => height in s.ckpts
       case DoChangeView(_, w, p, q, b) =>
         CanChangeView(c, s, w, p, q) && IsBasisOf(r, StartViewChange(c, s, w, p, q), b)
       case DoAnnounce(_, nv, cs) => CanAnnounce(c, r, s) && OnePerReplica(c, nv.bases) && PassesCheck(c, s.view, nv, cs)
       case DoEnter(_, nv, cs) => PassesCheck(c, s.view, nv, cs) && CanEnter(s, nv, cs.digest)
       case DoEnterLater(_, v, h, nv, cs) => s.inViewChange && v == s.view && h == s.h
  }

  /** The part that needs other replicas: the message handled was sent by its sender. */
  ghost predicate Received(c: Config, sys: Sys, a: Action) {
    a.r in sys &&
    match a
    case DoAccept(_, id) => SentPrePrepare(c, sys, id)
    case DoRecvPrepare(_, from, id) => from in c.Replicas() && SentPrepare(c, sys, from, id)
    case DoRecvCommit(_, from, id) => from in c.Replicas() && SentCommit(c, sys, from, id)
    case DoAnnounce(_, nv, cs) => AllSent(c, sys, nv.bases)
    case DoEnter(_, nv, cs) => AllSent(c, sys, nv.bases) && SentNewView(c, sys, sys[a.r].view, nv)
    case DoEnterLater(_, v, h, nv, cs) => AllSent(c, sys, nv.bases) && SentNewView(c, sys, v, nv)
    case _ => true
  }

  lemma GuardsMeet(c: Config, sys: Sys, a: Action)
    requires c.n >= 1 && a.r in sys
    ensures Enabled(c, sys, a) <==> LocalGuard(c, a.r, sys[a.r], a) && Received(c, sys, a)
  {
  }

  /** The stores after the given steps. */
  ghost function Steps(c: Config, s: Node, acts: seq<Action>): Node
    requires c.n >= 1
    decreases |acts|
  {
    if acts == [] then s
    else Apply(c, Steps(c, s, acts[..|acts| - 1]), acts[|acts| - 1])
  }

  /** Every step was allowed when it was taken. */
  ghost predicate Allowed(c: Config, r: nat, s: Node, acts: seq<Action>)
    requires c.n >= 1
    decreases |acts|
  {
    acts == [] ||
    (Allowed(c, r, s, acts[..|acts| - 1])
     && LocalGuard(c, r, Steps(c, s, acts[..|acts| - 1]), acts[|acts| - 1]))
  }

  /** Some allowed steps lead from s to t. */
  ghost predicate Leads(c: Config, r: nat, s: Node, acts: seq<Action>, t: Node)
    requires c.n >= 1
  {
    Allowed(c, r, s, acts) && t == Steps(c, s, acts)
  }

  lemma OneStep(c: Config, r: nat, s: Node, acts: seq<Action>, t: Node, a: Action)
    requires c.n >= 1 && Leads(c, r, s, acts, t) && LocalGuard(c, r, t, a)
    ensures Leads(c, r, s, acts + [a], Apply(c, t, a))
  {
    assert (acts + [a])[..|acts + [a]| - 1] == acts;
  }

  lemma {:induction false} StepsAppend(c: Config, s: Node, acts: seq<Action>, more: seq<Action>)
    requires c.n >= 1
    ensures Steps(c, s, acts + more) == Steps(c, Steps(c, s, acts), more)
    decreases |more|
  {
    if more == [] {
      assert acts + more == acts;
    } else {
      assert (acts + more)[..|acts + more| - 1] == acts + more[..|more| - 1];
      StepsAppend(c, s, acts, more[..|more| - 1]);
    }
  }

  lemma {:induction false} MoreSteps(c: Config, r: nat, s: Node, acts: seq<Action>, t: Node, more: seq<Action>, u: Node)
    requires c.n >= 1 && Leads(c, r, s, acts, t) && Leads(c, r, t, more, u)
    ensures Leads(c, r, s, acts + more, u)
    decreases |more|
  {
    StepsAppend(c, s, acts, more);
    AllowedAppend(c, r, s, acts, more);
  }

  /** The step lists allowed from a state. */
  ghost function AllowedFrom(c: Config, r: nat, s: Node): iset<seq<Action>>
    requires c.n >= 1
  {
    iset acts: seq<Action> | Allowed(c, r, s, acts)
  }

  /** The steps a replica may take in a state. */
  ghost function Takable(c: Config, r: nat, s: Node): iset<Action>
    requires c.n >= 1
  {
    iset a: Action | LocalGuard(c, r, s, a)
  }

  lemma LastAllowed(c: Config, r: nat, s: Node, init: seq<Action>, last: Action)
    requires c.n >= 1
    ensures init + [last] in AllowedFrom(c, r, s) <==> init in AllowedFrom(c, r, s) && last in Takable(c, r, Steps(c, s, init))
  {
    assert (init + [last])[..|init + [last]| - 1] == init;
  }

  lemma {:induction false} AllowedJoin(c: Config, r: nat, s: Node, acts: seq<Action>, more: seq<Action>)
    requires c.n >= 1 && acts in AllowedFrom(c, r, s) && more in AllowedFrom(c, r, Steps(c, s, acts))
    ensures acts + more in AllowedFrom(c, r, s)
    decreases |more|
  {
    if more == [] {
      assert acts + more == acts;
    } else {
      var init, last := SplitLast(acts, more);
      LastAllowed(c, r, Steps(c, s, acts), init, last);
      AllowedJoin(c, r, s, acts, init);
      JoinOne(c, r, s, acts, init, last);
    }
  }

  lemma SplitLast(acts: seq<Action>, more: seq<Action>) returns (init: seq<Action>, last: Action)
    requires more != []
    ensures more == init + [last] && acts + more == acts + init + [last] && |init| < |more|
  {
    init, last := more[..|more| - 1], more[|more| - 1];
  }

  lemma JoinOne(c: Config, r: nat, s: Node, acts: seq<Action>, init: seq<Action>, last: Action)
    requires c.n >= 1 && acts + init in AllowedFrom(c, r, s) && last in Takable(c, r, Steps(c, Steps(c, s, acts), init))
    ensures acts + init + [last] in AllowedFrom(c, r, s)
  {
    StepsAppend(c, s, acts, init);
    LastAllowed(c, r, s, acts + init, last);
  }

  lemma AllowedAppend(c: Config, r: nat, s: Node, acts: seq<Action>, more: seq<Action>)
    requires c.n >= 1 && Allowed(c, r, s, acts) && Allowed(c, r, Steps(c, s, acts), more)
    ensures Allowed(c, r, s, acts + more)
  {
    AllowedJoin(c, r, s, acts, more);
  }

  lemma FirstStep(c: Config, r: nat, s: Node, a: Action)
    requires c.n >= 1 && LocalGuard(c, r, s, a)
    ensures Leads(c, r, s, [a], Apply(c, s, a))
  {
    OneStep(c, r, s, [], s, a);
    assert [] + [a] == [a];
  }

  /** A step that needs no message of another replica. */
  predicate OnItsOwn(a: Action) {
    !a.DoAccept? && !a.DoRecvPrepare? && !a.DoRecvCommit? && !a.DoAnnounce? && !a.DoEnter? && !a.DoEnterLater?
  }

  /** After its first step, which may handle a message, a replica goes on by itself. */
  ghost predicate OneMessage(acts: seq<Action>) {
    forall i :: 1 <= i < |acts| ==> OnItsOwn(acts[i])
  }

  /* ---------- local steps are steps of the system ---------- */

  lemma NextAt(c: Config, sys: Sys, r: nat, acts: seq<Action>)
    requires c.n >= 1 && r in sys && acts != [] && acts[|acts| - 1].r == r
    ensures Next(c, sys[r := Steps(c, sys[r], acts[..|acts| - 1])], acts[|acts| - 1]) == sys[r := Steps(c, sys[r], acts)]
  {
  }

  lemma {:induction false} LocalIsRun(c: Config, sys: Sys, r: nat, acts: seq<Action>)
    requires c.n >= 1 && r in sys && Allowed(c, r, sys[r], acts) && OneMessage(acts)
    requires |acts| > 0 ==> Received(c, sys, acts[0])
    ensures Run(c, sys, acts, sys[r := Steps(c, sys[r], acts)])
    decreases |acts|
  {
    if acts == [] {
      assert sys[r := sys[r]] == sys;
    } else {
      var init := acts[..|acts| - 1];
      var last := acts[|acts| - 1];
      LocalIsRun(c, sys, r, init);
      var mid := sys[r := Steps(c, sys[r], init)];
      GuardsMeet(c, mid, last);
      if init == [] {
        assert mid == sys;
      }
      NextAt(c, sys, r, acts);
      RunOneMore(c, sys, init, mid, last, sys[r := Steps(c, sys[r], acts)]);
      assert init + [last] == acts;
    }
  }

  /* ---------- the handlers ---------- */

  function Executions(r: nat, ids: seq<MsgId>): seq<Action> {
    seq(|ids|, i requires 0 <= i < |ids| => DoExecute(r, ids[i]))
  }

  lemma {:induction false} ExecutionsLead(c: Config, r: nat, s: Node, batches: set<Digest>, ids: seq<MsgId>)
    requires c.n >= 1 && ReadyInTurn(c, s, batches, ids)
    ensures Leads(c, r, s, Executions(r, ids), ExecuteAll(c, s, ids))
    decreases |ids|
  {
    if ids != [] {
      var init := ids[..|ids| - 1];
      ExecutionsLead(c, r, s, batches, init);
      var a := DoExecute(r, ids[|ids| - 1]);
      OneStep(c, r, s, Executions(r, init), ExecuteAll(c, s, init), a);
      assert Executions(r, init) + [a] == Executions(r, ids);
    }
  }

  /** One step followed by executions. */
  lemma StepAndExecute(c: Config, r: nat, s: Node, a: Action, batches: set<Digest>, ids: seq<MsgId>)
    requires c.n >= 1 && LocalGuard(c, r, s, a) && ReadyInTurn(c, Apply(c, s, a), batches, ids)
    ensures Leads(c, r, s, [a] + Executions(r, ids), ExecuteAll(c, Apply(c, s, a), ids))
    ensures OneMessage([a] + Executions(r, ids))
  {
    FirstStep(c, r, s, a);
    ExecutionsLead(c, r, Apply(c, s, a), batches, ids);
    MoreSteps(c, r, s, [a], Apply(c, s, a), Executions(r, ids), ExecuteAll(c, Apply(c, s, a), ids));
  }

  lemma CommitLeads(c: Config, r: nat, batches: set<Digest>, s: Node, from: nat, id: MsgId, ids: seq<MsgId>, t: Node)
    returns (acts: seq<Action>)
    requires c.n >= 1 && !s.waiting && CommitHandled(c, batches, s, from, id, ids, t)
    ensures Leads(c, r, s, acts, t) && OneMessage(acts)
    ensures |acts| > 0 ==> acts[0] == DoRecvCommit(r, from, id)
  {
    acts := [];
    if InWV(s, id) && !CommitRepeated(s, from, id) {
      StepAndExecute(c, r, s, DoRecvCommit(r, from, id), batches, ids);
      acts := [DoRecvCommit(r, from, id)] + Executions(r, ids);
    }
  }

  lemma OwnCommitVoted(certs: map<MsgId, Cert>, r: nat, id: MsgId)
    requires id in certs
    ensures var ct := certs[id];
            var marked := certs[id := ct.(sentCommit := true)];
            marked[id := marked[id].(commits := marked[id].commits + {r})] == certs[id := ct.(sentCommit := true, commits := ct.commits + {r})]
  {
  }

  lemma OwnCommitAgain(certs: map<MsgId, Cert>, r: nat, id: MsgId)
    requires id in certs && r in certs[id].commits
    ensures certs[id].(sentCommit := true) == certs[id].(sentCommit := true, commits := certs[id].commits + {r})
  {
    assert certs[id].commits + {r} == certs[id].commits;
  }

  lemma OwnCommit(r: nat, s: Node, id: MsgId)
    requires id in s.certs
    ensures RecvCommit(MarkCommit(s, id), r, id) == SendCommit(r, s, id)
    ensures r in s.certs[id].commits ==> MarkCommit(s, id) == SendCommit(r, s, id)
  {
    OwnCommitVoted(s.certs, r, id);
    if r in s.certs[id].commits {
      OwnCommitAgain(s.certs, r, id);
    }
  }

  lemma SendCommitLeads(c: Config, r: nat, batches: set<Digest>, s: Node, id: MsgId, ids: seq<MsgId>, t: Node)
    returns (acts: seq<Action>)
    requires c.n >= 1 && id.n > s.h && CommitMaybeSent(c, r, batches, s, id, ids, t)
    ensures Leads(c, r, s, acts, t)
    ensures forall i :: 0 <= i < |acts| ==> OnItsOwn(acts[i])
  {
    acts := [];
    if CanSendCommit(c, r, s, id) {
      OwnCommit(r, s, id);
      StepAndExecute(c, r, s, DoSendCommit(r, id), batches, ids);
      acts := [DoSendCommit(r, id)] + Executions(r, ids);
    }
  }

  lemma PrepareLeads(c: Config, r: nat, batches: set<Digest>, s: Node, from: nat, id: MsgId, ids: seq<MsgId>, t: Node)
    returns (acts: seq<Action>)
    requires c.n >= 1 && !s.waiting && PrepareHandled(c, r, batches, s, from, id, ids, t)
    ensures Leads(c, r, s, acts, t) && OneMessage(acts)
    ensures |acts| > 0 ==> acts[0] == DoRecvPrepare(r, from, id)
  {
    acts := [];
    if CanRecvPrepare(c, s, from, id) && from !in GetCert(s.certs, id).prepares {
      var a := DoRecvPrepare(r, from, id);
      var u := RecvPrepare(s, from, id);
      FirstStep(c, r, s, a);
      var more := SendCommitLeads(c, r, batches, u, id, ids, t);
      MoreSteps(c, r, s, [a], u, more, t);
      acts := [a] + more;
    }
  }

  lemma OwnPrepareVoted(certs: map<MsgId, Cert>, r: nat, id: MsgId)
    requires id in certs
    ensures var ct := certs[id];
            var marked := certs[id := ct.(sentPrepare := true)];
            marked[id := marked[id].(prepares := marked[id].prepares + {r})] == certs[id := ct.(sentPrepare := true, prepares := ct.prepares + {r})]
  {
  }

  lemma OwnPrepareAgain(certs: map<MsgId, Cert>, r: nat, id: MsgId)
    requires id in certs && r in certs[id].prepares
    ensures certs[id].(sentPrepare := true) == certs[id].(sentPrepare := true, prepares := certs[id].prepares + {r})
  {
    assert certs[id].prepares + {r} == certs[id].prepares;
  }

  lemma OwnPrepare(r: nat, s: Node, id: MsgId)
    requires id in s.certs
    ensures RecvPrepare(MarkPrepare(s, id), r, id) == SendPrepare(r, s, id)
    ensures r in s.certs[id].prepares ==> MarkPrepare(s, id) == SendPrepare(r, s, id)
  {
    OwnPrepareVoted(s.certs, r, id);
    if r in s.certs[id].prepares {
      OwnPrepareAgain(s.certs, r, id);
    }
  }

  lemma SendPrepareLeads(c: Config, r: nat, batches: set<Digest>, s: Node, id: MsgId, ids: seq<MsgId>, t: Node)
    returns (acts: seq<Action>)
    requires c.n >= 1 && InWV(s, id) && CanSendPrepare(c, r, s, id)
    requires PrepareSent(c, r, batches, s, id, ids, t)
    ensures Leads(c, r, s, acts, t)
    ensures forall i :: 0 <= i < |acts| ==> OnItsOwn(acts[i])
  {
    OwnPrepare(r, s, id);
    var a := DoSendPrepare(r, id);
    FirstStep(c, r, s, a);
    acts := [a];
    if r !in s.certs[id].prepares {
      var u := SendPrepare(r, s, id);
      var more := SendCommitLeads(c, r, batches, u, id, ids, t);
      MoreSteps(c, r, s, [a], u, more, t);
      acts := [a] + more;
    }
  }

  lemma OwnRecommit(r: nat, s: Node, id: MsgId)
    requires id in s.certs && !s.certs[id].sentCommit
    ensures RecvCommit(MarkRecommit(s, id), r, id) == Recommit(r, s, id)
    ensures r in s.certs[id].commits ==> MarkRecommit(s, id) == Recommit(r, s, id)
  {
    var ct := s.certs[id];
    var marked := s.certs[id := ct.(sentCommit := true)];
    assert marked[id := marked[id].(commits := ct.commits + {r})]
        == s.certs[id := ct.(sentCommit := true, commits := ct.commits + {r})];
    if r in ct.commits {
      assert ct.commits + {r} == ct.commits;
    }
  }

  lemma RecommitLeads(c: Config, r: nat, batches: set<Digest>, s: Node, id: MsgId, ids: seq<MsgId>, t: Node)
    returns (acts: seq<Action>)
    requires c.n >= 1 && OwnInv(r, s) && InWV(s, id) && id in s.certs && s.certs[id].prePrepared
    requires CommitResent(c, r, batches, s, id, ids, t)
    ensures Leads(c, r, s, acts, t)
    ensures forall i :: 0 <= i < |acts| ==> OnItsOwn(acts[i])
  {
    acts := [];
    if id.n <= |s.executed| && !s.certs[id].sentCommit {
      OwnRecommit(r, s, id);
      StepAndExecute(c, r, s, DoRecommit(r, id), batches, ids);
      acts := [DoRecommit(r, id)] + Executions(r, ids);
    }
  }

  lemma PrePrepareLeads(c: Config, r: nat, batches: set<Digest>, s: Node, from: nat, id: MsgId,
                        digestOk: bool, pool: PoolAnswer, outcome: Outcome, after: set<Digest>, ids: seq<MsgId>, t: Node)
    returns (acts: seq<Action>)
    requires c.n >= 1 && !s.waiting
    requires PrePrepareHandled(c, r, batches, s, from, id, digestOk, pool, outcome, after, ids, t)
    ensures Leads(c, r, s, acts, t) && OneMessage(acts)
    ensures |acts| > 0 ==> acts[0] == DoAccept(r, id)
    ensures acts == [] <==> outcome == Ignored || (outcome == SuspectPrimary && !CanAccept(c, r, s, id)) || !digestOk
  {
    acts := [];
    if PrePrepareLegal(c, r, s, from, id) && !(id.n in s.seqMap && s.seqMap[id.n] != id.d) && digestOk {
      var a := DoAccept(r, id);
      var u := Accept(s, id);
      LegalIsAccepted(c, r, s, from, id);
      FirstStep(c, r, s, a);
      acts := [a];
      if t != u {
        acts := ThenPrepare(c, r, s, id, after, ids, t);
      }
    }
  }

  lemma LegalIsAccepted(c: Config, r: nat, s: Node, from: nat, id: MsgId)
    requires c.n >= 1 && PrePrepareLegal(c, r, s, from, id) && !(id.n in s.seqMap && s.seqMap[id.n] != id.d)
    ensures CanAccept(c, r, s, id) && InWV(s, id) && CanSendPrepare(c, r, Accept(s, id), id)
  {
  }

  lemma ThenPrepare(c: Config, r: nat, s: Node, id: MsgId, after: set<Digest>, ids: seq<MsgId>, t: Node) returns (acts: seq<Action>)
    requires c.n >= 1 && Leads(c, r, s, [DoAccept(r, id)], Accept(s, id))
    requires InWV(s, id) && CanSendPrepare(c, r, Accept(s, id), id) && PrepareSent(c, r, after, Accept(s, id), id, ids, t)
    ensures Leads(c, r, s, acts, t) && OneMessage(acts) && |acts| > 0 && acts[0] == DoAccept(r, id)
  {
    var more := SendPrepareLeads(c, r, after, Accept(s, id), id, ids, t);
    MoreSteps(c, r, s, [DoAccept(r, id)], Accept(s, id), more, t);
    acts := [DoAccept(r, id)] + more;
  }

  predicate Proposals(r: nat, acts: seq<Action>) {
    forall i :: 0 <= i < |acts| ==> acts[i].DoPropose? && acts[i].r == r
  }

  lemma ProposalStep(c: Config, r: nat, s: Node, d: Digest, epochEnd: nat) returns (a: Action)
    requires c.n >= 1 && !s.waiting && !s.inViewChange && r == c.Primary(s.view)
    requires RoomForNext(c, s, epochEnd) && !ExistedDigest(s, NextId(s, d))
    ensures Leads(c, r, s, [a], Propose(s, NextId(s, d))) && Proposals(r, [a])
  {
    a := DoPropose(r, NextId(s, d));
    FirstStep(c, r, s, a);
  }

  lemma {:induction false} ProposalsLead(c: Config, r: nat, s: Node, queue: seq<Digest>, k: nat, epochEnd: nat)
    returns (acts: seq<Action>)
    requires c.n >= 1 && !s.waiting && !s.inViewChange && r == c.Primary(s.view)
    requires k == ProposedCount(c, s, queue, epochEnd)
    ensures Leads(c, r, s, acts, ProposeAll(s, queue[..k])) && Proposals(r, acts)
    decreases |queue|
  {
    acts := [];
    if k > 0 {
      var t := Propose(s, NextId(s, queue[0]));
      var a := ProposalStep(c, r, s, queue[0], epochEnd);
      var more := ProposalsLead(c, r, t, queue[1..], k - 1, epochEnd);
      ProposeOne(c, s, queue, epochEnd);
      MoreSteps(c, r, s, [a], t, more, ProposeAll(t, queue[1..][..k - 1]));
      acts := [a] + more;
      MoreProposals(r, [a], more);
    }
  }

  lemma MoreProposals(r: nat, a: seq<Action>, b: seq<Action>)
    requires Proposals(r, a) && Proposals(r, b)
    ensures Proposals(r, a + b)
  {
  }

  /* ---------- main results ---------- */

  /** Steps that do not start by processing an unchecked new view are checked. */
  lemma NoLater(c: Config, acts: seq<Action>)
    requires c.n >= 1 && OneMessage(acts) && (|acts| > 0 ==> !acts[0].DoEnterLater?)
    ensures CheckedSteps(c, acts)
  {
    forall i | 0 <= i < |acts| ensures Checked(c, acts[i]) {
      assert i >= 1 ==> OnItsOwn(acts[i]);
    }
  }

  /** What steps of one replica lead to, the system can reach, and its invariant holds there. */
  lemma StepsAreReachable(c: Config, sys: Sys, r: nat, acts: seq<Action>, t: Node)
    requires SysInv(c, sys) && r in sys && Leads(c, r, sys[r], acts, t) && OneMessage(acts) && CheckedSteps(c, acts)
    requires |acts| > 0 ==> Received(c, sys, acts[0])
    ensures Run(c, sys, acts, sys[r := t]) && SysInv(c, sys[r := t])
  {
    LocalIsRun(c, sys, r, acts);
    RunKeeps(c, sys, acts, sys[r := t]);
  }

  lemma OwnStepsReachable(c: Config, sys: Sys, r: nat, acts: seq<Action>, t: Node)
    requires SysInv(c, sys) && r in sys && Leads(c, r, sys[r], acts, t)
    requires forall i :: 0 <= i < |acts| ==> OnItsOwn(acts[i])
    ensures Run(c, sys, acts, sys[r := t]) && SysInv(c, sys[r := t])
  {
    if acts != [] {
      FirstIsOwn(c, r, sys[r], acts);
    }
    StepsAreReachable(c, sys, r, acts, t);
  }

  lemma {:induction false} FirstIsOwn(c: Config, r: nat, s: Node, acts: seq<Action>)
    requires c.n >= 1 && Allowed(c, r, s, acts) && acts != []
    ensures acts[0].r == r
    decreases |acts|
  {
    if |acts| > 1 {
      FirstIsOwn(c, r, s, acts[..|acts| - 1]);
    }
  }

  /** Two runs of one replica, one after the other. */
  lemma TwoRuns(c: Config, sys: Sys, r: nat, x: seq<Action>, u: Node, y: seq<Action>, t: Node)
    requires c.n >= 1 && Run(c, sys, x, sys[r := u]) && Run(c, sys[r := u], y, sys[r := u][r := t])
    ensures Run(c, sys, x + y, sys[r := t])
  {
    assert sys[r := u][r := t] == sys[r := t];
    RunAppend(c, sys, x, sys[r := u], y, sys[r := t]);
  }

  lemma NoRun(c: Config, sys: Sys, r: nat)
    requires c.n >= 1 && r in sys
    ensures Run(c, sys, [], sys[r := sys[r]]) && sys[r := sys[r]] == sys
  {
    assert sys[r := sys[r]] == sys;
  }

  /** recvPrePrepare of the program, with everything it triggers, is a run of the protocol. */
  lemma PrePrepareRefines(c: Config, sys: Sys, r: nat, batches: set<Digest>, id: MsgId, digestOk: bool, pool: PoolAnswer,
                          outcome: Outcome, after: set<Digest>, ids: seq<MsgId>, t: Node)
    returns (acts: seq<Action>)
    requires SysInv(c, sys) && r in sys && !sys[r].waiting && SentPrePrepare(c, sys, id)
    requires PrePrepareHandled(c, r, batches, sys[r], c.Primary(id.v), id, digestOk, pool, outcome, after, ids, t)
    ensures Run(c, sys, acts, sys[r := t]) && SysInv(c, sys[r := t])
  {
    acts := PrePrepareLeads(c, r, batches, sys[r], c.Primary(id.v), id, digestOk, pool, outcome, after, ids, t);
    NoLater(c, acts);
    StepsAreReachable(c, sys, r, acts, t);
  }

  /** recvPrepare with maybeSendCommit, recvCommit and commitPendingBlocks. */
  lemma PrepareRefines(c: Config, sys: Sys, r: nat, batches: set<Digest>, from: nat, id: MsgId, ids: seq<MsgId>, t: Node)
    returns (acts: seq<Action>)
    requires SysInv(c, sys) && r in sys && !sys[r].waiting
    requires from in c.Replicas() && SentPrepare(c, sys, from, id)
    requires PrepareHandled(c, r, batches, sys[r], from, id, ids, t)
    ensures Run(c, sys, acts, sys[r := t]) && SysInv(c, sys[r := t])
  {
    acts := PrepareLeads(c, r, batches, sys[r], from, id, ids, t);
    NoLater(c, acts);
    StepsAreReachable(c, sys, r, acts, t);
  }

  /** recvCommit with commitPendingBlocks. */
  lemma CommitRefines(c: Config, sys: Sys, r: nat, batches: set<Digest>, from: nat, id: MsgId, ids: seq<MsgId>, t: Node)
    returns (acts: seq<Action>)
    requires SysInv(c, sys) && r in sys && !sys[r].waiting
    requires from in c.Replicas() && SentCommit(c, sys, from, id)
    requires CommitHandled(c, batches, sys[r], from, id, ids, t)
    ensures Run(c, sys, acts, sys[r := t]) && SysInv(c, sys[r := t])
  {
    acts := CommitLeads(c, r, batches, sys[r], from, id, ids, t);
    NoLater(c, acts);
    StepsAreReachable(c, sys, r, acts, t);
  }

  /** sendViewChange, and the resend for the same view. */
  lemma ViewChangeRefines(c: Config, sys: Sys, r: nat, w: nat, p: map<nat, PEntry>, q: map<QIdx, nat>, b: VcBasis)
    requires SysInv(c, sys) && r in sys && !sys[r].waiting
    requires CanChangeView(c, sys[r], w, p, q) && IsBasisOf(r, StartViewChange(c, sys[r], w, p, q), b)
    ensures var t := SendBasis(StartViewChange(c, sys[r], w, p, q), b);
            Run(c, sys, [DoChangeView(r, w, p, q, b)], sys[r := t]) && SysInv(c, sys[r := t])
  {
    var a := DoChangeView(r, w, p, q, b);
    FirstStep(c, r, sys[r], a);
    StepsAreReachable(c, sys, r, [a], Apply(c, sys[r], a));
  }

  /** sendNewView: the primary raises its low watermark to the base if it holds that checkpoint, and
      announces. */
  lemma AnnounceRefines(c: Config, sys: Sys, r: nat, nv: NewViewMsg, cs: CheckpointState) returns (acts: seq<Action>)
    requires SysInv(c, sys) && r in sys && !sys[r].waiting && CanAnnounce(c, r, sys[r])
    requires OnePerReplica(c, nv.bases) && PassesCheck(c, sys[r].view, nv, cs) && AllSent(c, sys, nv.bases)
    requires CanEnter(sys[r], nv, cs.digest)
    ensures var t := Announce(Raise(sys[r], nv), nv);
            Run(c, sys, acts, sys[r := t]) && SysInv(c, sys[r := t])
  {
    var u := Raise(sys[r], nv);
    var first := RaiseRuns(c, sys, r, nv);
    AnnounceNext(c, sys, r, u, nv, cs);
    TwoRuns(c, sys, r, first, u, [DoAnnounce(r, nv, cs)], Announce(u, nv));
    acts := first + [DoAnnounce(r, nv, cs)];
  }

  lemma AnnounceNext(c: Config, sys: Sys, r: nat, u: Node, nv: NewViewMsg, cs: CheckpointState)
    requires r in sys && SysInv(c, sys[r := u]) && !u.waiting && CanAnnounce(c, r, u) && u.hist == sys[r].hist
    requires OnePerReplica(c, nv.bases) && PassesCheck(c, u.view, nv, cs) && AllSent(c, sys, nv.bases)
    ensures Run(c, sys[r := u], [DoAnnounce(r, nv, cs)], sys[r := u][r := Announce(u, nv)]) && SysInv(c, sys[r := Announce(u, nv)])
  {
    SentAlike(c, sys, r, u, nv.bases);
    AnnounceRuns(c, sys[r := u], r, nv, cs);
    InvSame(c, sys[r := u][r := Announce(u, nv)], sys[r := Announce(u, nv)]);
  }

  lemma SentAlike(c: Config, sys: Sys, r: nat, u: Node, bases: seq<VcBasis>)
    requires r in sys && u.hist == sys[r].hist && AllSent(c, sys, bases)
    ensures AllSent(c, sys[r := u], bases)
  {
  }

  lemma RaiseRuns(c: Config, sys: Sys, r: nat, nv: NewViewMsg) returns (acts: seq<Action>)
    requires SysInv(c, sys) && r in sys && !sys[r].waiting
    ensures var u := Raise(sys[r], nv);
            && Run(c, sys, acts, sys[r := u]) && SysInv(c, sys[r := u])
            && u.hist == sys[r].hist
  {
    if sys[r].h < nv.base && nv.base in sys[r].ckpts {
      acts := [DoStable(r, nv.base)];
      FirstStep(c, r, sys[r], acts[0]);
      StepsAreReachable(c, sys, r, acts, Raise(sys[r], nv));
    } else {
      acts := [];
      NoRun(c, sys, r);
    }
  }

  lemma AnnounceRuns(c: Config, sys: Sys, r: nat, nv: NewViewMsg, cs: CheckpointState)
    requires SysInv(c, sys) && r in sys && !sys[r].waiting && CanAnnounce(c, r, sys[r])
    requires OnePerReplica(c, nv.bases) && PassesCheck(c, sys[r].view, nv, cs) && AllSent(c, sys, nv.bases)
    ensures var t := Announce(sys[r], nv);
            Run(c, sys, [DoAnnounce(r, nv, cs)], sys[r := t]) && SysInv(c, sys[r := t])
  {
    FirstStep(c, r, sys[r], DoAnnounce(r, nv, cs));
    StepsAreReachable(c, sys, r, [DoAnnounce(r, nv, cs)], Announce(sys[r], nv));
  }

  /** maybeSendPrePrepare over the whole queue of batches. */
  lemma ProposalsRefine(c: Config, sys: Sys, r: nat, queue: seq<Digest>, epochEnd: nat)
    returns (acts: seq<Action>)
    requires SysInv(c, sys) && r in sys && !sys[r].waiting && !sys[r].inViewChange && r == c.Primary(sys[r].view)
    ensures var t := ProposeAll(sys[r], queue[..ProposedCount(c, sys[r], queue, epochEnd)]);
            Run(c, sys, acts, sys[r := t]) && SysInv(c, sys[r := t])
  {
    var k := ProposedCount(c, sys[r], queue, epochEnd);
    acts := ProposalsLead(c, r, sys[r], queue, k, epochEnd);
    StepsAreReachable(c, sys, r, acts, ProposeAll(sys[r], queue[..k]));
  }

  lemma PrepareResentRuns(c: Config, sys: Sys, r: nat, batches: set<Digest>, id: MsgId, ids: seq<MsgId>, t: Node)
    returns (acts: seq<Action>)
    requires SysInv(c, sys) && r in sys && InWV(sys[r], id) && id in sys[r].certs && sys[r].certs[id].prePrepared
    requires PrepareResent(c, r, batches, sys[r], id, ids, t)
    ensures Run(c, sys, acts, sys[r := t]) && SysInv(c, sys[r := t]) && Stays(sys[r], t)
  {
    acts := [];
    if r != c.Primary(sys[r].view) {
      PrepareStays(c, r, batches, sys[r], id, ids, t);
      acts := SendPrepareLeads(c, r, batches, sys[r], id, ids, t);
    }
    OwnStepsReachable(c, sys, r, acts, t);
  }

  lemma CommitResentRuns(c: Config, sys: Sys, r: nat, batches: set<Digest>, id: MsgId, ids: seq<MsgId>, t: Node)
    returns (acts: seq<Action>)
    requires SysInv(c, sys) && r in sys && InWV(sys[r], id) && id in sys[r].certs && sys[r].certs[id].prePrepared
    requires CommitResent(c, r, batches, sys[r], id, ids, t)
    ensures Run(c, sys, acts, sys[r := t]) && SysInv(c, sys[r := t])
  {
    NodeOf(c, sys, r);
    acts := RecommitLeads(c, r, batches, sys[r], id, ids, t);
    OwnStepsReachable(c, sys, r, acts, t);
  }

  lemma ResentRuns(c: Config, sys: Sys, r: nat, batches: set<Digest>, id: MsgId, t: Node) returns (acts: seq<Action>)
    requires SysInv(c, sys) && r in sys && Resent(c, r, batches, sys[r], id, t) && id.v == sys[r].view
    requires id.n > sys[r].h ==> id in sys[r].certs && sys[r].certs[id].prePrepared
    ensures Run(c, sys, acts, sys[r := t]) && SysInv(c, sys[r := t])
  {
    var s := sys[r];
    if id.n <= s.h {
      acts := [];
      NoRun(c, sys, r);
    } else {
      var u, a, b :| PrepareResent(c, r, batches, s, id, a, u) && id in u.certs && CommitResent(c, r, batches, u, id, b, t);
      acts := BothResentRuns(c, sys, r, batches, id, a, u, b, t);
    }
  }

  lemma BothResentRuns(c: Config, sys: Sys, r: nat, batches: set<Digest>, id: MsgId,
                       a: seq<MsgId>, u: Node, b: seq<MsgId>, t: Node) returns (acts: seq<Action>)
    requires SysInv(c, sys) && r in sys && InWV(sys[r], id) && id in sys[r].certs && sys[r].certs[id].prePrepared
    requires PrepareResent(c, r, batches, sys[r], id, a, u) && id in u.certs && CommitResent(c, r, batches, u, id, b, t)
    ensures Run(c, sys, acts, sys[r := t]) && SysInv(c, sys[r := t])
  {
    var first := PrepareResentRuns(c, sys, r, batches, id, a, u);
    var second := SecondResent(c, sys[r := u], r, batches, id, b, t, sys);
    TwoRuns(c, sys, r, first, u, second, t);
    acts := first + second;
  }

  lemma SecondResent(c: Config, mid: Sys, r: nat, batches: set<Digest>, id: MsgId, b: seq<MsgId>, t: Node, sys: Sys)
    returns (second: seq<Action>)
    requires SysInv(c, mid) && r in mid && InWV(mid[r], id) && id in mid[r].certs && mid[r].certs[id].prePrepared
    requires CommitResent(c, r, batches, mid[r], id, b, t) && r in sys && mid == sys[r := mid[r]]
    ensures Run(c, mid, second, mid[r := t]) && SysInv(c, sys[r := t])
  {
    second := CommitResentRuns(c, mid, r, batches, id, b, t);
    InvSame(c, mid[r := t], sys[r := t]);
  }

  lemma InvSame(c: Config, a: Sys, b: Sys)
    requires SysInv(c, a) && a == b
    ensures SysInv(c, b)
  {
  }

  /** The listed certificates above the low watermark are pre-prepared. */
  ghost predicate Listed(s: Node, ids: seq<MsgId>) {
    forall i :: 0 <= i < |ids| ==>
      ids[i].v == s.view && (ids[i].n > s.h ==> ids[i] in s.certs && s.certs[ids[i]].prePrepared)
  }

  lemma {:induction false} AllResentRuns(c: Config, sys: Sys, r: nat, batches: set<Digest>, ids: seq<MsgId>, t: Node)
    returns (acts: seq<Action>)
    requires SysInv(c, sys) && r in sys && AllResent(c, r, batches, sys[r], ids, t) && Listed(sys[r], ids)
    ensures Run(c, sys, acts, sys[r := t]) && SysInv(c, sys[r := t]) && Stays(sys[r], t)
    decreases |ids|
  {
    if ids == [] {
      acts := [];
      NoRun(c, sys, r);
    } else {
      var init, last := ids[..|ids| - 1], ids[|ids| - 1];
      var m: Node :| AllResent(c, r, batches, sys[r], init, m) && Resent(c, r, batches, m, last, t);
      assert Listed(sys[r], init);
      var first := AllResentRuns(c, sys, r, batches, init, m);
      var second := OneMoreResent(c, sys, r, batches, ids, m, t);
      TwoRuns(c, sys, r, first, m, second, t);
      acts := first + second;
    }
  }

  lemma OneMoreResent(c: Config, sys: Sys, r: nat, batches: set<Digest>, ids: seq<MsgId>, m: Node, t: Node)
    returns (second: seq<Action>)
    requires SysInv(c, sys[r := m]) && r in sys && ids != [] && Listed(sys[r], ids) && Stays(sys[r], m)
    requires Resent(c, r, batches, m, ids[|ids| - 1], t)
    ensures Run(c, sys[r := m], second, sys[r := m][r := t]) && SysInv(c, sys[r := t]) && Stays(sys[r], t)
  {
    var last := ids[|ids| - 1];
    second := ResentRuns(c, sys[r := m], r, batches, last, t);
    assert sys[r := m][r := t] == sys[r := t];
    ResentStays(c, r, batches, m, last, t);
    StaysTrans(sys[r], m, t);
  }

  lemma ListedAfterEnter(c: Config, r: nat, s: Node, nv: NewViewMsg, msgs: seq<XEntry>)
    requires c.n >= 1 && IsListing(nv, msgs)
    ensures Listed(ProcessNewView(c, r, s, nv), IdsOf(s.view, msgs))
  {
    var ids := IdsOf(s.view, msgs);
    forall i | 0 <= i < |ids| && ids[i].n > s.h ensures ids[i] in NewIds(s.view, nv, s.h) {
      assert Assigns(nv, ids[i]);
    }
  }

  /** checkIfNeedStateUpdate and resetStateForNewView with both loops of processNewView: entering a
      view, sending its prepares, repeating commits and whatever these trigger is a run of the
      protocol. */
  lemma NewViewRefines(c: Config, sys: Sys, r: nat, batches: set<Digest>, nv: NewViewMsg, cs: CheckpointState,
                       msgs: seq<XEntry>, t: Node) returns (acts: seq<Action>)
    requires SysInv(c, sys) && r in sys && !sys[r].waiting && IsListing(nv, msgs)
    requires PassesCheck(c, sys[r].view, nv, cs) && CanEnter(sys[r], nv, cs.digest)
    requires AllSent(c, sys, nv.bases) && SentNewView(c, sys, sys[r].view, nv)
    requires AllResent(c, r, batches, Enter(c, r, sys[r], nv), IdsOf(sys[r].view, msgs), t)
    ensures Run(c, sys, acts, sys[r := t]) && SysInv(c, sys[r := t])
  {
    EnterRuns(c, sys, r, nv, cs);
    ListedAfterEnter(c, r, Raise(sys[r], nv), nv, msgs);
    acts := RunThenResent(c, sys, r, batches, [DoEnter(r, nv, cs)], Enter(c, r, sys[r], nv), IdsOf(sys[r].view, msgs), t);
  }

  lemma RunThenResent(c: Config, sys: Sys, r: nat, batches: set<Digest>, first: seq<Action>, u: Node, ids: seq<MsgId>, t: Node)
    returns (acts: seq<Action>)
    requires c.n >= 1 && r in sys && Run(c, sys, first, sys[r := u]) && SysInv(c, sys[r := u])
    requires AllResent(c, r, batches, u, ids, t) && Listed(u, ids)
    ensures Run(c, sys, acts, sys[r := t]) && SysInv(c, sys[r := t])
  {
    var more := AllResentRuns(c, sys[r := u], r, batches, ids, t);
    InvSame(c, sys[r := u][r := t], sys[r := t]);
    TwoRuns(c, sys, r, first, u, more, t);
    acts := first + more;
  }

  lemma EnterRuns(c: Config, sys: Sys, r: nat, nv: NewViewMsg, cs: CheckpointState)
    requires SysInv(c, sys) && r in sys && !sys[r].waiting
    requires PassesCheck(c, sys[r].view, nv, cs) && CanEnter(sys[r], nv, cs.digest)
    requires AllSent(c, sys, nv.bases) && SentNewView(c, sys, sys[r].view, nv)
    ensures var t := Enter(c, r, sys[r], nv);
            Run(c, sys, [DoEnter(r, nv, cs)], sys[r := t]) && SysInv(c, sys[r := t])
  {
    var a := DoEnter(r, nv, cs);
    FirstStep(c, r, sys[r], a);
    StepsAreReachable(c, sys, r, [a], Enter(c, r, sys[r], nv));
  }

  /** In any state that keeps the invariant, whatever the order in which pending certificates are
      walked, handling a commit executes the same blocks and leaves the same stores. */
  lemma CommitOrderIrrelevant(c: Config, sys: Sys, r: nat, batches: set<Digest>, from: nat, id: MsgId,
                              a: seq<MsgId>, t: Node, b: seq<MsgId>, u: Node)
    requires SysInv(c, sys) && r in sys
    requires CommitHandled(c, batches, sys[r], from, id, a, t) && CommitHandled(c, batches, sys[r], from, id, b, u)
    ensures a == b && t == u
  {
    NodeOf(c, sys, r);
    if InWV(sys[r], id) && !CommitRepeated(sys[r], from, id) {
      var s := RecvCommit(sys[r], from, id);
      if Executable(c, s, id) {
        assert CertInv(s);
        SettlesUnique(c, s, batches, a, b);
      }
    }
  }
}
