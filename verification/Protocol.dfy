/** All replicas together. Honest replicas take the steps of module Replica; a message is accepted
    only from the sender that sent it, and a faulty replica may send anything at any time. */
module Protocol {
  import opened Quorum
  import opened NewView
  import opened Replica
  import opened ReplicaInv
  import opened ReplicaKeeps
  import opened ReplicaViewKeeps

  /** The honest replicas, by id. */
  type Sys = map<nat, Node>

  /* ---------- authenticated messages ---------- */

  predicate SentPrepare(c: Config, sys: Sys, x: nat, id: MsgId) {
    x in c.byz || (x in sys && id in sys[x].hist.prepares)
  }

  predicate HasCommit(commits: set<CommitMsg>, id: MsgId) {
    exists m :: m in commits && m.id == id
  }

  predicate SentCommit(c: Config, sys: Sys, x: nat, id: MsgId) {
    x in c.byz || (x in sys && HasCommit(sys[x].hist.commits, id))
  }

  predicate SentPrePrepare(c: Config, sys: Sys, id: MsgId) {
    var p := c.Primary(id.v);
    p in c.byz || (p in sys && id in sys[p].hist.proposals)
  }

  predicate SentBasis(c: Config, sys: Sys, b: VcBasis) {
    b.id in c.byz || (b.id in sys && b in sys[b.id].hist.bases)
  }

  predicate SentNewView(c: Config, sys: Sys, v: nat, nv: NewViewMsg) {
    var p := c.Primary(v);
    p in c.byz || (p in sys && Announcement(v, nv) in sys[p].hist.newViews)
  }

  /* ---------- certificates over the whole system ---------- */

  function PrepareVoters(c: Config, sys: Sys, id: MsgId): set<nat> {
    set x | x in c.Replicas() && x != c.Primary(id.v) && SentPrepare(c, sys, x, id)
  }

  function CommitVoters(c: Config, sys: Sys, id: MsgId): set<nat> {
    set x | x in c.Replicas() && SentCommit(c, sys, x, id)
  }

  predicate PrepareQuorum(c: Config, sys: Sys, id: MsgId)
    requires c.n >= 1
  {
    |PrepareVoters(c, sys, id)| >= c.Q() - 1
  }

  predicate CommitQuorum(c: Config, sys: Sys, id: MsgId)
    requires c.n >= 1
  {
    |CommitVoters(c, sys, id)| >= c.Q()
  }

  /** What a backup checks of a new view for view v: bases for view v, the initial checkpoint, and
      the assignment, both recomputed from the list as it was received. */
  ghost predicate PassesCheck(c: Config, v: nat, nv: NewViewMsg, cs: CheckpointState)
    requires c.n >= 1
  {
    && (forall i :: 0 <= i < |nv.bases| ==> nv.bases[i].view == v)
    && IsInitialCheckpoint(c, nv.bases, cs) && cs.height == nv.base
    && Assignment(c, nv.bases, nv.base).Some?
    && var xs := Assignment(c, nv.bases, nv.base).value;
       nv.top == nv.base + |xs| && Gapless(nv) && forall i :: 0 <= i < |xs| ==> nv.xset[xs[i].n] == xs[i].d
  }

  /** A new view that passes and whose list no few senders dominate. */
  ghost predicate IsNewView(c: Config, v: nat, nv: NewViewMsg, cs: CheckpointState)
    requires c.n >= 1
  {
    SafeSenders(c, nv.bases) && PassesCheck(c, v, nv, cs)
  }

  ghost predicate AllSent(c: Config, sys: Sys, bases: seq<VcBasis>) {
    forall i :: 0 <= i < |bases| ==> SentBasis(c, sys, bases[i])
  }

  /* ---------- steps ---------- */

  datatype Action =
    | DoPropose(r: nat, id: MsgId)
    | DoAccept(r: nat, id: MsgId)
    | DoSendPrepare(r: nat, id: MsgId)
    | DoRecvPrepare(r: nat, from: nat, id: MsgId)
    | DoSendCommit(r: nat, id: MsgId)
    | DoRecommit(r: nat, id: MsgId)
    | DoRecvCommit(r: nat, from: nat, id: MsgId)
    | DoExecute(r: nat, id: MsgId)
    | DoReport(r: nat, digest: Digest)
    | DoStable(r: nat, height: nat)
    | DoChangeView(r: nat, w: nat, p: map<nat, PEntry>, q: map<QIdx, nat>, b: VcBasis)
    | DoAnnounce(r: nat, nv: NewViewMsg, cs: CheckpointState)
    | DoEnter(r: nat, nv: NewViewMsg, cs: CheckpointState)
    | DoEnterLater(r: nat, v: nat, h: nat, nv: NewViewMsg, cs: CheckpointState)

  /** While a replica waits for a checkpoint block to be reported, other events are cached; only the
      votes that the handler being run still has to send go out. */
  predicate MayTake(s: Node, a: Action) {
    if s.waiting then a.DoReport? || a.DoSendPrepare? || a.DoSendCommit? || a.DoRecommit? else !a.DoReport?
  }

  /** DoEnterLater: while a backup that has checked a new view fetches the batches it lacks, another new
      view of the same view takes its place in the store, and is then processed without being checked.
      The step names the view and the low watermark at which that happens. */
  ghost predicate Enabled(c: Config, sys: Sys, a: Action)
    requires c.n >= 1
  {
    && a.r in sys
    && var s := sys[a.r];
    && MayTake(s, a)
    && match a
       case DoPropose(r, id) => CanPropose(c, r, s, id)
       case DoAccept(r, id) => CanAccept(c, r, s, id) && SentPrePrepare(c, sys, id)
       case DoSendPrepare(r, id) => CanSendPrepare(c, r, s, id)
       case DoRecvPrepare(r, from, id) =>
         CanRecvPrepare(c, s, from, id) && from in c.Replicas() && SentPrepare(c, sys, from, id)
       case DoSendCommit(r, id) => CanSendCommit(c, r, s, id)
       case DoRecommit(r, id) => CanRecommit(s, id)
       case DoRecvCommit(r, from, id) => InWV(s, id) && from in c.Replicas() && SentCommit(c, sys, from, id)
       case DoExecute(r, id) => CanExecute(c, s, id)
       case DoReport(r, digest) => true
       case DoStable(r, height) => height in s.ckpts
       case DoChangeView(r, w, p, q, b) =>
         CanChangeView(c, s, w, p, q) && IsBasisOf(r, StartViewChange(c, s, w, p, q), b)
       case DoAnnounce(r, nv, cs) =>
         CanAnnounce(c, r, s) && OnePerReplica(c, nv.bases) && PassesCheck(c, s.view, nv, cs) && AllSent(c, sys, nv.bases)
       case DoEnter(r, nv, cs) =>
         && PassesCheck(c, s.view, nv, cs) && AllSent(c, sys, nv.bases)
         && SentNewView(c, sys, s.view, nv)
         && CanEnter(s, nv, cs.digest)
       case DoEnterLater(r, v, h, nv, cs) =>
         s.inViewChange && v == s.view && h == s.h && SentNewView(c, sys, v, nv) && AllSent(c, sys, nv.bases)
  }

  ghost function Apply(c: Config, s: Node, a: Action): Node
    requires c.n >= 1
  {
    match a
    case DoPropose(r, id) => Propose(s, id)
    case DoAccept(r, id) => Accept(s, id)
    case DoSendPrepare(r, id) => if id in s.certs then SendPrepare(r, s, id) else s
    case DoRecvPrepare(r, from, id) => RecvPrepare(s, from, id)
    case DoSendCommit(r, id) => if id in s.certs then SendCommit(r, s, id) else s
    case DoRecommit(r, id) => if id in s.certs then Recommit(r, s, id) else s
    case DoRecvCommit(r, from, id) => RecvCommit(s, from, id)
    case DoExecute(r, id) => if id in s.certs then Execute(c, s, id) else s
    case DoReport(r, digest) => Report(s, digest)
    case DoStable(r, height) => MoveWatermarks(s, height)
    case DoChangeView(r, w, p, q, b) => SendBasis(StartViewChange(c, s, w, p, q), b)
    case DoAnnounce(r, nv, cs) => Announce(s, nv)
    case DoEnter(r, nv, cs) => Enter(c, r, s, nv)
    case DoEnterLater(r, v, h, nv, cs) => ProcessNewView(c, r, s, nv)
  }

  ghost function Next(c: Config, sys: Sys, a: Action): Sys
    requires c.n >= 1 && a.r in sys
  {
    sys[a.r := Apply(c, sys[a.r], a)]
  }

  ghost predicate Init(c: Config, sys: Sys, genesis: Digest) {
    sys.Keys == c.Honest() && forall r :: r in sys ==> sys[r] == InitNode(genesis)
  }

  /* ---------- runs ---------- */

  /** Steps of any relation, one after the other. */
  ghost predicate Chain<S(!new), A>(step: (S, A, S) -> bool, from: S, acts: seq<A>, to: S)
    decreases |acts|
  {
    if acts == [] then from == to
    else
      var init, last := acts[..|acts| - 1], acts[|acts| - 1];
      exists before: S :: Chain(step, from, init, before) && step(before, last, to)
  }

  lemma ChainOne<S(!new), A>(step: (S, A, S) -> bool, from: S, acts: seq<A>, mid: S, a: A, to: S)
    requires Chain(step, from, acts, mid) && step(mid, a, to)
    ensures Chain(step, from, acts + [a], to)
  {
    assert (acts + [a])[..|acts + [a]| - 1] == acts;
  }

  lemma {:induction false} ChainAppend<S(!new), A>(step: (S, A, S) -> bool, from: S, x: seq<A>, mid: S, y: seq<A>, to: S)
    requires Chain(step, from, x, mid) && Chain(step, mid, y, to)
    ensures Chain(step, from, x + y, to)
    decreases |y|
  {
    if y == [] {
      assert x + y == x;
    } else {
      var init, last := y[..|y| - 1], y[|y| - 1];
      var before: S :| Chain(step, mid, init, before) && step(before, last, to);
      ChainAppend(step, from, x, mid, init, before);
      ChainOne(step, from, x + init, before, last, to);
      assert x + init + [last] == x + y;
    }
  }

  /** What holds at the start and is carried from each step to the next holds at the end. */
  lemma {:induction false} ChainKeeps<S(!new), A(!new)>(step: (S, A, S) -> bool, from: S, acts: seq<A>, to: S, inv: (seq<A>, S) -> bool)
    requires Chain(step, from, acts, to) && inv([], from)
    requires forall x, s, a, t :: inv(x, s) && step(s, a, t) ==> inv(x + [a], t)
    ensures inv(acts, to)
    decreases |acts|
  {
    if acts != [] {
      var init, last := acts[..|acts| - 1], acts[|acts| - 1];
      var before: S :| Chain(step, from, init, before) && step(before, last, to);
      ChainKeeps(step, from, init, before, inv);
      assert init + [last] == acts;
    }
  }

  ghost function StepRelation(c: Config): (Sys, Action, Sys) -> bool
    requires c.n >= 1
  {
    (a: Sys, x: Action, b: Sys) => Enabled(c, a, x) && b == Next(c, a, x)
  }

  /** `steps` lead from one system state to another. */
  ghost predicate Run(c: Config, from: Sys, steps: seq<Action>, to: Sys)
    requires c.n >= 1
  {
    Chain(StepRelation(c), from, steps, to)
  }

  lemma RunLast(c: Config, from: Sys, steps: seq<Action>, to: Sys) returns (before: Sys)
    requires c.n >= 1 && steps != [] && Run(c, from, steps, to)
    ensures Run(c, from, steps[..|steps| - 1], before)
    ensures Enabled(c, before, steps[|steps| - 1]) && to == Next(c, before, steps[|steps| - 1])
  {
    var init, last := steps[..|steps| - 1], steps[|steps| - 1];
    var step := StepRelation(c);
    before :| Chain(step, from, init, before) && step(before, last, to);
  }

  lemma RunOneMore(c: Config, from: Sys, steps: seq<Action>, mid: Sys, last: Action, to: Sys)
    requires c.n >= 1 && Run(c, from, steps, mid) && Enabled(c, mid, last) && to == Next(c, mid, last)
    ensures Run(c, from, steps + [last], to)
  {
    ChainOne(StepRelation(c), from, steps, mid, last, to);
  }

  lemma RunAppend(c: Config, a: Sys, x: seq<Action>, b: Sys, y: seq<Action>, d: Sys)
    requires c.n >= 1 && Run(c, a, x, b) && Run(c, b, y, d)
    ensures Run(c, a, x + y, d)
  {
    ChainAppend(StepRelation(c), a, x, b, y, d);
  }

  /** The system state after the given steps from the start of the epoch. */
  ghost predicate Reaches(c: Config, genesis: Digest, steps: seq<Action>, sys: Sys)
    requires c.n >= 1
  {
    exists start: Sys :: Init(c, start, genesis) && Run(c, start, steps, sys)
  }

  /** What a run leads to from a state that is reached is reached. */
  lemma ReachesOn(c: Config, genesis: Digest, a: seq<Action>, mid: Sys, b: seq<Action>, sys: Sys)
    requires c.n >= 1 && Reaches(c, genesis, a, mid) && Run(c, mid, b, sys)
    ensures Reaches(c, genesis, a + b, sys)
  {
    var start: Sys :| Init(c, start, genesis) && Run(c, start, a, mid);
    RunAppend(c, start, a, mid, b, sys);
  }

  /** A new view that is processed passes the check; one processed later does not start above the low
      watermark either. */
  ghost predicate Checked(c: Config, a: Action)
    requires c.n >= 1
  {
    a.DoEnterLater? ==> PassesCheck(c, a.v, a.nv, a.cs) && a.nv.base <= a.h
  }

  ghost predicate CheckedSteps(c: Config, steps: seq<Action>)
    requires c.n >= 1
  {
    forall i :: 0 <= i < |steps| ==> Checked(c, steps[i])
  }

  /** The guard of the results on agreement, on the messages alone: every new view that an honest
      replica processes passes the check and has a list of bases that no few senders dominate. */
  ghost predicate Guarded(c: Config, a: Action)
    requires c.n >= 1
  {
    Checked(c, a) && (a.DoEnter? || a.DoEnterLater? ==> SafeSenders(c, a.nv.bases))
  }

  ghost predicate GuardedSteps(c: Config, steps: seq<Action>)
    requires c.n >= 1
  {
    forall i :: 0 <= i < |steps| ==> Guarded(c, steps[i])
  }

  /* ---------- what connects the replicas ---------- */

  /** Votes in certificates were sent by their senders. */
  ghost predicate CertLinks(c: Config, sys: Sys, s: Node) {
    && (forall id, x :: id in s.certs && x in s.certs[id].prepares ==> x in PrepareVoters(c, sys, id))
    && (forall id, x :: id in s.certs && x in s.certs[id].commits ==> x in CommitVoters(c, sys, id))
  }

  ghost predicate PreparedLinks(c: Config, sys: Sys, s: Node)
    requires c.n >= 1
  {
    forall id :: id in s.hist.prepared ==> PrepareQuorum(c, sys, id)
  }

  ghost predicate ExecLinks(c: Config, sys: Sys, s: Node)
    requires c.n >= 1
  {
    forall i :: 0 <= i < |s.executed| ==> CommitQuorum(c, sys, s.executed[i])
  }

  ghost predicate EnterLinks(c: Config, sys: Sys, s: Node)
    requires c.n >= 1
  {
    forall v :: v in s.hist.entered ==>
      var nv := s.hist.entered[v];
      (exists cs :: PassesCheck(c, v, nv, cs)) && AllSent(c, sys, nv.bases) && SentNewView(c, sys, v, nv)
  }

  ghost predicate AcceptLinks(c: Config, sys: Sys, s: Node) {
    forall id :: id in s.hist.accepted ==>
      (id.v in s.hist.entered && Assigns(s.hist.entered[id.v], id)) || SentPrePrepare(c, sys, id)
  }

  ghost predicate Links(c: Config, sys: Sys, s: Node)
    requires c.n >= 1
  {
    CertLinks(c, sys, s) && PreparedLinks(c, sys, s) && ExecLinks(c, sys, s) && EnterLinks(c, sys, s) && AcceptLinks(c, sys, s)
  }

  /** A property of single replicas holds of every honest one. */
  ghost predicate AllHold(p: (nat, Node) -> bool, sys: Sys) {
    forall r {:trigger p(r, sys[r])} :: r in sys ==> p(r, sys[r])
  }

  ghost function NodePred(c: Config): (nat, Node) -> bool {
    (r: nat, s: Node) => NodeInv(c, r, s)
  }

  ghost function LinkPred(c: Config, sys: Sys): (nat, Node) -> bool
    requires c.n >= 1
  {
    (r: nat, s: Node) => Links(c, sys, s)
  }

  ghost predicate SysInv(c: Config, sys: Sys) {
    && c.Valid()
    && sys.Keys == c.Honest()
    && AllHold(NodePred(c), sys)
    && AllHold(LinkPred(c, sys), sys)
  }

  /** What holds in addition when every new view entered has a list that no few senders dominate. */
  ghost predicate SafeNode(c: Config, s: Node)
    requires c.n >= 1
  {
    BaseInv(s) && forall v :: v in s.hist.entered ==> SafeSenders(c, s.hist.entered[v].bases)
  }

  ghost function SafePred(c: Config): (nat, Node) -> bool
    requires c.n >= 1
  {
    (r: nat, s: Node) => SafeNode(c, s)
  }

  ghost predicate SafeInv(c: Config, sys: Sys) {
    SysInv(c, sys) && AllHold(SafePred(c), sys)
  }
}
