/** Concrete runs of a system of four replicas, step by step. A stage says what the three honest
    replicas look like and which of their messages are known to be sent; each lemma takes one step
    and says what stage it leads to. */
module Scenes {
  import opened Quorum
  import opened NewView
  import opened Replica
  import opened ReplicaInv
  import opened Protocol
  import opened ProtocolKeeps
  import opened Handlers
  import opened NewViewHandlers
  import opened SmallViews

  /* ---------- runs and stages ---------- */

  /** Which steps a run may hold: with new views that were checked, that have lists no few senders
      dominate, or both. */
  datatype Guard = OnlyChecked | OnlySafe | OnlyGuarded

  datatype Epoch = Epoch(genesis: Digest, guard: Guard)

  function Guards(g: Digest): Epoch {
    Epoch(g, OnlyGuarded)
  }

  ghost predicate Permits(c: Config, guard: Guard, a: Action)
    requires c.n >= 1
  {
    (guard.OnlySafe? || Checked(c, a)) && (guard.OnlyChecked? || HasSafeList(c, a))
  }

  ghost predicate HasSafeList(c: Config, a: Action)
    requires c.n >= 1
  {
    a.DoEnter? || a.DoEnterLater? ==> SafeSenders(c, a.nv.bases)
  }

  ghost predicate PermitsAll(c: Config, guard: Guard, steps: seq<Action>)
    requires c.n >= 1
  {
    forall i :: 0 <= i < |steps| ==> Permits(c, guard, steps[i])
  }

  ghost predicate BySteps(c: Config, e: Epoch, sys: Sys)
    requires c.n >= 1
  {
    exists steps :: Reaches(c, e.genesis, steps, sys) && PermitsAll(c, e.guard, steps)
  }

  /** The states to which permitted steps lead from the start of the epoch. */
  ghost function Attained(c: Config, e: Epoch): iset<Sys>
    requires c.n >= 1
  {
    iset sys: Sys | BySteps(c, e, sys)
  }

  /** An honest replica with its low watermark at the genesis checkpoint, and what it is known to have
      sent. */
  datatype Actor = Actor(view: nat, inVC: bool, certs: map<MsgId, Cert>, seqMap: map<nat, Digest>,
                         plist: map<nat, PEntry>, qlist: map<QIdx, nat>, executed: seq<MsgId>,
                         stored: map<nat, NewViewMsg>, prepares: set<MsgId>, commits: set<MsgId>,
                         bases: set<VcBasis>, announced: set<Announcement>)

  ghost predicate Stores(g: Digest, s: Node, a: Actor) {
    && s.view == a.view && s.inViewChange == a.inVC && s.h == 0 && !s.waiting && s.ckpts == map[0 := g]
    && s.certs == a.certs && s.seqMap == a.seqMap && s.plist == a.plist && s.qlist == a.qlist
    && s.executed == a.executed && s.newViewStore == a.stored
  }

  ghost predicate HasSent(s: Node, a: Actor) {
    && a.prepares <= s.hist.prepares && (forall id :: id in a.commits ==> HasCommit(s.hist.commits, id))
    && a.bases <= s.hist.bases && a.announced <= s.hist.newViews
  }

  ghost predicate Plays(g: Digest, s: Node, a: Actor) {
    Stores(g, s, a) && HasSent(s, a)
  }

  datatype Stage = Stage(second: Actor, third: Actor, fourth: Actor) {
    function Of(r: nat): Actor {
      if r == 2 then second else if r == 3 then third else fourth
    }

    function Put(r: nat, a: Actor): Stage {
      if r == 2 then this.(second := a) else if r == 3 then this.(third := a) else this.(fourth := a)
    }
  }

  predicate IsHonest(r: nat) {
    r == 2 || r == 3 || r == 4
  }

  ghost predicate Staged(g: Digest, sys: Sys, st: Stage) {
    sys.Keys == {2, 3, 4} && Plays(g, sys[2], st.second) && Plays(g, sys[3], st.third) && Plays(g, sys[4], st.fourth)
  }

  ghost predicate Shows(c: Config, e: Epoch, sys: Sys, st: Stage)
    requires c.n >= 1
  {
    sys in Attained(c, e) && Staged(e.genesis, sys, st)
  }

  ghost predicate IsShown(c: Config, e: Epoch, st: Stage)
    requires c.n >= 1
  {
    exists sys :: Shows(c, e, sys, st)
  }

  ghost function Stages(c: Config, e: Epoch): iset<Stage>
    requires c.n >= 1
  {
    iset st: Stage | IsShown(c, e, st)
  }

  /** Permitted steps lead to this stage. */
  ghost predicate On(c: Config, e: Epoch, st: Stage)
    requires c.n >= 1
  {
    st in Stages(c, e)
  }

  /** What the lemmas about single replicas need. */
  lemma Cast(c: Config, e: Epoch, st: Stage) returns (sys: Sys)
    requires c.n >= 1 && On(c, e, st)
    ensures sys in Attained(c, e) && Staged(e.genesis, sys, st)
  {
    sys :| Shows(c, e, sys, st);
  }

  lemma Playing(g: Digest, sys: Sys, st: Stage, r: nat)
    requires Staged(g, sys, st) && IsHonest(r)
    ensures r in sys && Plays(g, sys[r], st.Of(r))
  {
  }

  /** The steps that can be taken and are permitted. */
  ghost function Possible(c: Config, e: Epoch, sys: Sys): iset<Action>
    requires c.n >= 1
  {
    iset a: Action | Enabled(c, sys, a) && Permits(c, e.guard, a)
  }

  lemma StepPossible(c: Config, e: Epoch, sys: Sys, a: Action)
    requires c.n >= 1 && Enabled(c, sys, a) && !a.DoEnter? && !a.DoEnterLater?
    ensures a in Possible(c, e, sys)
  {
  }

  lemma Take(c: Config, e: Epoch, sys: Sys, a: Action)
    requires c.n >= 1 && sys in Attained(c, e) && a in Possible(c, e, sys) && a.r in sys
    ensures Next(c, sys, a) in Attained(c, e)
  {
    var steps := AttainedBy(c, e, sys);
    var next := Next(c, sys, a);
    ReachesMore(c, e, steps, sys, a, next);
    MorePermitted(c, e, sys, steps, a);
    Attains(c, e, steps + [a], next);
  }

  lemma AttainedBy(c: Config, e: Epoch, sys: Sys) returns (steps: seq<Action>)
    requires c.n >= 1 && sys in Attained(c, e)
    ensures Reaches(c, e.genesis, steps, sys) && PermitsAll(c, e.guard, steps)
  {
    steps :| Reaches(c, e.genesis, steps, sys) && PermitsAll(c, e.guard, steps);
  }

  lemma Attains(c: Config, e: Epoch, steps: seq<Action>, sys: Sys)
    requires c.n >= 1 && Reaches(c, e.genesis, steps, sys) && PermitsAll(c, e.guard, steps)
    ensures sys in Attained(c, e)
  {
  }

  lemma ReachesMore(c: Config, e: Epoch, steps: seq<Action>, sys: Sys, a: Action, next: Sys)
    requires c.n >= 1 && Reaches(c, e.genesis, steps, sys) && a in Possible(c, e, sys) && a.r in sys && next == Next(c, sys, a)
    ensures Reaches(c, e.genesis, steps + [a], next)
  {
    OneStepRun(c, sys, a, next);
    ReachesOn(c, e.genesis, steps, sys, [a], next);
  }

  lemma OneStepRun(c: Config, sys: Sys, a: Action, next: Sys)
    requires c.n >= 1 && Enabled(c, sys, a) && next == Next(c, sys, a)
    ensures Run(c, sys, [a], next)
  {
    assert Run(c, sys, [], sys);
    RunOneMore(c, sys, [], sys, a, next);
    assert [] + [a] == [a];
  }

  lemma MorePermitted(c: Config, e: Epoch, sys: Sys, steps: seq<Action>, a: Action)
    requires c.n >= 1 && PermitsAll(c, e.guard, steps) && a in Possible(c, e, sys)
    ensures PermitsAll(c, e.guard, steps + [a])
  {
  }

  /** The one step rule: replica r takes a step after which it plays actor x. */
  lemma StepOn(c: Config, e: Epoch, st: Stage, sys: Sys, a: Action, x: Actor)
    requires c.n >= 1 && sys in Attained(c, e) && Staged(e.genesis, sys, st) && IsHonest(a.r) && a.r in sys
    requires a in Possible(c, e, sys) && Plays(e.genesis, Apply(c, sys[a.r], a), x)
    ensures On(c, e, st.Put(a.r, x))
  {
    Take(c, e, sys, a);
    Recast(e.genesis, sys, st, a.r, Apply(c, sys[a.r], a), x);
    assert Shows(c, e, Next(c, sys, a), st.Put(a.r, x));
  }

  lemma Recast(g: Digest, sys: Sys, st: Stage, r: nat, t: Node, x: Actor)
    requires Staged(g, sys, st) && IsHonest(r) && Plays(g, t, x)
    ensures Staged(g, sys[r := t], st.Put(r, x))
  {
  }

  /** A stage may forget what was sent. */
  lemma Forget(c: Config, e: Epoch, st: Stage, r: nat, x: Actor)
    requires c.n >= 1 && On(c, e, st) && IsHonest(r)
    requires x == st.Of(r).(prepares := x.prepares, commits := x.commits, bases := x.bases, announced := x.announced)
    requires x.prepares <= st.Of(r).prepares && x.commits <= st.Of(r).commits
    requires x.bases <= st.Of(r).bases && x.announced <= st.Of(r).announced
    ensures On(c, e, st.Put(r, x))
  {
    var sys := Cast(c, e, st);
    Playing(e.genesis, sys, st, r);
    Recast(e.genesis, sys, st, r, sys[r], x);
    assert sys[r := sys[r]] == sys;
    assert Shows(c, e, sys, st.Put(r, x));
  }

  /* ---------- the start ---------- */

  function Newcomer(): Actor {
    Actor(0, false, map[], map[], map[], map[], [], map[], {}, {}, {}, {})
  }

  function Opening(): Stage {
    Stage(Newcomer(), Newcomer(), Newcomer())
  }

  lemma Start(c: Config, e: Epoch)
    requires Four(c)
    ensures On(c, e, Opening())
  {
    FourFacts(c);
    var s := InitNode(e.genesis);
    var sys := map[2 := s, 3 := s, 4 := s];
    assert Init(c, sys, e.genesis) && Run(c, sys, [], sys);
    assert Reaches(c, e.genesis, [], sys) && PermitsAll(c, e.guard, []);
    assert Shows(c, e, sys, Opening());
  }

  /** What a stage says about the run that leads to it. */
  lemma Outcome(c: Config, e: Epoch, st: Stage) returns (steps: seq<Action>, sys: Sys)
    requires c.n >= 1 && On(c, e, st)
    ensures Reaches(c, e.genesis, steps, sys) && Staged(e.genesis, sys, st)
    ensures PermitsAll(c, e.guard, steps)
    ensures e.guard.OnlyGuarded? ==> GuardedSteps(c, steps)
    ensures e.guard.OnlyChecked? ==> CheckedSteps(c, steps)
  {
    sys := Cast(c, e, st);
    steps := AttainedBy(c, e, sys);
  }

  /* ---------- messages on a stage ---------- */

  const ACCEPTED := NO_CERT.(prePrepared := true)

  predicate KnowsPrepare(st: Stage, from: nat, id: MsgId) {
    from == 1 || (IsHonest(from) && id in st.Of(from).prepares)
  }

  predicate KnowsCommit(st: Stage, from: nat, id: MsgId) {
    from == 1 || (IsHonest(from) && id in st.Of(from).commits)
  }

  predicate KnowsBasis(st: Stage, b: VcBasis) {
    b.id == 1 || (IsHonest(b.id) && b in st.Of(b.id).bases)
  }

  predicate KnowsBases(st: Stage, s: seq<VcBasis>) {
    forall i :: 0 <= i < |s| ==> KnowsBasis(st, s[i])
  }

  predicate KnowsNewView(c: Config, st: Stage, v: nat, nv: NewViewMsg) {
    var p := c.Primary(v);
    p == 1 || (IsHonest(p) && Announcement(v, nv) in st.Of(p).announced)
  }

  lemma BasesSent(c: Config, g: Digest, sys: Sys, st: Stage, s: seq<VcBasis>)
    requires 1 in c.byz && Staged(g, sys, st) && KnowsBases(st, s)
    ensures AllSent(c, sys, s)
  {
    forall i | 0 <= i < |s| ensures SentBasis(c, sys, s[i]) {
      assert KnowsBasis(st, s[i]);
    }
  }

  /* ---------- the normal case ---------- */

  predicate Acceptable(a: Actor, id: MsgId) {
    !a.inVC && id.v == a.view && id.n >= 1 && id !in a.certs && id.n !in a.seqMap
  }

  function Accepting(a: Actor, id: MsgId): Actor {
    a.(certs := a.certs[id := ACCEPTED], seqMap := a.seqMap[id.n := id.d])
  }

  /** A backup accepts what the faulty primary proposes. */
  lemma Accepts(c: Config, e: Epoch, st: Stage, r: nat, id: MsgId)
    requires Four(c) && On(c, e, st) && IsHonest(r) && c.Primary(id.v) == 1 && Acceptable(st.Of(r), id)
    ensures On(c, e, st.Put(r, Accepting(st.Of(r), id)))
  {
    var sys := Cast(c, e, st);
    Playing(e.genesis, sys, st, r);
    AcceptPlays(c, e, sys, st.Of(r), r, id);
    StepOn(c, e, st, sys, DoAccept(r, id), Accepting(st.Of(r), id));
  }

  lemma AcceptPlays(c: Config, e: Epoch, sys: Sys, a: Actor, r: nat, id: MsgId)
    requires c.n >= 1 && r in sys && r != 1 && 1 in c.byz && c.Primary(id.v) == 1
    requires Plays(e.genesis, sys[r], a) && Acceptable(a, id)
    ensures DoAccept(r, id) in Possible(c, e, sys) && Plays(e.genesis, Accept(sys[r], id), Accepting(a, id))
  {
    assert CanAccept(c, r, sys[r], id);
    StepPossible(c, e, sys, DoAccept(r, id));
  }

  predicate IsAccepted(a: Actor, id: MsgId) {
    id.v == a.view && id in a.certs && a.certs[id].prePrepared
  }

  function Preparing(a: Actor, r: nat, id: MsgId): Actor
    requires id in a.certs
  {
    var ct := a.certs[id];
    a.(certs := a.certs[id := ct.(sentPrepare := true, prepares := ct.prepares + {r})], prepares := a.prepares + {id})
  }

  /** A backup prepares what it accepted. */
  lemma Prepares(c: Config, e: Epoch, st: Stage, r: nat, id: MsgId)
    requires Four(c) && On(c, e, st) && IsHonest(r) && c.Primary(id.v) != r && IsAccepted(st.Of(r), id)
    ensures On(c, e, st.Put(r, Preparing(st.Of(r), r, id)))
  {
    var sys := Cast(c, e, st);
    Playing(e.genesis, sys, st, r);
    PreparePlays(c, e, sys, st.Of(r), r, id);
    StepOn(c, e, st, sys, DoSendPrepare(r, id), Preparing(st.Of(r), r, id));
  }

  lemma PreparePlays(c: Config, e: Epoch, sys: Sys, a: Actor, r: nat, id: MsgId)
    requires c.n >= 1 && r in sys && c.Primary(id.v) != r && Plays(e.genesis, sys[r], a) && IsAccepted(a, id)
    ensures DoSendPrepare(r, id) in Possible(c, e, sys)
    ensures Plays(e.genesis, SendPrepare(r, sys[r], id), Preparing(a, r, id))
  {
    StepPossible(c, e, sys, DoSendPrepare(r, id));
  }

  function Hearing(a: Actor, from: nat, id: MsgId): Actor {
    var ct := GetCert(a.certs, id);
    a.(certs := a.certs[id := ct.(prepares := ct.prepares + {from})])
  }

  /** A replica counts a prepare. */
  lemma Hears(c: Config, e: Epoch, st: Stage, r: nat, from: nat, id: MsgId)
    requires Four(c) && On(c, e, st) && IsHonest(r) && c.Primary(id.v) != from && KnowsPrepare(st, from, id)
    requires id.v == st.Of(r).view && id.n >= 1
    ensures On(c, e, st.Put(r, Hearing(st.Of(r), from, id)))
  {
    var sys := Cast(c, e, st);
    Playing(e.genesis, sys, st, r);
    PrepareKnown(c, e.genesis, sys, st, from, id);
    HearPlays(c, e, sys, st.Of(r), r, from, id);
    StepOn(c, e, st, sys, DoRecvPrepare(r, from, id), Hearing(st.Of(r), from, id));
  }

  lemma PrepareKnown(c: Config, g: Digest, sys: Sys, st: Stage, from: nat, id: MsgId)
    requires Four(c) && Staged(g, sys, st) && KnowsPrepare(st, from, id)
    ensures SentPrepare(c, sys, from, id) && from in c.Replicas()
  {
    FourFacts(c);
  }

  lemma HearPlays(c: Config, e: Epoch, sys: Sys, a: Actor, r: nat, from: nat, id: MsgId)
    requires c.n >= 1 && r in sys && Plays(e.genesis, sys[r], a) && id.v == a.view && id.n >= 1
    requires from in c.Replicas() && from != c.Primary(id.v) && SentPrepare(c, sys, from, id)
    ensures DoRecvPrepare(r, from, id) in Possible(c, e, sys)
    ensures Plays(e.genesis, RecvPrepare(sys[r], from, id), Hearing(a, from, id))
  {
    StepPossible(c, e, sys, DoRecvPrepare(r, from, id));
  }

  predicate IsPrepared(a: Actor, id: MsgId) {
    && id.v == a.view && id in a.certs
    && a.certs[id].prePrepared && |a.certs[id].prepares| >= 2 && a.certs[id].sentPrepare && !a.certs[id].sentCommit
  }

  function Committing(a: Actor, r: nat, id: MsgId): Actor
    requires id in a.certs
  {
    var ct := a.certs[id];
    a.(certs := a.certs[id := ct.(sentCommit := true, commits := ct.commits + {r})], commits := a.commits + {id})
  }

  /** A prepared backup commits. */
  lemma Commits(c: Config, e: Epoch, st: Stage, r: nat, id: MsgId)
    requires Four(c) && On(c, e, st) && IsHonest(r) && IsPrepared(st.Of(r), id)
    ensures On(c, e, st.Put(r, Committing(st.Of(r), r, id)))
  {
    var sys := Cast(c, e, st);
    Playing(e.genesis, sys, st, r);
    CommitPossible(c, e, sys, st.Of(r), r, id);
    CommitPlays(e.genesis, sys[r], st.Of(r), r, id);
    StepOn(c, e, st, sys, DoSendCommit(r, id), Committing(st.Of(r), r, id));
  }

  lemma CommitPossible(c: Config, e: Epoch, sys: Sys, a: Actor, r: nat, id: MsgId)
    requires Four(c) && r in sys && Plays(e.genesis, sys[r], a) && IsPrepared(a, id)
    ensures DoSendCommit(r, id) in Possible(c, e, sys)
  {
    assert c.Q() == 3;
    assert CanSendCommit(c, r, sys[r], id);
    StepPossible(c, e, sys, DoSendCommit(r, id));
  }

  lemma CommitPlays(g: Digest, s: Node, a: Actor, r: nat, id: MsgId)
    requires Plays(g, s, a) && id in a.certs
    ensures Plays(g, SendCommit(r, s, id), Committing(a, r, id)) && Plays(g, Recommit(r, s, id), Committing(a, r, id))
  {
    var m := CommitMsg(id, s.h);
    assert m in SendCommit(r, s, id).hist.commits && m in Recommit(r, s, id).hist.commits;
    CommitsKnown(s, a, SendCommit(r, s, id), id, m);
    CommitsKnown(s, a, Recommit(r, s, id), id, m);
  }

  lemma CommitsKnown(s: Node, a: Actor, t: Node, id: MsgId, m: CommitMsg)
    requires HasSent(s, a) && s.hist.commits <= t.hist.commits && m in t.hist.commits && m.id == id
    ensures forall x :: x in a.commits + {id} ==> HasCommit(t.hist.commits, x)
  {
    forall x | x in a.commits ensures HasCommit(t.hist.commits, x) {
      var k :| k in s.hist.commits && k.id == x;
      assert k in t.hist.commits;
    }
  }

  predicate IsRepeatable(a: Actor, id: MsgId) {
    IsAccepted(a, id) && id.n <= |a.executed| && !a.certs[id].sentCommit
  }

  /** A replica repeats its commit for a number it has executed. */
  lemma Recommits(c: Config, e: Epoch, st: Stage, r: nat, id: MsgId)
    requires Four(c) && On(c, e, st) && IsHonest(r) && IsRepeatable(st.Of(r), id)
    ensures On(c, e, st.Put(r, Committing(st.Of(r), r, id)))
  {
    var sys := Cast(c, e, st);
    Playing(e.genesis, sys, st, r);
    StepPossible(c, e, sys, DoRecommit(r, id));
    CommitPlays(e.genesis, sys[r], st.Of(r), r, id);
    StepOn(c, e, st, sys, DoRecommit(r, id), Committing(st.Of(r), r, id));
  }

  function Counting(a: Actor, from: nat, id: MsgId): Actor {
    var ct := GetCert(a.certs, id);
    a.(certs := a.certs[id := ct.(commits := ct.commits + {from})])
  }

  /** A replica counts a commit. */
  lemma Counts(c: Config, e: Epoch, st: Stage, r: nat, from: nat, id: MsgId)
    requires Four(c) && On(c, e, st) && IsHonest(r) && KnowsCommit(st, from, id)
    requires id.v == st.Of(r).view && id.n >= 1
    ensures On(c, e, st.Put(r, Counting(st.Of(r), from, id)))
  {
    var sys := Cast(c, e, st);
    Playing(e.genesis, sys, st, r);
    CommitKnown(c, e.genesis, sys, st, from, id);
    CountPlays(c, e, sys, st.Of(r), r, from, id);
    StepOn(c, e, st, sys, DoRecvCommit(r, from, id), Counting(st.Of(r), from, id));
  }

  lemma CommitKnown(c: Config, g: Digest, sys: Sys, st: Stage, from: nat, id: MsgId)
    requires Four(c) && Staged(g, sys, st) && KnowsCommit(st, from, id)
    ensures SentCommit(c, sys, from, id) && from in c.Replicas()
  {
    FourFacts(c);
  }

  lemma CountPlays(c: Config, e: Epoch, sys: Sys, a: Actor, r: nat, from: nat, id: MsgId)
    requires c.n >= 1 && r in sys && Plays(e.genesis, sys[r], a) && id.v == a.view && id.n >= 1
    requires from in c.Replicas() && SentCommit(c, sys, from, id)
    ensures DoRecvCommit(r, from, id) in Possible(c, e, sys)
    ensures Plays(e.genesis, RecvCommit(sys[r], from, id), Counting(a, from, id))
  {
    StepPossible(c, e, sys, DoRecvCommit(r, from, id));
  }

  predicate IsRunnable(a: Actor, id: MsgId) {
    && a.executed == [] && id.n == 1 && id in a.certs && a.certs[id].prePrepared && |a.certs[id].prepares| >= 2
    && |a.certs[id].commits| >= 3 && a.certs[id].sentCommit && !a.certs[id].sentExecute
  }

  function Executing(a: Actor, id: MsgId): Actor
    requires id in a.certs
  {
    a.(certs := a.certs[id := a.certs[id].(sentExecute := true)], executed := a.executed + [id])
  }

  /** A replica executes the first block. */
  lemma Executes(c: Config, e: Epoch, st: Stage, r: nat, id: MsgId)
    requires Four(c) && On(c, e, st) && IsHonest(r) && IsRunnable(st.Of(r), id)
    ensures On(c, e, st.Put(r, Executing(st.Of(r), id)))
  {
    var sys := Cast(c, e, st);
    Playing(e.genesis, sys, st, r);
    ExecutePossible(c, e, sys, st.Of(r), r, id);
    ExecutePlays(c, e.genesis, sys[r], st.Of(r), id);
    StepOn(c, e, st, sys, DoExecute(r, id), Executing(st.Of(r), id));
  }

  lemma ExecutePossible(c: Config, e: Epoch, sys: Sys, a: Actor, r: nat, id: MsgId)
    requires Four(c) && r in sys && Plays(e.genesis, sys[r], a) && IsRunnable(a, id)
    ensures DoExecute(r, id) in Possible(c, e, sys)
  {
    assert c.Q() == 3;
    assert CanExecute(c, sys[r], id);
    StepPossible(c, e, sys, DoExecute(r, id));
  }

  lemma ExecutePlays(c: Config, g: Digest, s: Node, a: Actor, id: MsgId)
    requires Plays(g, s, a) && IsRunnable(a, id) && !c.ckptAt(1)
    ensures Plays(g, Execute(c, s, id), Executing(a, id))
  {
  }

  /* ---------- view changes ---------- */

  function Leaving(a: Actor, w: nat, p: map<nat, PEntry>, q: map<QIdx, nat>, b: VcBasis): Actor {
    Actor(w, true, map[], map[], p, q, a.executed, a.stored - {w}, a.prepares, a.commits, a.bases + {b}, a.announced)
  }

  /** The basis reports exactly these lists. */
  ghost predicate Reports(g: Digest, r: nat, w: nat, p: map<nat, PEntry>, q: map<QIdx, nat>, b: VcBasis) {
    && b == Basis(g, w, r, b.pset, b.qset)
    && (forall x :: x in b.pset <==> x.n in p && p[x.n] == PEntry(x.v, x.d))
    && (forall x :: x in b.qset <==> QIdx(x.n, x.d) in q && q[QIdx(x.n, x.d)] == x.v)
  }

  /** The lists a replica computes when it leaves its view. */
  ghost predicate Keeps(c: Config, a: Actor, p: map<nat, PEntry>, q: map<QIdx, nat>)
    requires c.n >= 1
  {
    IsPSet(c, a.plist, a.certs, p) && IsQSet(a.qlist, a.certs, q)
  }

  /** The next view, or the same again; nothing in the stores is of that view. */
  ghost predicate CanLeave(a: Actor, w: nat) {
    && (w > a.view || (w == a.view && a.inVC)) && (forall id :: id in a.certs ==> id.v < w)
    && forall n :: n in a.seqMap ==> exists id :: id in a.certs && id.n == n
  }

  /** A replica moves to view w, or repeats its view change, and sends basis b. */
  lemma Leaves(c: Config, e: Epoch, st: Stage, r: nat, w: nat, p: map<nat, PEntry>, q: map<QIdx, nat>, b: VcBasis)
    requires Four(c) && On(c, e, st) && IsHonest(r)
    requires CanLeave(st.Of(r), w) && Keeps(c, st.Of(r), p, q) && Reports(e.genesis, r, w, p, q, b)
    ensures On(c, e, st.Put(r, Leaving(st.Of(r), w, p, q, b)))
  {
    var sys := Cast(c, e, st);
    Playing(e.genesis, sys, st, r);
    var step := DoChangeView(r, w, p, q, b);
    ChangePossible(c, e, sys, st.Of(r), r, w, p, q, b);
    LeavePlays(c, e.genesis, sys[r], st.Of(r), w, p, q, b);
    StepOn(c, e, st, sys, step, Leaving(st.Of(r), w, p, q, b));
  }

  lemma ChangePossible(c: Config, e: Epoch, sys: Sys, a: Actor, r: nat, w: nat, p: map<nat, PEntry>, q: map<QIdx, nat>, b: VcBasis)
    requires c.n >= 1 && r in sys && Plays(e.genesis, sys[r], a)
    requires CanLeave(a, w) && Keeps(c, a, p, q) && Reports(e.genesis, r, w, p, q, b)
    ensures DoChangeView(r, w, p, q, b) in Possible(c, e, sys)
  {
    LeavesBasis(c, e.genesis, sys[r], r, w, p, q, b);
    assert CanChangeView(c, sys[r], w, p, q);
  }

  lemma LeavesBasis(c: Config, g: Digest, s: Node, r: nat, w: nat, p: map<nat, PEntry>, q: map<QIdx, nat>, b: VcBasis)
    requires c.n >= 1 && s.h == 0 && s.ckpts == map[0 := g] && Reports(g, r, w, p, q, b)
    ensures IsBasisOf(r, StartViewChange(c, s, w, p, q), b)
  {
  }

  lemma LeavePlays(c: Config, g: Digest, s: Node, a: Actor, w: nat, p: map<nat, PEntry>, q: map<QIdx, nat>, b: VcBasis)
    requires c.n >= 1 && Plays(g, s, a) && CanLeave(a, w)
    ensures Plays(g, SendBasis(StartViewChange(c, s, w, p, q), b), Leaving(a, w, p, q, b))
  {
    assert CertsFrom(s.certs, w) == map[];
    forall n | n in s.seqMap ensures n in NumbersBefore(s.certs, w) {
      var id :| id in s.certs && id.n == n;
    }
    assert s.seqMap - NumbersBefore(s.certs, w) == map[];
  }

  function Announcing(a: Actor, nv: NewViewMsg): Actor {
    a.(stored := a.stored[a.view := nv], announced := a.announced + {Announcement(a.view, nv)})
  }

  /** An honest primary announces a new view. */
  lemma Announces(c: Config, e: Epoch, st: Stage, r: nat, nv: NewViewMsg)
    requires Four(c) && On(c, e, st) && IsHonest(r) && KnowsBases(st, nv.bases) && OnePerReplica(c, nv.bases)
    requires var a := st.Of(r);
             a.inVC && c.Primary(a.view) == r && a.view !in a.stored && (nv, Genesis(e.genesis)) in Passing(c, a.view)
    ensures On(c, e, st.Put(r, Announcing(st.Of(r), nv)))
  {
    var sys := Cast(c, e, st);
    Playing(e.genesis, sys, st, r);
    var step := DoAnnounce(r, nv, Genesis(e.genesis));
    BasesSent(c, e.genesis, sys, st, nv.bases);
    AnnouncePossible(c, e, sys, r, nv, Genesis(e.genesis));
    StepOn(c, e, st, sys, step, Announcing(st.Of(r), nv));
  }

  lemma AnnouncePossible(c: Config, e: Epoch, sys: Sys, r: nat, nv: NewViewMsg, cs: CheckpointState)
    requires c.n >= 1 && r in sys && !sys[r].waiting && CanAnnounce(c, r, sys[r])
    requires (nv, cs) in Passing(c, sys[r].view) && OnePerReplica(c, nv.bases) && AllSent(c, sys, nv.bases)
    ensures DoAnnounce(r, nv, cs) in Possible(c, e, sys)
  {
  }

  /** What a new view assigns, as pre-prepared certificates. */
  function Assigned(w: nat, nv: NewViewMsg): map<MsgId, Cert> {
    map id | id in NewIds(w, nv, 0) :: ACCEPTED
  }

  function Entering(a: Actor, nv: NewViewMsg): Actor {
    a.(inVC := false, certs := Assigned(a.view, nv), seqMap := nv.xset)
  }

  predicate IsWaiting(a: Actor) {
    a.inVC && a.certs == map[] && a.seqMap == map[]
  }

  /** A replica enters a new view that it has checked. */
  lemma Enters(c: Config, e: Epoch, st: Stage, r: nat, nv: NewViewMsg)
    requires Four(c) && On(c, e, st) && IsHonest(r) && KnowsBases(st, nv.bases) && IsWaiting(st.Of(r))
    requires KnowsNewView(c, st, st.Of(r).view, nv) && nv.base == 0 && (nv, Genesis(e.genesis)) in Passing(c, st.Of(r).view)
    requires e.guard.OnlyChecked? || OnePerReplica(c, nv.bases)
    ensures On(c, e, st.Put(r, Entering(st.Of(r), nv)))
  {
    var sys := Cast(c, e, st);
    Playing(e.genesis, sys, st, r);
    NewViewKnown(c, e.genesis, sys, st, st.Of(r).view, nv);
    EnterPossible(c, e, sys, st.Of(r), r, nv);
    EnterPlays(c, e.genesis, sys[r], st.Of(r), r, nv);
    StepOn(c, e, st, sys, DoEnter(r, nv, Genesis(e.genesis)), Entering(st.Of(r), nv));
  }

  lemma NewViewKnown(c: Config, g: Digest, sys: Sys, st: Stage, v: nat, nv: NewViewMsg)
    requires 1 in c.byz && Staged(g, sys, st) && KnowsNewView(c, st, v, nv) && KnowsBases(st, nv.bases)
    ensures SentNewView(c, sys, v, nv) && AllSent(c, sys, nv.bases)
  {
    BasesSent(c, g, sys, st, nv.bases);
  }

  lemma EnterPossible(c: Config, e: Epoch, sys: Sys, a: Actor, r: nat, nv: NewViewMsg)
    requires c.Valid() && r in sys && Plays(e.genesis, sys[r], a) && a.inVC && nv.base == 0
    requires (nv, Genesis(e.genesis)) in Passing(c, a.view) && AllSent(c, sys, nv.bases) && SentNewView(c, sys, a.view, nv)
    requires e.guard.OnlyChecked? || OnePerReplica(c, nv.bases)
    ensures DoEnter(r, nv, Genesis(e.genesis)) in Possible(c, e, sys)
  {
    if OnePerReplica(c, nv.bases) {
      OneIsSafe(c, nv.bases);
    }
  }

  lemma EnterPlays(c: Config, g: Digest, s: Node, a: Actor, r: nat, nv: NewViewMsg)
    requires c.n >= 1 && Plays(g, s, a) && IsWaiting(a) && nv.base == 0 && (nv, Genesis(g)) in Passing(c, a.view)
    ensures Plays(g, Enter(c, r, s, nv), Entering(a, nv))
  {
    ProcessPlays(c, g, s, a, r, nv);
  }

  lemma ProcessPlays(c: Config, g: Digest, s: Node, a: Actor, r: nat, nv: NewViewMsg)
    requires c.n >= 1 && Plays(g, s, a) && IsWaiting(a) && forall n :: n in nv.xset ==> n > 0
    ensures Plays(g, ProcessNewView(c, r, s, nv), Entering(a, nv))
  {
    AssignedCerts(s.view, nv);
    AssignedNumbers(nv);
    assert s.certs == map[] && s.seqMap == map[] && s.h == 0;
  }

  lemma AssignedCerts(v: nat, nv: NewViewMsg)
    ensures map[] + (map id | id in NewIds(v, nv, 0) :: GetCert(map[], id).(prePrepared := true)) == Assigned(v, nv)
  {
  }

  lemma AssignedNumbers(nv: NewViewMsg)
    requires forall n :: n in nv.xset ==> n > 0
    ensures map[] + (map n | n in nv.xset && n > 0 :: nv.xset[n]) == nv.xset
  {
  }

  /** A replica that waits for batches processes another new view, unchecked. */
  lemma EntersLater(c: Config, e: Epoch, st: Stage, r: nat, nv: NewViewMsg)
    requires Four(c) && On(c, e, st) && IsHonest(r) && KnowsBases(st, nv.bases) && IsWaiting(st.Of(r))
    requires KnowsNewView(c, st, st.Of(r).view, nv) && e.guard.OnlySafe? && OnePerReplica(c, nv.bases) && forall n :: n in nv.xset ==> n > 0
    ensures On(c, e, st.Put(r, Entering(st.Of(r), nv)))
  {
    var sys := Cast(c, e, st);
    Playing(e.genesis, sys, st, r);
    NewViewKnown(c, e.genesis, sys, st, st.Of(r).view, nv);
    ProcessPlays(c, e.genesis, sys[r], st.Of(r), r, nv);
    EnterLaterPossible(c, e, sys, st.Of(r), r, nv);
    StepOn(c, e, st, sys, DoEnterLater(r, st.Of(r).view, 0, nv, Genesis(e.genesis)), Entering(st.Of(r), nv));
  }

  lemma EnterLaterPossible(c: Config, e: Epoch, sys: Sys, a: Actor, r: nat, nv: NewViewMsg)
    requires c.Valid() && r in sys && Plays(e.genesis, sys[r], a) && a.inVC && e.guard.OnlySafe?
    requires AllSent(c, sys, nv.bases) && SentNewView(c, sys, a.view, nv) && OnePerReplica(c, nv.bases)
    ensures DoEnterLater(r, a.view, 0, nv, Genesis(e.genesis)) in Possible(c, e, sys)
  {
    OneIsSafe(c, nv.bases);
  }
}
