/** The common part of runs in which replica 3 commits a request in view 0 and stays there, and replica 2
    commits another one under the same number in view 4. Both views have the faulty primary. */
module TwoViews {
  import opened Quorum
  import opened NewView
  import opened Replica
  import opened Protocol
  import opened Agreement
  import opened SmallViews
  import opened Scenes
  import opened Rounds

  /** View 0: replica 3 commits with 4 and the faulty replica. */
  function Parted(id: MsgId): Stage {
    Stage(Newcomer(), Committed3(Newcomer(), 3, 4, id), Committed1(Newcomer(), 4, 3, id))
  }

  lemma ReachesParted(c: Config, e: Epoch, id: MsgId)
    requires Four(c) && id.v == 0 && id.n >= 1
    ensures On(c, e, Parted(id))
  {
    Start(c, e);
    OneCommits(c, e, Opening(), 3, 4, id);
  }

  /** The other two move to view 4. */
  function ToFour(g: Digest, id: MsgId): Stage {
    Stage(Moved(Newcomer(), 4, map[], map[], Basis(g, 4, 2, [], [])), Parted(id).third,
          Moved(Newcomer(), 4, P(id), Q(id), Reporting(g, 4, 4, id)))
  }

  lemma ReachesFour(c: Config, e: Epoch, id: MsgId)
    requires Four(c) && id.v == 0 && id.n >= 1
    ensures On(c, e, ToFour(e.genesis, id))
  {
    ReachesParted(c, e, id);
    LeavesIdle(c, e, Parted(id), 2, 4);
    var st := Parted(id).Put(2, ToFour(e.genesis, id).second);
    LeavesPrepared(c, e, st, 4, 3, 4, id, Cert(true, true, {4} + {3}, true, {4}, false));
  }

  /** Both enter view 4, which assigns nothing. */
  function InFour(g: Digest, id: MsgId): Stage {
    var st := ToFour(g, id);
    Stage(st.second.(inVC := false), st.third, st.fourth.(inVC := false))
  }

  predicate NoneExecuted(st: Stage) {
    st.second.executed == [] && st.third.executed == [] && st.fourth.executed == []
  }

  /** Two honest replicas hold committed certificates, and no null request was executed. */
  ghost predicate BothCommitted(c: Config, sys: Sys, a: MsgId, b: MsgId)
    requires c.n >= 1
  {
    && 3 in sys && a in sys[3].certs && Committed(c, sys[3].certs, a)
    && 2 in sys && b in sys[2].certs && Committed(c, sys[2].certs, b)
    && NoNullExecuted(sys, a.n)
  }

  predicate CanSplit(st: Stage, old_: MsgId) {
    && HasNone(st.second) && st.second.view == 4 && HasNone(st.fourth) && st.fourth.view == 4 && NoneExecuted(st)
    && old_ in st.third.certs && st.third.certs[old_] == Decided(3, 4)
  }

  /** View 4: replica 2 commits with 4 and the faulty replica. */
  function Split(st: Stage, id: MsgId): Stage {
    Pair(st, 2, Committed3(st.second, 2, 4, id), 4, Committed1(st.fourth, 4, 2, id))
  }

  lemma SplitHolds(c: Config, g: Digest, sys: Sys, st: Stage, old_: MsgId, new_: MsgId)
    requires Four(c) && Staged(g, sys, Split(st, new_)) && CanSplit(st, old_)
    ensures BothCommitted(c, sys, old_, new_)
  {
    HoldsCommitted(c, g, sys[3], st.third, 3, 4, old_);
    HoldsCommitted(c, g, sys[2], Committed3(st.second, 2, 4, new_), 2, 4, new_);
    NothingExecuted(g, sys, Split(st, new_), old_.n);
  }

  lemma SecondCommits(c: Config, e: Epoch, st: Stage, old_: MsgId, new_: MsgId) returns (steps: seq<Action>, sys: Sys)
    requires Four(c) && On(c, e, st) && CanSplit(st, old_) && new_.v == 4 && new_.n >= 1
    ensures Reaches(c, e.genesis, steps, sys) && PermitsAll(c, e.guard, steps) && BothCommitted(c, sys, old_, new_)
    ensures e.guard.OnlyGuarded? ==> GuardedSteps(c, steps)
    ensures e.guard.OnlyChecked? ==> CheckedSteps(c, steps)
  {
    OneCommits(c, e, st, 2, 4, new_);
    steps, sys := Outcome(c, e, Split(st, new_));
    SplitHolds(c, e.genesis, sys, st, old_, new_);
  }

  lemma NothingExecuted(g: Digest, sys: Sys, st: Stage, n: nat)
    requires Staged(g, sys, st) && NoneExecuted(st)
    ensures NoNullExecuted(sys, n)
  {
    forall r | r in sys ensures sys[r].executed == [] {
      assert r in {2, 3, 4};
    }
  }

  /** Number 1 is inside every window. */
  lemma OneWindowed(c: Config, sys: Sys)
    requires Four(c)
    ensures Windowed(c, sys, 1)
  {
  }

  /** Agreement fails in such a state, so one of its conditions does. */
  lemma OneConditionFails(c: Config, g: Digest, steps: seq<Action>, sys: Sys, a: MsgId, b: MsgId)
    requires Four(c) && Reaches(c, g, steps, sys) && BothCommitted(c, sys, a, b)
    requires a.n == b.n && a.d != NULL_REQUEST && b.d != NULL_REQUEST && a.d != b.d
    ensures !GuardedSteps(c, steps) || !Windowed(c, sys, a.n)
  {
    if GuardedSteps(c, steps) && Windowed(c, sys, a.n) {
      CommittedCertificatesAgree(c, g, steps, sys, 3, a, 2, b);
    }
  }
}
