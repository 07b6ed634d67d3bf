/** A run in which two honest replicas commit different requests under one number, because each of them
    processes a new view it has not checked. Both lack a batch of the new view they did check, and while
    they fetch it the faulty primary sends another one, with the same bases and an empty list. */
module UncheckedRun {
  import opened Quorum
  import opened NewView
  import opened Replica
  import opened Protocol
  import opened Agreement
  import opened NewViewHandlers
  import opened SmallViews
  import opened Scenes
  import opened Rounds
  import opened TwoViews

  function Safe(g: Digest): Epoch {
    Epoch(g, OnlySafe)
  }

  /* ---------- the two new views ---------- */

  /** The bases of view 4: replica 4 reports d under number 1, replica 2 reports f under number 2, and
      the faulty replica backs both. */
  function Bases(g: Digest, d: Digest, f: Digest): seq<VcBasis> {
    [Reporting(g, 4, 2, MsgId(0, 2, f)), Reporting(g, 4, 4, MsgId(0, 1, d)), Basis(g, 4, 1, [], [VcPq(1, d, 0), VcPq(2, f, 0)])]
  }

  function FirstList(g: Digest, d: Digest, f: Digest): NewViewMsg {
    Listing(Bases(g, d, f), 0, [XEntry(1, d), XEntry(2, f)])
  }

  function SecondList(g: Digest, d: Digest, f: Digest): NewViewMsg {
    Listing(Bases(g, d, f), 0, [])
  }

  lemma FirstSlots(c: Config, g: Digest, d: Digest, f: Digest)
    requires Four(c)
    ensures SlotOf(c, Bases(g, d, f), 1) == Chosen(d) && SlotOf(c, Bases(g, d, f), 2) == Chosen(f)
  {
    var s := Bases(g, d, f);
    BasesHold(g, d, f);
    BothSupported(c, g, d, f);
    OnlyChoice(c, s, 1, 1, 0);
    OnlyChoice(c, s, 2, 0, 0);
  }

  lemma BothSupported(c: Config, g: Digest, d: Digest, f: Digest)
    requires Four(c)
    ensures Selectable(c, Bases(g, d, f), VcPq(1, d, 0)) && Selectable(c, Bases(g, d, f), VcPq(2, f, 0))
  {
    BasesHold(g, d, f);
    Supported(c, Bases(g, d, f), VcPq(1, d, 0), 1, 2);
    Supported(c, Bases(g, d, f), VcPq(2, f, 0), 0, 2);
  }

  lemma BasesHold(g: Digest, d: Digest, f: Digest)
    ensures var s, x, y := Bases(g, d, f), VcPq(1, d, 0), VcPq(2, f, 0);
            && Gathered(g, 4, s) && s[0].pset == [y] && s[1].pset == [x] && s[2].pset == []
            && s[0].qset[0] == y && s[1].qset[0] == x && s[2].qset[0] == x && s[2].qset[1] == y
  {
  }

  lemma FirstAssigned(c: Config, g: Digest, d: Digest, f: Digest)
    requires Four(c) && c.l >= 2 && f != NULL_REQUEST
    ensures Assignment(c, Bases(g, d, f), 0) == Some([XEntry(1, d), XEntry(2, f)]) && Gathered(g, 4, Bases(g, d, f))
  {
    BasesHold(g, d, f);
    FirstSlots(c, g, d, f);
    RestIsNull(c, g, 4, Bases(g, d, f), [Chosen(d), Chosen(f)]);
    TwoAssigned(c, Bases(g, d, f), Chosen(d), f);
  }

  /** The first new view is the one that passes the check, the second one does not. */
  lemma OnlyFirstPasses(c: Config, g: Digest, d: Digest, f: Digest)
    requires Four(c) && c.l >= 2 && f != NULL_REQUEST
    ensures PassesCheck(c, 4, FirstList(g, d, f), Genesis(g)) && OnePerReplica(c, Bases(g, d, f))
    ensures forall cs :: !PassesCheck(c, 4, SecondList(g, d, f), cs)
  {
    FirstAssigned(c, g, d, f);
    GatheredOnce(c, g, 4, Bases(g, d, f));
    GatheredPasses(c, g, 4, Bases(g, d, f), [XEntry(1, d), XEntry(2, f)]);
  }

  /* ---------- the run ---------- */

  /** View 0: replica 3 has committed d; it and replica 2 prepare f. */
  function Second(f: Digest): Actor {
    Prepared2(Newcomer(), 2, 3, MsgId(0, 2, f))
  }

  function Third(d: Digest, f: Digest): Actor {
    Preparing(Accepting(Committed3(Newcomer(), 3, 4, MsgId(0, 1, d)), MsgId(0, 2, f)), 3, MsgId(0, 2, f))
  }

  function InZero(d: Digest, f: Digest): Stage {
    Stage(Second(f), Third(d, f), Parted(MsgId(0, 1, d)).fourth)
  }

  lemma ThirdPrepares(c: Config, g: Digest, d: Digest, f: Digest)
    requires Four(c)
    ensures On(c, Safe(g), Parted(MsgId(0, 1, d)).Put(3, Third(d, f)))
  {
    var st := Parted(MsgId(0, 1, d));
    var id := MsgId(0, 2, f);
    ReachesParted(c, Safe(g), MsgId(0, 1, d));
    Accepts(c, Safe(g), st, 3, id);
    PutTwice(st, 3, Accepting(st.third, id), Third(d, f));
    Prepares(c, Safe(g), st.Put(3, Accepting(st.third, id)), 3, id);
  }

  lemma SecondPrepares(c: Config, g: Digest, st: Stage, f: Digest)
    requires Four(c) && On(c, Safe(g), st) && st.second == Newcomer() && MsgId(0, 2, f) in st.third.prepares
    ensures On(c, Safe(g), st.Put(2, Second(f)))
  {
    var id := MsgId(0, 2, f);
    Votes(c, Safe(g), st, 2, id);
    HearsOne(c, Safe(g), st.Put(2, Voting(Newcomer(), 2, id)), 2, 3, id, READY.(prepares := {2}));
  }

  lemma ReachesZero(c: Config, g: Digest, d: Digest, f: Digest)
    requires Four(c)
    ensures On(c, Safe(g), InZero(d, f))
  {
    ThirdPrepares(c, g, d, f);
    SecondPrepares(c, g, Parted(MsgId(0, 1, d)).Put(3, Third(d, f)), f);
  }

  /** Replicas 2 and 4 move to view 4. */
  function Apart(g: Digest, d: Digest, f: Digest): Stage {
    var s := Bases(g, d, f);
    Stage(Moved(Newcomer(), 4, P(MsgId(0, 2, f)), Q(MsgId(0, 2, f)), s[0]), Third(d, f),
          Moved(Newcomer(), 4, P(MsgId(0, 1, d)), Q(MsgId(0, 1, d)), s[1]))
  }

  lemma BothLeave(c: Config, g: Digest, d: Digest, f: Digest)
    requires Four(c)
    ensures On(c, Safe(g), Apart(g, d, f)) && KnowsBases(Apart(g, d, f), Bases(g, d, f))
  {
    ReachesZero(c, g, d, f);
    var st := InZero(d, f);
    LeavesPrepared(c, Safe(g), st, 2, 3, 4, MsgId(0, 2, f), READY.(prepares := {2} + {3}));
    st := st.Put(2, Apart(g, d, f).second);
    LeavesPrepared(c, Safe(g), st, 4, 3, 4, MsgId(0, 1, d), Cert(true, true, {4} + {3}, true, {4}, false));
    ThreeKnown(Apart(g, d, f), Bases(g, d, f));
  }

  lemma Processes(c: Config, g: Digest, st: Stage, r: nat, d: Digest, f: Digest)
    requires Four(c) && On(c, Safe(g), st) && IsHonest(r) && IsWaiting(st.Of(r)) && st.Of(r).view == 4
    requires KnowsBases(st, Bases(g, d, f))
    ensures On(c, Safe(g), st.Put(r, st.Of(r).(inVC := false)))
  {
    SecondIsSafe(c, g, d, f);
    EnteringNone(st.Of(r), SecondList(g, d, f));
    EntersLater(c, Safe(g), st, r, SecondList(g, d, f));
  }

  lemma SecondIsSafe(c: Config, g: Digest, d: Digest, f: Digest)
    requires Four(c)
    ensures OnePerReplica(c, SecondList(g, d, f).bases) && SecondList(g, d, f).xset == map[]
  {
    GatheredOnce(c, g, 4, Bases(g, d, f));
    AssignsNone(4, Bases(g, d, f));
  }

  function InFour(g: Digest, d: Digest, f: Digest): Stage {
    var st := Apart(g, d, f);
    Stage(st.second.(inVC := false), st.third, st.fourth.(inVC := false))
  }

  lemma BothProcess(c: Config, g: Digest, d: Digest, f: Digest)
    requires Four(c)
    ensures On(c, Safe(g), InFour(g, d, f))
  {
    BothLeave(c, g, d, f);
    var st := Apart(g, d, f);
    Processes(c, g, st, 2, d, f);
    StillKnown(st, 2, st.second.(inVC := false), Bases(g, d, f));
    st := st.Put(2, st.second.(inVC := false));
    Processes(c, g, st, 4, d, f);
  }

  /** Every new view that is processed has a list of bases with one sender each, no null request is
      executed, and the number stays inside the windows; still two honest replicas hold committed
      certificates with different digests. So the check of what is processed cannot be dropped. */
  lemma CheckIsNeeded(c: Config, g: Digest, d: Digest, e: Digest, f: Digest) returns (steps: seq<Action>, sys: Sys)
    requires Four(c) && d != NULL_REQUEST && e != NULL_REQUEST && d != e
    ensures Reaches(c, g, steps, sys) && forall i :: 0 <= i < |steps| ==> HasSafeList(c, steps[i])
    ensures 3 in sys && MsgId(0, 1, d) in sys[3].certs && Committed(c, sys[3].certs, MsgId(0, 1, d))
    ensures 2 in sys && MsgId(4, 1, e) in sys[2].certs && Committed(c, sys[2].certs, MsgId(4, 1, e))
    ensures NoNullExecuted(sys, 1) && Windowed(c, sys, 1) && !CheckedSteps(c, steps)
  {
    var a, b := MsgId(0, 1, d), MsgId(4, 1, e);
    BothProcess(c, g, d, f);
    steps, sys := SecondCommits(c, Safe(g), InFour(g, d, f), a, b);
    SafeLists(c, steps);
    OneWindowed(c, sys);
    OneConditionFails(c, g, steps, sys, a, b);
  }

  lemma SafeLists(c: Config, steps: seq<Action>)
    requires c.n >= 1 && PermitsAll(c, OnlySafe, steps)
    ensures forall i :: 0 <= i < |steps| ==> HasSafeList(c, steps[i])
    ensures CheckedSteps(c, steps) ==> GuardedSteps(c, steps)
  {
    forall i | 0 <= i < |steps| ensures HasSafeList(c, steps[i]) {
      assert Permits(c, OnlySafe, steps[i]);
    }
  }
}
