/** A run after which the bases of all honest replicas leave a number undecided: the primary of a view
    announces its new view and, for lack of a batch, does not process it; one backup prepares again in
    that view with the help of the faulty replica, and another one knows the request from an older view. */
module StuckRun {
  import opened Quorum
  import opened NewView
  import opened Replica
  import opened Protocol
  import opened NewViewHandlers
  import opened SmallViews
  import opened Scenes
  import opened Rounds

  /** The bases of the three honest replicas for view 3. */
  function LaggingBases(g: Digest, d: Digest): seq<VcBasis> {
    [Reporting(g, 3, 2, MsgId(2, 1, d)), Basis(g, 3, 3, [], []), Reporting(g, 3, 4, MsgId(0, 1, d))]
  }

  /** The bases view 2 is started from. */
  function FirstBases(g: Digest, d: Digest): seq<VcBasis> {
    [Reporting(g, 2, 2, MsgId(0, 1, d)), Basis(g, 2, 3, [], []), Reporting(g, 2, 4, MsgId(0, 1, d))]
  }

  /* ---------- what the bases say ---------- */

  lemma LaggingUnselectable(c: Config, g: Digest, d: Digest)
    requires Four(c)
    ensures !Selectable(c, LaggingBases(g, d), VcPq(1, d, 2)) && !Selectable(c, LaggingBases(g, d), VcPq(1, d, 0))
  {
    var s := LaggingBases(g, d);
    assert s[1].qset == [] && s[2].qset == [VcPq(1, d, 0)];
    Unbacked(c, s, VcPq(1, d, 2), 0);
    assert !Compatible(s[0].pset[0], VcPq(1, d, 0));
    Contradicted(c, s, VcPq(1, d, 0), 0);
  }

  lemma LaggingNull(c: Config, g: Digest, d: Digest)
    requires Four(c)
    ensures |NullVoters(LaggingBases(g, d), 1)| < c.Q()
  {
    FourFacts(c);
    var s := LaggingBases(g, d);
    assert s[0].pset[0].n == 1 && s[2].pset[0].n == 1;
    SubsetCount(NullVoters(s, 1), {1});
  }

  lemma LaggingSlot(c: Config, g: Digest, d: Digest)
    requires Four(c)
    ensures SlotOf(c, LaggingBases(g, d), 1) == Stuck
  {
    var s := LaggingBases(g, d);
    LaggingUnselectable(c, g, d);
    LaggingNull(c, g, d);
    if FirstFrom(c, s, 0, 1).Some? {
      var m, j := FirstFromSome(c, s, 0, 1);
    }
  }

  lemma LaggingBasesStuck(c: Config, g: Digest, d: Digest)
    requires Four(c)
    ensures Assignment(c, LaggingBases(g, d), 0) == None
  {
    LaggingSlot(c, g, d);
    FirstStuck(c, LaggingBases(g, d));
  }

  lemma FirstBasesHold(g: Digest, d: Digest)
    ensures var s, em := FirstBases(g, d), VcPq(1, d, 0);
            && Gathered(g, 2, s) && s[0].pset == [em] && s[1].pset == [] && s[2].pset == [em]
            && s[0].qset[0] == em && s[2].qset[0] == em
  {
  }

  /** The bases of view 2 assign d to number 1. */
  lemma FirstBasesAssign(c: Config, g: Digest, d: Digest)
    requires Four(c) && d != NULL_REQUEST
    ensures Gathered(g, 2, FirstBases(g, d)) && Assignment(c, FirstBases(g, d), 0) == Some([XEntry(1, d)])
  {
    var s := FirstBases(g, d);
    FirstBasesHold(g, d);
    FirstBasesChoose(c, g, d);
    RestIsNull(c, g, 2, s, [Chosen(d)]);
    OneAssigned(c, s, d);
  }

  lemma FirstBasesChoose(c: Config, g: Digest, d: Digest)
    requires Four(c)
    ensures SlotOf(c, FirstBases(g, d), 1) == Chosen(d)
  {
    var s := FirstBases(g, d);
    FirstBasesHold(g, d);
    Supported(c, s, VcPq(1, d, 0), 0, 2);
    OnlyChoice(c, s, 1, 0, 0);
  }

  function FirstView(g: Digest, d: Digest): NewViewMsg {
    Listing(FirstBases(g, d), 0, [XEntry(1, d)])
  }

  /* ---------- the run ---------- */

  /** Replicas 2 and 4 have prepared d in view 0. */
  function InZero(d: Digest): Stage {
    var id := MsgId(0, 1, d);
    Stage(Prepared2(Newcomer(), 2, 4, id), Newcomer(), Prepared2(Newcomer(), 4, 2, id))
  }

  lemma ReachesZero(c: Config, g: Digest, d: Digest)
    requires Four(c)
    ensures On(c, Guards(g), InZero(d))
  {
    Start(c, Guards(g));
    BothPrepare(c, Guards(g), Opening(), 2, 4, MsgId(0, 1, d));
  }

  function Reporter(g: Digest, r: nat, d: Digest): Actor {
    var id := MsgId(0, 1, d);
    Actor(2, true, map[], map[], P(id), Q(id), [], map[], {}, {}, {Reporting(g, 2, r, id)}, {})
  }

  function Idler(g: Digest): Actor {
    Actor(2, true, map[], map[], map[], map[], [], map[], {}, {}, {Basis(g, 2, 3, [], [])}, {})
  }

  /** All three are changing to view 2. */
  function ToTwo(g: Digest, d: Digest): Stage {
    Stage(Reporter(g, 2, d), Idler(g), Reporter(g, 4, d))
  }

  lemma ReachesTwo(c: Config, g: Digest, d: Digest)
    requires Four(c)
    ensures On(c, Guards(g), ToTwo(g, d))
  {
    ReachesZero(c, g, d);
    var id := MsgId(0, 1, d);
    var st := InZero(d);
    LeavesPrepared(c, Guards(g), st, 2, 4, 2, id, READY.(prepares := {2} + {4}));
    st := st.Put(2, Reporter(g, 2, d));
    LeavesIdle(c, Guards(g), st, 3, 2);
    st := st.Put(3, Idler(g));
    LeavesPrepared(c, Guards(g), st, 4, 2, 2, id, READY.(prepares := {4} + {2}));
  }

  /** Replica 3 has announced a new view; it waits for the batch. */
  function Announced(g: Digest, d: Digest): Stage {
    ToTwo(g, d).Put(3, Announcing(Idler(g), FirstView(g, d)))
  }

  lemma ReachesAnnounced(c: Config, g: Digest, d: Digest)
    requires Four(c) && d != NULL_REQUEST
    ensures On(c, Guards(g), Announced(g, d))
  {
    ReachesTwo(c, g, d);
    FirstBasesAssign(c, g, d);
    FirstBasesKnown(c, g, d);
    AnnouncesList(c, Guards(g), ToTwo(g, d), 3, FirstBases(g, d), [XEntry(1, d)]);
  }

  lemma FirstBasesKnown(c: Config, g: Digest, d: Digest)
    requires Four(c)
    ensures KnowsBases(ToTwo(g, d), FirstBases(g, d)) && KnowsBases(Announced(g, d), FirstBases(g, d))
  {
    ThreeKnown(ToTwo(g, d), FirstBases(g, d));
    ThreeKnown(Announced(g, d), FirstBases(g, d));
  }

  /** Replica 2 in view 2. */
  function Backup(g: Digest, d: Digest, ct: Cert): Actor {
    With(Reporter(g, 2, d).(inVC := false), MsgId(2, 1, d), ct)
  }

  lemma ReachesEntered(c: Config, g: Digest, d: Digest)
    requires Four(c) && d != NULL_REQUEST
    ensures On(c, Guards(g), Announced(g, d).Put(2, Backup(g, d, ACCEPTED)))
  {
    ReachesAnnounced(c, g, d);
    FirstBasesAssign(c, g, d);
    FirstBasesKnown(c, g, d);
    EntersOne(c, Guards(g), Announced(g, d), 2, FirstBases(g, d), d);
  }

  function Preparer(g: Digest, d: Digest): Actor {
    Prepared2(Backup(g, d, ACCEPTED), 2, 1, MsgId(2, 1, d))
  }

  lemma ReachesPrepared(c: Config, g: Digest, d: Digest)
    requires Four(c) && d != NULL_REQUEST
    ensures On(c, Guards(g), Announced(g, d).Put(2, Preparer(g, d)))
  {
    ReachesEntered(c, g, d);
    var st := Announced(g, d).Put(2, Backup(g, d, ACCEPTED));
    PreparesWith(c, Guards(g), st, 2, 1, MsgId(2, 1, d));
    PutTwice(Announced(g, d), 2, Backup(g, d, ACCEPTED), Preparer(g, d));
  }

  /** All three are changing to view 3. */
  function ToThree(g: Digest, d: Digest): Stage {
    var st := Announced(g, d);
    var b := LaggingBases(g, d);
    Stage(Moved(Backup(g, d, ACCEPTED), 3, P(MsgId(2, 1, d)), Q(MsgId(2, 1, d)), b[0]), Moved(st.third, 3, map[], map[], b[1]),
          Moved(st.fourth, 3, P(MsgId(0, 1, d)), Q(MsgId(0, 1, d)), b[2]))
  }

  lemma ReachesThree(c: Config, g: Digest, d: Digest)
    requires Four(c) && d != NULL_REQUEST
    ensures On(c, Guards(g), ToThree(g, d)) && KnowsBases(ToThree(g, d), LaggingBases(g, d))
  {
    ReachesPrepared(c, g, d);
    var st := Announced(g, d).Put(2, Preparer(g, d));
    LeavesPrepared(c, Guards(g), st, 2, 1, 3, MsgId(2, 1, d), READY.(prepares := {2} + {1}));
    st := st.Put(2, ToThree(g, d).second);
    LeavesIdle(c, Guards(g), st, 3, 3);
    st := st.Put(3, ToThree(g, d).third);
    LeavesAgain(c, Guards(g), st, 4, 3, MsgId(0, 1, d));
    ThreeKnown(ToThree(g, d), LaggingBases(g, d));
  }

  lemma LaggingSenders(c: Config, g: Digest, d: Digest)
    requires Four(c)
    ensures var s := LaggingBases(g, d);
            && OnePerReplica(c, s)
            && (forall r :: r in c.Honest() ==> exists i :: 0 <= i < |s| && s[i].id == r)
            && (forall i :: 0 <= i < |s| ==> s[i].id in c.Honest() && s[i].view == 3 && s[i].h == 0)
  {
    FourFacts(c);
    var s := LaggingBases(g, d);
    assert s[0].id == 2 && s[1].id == 3 && s[2].id == 4;
  }

  /** Steps of honest replicas lead to a state in which every honest replica has sent a basis for view
      3, and these bases assign nothing. */
  lemma StuckIsReachable(c: Config, g: Digest, d: Digest) returns (steps: seq<Action>, sys: Sys)
    requires Four(c) && d != NULL_REQUEST
    ensures Reaches(c, g, steps, sys) && GuardedSteps(c, steps)
    ensures var s := LaggingBases(g, d);
            && AllSent(c, sys, s) && OnePerReplica(c, s)
            && (forall r :: r in c.Honest() ==> exists i :: 0 <= i < |s| && s[i].id == r)
            && (forall i :: 0 <= i < |s| ==> s[i].id in c.Honest() && s[i].view == 3 && s[i].h == 0)
            && Assignment(c, s, 0) == None
  {
    ReachesThree(c, g, d);
    steps, sys := Outcome(c, Guards(g), ToThree(g, d));
    BasesSent(c, g, sys, ToThree(g, d), LaggingBases(g, d));
    LaggingBasesStuck(c, g, d);
    LaggingSenders(c, g, d);
  }
}
