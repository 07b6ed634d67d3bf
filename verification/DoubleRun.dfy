/** A run in which the honest primary of view 2 announces two new views for it: the repeat of its view
    change makes it forget the first one, and by then the basis of the faulty replica has arrived. Two
    backups enter one each, and prepare different requests under one view and number. When all three move
    on to view 3, their bases leave the number undecided. */
module DoubleRun {
  import opened Quorum
  import opened NewView
  import opened Replica
  import opened Protocol
  import opened Liveness
  import Handlers
  import opened NewViewHandlers
  import opened SmallViews
  import opened Scenes
  import opened Rounds

  /* ---------- the two new views ---------- */

  /** Under number 1 replica 2 has accepted d; under number 2 replicas 2 and 4 have prepared e. */
  function D(d: Digest): MsgId {
    MsgId(0, 1, d)
  }

  function E(e: Digest): MsgId {
    MsgId(0, 2, e)
  }

  function HonestBases(g: Digest, d: Digest, e: Digest): seq<VcBasis> {
    [ReportingBoth(g, 2, 2, E(e), D(d)), Basis(g, 2, 3, [], []), Reporting(g, 2, 4, E(e))]
  }

  /** The faulty replica claims to have prepared d. */
  function AllBases(g: Digest, d: Digest, e: Digest): seq<VcBasis> {
    HonestBases(g, d, e) + [Reporting(g, 2, 1, D(d))]
  }

  function FirstList(e: Digest): seq<XEntry> {
    [XEntry(1, NULL_REQUEST), XEntry(2, e)]
  }

  function SecondList(d: Digest, e: Digest): seq<XEntry> {
    [XEntry(1, d), XEntry(2, e)]
  }

  lemma BasesHold(g: Digest, d: Digest, e: Digest)
    ensures var s, x, y := AllBases(g, d, e), EntryOf(D(d)), EntryOf(E(e));
            && Gathered(g, 2, HonestBases(g, d, e)) && Gathered(g, 2, s) && HonestBases(g, d, e) == s[..3]
            && s[0].pset == [y] && s[1].pset == [] && s[2].pset == [y] && s[3].pset == [x]
            && s[0].qset[0] == y && s[0].qset[1] == x && s[2].qset[0] == y && s[3].qset[0] == x
  {
  }

  lemma HonestAssign(c: Config, g: Digest, d: Digest, e: Digest)
    requires Four(c) && c.l >= 2 && e != NULL_REQUEST
    ensures Assignment(c, HonestBases(g, d, e), 0) == Some(FirstList(e))
  {
    var s := HonestBases(g, d, e);
    BasesHold(g, d, e);
    HonestSlots(c, g, d, e);
    RestIsNull(c, g, 2, s, [NullSlot, Chosen(e)]);
    TwoAssigned(c, s, NullSlot, e);
  }

  lemma HonestSlots(c: Config, g: Digest, d: Digest, e: Digest)
    requires Four(c)
    ensures SlotOf(c, HonestBases(g, d, e), 1) == NullSlot && SlotOf(c, HonestBases(g, d, e), 2) == Chosen(e)
  {
    var s := HonestBases(g, d, e);
    BasesHold(g, d, e);
    NoEntryIsNull(c, g, 2, s, 1);
    Supported(c, s, EntryOf(E(e)), 0, 2);
    OnlyChoice(c, s, 2, 0, 0);
  }

  lemma AllAssign(c: Config, g: Digest, d: Digest, e: Digest)
    requires Four(c) && c.l >= 2 && e != NULL_REQUEST
    ensures Assignment(c, AllBases(g, d, e), 0) == Some(SecondList(d, e))
  {
    var s := AllBases(g, d, e);
    BasesHold(g, d, e);
    AllSlots(c, g, d, e);
    RestIsNull(c, g, 2, s, [Chosen(d), Chosen(e)]);
    TwoAssigned(c, s, Chosen(d), e);
  }

  lemma AllSlots(c: Config, g: Digest, d: Digest, e: Digest)
    requires Four(c)
    ensures SlotOf(c, AllBases(g, d, e), 1) == Chosen(d) && SlotOf(c, AllBases(g, d, e), 2) == Chosen(e)
  {
    FirstSlot(c, g, d, e);
    SecondSlot(c, g, d, e);
  }

  lemma FirstSlot(c: Config, g: Digest, d: Digest, e: Digest)
    requires Four(c)
    ensures SlotOf(c, AllBases(g, d, e), 1) == Chosen(d)
  {
    BasesHold(g, d, e);
    AllSupport(c, g, d, e);
    OnlyChoice(c, AllBases(g, d, e), 1, 3, 0);
  }

  lemma SecondSlot(c: Config, g: Digest, d: Digest, e: Digest)
    requires Four(c)
    ensures SlotOf(c, AllBases(g, d, e), 2) == Chosen(e)
  {
    BasesHold(g, d, e);
    AllSupport(c, g, d, e);
    OnlyChoice(c, AllBases(g, d, e), 2, 0, 0);
  }

  lemma AllSupport(c: Config, g: Digest, d: Digest, e: Digest)
    requires Four(c)
    ensures Selectable(c, AllBases(g, d, e), EntryOf(D(d))) && Selectable(c, AllBases(g, d, e), EntryOf(E(e)))
  {
    BasesHold(g, d, e);
    Supported(c, AllBases(g, d, e), EntryOf(D(d)), 0, 3);
    Supported(c, AllBases(g, d, e), EntryOf(E(e)), 0, 2);
  }

  function FirstView(g: Digest, d: Digest, e: Digest): NewViewMsg {
    Listing(HonestBases(g, d, e), 0, FirstList(e))
  }

  function SecondView(g: Digest, d: Digest, e: Digest): NewViewMsg {
    Listing(AllBases(g, d, e), 0, SecondList(d, e))
  }

  /* ---------- view 0 ---------- */

  const PREPARED := READY.(prepares := {2} + {4})

  /** Replica 2 has prepared e and accepted d. */
  function Second(d: Digest, e: Digest): Actor {
    Accepting(Prepared2(Newcomer(), 2, 4, E(e)), D(d))
  }

  function InZero(d: Digest, e: Digest): Stage {
    Stage(Second(d, e), Newcomer(), Prepared2(Newcomer(), 4, 2, E(e)))
  }

  lemma ReachesZero(c: Config, g: Digest, d: Digest, e: Digest)
    requires Four(c)
    ensures On(c, Guards(g), InZero(d, e))
  {
    Start(c, Guards(g));
    BothPrepare(c, Guards(g), Opening(), 2, 4, E(e));
    Accepts(c, Guards(g), Pair(Opening(), 2, Prepared2(Newcomer(), 2, 4, E(e)), 4, Prepared2(Newcomer(), 4, 2, E(e))), 2, D(d));
  }

  /* ---------- all three move to view 2 ---------- */

  function ToTwo(g: Digest, d: Digest, e: Digest): Stage {
    var s := HonestBases(g, d, e);
    Stage(Moved(Newcomer(), 2, P(E(e)), Q2(E(e), D(d)), s[0]), Moved(Newcomer(), 2, map[], map[], s[1]),
          Moved(Newcomer(), 2, P(E(e)), Q(E(e)), s[2]))
  }

  /** What replica 2 knows is gathered certificate by certificate. */
  lemma SecondKeeps(c: Config, d: Digest, e: Digest)
    requires Four(c)
    ensures Keeps(c, Second(d, e), P(E(e)), Q2(E(e), D(d))) && CanLeave(Second(d, e), 2)
  {
    var one := map[E(e) := PREPARED];
    TwoAtLeast(2, 4, PREPARED.prepares);
    OnePSet(c, map[], E(e), PREPARED);
    OneQSet(map[], E(e), PREPARED);
    Overwritten(map[], 2, PEntry(0, e));
    Overwritten(map[], QIdx(2, e), 0 as nat);
    TwoCerts(c, one, D(d), P(E(e)), Q(E(e)));
    SecondLeaves(d, e);
  }

  lemma TwoCerts(c: Config, one: map<MsgId, Cert>, id: MsgId, p: map<nat, PEntry>, q: map<QIdx, nat>)
    requires Four(c) && id !in one && IsPSet(c, map[], one, p) && IsQSet(map[], one, q) && QIdx(id.n, id.d) !in q
    ensures IsPSet(c, map[], one[id := ACCEPTED], p) && IsQSet(map[], one[id := ACCEPTED], q[QIdx(id.n, id.d) := id.v])
  {
    assert c.Q() == 3;
    Handlers.PSetStep(c, map[], one, id, ACCEPTED, p);
    Handlers.QSetStep(map[], one, id, ACCEPTED, q);
  }

  lemma SecondLeaves(d: Digest, e: Digest)
    ensures CanLeave(Second(d, e), 2)
  {
    var a := Second(d, e);
    assert D(d) in a.certs && E(e) in a.certs;
  }

  lemma SecondToTwo(c: Config, g: Digest, st: Stage, d: Digest, e: Digest)
    requires Four(c) && On(c, Guards(g), st) && st.second == Second(d, e)
    ensures On(c, Guards(g), st.Put(2, ToTwo(g, d, e).second))
  {
    SecondKeeps(c, d, e);
    ReportsBoth(g, 2, 2, E(e), D(d));
    LeavesWith(c, Guards(g), st, 2, 2, P(E(e)), Q2(E(e), D(d)), HonestBases(g, d, e)[0]);
  }

  lemma OthersToTwo(c: Config, g: Digest, st: Stage, d: Digest, e: Digest)
    requires Four(c) && On(c, Guards(g), st) && st.third == Newcomer() && st.fourth == Prepared2(Newcomer(), 4, 2, E(e))
    ensures On(c, Guards(g), Stage(st.second, ToTwo(g, d, e).third, ToTwo(g, d, e).fourth))
  {
    LeavesIdle(c, Guards(g), st, 3, 2);
    LeavesPrepared(c, Guards(g), st.Put(3, ToTwo(g, d, e).third), 4, 2, 2, E(e), READY.(prepares := {4} + {2}));
  }

  lemma ReachesTwo(c: Config, g: Digest, d: Digest, e: Digest)
    requires Four(c)
    ensures On(c, Guards(g), ToTwo(g, d, e))
  {
    ReachesZero(c, g, d, e);
    OthersToTwo(c, g, InZero(d, e), d, e);
    SecondToTwo(c, g, Stage(Second(d, e), ToTwo(g, d, e).third, ToTwo(g, d, e).fourth), d, e);
  }

  /* ---------- two requests in a view ---------- */

  /** The replica knows of two requests in view 2, and only accepted the one under number 2. */
  function Knowing(a: Actor, d: Digest, ct: Cert, e: Digest): Actor {
    a.(inVC := false, certs := map[MsgId(2, 1, d) := ct, MsgId(2, 2, e) := ACCEPTED], seqMap := map[1 := d, 2 := e])
  }

  lemma EnteringTwo(a: Actor, s: seq<VcBasis>, d: Digest, e: Digest)
    requires a.view == 2
    ensures Entering(a, Listing(s, 0, [XEntry(1, d), XEntry(2, e)])) == Knowing(a, d, ACCEPTED, e)
  {
    var nv := Listing(s, 0, [XEntry(1, d), XEntry(2, e)]);
    assert nv.xset == map[1 := d, 2 := e];
    assert NewIds(2, nv, 0) == {MsgId(2, 1, d), MsgId(2, 2, e)};
    assert Assigned(2, nv) == map[MsgId(2, 1, d) := ACCEPTED, MsgId(2, 2, e) := ACCEPTED];
  }

  lemma EntersTwo(c: Config, g: Digest, st: Stage, r: nat, s: seq<VcBasis>, d: Digest, e: Digest)
    requires Four(c) && On(c, Guards(g), st) && IsHonest(r) && KnowsBases(st, s) && IsWaiting(st.Of(r)) && st.Of(r).view == 2
    requires Gathered(g, 2, s) && Assignment(c, s, 0) == Some([XEntry(1, d), XEntry(2, e)])
    requires KnowsNewView(c, st, 2, Listing(s, 0, [XEntry(1, d), XEntry(2, e)]))
    ensures On(c, Guards(g), st.Put(r, Knowing(st.Of(r), d, ACCEPTED, e)))
  {
    GatheredOnce(c, g, 2, s);
    GatheredPasses(c, g, 2, s, [XEntry(1, d), XEntry(2, e)]);
    EnteringTwo(st.Of(r), s, d, e);
    Enters(c, Guards(g), st, r, Listing(s, 0, [XEntry(1, d), XEntry(2, e)]));
  }

  function Preparer(a: Actor, r: nat, d: Digest, e: Digest): Actor {
    Knowing(a, d, READY.(prepares := {r} + {1}), e)
  }

  lemma PreparerIs(a: Actor, r: nat, d: Digest, e: Digest)
    ensures var id := MsgId(2, 1, d);
            Hearing(Preparing(Knowing(a, d, ACCEPTED, e), r, id), 1, id) == Preparer(a, r, d, e).(prepares := a.prepares + {id})
  {
    var id := MsgId(2, 1, d);
    var certs := Knowing(a, d, ACCEPTED, e).certs;
    assert {} + {r} == {r};
    assert certs[id := READY.(prepares := {r})][id := READY.(prepares := {r} + {1})] == Preparer(a, r, d, e).certs;
  }

  lemma HearsOfTwo(c: Config, g: Digest, st: Stage, r: nat, a: Actor, d: Digest, e: Digest)
    requires Four(c) && (r == 2 || r == 4) && a.view == 2
    requires On(c, Guards(g), st.Put(r, Preparing(Knowing(a, d, ACCEPTED, e), r, MsgId(2, 1, d))))
    ensures On(c, Guards(g), st.Put(r, Preparer(a, r, d, e).(prepares := a.prepares + {MsgId(2, 1, d)})))
  {
    var id := MsgId(2, 1, d);
    var x := Preparing(Knowing(a, d, ACCEPTED, e), r, id);
    PutTwice(st, r, x, Hearing(x, 1, id));
    Hears(c, Guards(g), st.Put(r, x), r, 1, id);
    PreparerIs(a, r, d, e);
  }

  /** A backup prepares what it knows under number 1, with the prepare of the faulty replica. */
  lemma PreparesOfTwo(c: Config, g: Digest, st: Stage, r: nat, a: Actor, d: Digest, e: Digest)
    requires Four(c) && On(c, Guards(g), st) && (r == 2 || r == 4) && a.view == 2 && st.Of(r) == Knowing(a, d, ACCEPTED, e)
    ensures On(c, Guards(g), st.Put(r, Preparer(a, r, d, e)))
  {
    var x := Preparer(a, r, d, e).(prepares := a.prepares + {MsgId(2, 1, d)});
    Prepares(c, Guards(g), st, r, MsgId(2, 1, d));
    HearsOfTwo(c, g, st, r, a, d, e);
    PutTwice(st, r, x, Preparer(a, r, d, e));
    Forget(c, Guards(g), st.Put(r, x), r, Preparer(a, r, d, e));
  }

  /* ---------- view 2 ---------- */

  lemma HonestKnown(g: Digest, d: Digest, e: Digest, st: Stage)
    requires HonestBases(g, d, e)[0] in st.second.bases && HonestBases(g, d, e)[1] in st.third.bases
    requires HonestBases(g, d, e)[2] in st.fourth.bases
    ensures KnowsBases(st, HonestBases(g, d, e)) && KnowsBases(st, AllBases(g, d, e))
  {
    ThreeKnown(st, HonestBases(g, d, e));
    FourKnown(st, AllBases(g, d, e));
  }

  /** Replica 3 after its first announcement, and after the second one. */
  function Once(g: Digest, d: Digest, e: Digest): Actor {
    Announcing(ToTwo(g, d, e).third, FirstView(g, d, e))
  }

  function Twice(g: Digest, d: Digest, e: Digest): Actor {
    Announcing(Once(g, d, e).(stored := map[]), SecondView(g, d, e))
  }

  lemma AnnouncesFirst(c: Config, g: Digest, d: Digest, e: Digest)
    requires Four(c) && c.l >= 2 && e != NULL_REQUEST
    ensures On(c, Guards(g), ToTwo(g, d, e).Put(3, Once(g, d, e)))
  {
    ReachesTwo(c, g, d, e);
    HonestKnown(g, d, e, ToTwo(g, d, e));
    BasesHold(g, d, e);
    HonestAssign(c, g, d, e);
    AnnouncesList(c, Guards(g), ToTwo(g, d, e), 3, HonestBases(g, d, e), FirstList(e));
  }

  /** Replica 2 enters the first new view and prepares the null request. */
  function SecondIn(g: Digest, d: Digest, e: Digest): Actor {
    Preparer(ToTwo(g, d, e).second, 2, NULL_REQUEST, e)
  }

  lemma SecondEnters(c: Config, g: Digest, d: Digest, e: Digest)
    requires Four(c) && c.l >= 2 && e != NULL_REQUEST
    ensures On(c, Guards(g), Stage(SecondIn(g, d, e), Once(g, d, e), ToTwo(g, d, e).fourth))
  {
    var st, a := ToTwo(g, d, e).Put(3, Once(g, d, e)), ToTwo(g, d, e).second;
    AnnouncesFirst(c, g, d, e);
    HonestKnown(g, d, e, st);
    BasesHold(g, d, e);
    HonestAssign(c, g, d, e);
    EntersTwo(c, g, st, 2, HonestBases(g, d, e), NULL_REQUEST, e);
    PreparesOfTwo(c, g, st.Put(2, Knowing(a, NULL_REQUEST, ACCEPTED, e)), 2, a, NULL_REQUEST, e);
  }

  /** Replica 3 repeats its view change and announces again. */
  lemma AnnouncesSecond(c: Config, g: Digest, st: Stage, d: Digest, e: Digest)
    requires Four(c) && c.l >= 2 && e != NULL_REQUEST && On(c, Guards(g), st) && st.third == Once(g, d, e)
    requires KnowsBases(st, AllBases(g, d, e))
    ensures On(c, Guards(g), st.Put(3, Twice(g, d, e)))
  {
    var x := Once(g, d, e).(stored := map[]);
    Repeats(c, g, st, d, e);
    StillKnown(st, 3, x, AllBases(g, d, e));
    BasesHold(g, d, e);
    AllAssign(c, g, d, e);
    AnnouncesList(c, Guards(g), st.Put(3, x), 3, AllBases(g, d, e), SecondList(d, e));
    PutTwice(st, 3, x, Twice(g, d, e));
  }

  lemma Repeats(c: Config, g: Digest, st: Stage, d: Digest, e: Digest)
    requires Four(c) && On(c, Guards(g), st) && st.third == Once(g, d, e)
    ensures On(c, Guards(g), st.Put(3, Once(g, d, e).(stored := map[])))
  {
    ReportsNone(g, 3, 2);
    LeavesNone(c, Guards(g), st, 3, 2, HonestBases(g, d, e)[1]);
    assert Once(g, d, e).stored - {2} == map[];
  }

  /** Replica 4 enters the second new view and prepares d. */
  function Apart(g: Digest, d: Digest, e: Digest): Stage {
    Stage(SecondIn(g, d, e), Twice(g, d, e), Preparer(ToTwo(g, d, e).fourth, 4, d, e))
  }

  lemma FourthEnters(c: Config, g: Digest, st: Stage, d: Digest, e: Digest)
    requires Four(c) && c.l >= 2 && e != NULL_REQUEST && On(c, Guards(g), st)
    requires st.third == Twice(g, d, e) && st.fourth == ToTwo(g, d, e).fourth && KnowsBases(st, AllBases(g, d, e))
    ensures On(c, Guards(g), st.Put(4, Preparer(st.fourth, 4, d, e)))
  {
    BasesHold(g, d, e);
    AllAssign(c, g, d, e);
    EntersTwo(c, g, st, 4, AllBases(g, d, e), d, e);
    PreparesOfTwo(c, g, st.Put(4, Knowing(st.fourth, d, ACCEPTED, e)), 4, st.fourth, d, e);
  }

  lemma ReachesApart(c: Config, g: Digest, d: Digest, e: Digest)
    requires Four(c) && c.l >= 2 && e != NULL_REQUEST
    ensures On(c, Guards(g), Apart(g, d, e))
  {
    var st := Stage(SecondIn(g, d, e), Once(g, d, e), ToTwo(g, d, e).fourth);
    SecondEnters(c, g, d, e);
    HonestKnown(g, d, e, st);
    AnnouncesSecond(c, g, st, d, e);
    StillKnown(st, 3, Twice(g, d, e), AllBases(g, d, e));
    FourthEnters(c, g, st.Put(3, Twice(g, d, e)), d, e);
  }

  lemma HoldsPrepared(c: Config, g: Digest, s: Node, a: Actor, r: nat, d: Digest, e: Digest)
    requires Four(c) && r != 1 && Plays(g, s, Preparer(a, r, d, e))
    ensures Prepared(c, s.certs, MsgId(2, 1, d))
  {
    TwoAtLeast(r, 1, {r} + {1});
    assert c.Q() == 3;
  }

  /** Guarded steps lead to a state in which two honest replicas hold prepared certificates with different
      digests under one view and number, because the honest primary of the view announced two new views:
      Unambiguous cannot be dropped from PreparedCertificatesAgree. */
  lemma TwoArePrepared(c: Config, g: Digest, d: Digest, e: Digest) returns (steps: seq<Action>, sys: Sys)
    requires Four(c) && c.l >= 2 && d != NULL_REQUEST && e != NULL_REQUEST
    ensures Reaches(c, g, steps, sys) && GuardedSteps(c, steps)
    ensures 2 in sys && Prepared(c, sys[2].certs, MsgId(2, 1, NULL_REQUEST))
    ensures 4 in sys && Prepared(c, sys[4].certs, MsgId(2, 1, d))
    ensures c.Primary(2) in sys && !Unambiguous(c, sys, 2)
  {
    ReachesApart(c, g, d, e);
    steps, sys := Outcome(c, Guards(g), Apart(g, d, e));
    HoldsPrepared(c, g, sys[2], ToTwo(g, d, e).second, 2, NULL_REQUEST, e);
    HoldsPrepared(c, g, sys[4], ToTwo(g, d, e).fourth, 4, d, e);
    IsAmbiguous(c, g, steps, sys, d);
  }

  lemma IsAmbiguous(c: Config, g: Digest, steps: seq<Action>, sys: Sys, d: Digest)
    requires Four(c) && Reaches(c, g, steps, sys) && GuardedSteps(c, steps) && d != NULL_REQUEST
    requires 2 in sys && Prepared(c, sys[2].certs, MsgId(2, 1, NULL_REQUEST))
    requires 4 in sys && Prepared(c, sys[4].certs, MsgId(2, 1, d))
    ensures !Unambiguous(c, sys, 2)
  {
    if Unambiguous(c, sys, 2) {
      PreparedCertificatesAgree(c, g, steps, sys, 2, MsgId(2, 1, NULL_REQUEST), 4, MsgId(2, 1, d));
    }
  }

  /* ---------- view 3 ---------- */

  /** What the replicas report of view 2; replica 3 has processed its second new view there. */
  function LaterBases(g: Digest, d: Digest, e: Digest): seq<VcBasis> {
    [Basis(g, 3, 2, [VcPq(2, e, 0), VcPq(1, NULL_REQUEST, 2)], [VcPq(2, e, 2), VcPq(1, d, 0), VcPq(1, NULL_REQUEST, 2)]),
     Basis(g, 3, 3, [], [VcPq(1, d, 2), VcPq(2, e, 2)]),
     Basis(g, 3, 4, [VcPq(2, e, 0), VcPq(1, d, 2)], [VcPq(2, e, 2), VcPq(1, d, 2)])]
  }

  lemma LaterHold(g: Digest, d: Digest, e: Digest)
    ensures var s := LaterBases(g, d, e);
            && s[0].pset == [VcPq(2, e, 0), VcPq(1, NULL_REQUEST, 2)] && s[1].pset == []
            && s[2].pset == [VcPq(2, e, 0), VcPq(1, d, 2)]
  {
  }

  lemma LaterUnselectable(c: Config, g: Digest, d: Digest, e: Digest)
    requires Four(c) && d != NULL_REQUEST
    ensures !Selectable(c, LaterBases(g, d, e), VcPq(1, NULL_REQUEST, 2)) && !Selectable(c, LaterBases(g, d, e), VcPq(1, d, 2))
  {
    var s := LaterBases(g, d, e);
    LaterHold(g, d, e);
    assert !Compatible(s[2].pset[1], VcPq(1, NULL_REQUEST, 2)) && !Compatible(s[0].pset[1], VcPq(1, d, 2));
    Contradicted(c, s, VcPq(1, NULL_REQUEST, 2), 2);
    Contradicted(c, s, VcPq(1, d, 2), 0);
  }

  lemma LaterNull(c: Config, g: Digest, d: Digest, e: Digest)
    requires Four(c)
    ensures |NullVoters(LaterBases(g, d, e), 1)| < c.Q()
  {
    var s := LaterBases(g, d, e);
    LaterHold(g, d, e);
    assert s[0].pset[1].n == 1 && s[2].pset[1].n == 1;
    SubsetCount(NullVoters(s, 1), {1});
    assert c.Q() == 3;
  }

  /** Number 1 is undecided. */
  lemma LaterSlot(c: Config, g: Digest, d: Digest, e: Digest)
    requires Four(c) && d != NULL_REQUEST
    ensures SlotOf(c, LaterBases(g, d, e), 1) == Stuck
  {
    var s := LaterBases(g, d, e);
    LaterUnselectable(c, g, d, e);
    LaterNull(c, g, d, e);
    LaterHold(g, d, e);
    if FirstFrom(c, s, 0, 1).Some? {
      var m, j := FirstFromSome(c, s, 0, 1);
    }
  }

  lemma LaterStuck(c: Config, g: Digest, d: Digest, e: Digest)
    requires Four(c) && d != NULL_REQUEST
    ensures Assignment(c, LaterBases(g, d, e), 0) == None
  {
    LaterSlot(c, g, d, e);
    FirstStuck(c, LaterBases(g, d, e));
  }

  /** The lists of a replica that leaves view 2. */
  function PAfter(a: Actor, d: Digest, ct: Cert): map<nat, PEntry> {
    if |ct.prepares| >= 2 then a.plist[1 := PEntry(2, d)] else a.plist
  }

  function QAfter(a: Actor, d: Digest, e: Digest): map<QIdx, nat> {
    a.qlist[QIdx(1, d) := 2][QIdx(2, e) := 2]
  }

  ghost predicate OnlyOld(a: Actor) {
    (forall n :: n in a.plist ==> a.plist[n].v < 2) && forall x :: x in a.qlist ==> a.qlist[x] < 2
  }

  lemma KnowingKeeps(c: Config, a: Actor, d: Digest, ct: Cert, e: Digest)
    requires Four(c) && OnlyOld(a) && ct.prePrepared
    ensures Keeps(c, Knowing(a, d, ct, e), PAfter(a, d, ct), QAfter(a, d, e))
  {
    var one := map[MsgId(2, 1, d) := ct];
    OnePSet(c, a.plist, MsgId(2, 1, d), ct);
    OneQSet(a.qlist, MsgId(2, 1, d), ct);
    assert c.Q() == 3;
    Handlers.PSetStep(c, a.plist, one, MsgId(2, 2, e), ACCEPTED, PAfter(a, d, ct));
    Handlers.QSetStep(a.qlist, one, MsgId(2, 2, e), ACCEPTED, a.qlist[QIdx(1, d) := 2]);
    assert one[MsgId(2, 2, e) := ACCEPTED] == Knowing(a, d, ct, e).certs;
  }

  lemma KnowingLeaves(a: Actor, d: Digest, ct: Cert, e: Digest)
    requires a.view == 2
    ensures CanLeave(Knowing(a, d, ct, e), 3)
  {
    assert MsgId(2, 1, d) in Knowing(a, d, ct, e).certs && MsgId(2, 2, e) in Knowing(a, d, ct, e).certs;
  }

  lemma LeavesTwo(c: Config, g: Digest, st: Stage, r: nat, a: Actor, d: Digest, ct: Cert, e: Digest, b: VcBasis) returns (x: Actor)
    requires Four(c) && On(c, Guards(g), st) && IsHonest(r) && st.Of(r) == Knowing(a, d, ct, e)
    requires OnlyOld(a) && ct.prePrepared && a.view == 2 && Reports(g, r, 3, PAfter(a, d, ct), QAfter(a, d, e), b)
    ensures On(c, Guards(g), st.Put(r, x)) && b in x.bases
  {
    KnowingKeeps(c, a, d, ct, e);
    KnowingLeaves(a, d, ct, e);
    LeavesWith(c, Guards(g), st, r, 3, PAfter(a, d, ct), QAfter(a, d, e), b);
    x := Moved(st.Of(r), 3, PAfter(a, d, ct), QAfter(a, d, e), b);
  }

  lemma SecondReports(g: Digest, d: Digest, e: Digest)
    requires d != NULL_REQUEST
    ensures var a, ct := ToTwo(g, d, e).second, READY.(prepares := {2} + {1});
            OnlyOld(a) && Reports(g, 2, 3, PAfter(a, NULL_REQUEST, ct), QAfter(a, NULL_REQUEST, e), LaterBases(g, d, e)[0])
  {
    TwoAtLeast(2, 1, {2} + {1});
    assert PAfter(ToTwo(g, d, e).second, NULL_REQUEST, READY.(prepares := {2} + {1})) == map[2 := PEntry(0, e), 1 := PEntry(2, NULL_REQUEST)];
    assert QAfter(ToTwo(g, d, e).second, NULL_REQUEST, e) == map[QIdx(2, e) := 2, QIdx(1, d) := 0, QIdx(1, NULL_REQUEST) := 2];
  }

  lemma ThirdReports(g: Digest, d: Digest, e: Digest)
    ensures var a := Twice(g, d, e);
            OnlyOld(a) && Reports(g, 3, 3, PAfter(a, d, ACCEPTED), QAfter(a, d, e), LaterBases(g, d, e)[1])
  {
    assert PAfter(Twice(g, d, e), d, ACCEPTED) == map[];
    assert QAfter(Twice(g, d, e), d, e) == map[QIdx(1, d) := 2, QIdx(2, e) := 2];
  }

  lemma FourthReports(g: Digest, d: Digest, e: Digest)
    ensures var a, ct := ToTwo(g, d, e).fourth, READY.(prepares := {4} + {1});
            OnlyOld(a) && Reports(g, 4, 3, PAfter(a, d, ct), QAfter(a, d, e), LaterBases(g, d, e)[2])
  {
    TwoAtLeast(4, 1, {4} + {1});
    assert PAfter(ToTwo(g, d, e).fourth, d, READY.(prepares := {4} + {1})) == map[2 := PEntry(0, e), 1 := PEntry(2, d)];
    assert QAfter(ToTwo(g, d, e).fourth, d, e) == map[QIdx(2, e) := 2, QIdx(1, d) := 2];
  }

  /** Replica 3 processes its second new view. */
  lemma ThirdEnters(c: Config, g: Digest, st: Stage, d: Digest, e: Digest)
    requires Four(c) && c.l >= 2 && e != NULL_REQUEST && On(c, Guards(g), st)
    requires st.third == Twice(g, d, e) && KnowsBases(st, AllBases(g, d, e))
    ensures On(c, Guards(g), st.Put(3, Knowing(st.third, d, ACCEPTED, e)))
  {
    BasesHold(g, d, e);
    AllAssign(c, g, d, e);
    EntersTwo(c, g, st, 3, AllBases(g, d, e), d, e);
  }

  lemma ReachesEntered(c: Config, g: Digest, d: Digest, e: Digest)
    requires Four(c) && c.l >= 2 && e != NULL_REQUEST
    ensures On(c, Guards(g), Apart(g, d, e).Put(3, Knowing(Twice(g, d, e), d, ACCEPTED, e)))
  {
    ReachesApart(c, g, d, e);
    HonestKnown(g, d, e, Apart(g, d, e));
    ThirdEnters(c, g, Apart(g, d, e), d, e);
  }

  lemma AllLeave(c: Config, g: Digest, st: Stage, d: Digest, e: Digest) returns (x: Actor, y: Actor, z: Actor)
    requires Four(c) && d != NULL_REQUEST && On(c, Guards(g), st)
    requires st == Stage(SecondIn(g, d, e), Knowing(Twice(g, d, e), d, ACCEPTED, e), Preparer(ToTwo(g, d, e).fourth, 4, d, e))
    ensures On(c, Guards(g), Stage(x, y, z)) && KnowsBases(Stage(x, y, z), LaterBases(g, d, e))
  {
    var s := LaterBases(g, d, e);
    SecondReports(g, d, e);
    x := LeavesTwo(c, g, st, 2, ToTwo(g, d, e).second, NULL_REQUEST, READY.(prepares := {2} + {1}), e, s[0]);
    ThirdReports(g, d, e);
    y := LeavesTwo(c, g, st.Put(2, x), 3, Twice(g, d, e), d, ACCEPTED, e, s[1]);
    FourthReports(g, d, e);
    z := LeavesTwo(c, g, st.Put(2, x).Put(3, y), 4, ToTwo(g, d, e).fourth, d, READY.(prepares := {4} + {1}), e, s[2]);
    ThreeKnown(Stage(x, y, z), s);
  }

  /** Going on from there, guarded steps lead to a state in which the bases of all honest replicas for view
      3 assign nothing, although the primary has processed the new view it announced last. */
  lemma StuckAfterTwo(c: Config, g: Digest, d: Digest, e: Digest) returns (steps: seq<Action>, sys: Sys)
    requires Four(c) && c.l >= 2 && d != NULL_REQUEST && e != NULL_REQUEST
    ensures Reaches(c, g, steps, sys) && GuardedSteps(c, steps)
    ensures var s := LaterBases(g, d, e);
            && AllSent(c, sys, s) && (forall r :: r in c.Honest() ==> exists i :: 0 <= i < |s| && s[i].id == r)
            && (forall i :: 0 <= i < |s| ==> s[i].id in c.Honest() && s[i].view == 3 && s[i].h == 0)
            && Assignment(c, s, 0) == None
  {
    ReachesEntered(c, g, d, e);
    var x, y, z := AllLeave(c, g, Apart(g, d, e).Put(3, Knowing(Twice(g, d, e), d, ACCEPTED, e)), d, e);
    steps, sys := Outcome(c, Guards(g), Stage(x, y, z));
    BasesSent(c, g, sys, Stage(x, y, z), LaterBases(g, d, e));
    LaterStuck(c, g, d, e);
    LaterSenders(c, g, d, e);
  }

  lemma LaterSenders(c: Config, g: Digest, d: Digest, e: Digest)
    requires Four(c)
    ensures var s := LaterBases(g, d, e);
            && (forall r :: r in c.Honest() ==> exists i :: 0 <= i < |s| && s[i].id == r)
            && (forall i :: 0 <= i < |s| ==> s[i].id in c.Honest() && s[i].view == 3 && s[i].h == 0)
  {
    FourFacts(c);
    var s := LaterBases(g, d, e);
    assert s[0].id == 2 && s[1].id == 3 && s[2].id == 4;
  }
}
