/** A run in which two honest replicas commit different requests under one number. One replica has
    executed a null request there; it repeats its commit in a later view for what that view assigns,
    without preparing it, so the next new view does not learn of the commit it took part in. */
module NullRun {
  import opened Quorum
  import opened NewView
  import opened Replica
  import opened Protocol
  import opened Agreement
  import opened SmallViews
  import opened Scenes
  import opened Rounds
  import opened TwoViews

  const NULL_ID := MsgId(0, 1, NULL_REQUEST)

  /* ---------- the new views ---------- */

  /** Bases that hold the null request in P and in Q, with further entries in Q. */
  ghost predicate AllNull(g: Digest, w: nat, s: seq<VcBasis>) {
    Gathered(g, w, s) && forall i :: 0 <= i < |s| ==> s[i].pset == [EntryOf(NULL_ID)] && EntryOf(NULL_ID) in s[i].qset
  }

  /** The null request is chosen, and pruned. */
  lemma AllNullAssigns(c: Config, g: Digest, w: nat, s: seq<VcBasis>)
    requires Four(c) && AllNull(g, w, s)
    ensures Assignment(c, s, 0) == Some([])
  {
    var em := EntryOf(NULL_ID);
    assert SupportsA2(s[0], em) && SupportsA2(s[1], em);
    Supported(c, s, em, 0, 1);
    OnlyChoice(c, s, 1, 0, 0);
    RestIsNull(c, g, w, s, [Chosen(NULL_REQUEST)]);
    NothingAssigned(c, s, [Chosen(NULL_REQUEST)]);
  }

  function BasesOfFour(g: Digest): seq<VcBasis> {
    [Reporting(g, 4, 3, NULL_ID), Reporting(g, 4, 4, NULL_ID), Reporting(g, 4, 1, NULL_ID)]
  }

  /** In view 8 the faulty replica claims to have prepared d in view 4. */
  function BasesOfEight(g: Digest, d: Digest): seq<VcBasis> {
    [Reporting(g, 8, 1, MsgId(4, 1, d)), Reporting(g, 8, 3, NULL_ID), ReportingBoth(g, 8, 4, NULL_ID, MsgId(4, 1, d))]
  }

  lemma EightGathered(g: Digest, d: Digest)
    ensures var s := BasesOfEight(g, d);
            && Gathered(g, 8, s) && s[0].pset == [VcPq(1, d, 4)]
            && s[1].pset == [EntryOf(NULL_ID)] && s[2].pset == [EntryOf(NULL_ID)] && s[2].qset[1] == VcPq(1, d, 4)
  {
  }

  lemma EightAssigns(c: Config, g: Digest, d: Digest)
    requires Four(c) && d != NULL_REQUEST
    ensures Gathered(g, 8, BasesOfEight(g, d)) && Assignment(c, BasesOfEight(g, d), 0) == Some([XEntry(1, d)])
  {
    var s := BasesOfEight(g, d);
    EightGathered(g, d);
    EightChooses(c, g, d);
    RestIsNull(c, g, 8, s, [Chosen(d)]);
    OneAssigned(c, s, d);
  }

  lemma EightChooses(c: Config, g: Digest, d: Digest)
    requires Four(c) && d != NULL_REQUEST
    ensures SlotOf(c, BasesOfEight(g, d), 1) == Chosen(d)
  {
    var s := BasesOfEight(g, d);
    var em := VcPq(1, d, 4);
    EightGathered(g, d);
    assert s[0].qset[0] == em;
    Supported(c, s, em, 0, 2);
    assert !Compatible(s[0].pset[0], EntryOf(NULL_ID));
    Contradicted(c, s, EntryOf(NULL_ID), 0);
    OnlyChoice(c, s, 1, 0, 0);
  }

  function BasesOfTwelve(g: Digest, d: Digest): seq<VcBasis> {
    [ReportingBoth(g, 12, 3, NULL_ID, MsgId(8, 1, d)), ReportingBoth(g, 12, 4, NULL_ID, MsgId(4, 1, d)), Reporting(g, 12, 1, NULL_ID)]
  }

  lemma NullLists(g: Digest, d: Digest)
    ensures AllNull(g, 4, BasesOfFour(g)) && AllNull(g, 12, BasesOfTwelve(g, d))
  {
  }

  /* ---------- view 0: a null request is executed ---------- */

  const EXECUTED := Decided(3, 4).(sentExecute := true)

  function Executor(): Actor {
    Committed3(Newcomer(), 3, 4, NULL_ID).(certs := map[NULL_ID := EXECUTED], executed := [NULL_ID])
  }

  lemma ReachesExecuted(c: Config, g: Digest)
    requires Four(c)
    ensures On(c, Guards(g), Parted(NULL_ID).Put(3, Executor()))
  {
    ReachesParted(c, Guards(g), NULL_ID);
    Sizes(3, 4);
    Executes(c, Guards(g), Parted(NULL_ID), 3, NULL_ID);
    ExecutorIs();
  }

  lemma ExecutorIs()
    ensures Executing(Committed3(Newcomer(), 3, 4, NULL_ID), NULL_ID) == Executor()
  {
    assert map[NULL_ID := Decided(3, 4)][NULL_ID := EXECUTED] == map[NULL_ID := EXECUTED];
    assert [] + [NULL_ID] == [NULL_ID];
  }

  /* ---------- view 4: the null request is pruned, another one accepted ---------- */

  /** A replica that reports the null request in view w. */
  function Reporter(g: Digest, w: nat, r: nat, executed: seq<MsgId>): Actor {
    Actor(w, true, map[], map[], P(NULL_ID), Q(NULL_ID), executed, map[], {}, {}, {Reporting(g, w, r, NULL_ID)}, {})
  }

  function ToFour(g: Digest): Stage {
    Stage(Newcomer(), Reporter(g, 4, 3, [NULL_ID]), Reporter(g, 4, 4, []))
  }

  lemma ToFourOne(c: Config, g: Digest, st: Stage, r: nat, q: nat, ct: Cert)
    requires Four(c) && On(c, Guards(g), st) && TwoHonest(r, q) && HasOnly(st.Of(r), NULL_ID, ct) && KnewNothing(st.Of(r))
    requires ct.prePrepared && {r} + {q} <= ct.prepares
    ensures On(c, Guards(g), st.Put(r, Reporter(g, 4, r, st.Of(r).executed)))
  {
    LeavesPrepared(c, Guards(g), st, r, q, 4, NULL_ID, ct);
  }

  predicate KnewNothing(a: Actor) {
    a.plist == map[] && a.qlist == map[] && a.stored == map[] && a.announced == {}
  }

  lemma BothToFour(c: Config, g: Digest, st: Stage)
    requires Four(c) && On(c, Guards(g), st) && KnewNothing(st.third) && KnewNothing(st.fourth)
    requires HasOnly(st.third, NULL_ID, EXECUTED) && st.third.executed == [NULL_ID]
    requires HasOnly(st.fourth, NULL_ID, Cert(true, true, {4} + {3}, true, {4}, false)) && st.fourth.executed == []
    ensures On(c, Guards(g), Stage(st.second, ToFour(g).third, ToFour(g).fourth))
  {
    ToFourOne(c, g, st, 3, 4, EXECUTED);
    ToFourOne(c, g, st.Put(3, Reporter(g, 4, 3, [NULL_ID])), 4, 3, Cert(true, true, {4} + {3}, true, {4}, false));
  }

  lemma ReachesFour(c: Config, g: Digest)
    requires Four(c)
    ensures On(c, Guards(g), ToFour(g))
  {
    ReachesExecuted(c, g);
    BothToFour(c, g, Parted(NULL_ID).Put(3, Executor()));
  }

  /** Replica 4 has entered view 4 and accepted d. */
  function InFour(g: Digest, d: Digest): Stage {
    ToFour(g).Put(4, With(Reporter(g, 4, 4, []).(inVC := false), MsgId(4, 1, d), ACCEPTED))
  }

  lemma FourKnown(g: Digest)
    ensures KnowsBases(ToFour(g), BasesOfFour(g))
  {
    ThreeKnown(ToFour(g), BasesOfFour(g));
  }

  lemma ReachesAccepted(c: Config, g: Digest, d: Digest)
    requires Four(c)
    ensures On(c, Guards(g), InFour(g, d))
  {
    ReachesFour(c, g);
    FourKnown(g);
    NullLists(g, d);
    AllNullAssigns(c, g, 4, BasesOfFour(g));
    EntersNone(c, Guards(g), ToFour(g), 4, BasesOfFour(g));
    AcceptsOne(c, Guards(g), ToFour(g).Put(4, Reporter(g, 4, 4, []).(inVC := false)), 4, MsgId(4, 1, d));
  }

  /* ---------- view 8: d is assigned and committed by replica 2 ---------- */

  /** A replica that reports the null request in P, and d in Q as well. */
  function ReporterOfBoth(g: Digest, w: nat, r: nat, executed: seq<MsgId>, id: MsgId): Actor {
    Actor(w, true, map[], map[], P(NULL_ID), Q2(NULL_ID, id), executed, map[], {}, {}, {ReportingBoth(g, w, r, NULL_ID, id)}, {})
  }

  function ToEight(g: Digest, d: Digest): Stage {
    Stage(Moved(Newcomer(), 8, map[], map[], Basis(g, 8, 2, [], [])), Reporter(g, 8, 3, [NULL_ID]),
          ReporterOfBoth(g, 8, 4, [], MsgId(4, 1, d)))
  }

  lemma FourthToEight(c: Config, g: Digest, st: Stage, d: Digest)
    requires Four(c) && d != NULL_REQUEST && On(c, Guards(g), st)
    requires st.fourth == With(Reporter(g, 4, 4, []).(inVC := false), MsgId(4, 1, d), ACCEPTED)
    ensures On(c, Guards(g), st.Put(4, ReporterOfBoth(g, 8, 4, [], MsgId(4, 1, d))))
  {
    LeavesAccepted(c, Guards(g), st, 4, 8, NULL_ID, MsgId(4, 1, d), ACCEPTED);
  }

  lemma ReachesEight(c: Config, g: Digest, d: Digest)
    requires Four(c) && d != NULL_REQUEST
    ensures On(c, Guards(g), ToEight(g, d))
  {
    ReachesAccepted(c, g, d);
    var st := InFour(g, d);
    LeavesIdle(c, Guards(g), st, 2, 8);
    st := st.Put(2, ToEight(g, d).second);
    LeavesAgain(c, Guards(g), st, 3, 8, NULL_ID);
    FourthToEight(c, g, st.Put(3, ToEight(g, d).third), d);
  }

  /** Replicas 2 and 3 in view 8. */
  function InEight(g: Digest, d: Digest, a: Cert, b: Cert): Stage {
    var st := ToEight(g, d);
    Stage(With(st.second.(inVC := false), MsgId(8, 1, d), a), With(st.third.(inVC := false), MsgId(8, 1, d), b), st.fourth)
  }

  lemma EightKnown(g: Digest, d: Digest)
    ensures KnowsBases(ToEight(g, d), BasesOfEight(g, d))
  {
    ThreeKnown(ToEight(g, d), BasesOfEight(g, d));
  }

  lemma ReachesEntered(c: Config, g: Digest, d: Digest)
    requires Four(c) && d != NULL_REQUEST
    ensures On(c, Guards(g), InEight(g, d, ACCEPTED, ACCEPTED))
  {
    ReachesEight(c, g, d);
    EightKnown(g, d);
    EightAssigns(c, g, d);
    BothEnterOne(c, Guards(g), ToEight(g, d), 2, 3, BasesOfEight(g, d), 8, d);
  }

  const AGAIN := Cert(true, true, {3}, true, {3}, false)

  function Repeated(st: Stage, id: MsgId): Actor {
    With(st.third, id, AGAIN).(prepares := {id}, commits := {id})
  }

  /** Replica 3 repeats its prepare and its commit, although it has prepared nothing. */
  lemma ThirdRepeats(c: Config, g: Digest, st: Stage, id: MsgId)
    requires Four(c) && On(c, Guards(g), st) && HasOnly(st.third, id, ACCEPTED) && c.Primary(id.v) == 1
    requires st.third.prepares == {} && st.third.commits == {} && id.n == |st.third.executed|
    ensures On(c, Guards(g), st.Put(3, Repeated(st, id)))
  {
    var x := With(st.third, id, READY.(prepares := {} + {3})).(prepares := {} + {id});
    PreparesOne(c, Guards(g), st, 3, id, ACCEPTED);
    RecommitsOne(c, Guards(g), st.Put(3, x), 3, id, READY.(prepares := {} + {3}));
    RepeatedIs(st, id);
  }

  lemma RepeatedIs(st: Stage, id: MsgId)
    requires st.third.commits == {}
    ensures var x := With(st.third, id, READY.(prepares := {} + {3})).(prepares := {} + {id});
            With(x, id, Cert(true, true, {} + {3}, true, {} + {3}, false)).(commits := x.commits + {id}) == Repeated(st, id)
  {
    assert {} + {3} == {3} && {} + {id} == {id};
  }

  function Committed8(g: Digest, d: Digest): Stage {
    var st := InEight(g, d, Decided(2, 3), ACCEPTED);
    st.Put(3, Repeated(st, MsgId(8, 1, d)))
  }

  lemma ReachesCommitted(c: Config, g: Digest, d: Digest)
    requires Four(c) && d != NULL_REQUEST
    ensures On(c, Guards(g), Committed8(g, d))
  {
    ReachesEntered(c, g, d);
    var st, id := InEight(g, d, ACCEPTED, ACCEPTED), MsgId(8, 1, d);
    ThirdRepeats(c, g, st, id);
    Follows(c, Guards(g), st.Put(3, Repeated(st, id)), 2, 3, id);
  }

  /* ---------- view 12: another request is committed by replica 4 ---------- */

  function ToTwelve(g: Digest, d: Digest): Stage {
    Stage(Committed8(g, d).second, ReporterOfBoth(g, 12, 3, [NULL_ID], MsgId(8, 1, d)), ReporterOfBoth(g, 12, 4, [], MsgId(4, 1, d)))
  }

  lemma ThirdToTwelve(c: Config, g: Digest, st: Stage, id: MsgId)
    requires Four(c) && On(c, Guards(g), st) && HasOnly(st.third, id, AGAIN) && id.v < 12 && id.d != NULL_REQUEST
    requires st.third.plist == P(NULL_ID) && st.third.qlist == Q(NULL_ID)
    requires st.third.stored == map[] && st.third.announced == {} && st.third.executed == [NULL_ID]
    ensures On(c, Guards(g), st.Put(3, ReporterOfBoth(g, 12, 3, [NULL_ID], id)))
  {
    LeavesAccepted(c, Guards(g), st, 3, 12, NULL_ID, id, AGAIN);
  }

  lemma BothToTwelve(c: Config, g: Digest, st: Stage, id: MsgId, d: Digest)
    requires Four(c) && On(c, Guards(g), st) && HasOnly(st.third, id, AGAIN) && id.v < 12 && id.d != NULL_REQUEST
    requires st.third.plist == P(NULL_ID) && st.third.qlist == Q(NULL_ID)
    requires st.third.stored == map[] && st.third.announced == {} && st.third.executed == [NULL_ID]
    requires d != NULL_REQUEST && st.fourth == ReporterOfBoth(g, 8, 4, [], MsgId(4, 1, d))
    ensures On(c, Guards(g), Stage(st.second, ReporterOfBoth(g, 12, 3, [NULL_ID], id), ReporterOfBoth(g, 12, 4, [], MsgId(4, 1, d))))
  {
    ThirdToTwelve(c, g, st, id);
    LeavesBothAgain(c, Guards(g), st.Put(3, ReporterOfBoth(g, 12, 3, [NULL_ID], id)), 4, 12, NULL_ID, MsgId(4, 1, d));
  }

  lemma ReachesTwelve(c: Config, g: Digest, d: Digest)
    requires Four(c) && d != NULL_REQUEST
    ensures On(c, Guards(g), ToTwelve(g, d))
  {
    ReachesCommitted(c, g, d);
    BothToTwelve(c, g, Committed8(g, d), MsgId(8, 1, d), d);
  }

  function InTwelve(g: Digest, d: Digest): Stage {
    var st := ToTwelve(g, d);
    Stage(st.second, st.third.(inVC := false), st.fourth.(inVC := false))
  }

  lemma TwelveKnown(g: Digest, d: Digest)
    ensures KnowsBases(ToTwelve(g, d), BasesOfTwelve(g, d))
  {
    ThreeKnown(ToTwelve(g, d), BasesOfTwelve(g, d));
  }

  lemma ReachesInTwelve(c: Config, g: Digest, d: Digest)
    requires Four(c) && d != NULL_REQUEST
    ensures On(c, Guards(g), InTwelve(g, d))
  {
    ReachesTwelve(c, g, d);
    TwelveKnown(g, d);
    NullLists(g, d);
    AllNullAssigns(c, g, 12, BasesOfTwelve(g, d));
    BothEnterNone(c, Guards(g), ToTwelve(g, d), 3, 4, BasesOfTwelve(g, d), 12);
  }

  function Last(g: Digest, d: Digest, id: MsgId): Stage {
    var st := InTwelve(g, d);
    Pair(st, 4, Committed3(st.fourth, 4, 3, id), 3, Committed1(st.third, 3, 4, id))
  }

  lemma SecondHolds(c: Config, g: Digest, s: Node, d: Digest)
    requires Four(c) && Plays(g, s, Committed8(g, d).second)
    ensures MsgId(8, 1, d) in s.certs && Committed(c, s.certs, MsgId(8, 1, d))
  {
    HoldsCommitted(c, g, s, Committed8(g, d).second, 2, 3, MsgId(8, 1, d));
  }

  lemma FourthHolds(c: Config, g: Digest, s: Node, a: Actor, id: MsgId)
    requires Four(c) && Plays(g, s, Committed3(a, 4, 3, id))
    ensures id in s.certs && Committed(c, s.certs, id)
  {
    HoldsCommitted(c, g, s, Committed3(a, 4, 3, id), 4, 3, id);
  }

  /** Guarded steps lead to a state in which two honest replicas hold committed certificates for one
      number with different digests, neither of them the null request, although every commit was sent
      inside its sender's window: NoNullExecuted cannot be dropped from agreement. */
  lemma DisagreementIsReachable(c: Config, g: Digest, d: Digest, e: Digest) returns (steps: seq<Action>, sys: Sys)
    requires Four(c) && d != NULL_REQUEST && e != NULL_REQUEST && d != e
    ensures Reaches(c, g, steps, sys) && GuardedSteps(c, steps)
    ensures 2 in sys && MsgId(8, 1, d) in sys[2].certs && Committed(c, sys[2].certs, MsgId(8, 1, d))
    ensures 4 in sys && MsgId(12, 1, e) in sys[4].certs && Committed(c, sys[4].certs, MsgId(12, 1, e))
    ensures Windowed(c, sys, 1) && !NoNullExecuted(sys, 1)
  {
    ReachesInTwelve(c, g, d);
    OneCommits(c, Guards(g), InTwelve(g, d), 4, 3, MsgId(12, 1, e));
    steps, sys := Outcome(c, Guards(g), Last(g, d, MsgId(12, 1, e)));
    SecondHolds(c, g, sys[2], d);
    FourthHolds(c, g, sys[4], InTwelve(g, d).fourth, MsgId(12, 1, e));
    AgreementNeedsNoNull(c, g, steps, sys, MsgId(8, 1, d), MsgId(12, 1, e));
  }

  lemma AgreementNeedsNoNull(c: Config, g: Digest, steps: seq<Action>, sys: Sys, a: MsgId, b: MsgId)
    requires Four(c) && Reaches(c, g, steps, sys) && GuardedSteps(c, steps)
    requires 2 in sys && a in sys[2].certs && Committed(c, sys[2].certs, a)
    requires 4 in sys && b in sys[4].certs && Committed(c, sys[4].certs, b)
    requires a.n == b.n == 1 && a.d != NULL_REQUEST && b.d != NULL_REQUEST && a.d != b.d
    ensures Windowed(c, sys, 1) && !NoNullExecuted(sys, 1)
  {
    OneWindowed(c, sys);
    if NoNullExecuted(sys, 1) {
      CommittedCertificatesAgree(c, g, steps, sys, 2, a, 4, b);
    }
  }
}
