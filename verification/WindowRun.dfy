/** A run in which two honest replicas commit different requests under the number just above the window:
    a backup accepts any number above its low watermark, and a new view assigns only the window. */
module WindowRun {
  import opened Quorum
  import opened NewView
  import opened Replica
  import opened Protocol
  import opened Agreement
  import opened SmallViews
  import opened Scenes
  import opened Rounds
  import opened TwoViews

  /** The first number outside the window of low watermark 0. */
  function Above(c: Config): nat {
    c.l + 1
  }

  function Old(c: Config, d: Digest): MsgId {
    MsgId(0, Above(c), d)
  }

  function New(c: Config, e: Digest): MsgId {
    MsgId(4, Above(c), e)
  }

  /** The bases of view 4. */
  function AboveBases(c: Config, g: Digest, d: Digest): seq<VcBasis> {
    [Basis(g, 4, 2, [], []), Reporting(g, 4, 4, Old(c, d)), Basis(g, 4, 1, [], [])]
  }

  /** The entry above the window is not looked at. */
  lemma NothingInWindow(c: Config, g: Digest, d: Digest)
    requires Four(c)
    ensures Gathered(g, 4, AboveBases(c, g, d)) && Assignment(c, AboveBases(c, g, d), 0) == Some([])
  {
    RestIsNull(c, g, 4, AboveBases(c, g, d), []);
    NothingAssigned(c, AboveBases(c, g, d), []);
  }

  lemma AboveKnown(c: Config, g: Digest, d: Digest)
    ensures KnowsBases(ToFour(g, Old(c, d)), AboveBases(c, g, d))
  {
    ThreeKnown(ToFour(g, Old(c, d)), AboveBases(c, g, d));
  }

  lemma BothEnter(c: Config, g: Digest, d: Digest)
    requires Four(c)
    ensures On(c, Guards(g), InFour(g, Old(c, d)))
  {
    ReachesFour(c, Guards(g), Old(c, d));
    NothingInWindow(c, g, d);
    AboveKnown(c, g, d);
    BothEnterNone(c, Guards(g), ToFour(g, Old(c, d)), 2, 4, AboveBases(c, g, d), 4);
  }

  /** Guarded steps lead to a state in which two honest replicas hold committed certificates for the
      number just above the window with different digests, neither of them the null request, and
      nothing has been executed: Windowed cannot be dropped from agreement. */
  lemma WindowIsNeeded(c: Config, g: Digest, d: Digest, e: Digest) returns (steps: seq<Action>, sys: Sys)
    requires Four(c) && d != NULL_REQUEST && e != NULL_REQUEST && d != e
    ensures Reaches(c, g, steps, sys) && GuardedSteps(c, steps)
    ensures 3 in sys && Old(c, d) in sys[3].certs && Committed(c, sys[3].certs, Old(c, d))
    ensures 2 in sys && New(c, e) in sys[2].certs && Committed(c, sys[2].certs, New(c, e))
    ensures NoNullExecuted(sys, Above(c)) && !Windowed(c, sys, Above(c))
  {
    BothEnter(c, g, d);
    steps, sys := SecondCommits(c, Guards(g), InFour(g, Old(c, d)), Old(c, d), New(c, e));
    OneConditionFails(c, g, steps, sys, Old(c, d), New(c, e));
  }
}
