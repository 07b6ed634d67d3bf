/** A run in which two honest replicas commit different requests under one number, because the faulty
    primary of a later view sends a list of bases that repeats its own. */
module SendersRun {
  import opened Quorum
  import opened NewView
  import opened NewViewSenders
  import opened Replica
  import opened Protocol
  import opened Agreement
  import opened SmallViews
  import opened Scenes
  import opened Rounds
  import opened TwoViews

  function RepeatedView(g: Digest): NewViewMsg {
    NewViewMsg(Repeated(4, 1, Genesis(g), 3), 0, 0, map[])
  }

  lemma RepeatedViewPasses(c: Config, g: Digest)
    requires Four(c)
    ensures (RepeatedView(g), Genesis(g)) in Passing(c, 4)
  {
    FourFacts(c);
    RepeatedSenderPasses(c, 4, 1, Genesis(g));
  }

  lemma RepeatedKnown(st: Stage, g: Digest)
    ensures KnowsBases(st, RepeatedView(g).bases)
  {
  }

  lemma EntersRepeated(c: Config, g: Digest, st: Stage, r: nat)
    requires Four(c) && On(c, Epoch(g, OnlyChecked), st) && IsHonest(r) && IsWaiting(st.Of(r)) && st.Of(r).view == 4
    ensures On(c, Epoch(g, OnlyChecked), st.Put(r, st.Of(r).(inVC := false)))
  {
    RepeatedViewPasses(c, g);
    EnteringNone(st.Of(r), RepeatedView(g));
    RepeatedKnown(st, g);
    Enters(c, Epoch(g, OnlyChecked), st, r, RepeatedView(g));
  }

  lemma BothEnter(c: Config, g: Digest, id: MsgId)
    requires Four(c) && id.v == 0 && id.n >= 1
    ensures On(c, Epoch(g, OnlyChecked), InFour(g, id))
  {
    ReachesFour(c, Epoch(g, OnlyChecked), id);
    var st := ToFour(g, id);
    EntersRepeated(c, g, st, 2);
    EntersRepeated(c, g, st.Put(2, st.second.(inVC := false)), 4);
  }

  /** Every new view passes the check of the replica that enters it, no null request is executed, and the
      number stays inside the windows; still two honest replicas hold committed certificates with
      different digests. So the guard on the senders of a list cannot be dropped from agreement. */
  lemma SafeSendersAreNeeded(c: Config, g: Digest, d: Digest, e: Digest) returns (steps: seq<Action>, sys: Sys)
    requires Four(c) && d != NULL_REQUEST && e != NULL_REQUEST && d != e
    ensures Reaches(c, g, steps, sys) && CheckedSteps(c, steps)
    ensures 3 in sys && MsgId(0, 1, d) in sys[3].certs && Committed(c, sys[3].certs, MsgId(0, 1, d))
    ensures 2 in sys && MsgId(4, 1, e) in sys[2].certs && Committed(c, sys[2].certs, MsgId(4, 1, e))
    ensures NoNullExecuted(sys, 1) && Windowed(c, sys, 1) && !GuardedSteps(c, steps)
  {
    var a, b := MsgId(0, 1, d), MsgId(4, 1, e);
    BothEnter(c, g, a);
    steps, sys := SecondCommits(c, Epoch(g, OnlyChecked), InFour(g, a), a, b);
    OneWindowed(c, sys);
    OneConditionFails(c, g, steps, sys, a, b);
  }
}
