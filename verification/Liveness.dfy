/** Preparing is unique per view and number; and when the bases of honest replicas yield a new view,
    whatever faulty ones add. */
module Liveness {
  import opened Quorum
  import opened NewView
  import opened NewViewDecided
  import opened NewViewSenders
  import opened Replica
  import opened ReplicaInv
  import opened Protocol
  import opened ProtocolKeeps

  /* ---------- one prepared digest per view and number ---------- */

  lemma PreparedFacts(c: Config, sys: Sys, r: nat, id: MsgId)
    requires SysInv(c, sys) && r in sys && id in sys[r].hist.prepared
    ensures id in sys[r].hist.accepted && PrepareQuorum(c, sys, id)
  {
    NodeOf(c, sys, r);
    LinksOf(c, sys, r);
  }

  /** The q - 1 backups that prepared, together with the primary. */
  function Supporters(c: Config, sys: Sys, id: MsgId): set<nat> {
    PrepareVoters(c, sys, id) + {c.Primary(id.v)}
  }

  lemma SupportersAreQuorum(c: Config, sys: Sys, id: MsgId)
    requires c.Valid() && PrepareQuorum(c, sys, id)
    ensures Supporters(c, sys, id) <= c.Replicas() && |Supporters(c, sys, id)| >= c.Q()
  {
    assert c.Primary(id.v) !in PrepareVoters(c, sys, id);
  }

  /** An honest backup prepares one digest per view and number. */
  lemma BackupPreparesOnce(c: Config, sys: Sys, x: nat, a: MsgId, b: MsgId)
    requires SysInv(c, sys) && x in sys && a in sys[x].hist.prepares && b in sys[x].hist.prepares
    requires a.v == b.v && a.n == b.n
    ensures a.d == b.d
  {
    NodeOf(c, sys, x);
  }

  /** An honest primary stands for what its new views assign and for what it proposed itself. */
  ghost predicate StoodFor(c: Config, sys: Sys, p: nat, id: MsgId)
    requires p in sys
  {
    id in sys[p].hist.proposals || exists nv :: Announcement(id.v, nv) in sys[p].hist.newViews && Assigns(nv, id)
  }

  lemma AcceptedWasStoodFor(c: Config, sys: Sys, r: nat, id: MsgId)
    requires SysInv(c, sys) && r in sys && id in sys[r].hist.accepted && c.Primary(id.v) in sys
    ensures StoodFor(c, sys, c.Primary(id.v), id)
  {
    LinksOf(c, sys, r);
  }

  /** The primary of the view, if it is honest, has announced at most one new view for it. A view change
      that repeats its view makes the program forget what it announced, so this can fail. */
  ghost predicate AnnouncedOnce(c: Config, sys: Sys, v: nat) {
    var p := c.Primary(v);
    p in sys ==> forall x, y :: x in sys[p].hist.newViews && y in sys[p].hist.newViews && x.v == v == y.v ==> x == y
  }

  /** A proposal lies outside what the same primary's only new view assigned. */
  lemma ProposalIsNotAssigned(c: Config, sys: Sys, p: nat, id: MsgId, nv: NewViewMsg)
    requires SysInv(c, sys) && p in sys && p == c.Primary(id.v) && AnnouncedOnce(c, sys, id.v)
    requires id in sys[p].hist.proposals && Announcement(id.v, nv) in sys[p].hist.newViews
    ensures id.n !in nv.xset
  {
    ProposalFacts(c, sys, p, id, nv);
    EnteredWasAnnounced(c, sys, p, id.v);
  }

  lemma ProposalFacts(c: Config, sys: Sys, p: nat, id: MsgId, nv: NewViewMsg)
    requires SysInv(c, sys) && p in sys && id in sys[p].hist.proposals && Announcement(id.v, nv) in sys[p].hist.newViews
    ensures id.v in sys[p].hist.entered && id.n !in sys[p].hist.entered[id.v].xset
  {
    NodeOf(c, sys, p);
  }

  lemma EnteredWasAnnounced(c: Config, sys: Sys, r: nat, v: nat)
    requires SysInv(c, sys) && r in sys && c.Primary(v) in sys && v in sys[r].hist.entered
    ensures Announcement(v, sys[r].hist.entered[v]) in sys[c.Primary(v)].hist.newViews
  {
    LinksOf(c, sys, r);
  }

  /** An honest primary that announced once stands for one digest per view and number. */
  lemma StandsForOne(c: Config, sys: Sys, p: nat, a: MsgId, b: MsgId)
    requires SysInv(c, sys) && p in sys && p == c.Primary(a.v) && a.v == b.v && a.n == b.n
    requires AnnouncedOnce(c, sys, a.v) && StoodFor(c, sys, p, a) && StoodFor(c, sys, p, b)
    ensures a.d == b.d
  {
    NodeOf(c, sys, p);
    if a in sys[p].hist.proposals && b !in sys[p].hist.proposals {
      var nv :| Announcement(b.v, nv) in sys[p].hist.newViews && Assigns(nv, b);
      ProposalIsNotAssigned(c, sys, p, a, nv);
    } else if b in sys[p].hist.proposals && a !in sys[p].hist.proposals {
      var nv :| Announcement(a.v, nv) in sys[p].hist.newViews && Assigns(nv, a);
      ProposalIsNotAssigned(c, sys, p, b, nv);
    }
  }

  /** Without the primary, two quorums of prepares still share an honest backup. */
  predicate BackupsOverlap(c: Config)
    requires c.n >= 1
  {
    2 * c.Q() > c.n + 1 + |c.byz|
  }

  ghost predicate AreBackups(c: Config, p: nat, a: set<nat>)
    requires c.n >= 1
  {
    a <= c.Replicas() - {p} && |a| >= c.Q() - 1
  }

  lemma BackupsShare(c: Config, p: nat, a: set<nat>, b: set<nat>) returns (x: nat)
    requires c.Valid() && p in c.Honest() && BackupsOverlap(c) && AreBackups(c, p, a) && AreBackups(c, p, b)
    ensures x in a && x in b && x in c.Honest()
  {
    InclusionExclusion(a, b);
    SubsetCount(a + b, c.Replicas() - {p});
    assert c.Replicas() == c.Replicas() - {p} + {p};
    if a * b <= c.byz {
      SubsetCount(a * b, c.byz);
    }
    x :| x in a * b && x !in c.byz;
  }

  /** Two quorums of prepares for an honest primary always share an honest backup if and only if the
      quorums are large enough for the number of faulty replicas. */
  lemma BackupsShareIff(c: Config, p: nat)
    requires c.Valid() && p in c.Honest()
    ensures (forall a: set<nat>, b: set<nat> :: AreBackups(c, p, a) && AreBackups(c, p, b) ==>
               exists x :: x in a && x in b && x in c.Honest())
       <==> BackupsOverlap(c)
  {
    if BackupsOverlap(c) {
      forall a: set<nat>, b: set<nat> | AreBackups(c, p, a) && AreBackups(c, p, b)
        ensures exists x :: x in a && x in b && x in c.Honest()
      {
        var x := BackupsShare(c, p, a, b);
      }
    } else {
      var a, b := BackupsApart(c, p);
    }
  }

  /** Otherwise all that two such quorums share may be faulty. */
  lemma BackupsApart(c: Config, p: nat) returns (a: set<nat>, b: set<nat>)
    requires c.Valid() && p in c.Honest() && !BackupsOverlap(c)
    ensures AreBackups(c, p, a) && AreBackups(c, p, b) && a * b <= c.byz
  {
    var others := c.Replicas() - {p} - c.byz;
    QuorumFits(c);
    var k := c.Q() - 1 - |c.byz|;
    LeftOver(c.Replicas(), {p});
    LeftOver(c.Replicas() - {p}, c.byz);
    var x := TakeSome(others, k);
    LeftOver(others, x);
    var y := TakeSome(others - x, k);
    a, b := c.byz + x, c.byz + y;
    InclusionExclusion(c.byz, x);
    InclusionExclusion(c.byz, y);
    assert c.byz * x == {} && c.byz * y == {};
  }

  /** One digest per number is all that can be prepared in the view. */
  ghost predicate Unambiguous(c: Config, sys: Sys, v: nat)
    requires c.n >= 1
  {
    AnnouncedOnce(c, sys, v) || BackupsOverlap(c)
  }

  lemma PreparersAreBackups(c: Config, sys: Sys, id: MsgId)
    requires c.n >= 1 && PrepareQuorum(c, sys, id)
    ensures AreBackups(c, c.Primary(id.v), PrepareVoters(c, sys, id))
  {
  }

  /** Two accepted requests, each backed by a quorum of prepares, have the same digest. */
  lemma BackedDigestUnique(c: Config, sys: Sys, r1: nat, a: MsgId, r2: nat, b: MsgId)
    requires SysInv(c, sys) && Unambiguous(c, sys, a.v)
    requires r1 in sys && a in sys[r1].hist.accepted && PrepareQuorum(c, sys, a)
    requires r2 in sys && b in sys[r2].hist.accepted && PrepareQuorum(c, sys, b)
    requires a.v == b.v && a.n == b.n
    ensures a.d == b.d
  {
    var p := c.Primary(a.v);
    if p !in sys {
      SupportersAreQuorum(c, sys, a);
      SupportersAreQuorum(c, sys, b);
      var x := QuorumsShareHonest(c, Supporters(c, sys, a), Supporters(c, sys, b));
      assert x != p;
      BackupPreparesOnce(c, sys, x, a, b);
    } else if AnnouncedOnce(c, sys, a.v) {
      AcceptedWasStoodFor(c, sys, r1, a);
      AcceptedWasStoodFor(c, sys, r2, b);
      StandsForOne(c, sys, p, a, b);
    } else {
      PreparersAreBackups(c, sys, a);
      PreparersAreBackups(c, sys, b);
      var x := BackupsShare(c, p, PrepareVoters(c, sys, a), PrepareVoters(c, sys, b));
      BackupPreparesOnce(c, sys, x, a, b);
    }
  }

  /** One prepared digest per view and number, over every run: no two honest replicas hold
      prepared certificates for different digests under one view and number, as long as the primary, if
      honest, announced one new view for it or the quorums overlap without the primary. */
  lemma PreparedCertificatesAgree(c: Config, genesis: Digest, steps: seq<Action>, sys: Sys,
                                  r1: nat, a: MsgId, r2: nat, b: MsgId)
    requires c.Valid() && Reaches(c, genesis, steps, sys) && CheckedSteps(c, steps) && Unambiguous(c, sys, a.v)
    requires r1 in sys && Prepared(c, sys[r1].certs, a) && r2 in sys && Prepared(c, sys[r2].certs, b)
    requires a.v == b.v && a.n == b.n
    ensures a.d == b.d
  {
    ReachableInv(c, genesis, steps, sys);
    PreparedCertFacts(c, sys, r1, a);
    PreparedCertFacts(c, sys, r2, b);
    BackedDigestUnique(c, sys, r1, a, r2, b);
  }

  lemma PreparedCertFacts(c: Config, sys: Sys, r: nat, id: MsgId)
    requires SysInv(c, sys) && r in sys && Prepared(c, sys[r].certs, id)
    ensures id in sys[r].hist.accepted && PrepareQuorum(c, sys, id)
  {
    NodeOf(c, sys, r);
    LinksOf(c, sys, r);
    CertsBacked(c, sys, sys[r], id);
  }

  /* ---------- a new view is never stuck ---------- */

  /** All honest replicas' bases are there, with low watermarks below n. */
  ghost predicate AllHonestBelow(c: Config, s: seq<VcBasis>, n: nat) {
    && (forall r :: r in c.Honest() ==> exists i :: 0 <= i < |s| && s[i].id == r)
    && (forall i :: 0 <= i < |s| && s[i].id in c.Honest() ==> s[i].h < n)
  }

  ghost predicate FromHonest(c: Config, s: seq<VcBasis>) {
    forall i :: 0 <= i < |s| ==> s[i].id in c.Honest()
  }

  lemma HonestAreQuorum(c: Config, s: seq<VcBasis>)
    requires c.Valid() && forall r :: r in c.Honest() ==> exists i :: 0 <= i < |s| && s[i].id == r
    ensures |s| >= c.Q()
  {
    var all := Indices(|s|);
    SenderCount(s, all);
    forall r | r in c.Honest() ensures r in Senders(s, all) {
      var i :| 0 <= i < |s| && s[i].id == r;
      assert i in all;
    }
    SubsetCount(c.Honest(), Senders(s, all));
    HonestQuorum(c, {});
  }

  function UpTo(g: nat -> nat, k: nat, last: nat): nat -> nat {
    (i: nat) => if i < k then g(i) else last
  }

  /** The bases that honest replicas sent, out of a list. */
  lemma {:induction false} HonestPart(c: Config, t: seq<VcBasis>) returns (s: seq<VcBasis>, f: nat -> nat)
    ensures Embeds(s, t, f) && FromHonest(c, s)
    ensures forall b :: b in s <==> b in t && b.id in c.Honest()
    decreases |t|
  {
    if t == [] {
      s, f := [], i => i;
    } else {
      var init, last := t[..|t| - 1], t[|t| - 1];
      assert t == init + [last];
      var rest, g := HonestPart(c, init);
      s := if last.id in c.Honest() then rest + [last] else rest;
      f := UpTo(g, |rest|, |init|);
      OneMoreEmbeds(rest, init, g, last, last.id in c.Honest());
    }
  }

  lemma OneMoreEmbeds(rest: seq<VcBasis>, init: seq<VcBasis>, g: nat -> nat, last: VcBasis, taken: bool)
    requires Embeds(rest, init, g)
    ensures Embeds(if taken then rest + [last] else rest, init + [last], UpTo(g, |rest|, |init|))
  {
  }

  /** Honest replicas never report two digests for one view and number. */
  lemma HonestEntriesAgree(c: Config, sys: Sys, s: seq<VcBasis>, w: nat, n: nat)
    requires SysInv(c, sys) && AllSent(c, sys, s) && FromHonest(c, s)
    requires forall i :: 0 <= i < |s| ==> s[i].view == w
    requires forall v: nat :: v < w ==> Unambiguous(c, sys, v)
    ensures OneDigestPerView(s, n)
  {
    forall i: nat, j: nat, k: nat, m: nat
      | Entry(s, n, i, j) && Entry(s, n, k, m) && s[i].pset[j].v == s[k].pset[m].v
      ensures s[i].pset[j].d == s[k].pset[m].d
    {
      EntriesAgree(c, sys, s[i], j, s[k], m);
    }
  }

  lemma EntriesAgree(c: Config, sys: Sys, x: VcBasis, j: nat, y: VcBasis, m: nat)
    requires SysInv(c, sys) && SentBasis(c, sys, x) && SentBasis(c, sys, y) && x.id in c.Honest() && y.id in c.Honest()
    requires forall v: nat :: v < x.view ==> Unambiguous(c, sys, v)
    requires j < |x.pset| && m < |y.pset| && x.pset[j].n == y.pset[m].n && x.pset[j].v == y.pset[m].v
    ensures x.pset[j].d == y.pset[m].d
  {
    BasisFacts(c, sys, x);
    BasisFacts(c, sys, y);
    var a := MsgId(x.pset[j].v, x.pset[j].n, x.pset[j].d);
    var b := MsgId(y.pset[m].v, y.pset[m].n, y.pset[m].d);
    PreparedFacts(c, sys, x.id, a);
    PreparedFacts(c, sys, y.id, b);
    BackedDigestUnique(c, sys, x.id, a, y.id, b);
  }

  /** When a new view can be built, exactly: in every reachable state, a quorum of honest bases yields a
      new view, and goes on doing so whatever bases of faulty replicas are added, if and only if F + 1
      of its Q sets back the P entry of the highest view for every number of the window. Earlier views
      must be unambiguous; otherwise the entries of the highest view must agree as well. */
  lemma NewViewDecidedIff(c: Config, genesis: Digest, steps: seq<Action>, sys: Sys, s: seq<VcBasis>, w: nat, h: nat)
    requires c.Valid() && Reaches(c, genesis, steps, sys) && CheckedSteps(c, steps)
    requires AllSent(c, sys, s) && FromHonest(c, s) && |s| == c.Q() && AllBelow(s, h + 1)
    requires forall i :: 0 <= i < |s| ==> s[i].view == w
    requires forall v: nat :: v < w ==> Unambiguous(c, sys, v)
    ensures (forall t: seq<VcBasis>, f: nat -> nat :: Embeds(s, t, f) ==> Assignment(c, t, h).Some?)
       <==> (forall n: nat :: h < n <= h + c.l ==> TopBacked(c, s, n))
  {
    ReachableInv(c, genesis, steps, sys);
    forall n: nat | h < n <= h + c.l ensures TopAgrees(s, n) {
      HonestEntriesAgree(c, sys, s, w, n);
      OneDigestTops(s, n);
    }
    AssignedWhateverIsAdded(c, s, h);
  }

  /** Every honest primary has processed each new view it announced before view w. The program broadcasts
      a new view before it has fetched the batches it lacks, so this can fail. */
  ghost predicate AnnouncersEntered(sys: Sys, w: nat) {
    forall p, x :: p in sys && x in sys[p].hist.newViews && x.v < w ==>
      x.v in sys[p].hist.entered && sys[p].hist.entered[x.v] == x.nv
  }

  lemma EnteredMeansOnce(c: Config, sys: Sys, w: nat, v: nat)
    requires c.n >= 1 && AnnouncersEntered(sys, w) && v < w
    ensures Unambiguous(c, sys, v)
  {
  }

  /** An honest supporter of a prepared request has accepted it, or is past its number. */
  lemma SupporterAccepted(c: Config, sys: Sys, r: nat, x: nat, id: MsgId, b: VcBasis)
    requires SysInv(c, sys) && AnnouncersEntered(sys, b.view) && id.v < b.view && b.h < id.n
    requires r in sys && id in sys[r].hist.accepted
    requires x in c.Honest() && x in Supporters(c, sys, id) && b.id == x && SentBasis(c, sys, b)
    ensures SupportsA2(b, VcPq(id.n, id.d, id.v))
  {
    BasisFacts(c, sys, b);
    if x == c.Primary(id.v) {
      AcceptedWasStoodFor(c, sys, r, id);
      PrimaryAccepted(c, sys, x, id, b);
    }
    assert id in sys[x].hist.accepted;
    assert QCovered(b, id);
  }

  lemma PrimaryAccepted(c: Config, sys: Sys, p: nat, id: MsgId, b: VcBasis)
    requires SysInv(c, sys) && AnnouncersEntered(sys, b.view) && id.v < b.view && b.h < id.n
    requires p in sys && p == c.Primary(id.v) && StoodFor(c, sys, p, id) && BasisInv(c, p, sys[p], b)
    ensures id in sys[p].hist.accepted
  {
    NodeOf(c, sys, p);
    if id !in sys[p].hist.proposals {
      assert AssignedTo(sys[p], id);
    }
  }

  /** Every request an honest replica prepared has F + 1 bases that back it. */
  lemma PreparedIsBacked(c: Config, sys: Sys, s: seq<VcBasis>, w: nat, r: nat, id: MsgId)
    requires SysInv(c, sys) && AnnouncersEntered(sys, w)
    requires AllSent(c, sys, s) && AllHonestBelow(c, s, id.n)
    requires forall i :: 0 <= i < |s| ==> s[i].view == w
    requires r in sys && id in sys[r].hist.prepared && id.v < w
    ensures |A2Voters(s, VcPq(id.n, id.d, id.v))| >= c.Weak()
  {
    PreparedFacts(c, sys, r, id);
    SupportersAreQuorum(c, sys, id);
    HonestQuorum(c, Supporters(c, sys, id));
    var honest := Supporters(c, sys, id) - c.byz;
    var voters := A2Voters(s, VcPq(id.n, id.d, id.v));
    SenderCount(s, voters);
    forall x | x in honest ensures x in Senders(s, voters) {
      SupporterVotes(c, sys, s, r, x, id);
    }
    SubsetCount(honest, Senders(s, voters));
  }

  lemma SupporterVotes(c: Config, sys: Sys, s: seq<VcBasis>, r: nat, x: nat, id: MsgId)
    requires SysInv(c, sys) && AllSent(c, sys, s) && AllHonestBelow(c, s, id.n)
    requires forall i :: 0 <= i < |s| ==> id.v < s[i].view && AnnouncersEntered(sys, s[i].view)
    requires r in sys && id in sys[r].hist.accepted
    requires x in c.Honest() && x in Supporters(c, sys, id)
    ensures x in Senders(s, A2Voters(s, VcPq(id.n, id.d, id.v)))
  {
    var i :| 0 <= i < |s| && s[i].id == x;
    SupporterAccepted(c, sys, r, x, id, s[i]);
    assert i in A2Voters(s, VcPq(id.n, id.d, id.v));
  }

  lemma TopIsBacked(c: Config, sys: Sys, s: seq<VcBasis>, w: nat, n: nat)
    requires SysInv(c, sys) && AnnouncersEntered(sys, w)
    requires AllSent(c, sys, s) && FromHonest(c, s) && AllHonestBelow(c, s, n)
    requires forall i :: 0 <= i < |s| ==> s[i].view == w
    ensures TopBacked(c, s, n)
  {
    forall i: nat, j: nat | IsTop(s, n, i, j) ensures |A2Voters(s, s[i].pset[j])| >= c.Weak() {
      BasisFacts(c, sys, s[i]);
      PreparedIsBacked(c, sys, s, w, s[i].id, MsgId(s[i].pset[j].v, n, s[i].pset[j].d));
    }
  }

  /** A new view is never stuck: in every reachable state, once the bases of all honest replicas
      are among those collected and none is above the base, every number of the window is decided,
      whatever the bases of faulty replicas say. */
  lemma NewViewNeverStuck(c: Config, genesis: Digest, steps: seq<Action>, sys: Sys,
                          s: seq<VcBasis>, w: nat, h: nat)
    requires c.Valid() && Reaches(c, genesis, steps, sys) && CheckedSteps(c, steps) && AnnouncersEntered(sys, w)
    requires AllSent(c, sys, s)
    requires forall i :: 0 <= i < |s| ==> s[i].view == w
    requires AllHonestBelow(c, s, h + 1)
    ensures Assignment(c, s, h).Some?
  {
    ReachableInv(c, genesis, steps, sys);
    var part, f := HonestPart(c, s);
    HonestPartCovers(c, sys, s, part, w, h + 1);
    HonestAreQuorum(c, part);
    forall v: nat | v < w ensures Unambiguous(c, sys, v) {
      EnteredMeansOnce(c, sys, w, v);
    }
    forall n | h < n <= h + c.l ensures !Slots(c, part)(n).Stuck? {
      HonestEntriesAgree(c, sys, part, w, n);
      TopIsBacked(c, sys, part, w, n);
      UndisputedIffTopBacked(c, part, n);
      UndisputedDecides(c, part, n);
    }
    MoreBasesAssign(c, part, s, f, h);
  }

  lemma HonestPartCovers(c: Config, sys: Sys, s: seq<VcBasis>, part: seq<VcBasis>, w: nat, n: nat)
    requires AllSent(c, sys, s) && AllHonestBelow(c, s, n) && FromHonest(c, part)
    requires forall i :: 0 <= i < |s| ==> s[i].view == w
    requires forall b :: b in part <==> b in s && b.id in c.Honest()
    ensures AllSent(c, sys, part) && AllHonestBelow(c, part, n)
    ensures forall i :: 0 <= i < |part| ==> part[i].view == w
  {
    forall i | 0 <= i < |part| ensures SentBasis(c, sys, part[i]) && part[i].view == w && part[i].h < n {
      assert part[i] in s;
    }
    forall r | r in c.Honest() ensures exists i :: 0 <= i < |part| && part[i].id == r {
      var i :| 0 <= i < |s| && s[i].id == r;
      assert s[i] in part;
    }
  }
}
