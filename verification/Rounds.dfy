/** Rounds of the normal case between two honest replicas and the faulty one, and what the replicas
    report of them when they leave the view. */
module Rounds {
  import opened Quorum
  import opened NewView
  import opened Replica
  import opened Protocol
  import opened Handlers
  import opened NewViewHandlers
  import opened SmallViews
  import opened Scenes

  /* ---------- one request in a view ---------- */

  /** The replica knows of one request in its view. */
  function With(a: Actor, id: MsgId, ct: Cert): Actor {
    a.(certs := map[id := ct], seqMap := map[id.n := id.d])
  }

  predicate HasOnly(a: Actor, id: MsgId, ct: Cert) {
    a.view == id.v && !a.inVC && id.n >= 1 && a.certs == map[id := ct] && a.seqMap == map[id.n := id.d]
  }

  lemma OneReplaced(a: Actor, id: MsgId, ct: Cert)
    requires id in a.certs && HasOnly(a, id, a.certs[id])
    ensures a.(certs := a.certs[id := ct]) == With(a, id, ct)
  {
    assert a.certs[id := ct] == map[id := ct];
  }

  predicate HasNone(a: Actor) {
    !a.inVC && a.certs == map[] && a.seqMap == map[]
  }

  function Voting(a: Actor, r: nat, id: MsgId): Actor {
    With(a, id, Cert(true, true, {r}, false, {}, false)).(prepares := a.prepares + {id})
  }

  /** A backup accepts a proposal and prepares it. */
  lemma Votes(c: Config, e: Epoch, st: Stage, r: nat, id: MsgId)
    requires Four(c) && On(c, e, st) && IsHonest(r) && c.Primary(id.v) == 1
    requires HasNone(st.Of(r)) && st.Of(r).view == id.v && id.n >= 1
    ensures On(c, e, st.Put(r, Voting(st.Of(r), r, id)))
  {
    var a := st.Of(r);
    Accepts(c, e, st, r, id);
    PutTwice(st, r, Accepting(a, id), Preparing(Accepting(a, id), r, id));
    Prepares(c, e, st.Put(r, Accepting(a, id)), r, id);
    VotingIs(a, r, id);
  }

  lemma PutTwice(st: Stage, r: nat, x: Actor, y: Actor)
    requires IsHonest(r)
    ensures st.Put(r, x).Of(r) == x && st.Put(r, x).Put(r, y) == st.Put(r, y)
  {
  }

  lemma VotingIs(a: Actor, r: nat, id: MsgId)
    requires HasNone(a)
    ensures Preparing(Accepting(a, id), r, id) == Voting(a, r, id)
  {
    var x := Preparing(Accepting(a, id), r, id);
    assert {} + {r} == {r};
    assert x.certs == map[id := Cert(true, true, {r}, false, {}, false)];
    assert x.seqMap == map[id.n := id.d];
  }

  lemma AcceptsOne(c: Config, e: Epoch, st: Stage, r: nat, id: MsgId)
    requires Four(c) && On(c, e, st) && IsHonest(r) && c.Primary(id.v) == 1
    requires HasNone(st.Of(r)) && st.Of(r).view == id.v && id.n >= 1
    ensures On(c, e, st.Put(r, With(st.Of(r), id, ACCEPTED)))
  {
    Accepts(c, e, st, r, id);
    AcceptingIs(st.Of(r), id);
  }

  lemma AcceptingIs(a: Actor, id: MsgId)
    requires HasNone(a)
    ensures Accepting(a, id) == With(a, id, ACCEPTED)
  {
    assert Accepting(a, id).certs == map[id := ACCEPTED];
    assert Accepting(a, id).seqMap == map[id.n := id.d];
  }

  /** A backup prepares what a new view assigned. */
  lemma PreparesOne(c: Config, e: Epoch, st: Stage, r: nat, id: MsgId, ct: Cert)
    requires Four(c) && On(c, e, st) && IsHonest(r) && c.Primary(id.v) != r && HasOnly(st.Of(r), id, ct) && ct.prePrepared
    ensures var t := ct.(sentPrepare := true, prepares := ct.prepares + {r});
            On(c, e, st.Put(r, With(st.Of(r), id, t).(prepares := st.Of(r).prepares + {id})))
  {
    Prepares(c, e, st, r, id);
    OneReplaced(st.Of(r), id, ct.(sentPrepare := true, prepares := ct.prepares + {r}));
  }

  /** One more prepare for the one request. */
  lemma HearsOne(c: Config, e: Epoch, st: Stage, r: nat, from: nat, id: MsgId, ct: Cert)
    requires Four(c) && On(c, e, st) && IsHonest(r) && c.Primary(id.v) != from && KnowsPrepare(st, from, id)
    requires HasOnly(st.Of(r), id, ct)
    ensures On(c, e, st.Put(r, With(st.Of(r), id, ct.(prepares := ct.prepares + {from}))))
  {
    Hears(c, e, st, r, from, id);
    OneReplaced(st.Of(r), id, ct.(prepares := ct.prepares + {from}));
  }

  lemma CommitsOne(c: Config, e: Epoch, st: Stage, r: nat, id: MsgId, ct: Cert)
    requires Four(c) && On(c, e, st) && IsHonest(r) && HasOnly(st.Of(r), id, ct)
    requires ct.prePrepared && |ct.prepares| >= 2 && ct.sentPrepare && !ct.sentCommit
    ensures var t := ct.(sentCommit := true, commits := ct.commits + {r});
            On(c, e, st.Put(r, With(st.Of(r), id, t).(commits := st.Of(r).commits + {id})))
  {
    Commits(c, e, st, r, id);
    OneReplaced(st.Of(r), id, ct.(sentCommit := true, commits := ct.commits + {r}));
  }

  lemma RecommitsOne(c: Config, e: Epoch, st: Stage, r: nat, id: MsgId, ct: Cert)
    requires Four(c) && On(c, e, st) && IsHonest(r) && HasOnly(st.Of(r), id, ct)
    requires ct.prePrepared && !ct.sentCommit && id.n <= |st.Of(r).executed|
    ensures var t := ct.(sentCommit := true, commits := ct.commits + {r});
            On(c, e, st.Put(r, With(st.Of(r), id, t).(commits := st.Of(r).commits + {id})))
  {
    Recommits(c, e, st, r, id);
    OneReplaced(st.Of(r), id, ct.(sentCommit := true, commits := ct.commits + {r}));
  }

  lemma CountsOne(c: Config, e: Epoch, st: Stage, r: nat, from: nat, id: MsgId, ct: Cert)
    requires Four(c) && On(c, e, st) && IsHonest(r) && KnowsCommit(st, from, id) && HasOnly(st.Of(r), id, ct)
    ensures On(c, e, st.Put(r, With(st.Of(r), id, ct.(commits := ct.commits + {from}))))
  {
    Counts(c, e, st, r, from, id);
    OneReplaced(st.Of(r), id, ct.(commits := ct.commits + {from}));
  }

  /* ---------- two replicas and the faulty one ---------- */

  function Pair(st: Stage, r: nat, x: Actor, q: nat, y: Actor): Stage {
    st.Put(r, x).Put(q, y)
  }

  predicate TwoHonest(r: nat, q: nat) {
    IsHonest(r) && IsHonest(q) && r != q
  }

  lemma PairFacts(st: Stage, r: nat, x: Actor, q: nat, y: Actor, z: Actor)
    requires TwoHonest(r, q)
    ensures var pair := Pair(st, r, x, q, y);
            && pair.Of(r) == x && pair.Of(q) == y
            && pair.Put(r, z) == Pair(st, r, z, q, y) && pair.Put(q, z) == Pair(st, r, x, q, z)
  {
  }

  const READY := Cert(true, true, {}, false, {}, false)

  function Prepared2(a: Actor, r: nat, q: nat, id: MsgId): Actor {
    With(a, id, READY.(prepares := {r} + {q})).(prepares := a.prepares + {id})
  }

  /** Both accept, prepare, and count the other's prepare. */
  lemma BothPrepare(c: Config, e: Epoch, st: Stage, r: nat, q: nat, id: MsgId)
    requires Four(c) && On(c, e, st) && TwoHonest(r, q) && c.Primary(id.v) == 1 && id.n >= 1
    requires HasNone(st.Of(r)) && st.Of(r).view == id.v && HasNone(st.Of(q)) && st.Of(q).view == id.v
    ensures On(c, e, Pair(st, r, Prepared2(st.Of(r), r, q, id), q, Prepared2(st.Of(q), q, r, id)))
  {
    BothVote(c, e, st, r, q, id);
    BothHear(c, e, st, r, q, id);
  }

  lemma BothVote(c: Config, e: Epoch, st: Stage, r: nat, q: nat, id: MsgId)
    requires Four(c) && On(c, e, st) && TwoHonest(r, q) && c.Primary(id.v) == 1 && id.n >= 1
    requires HasNone(st.Of(r)) && st.Of(r).view == id.v && HasNone(st.Of(q)) && st.Of(q).view == id.v
    ensures On(c, e, Pair(st, r, Voting(st.Of(r), r, id), q, Voting(st.Of(q), q, id)))
  {
    Votes(c, e, st, r, id);
    Votes(c, e, st.Put(r, Voting(st.Of(r), r, id)), q, id);
  }

  lemma BothHear(c: Config, e: Epoch, st: Stage, r: nat, q: nat, id: MsgId)
    requires Four(c) && TwoHonest(r, q) && c.Primary(id.v) == 1 && id.n >= 1
    requires HasNone(st.Of(r)) && st.Of(r).view == id.v && HasNone(st.Of(q)) && st.Of(q).view == id.v
    requires On(c, e, Pair(st, r, Voting(st.Of(r), r, id), q, Voting(st.Of(q), q, id)))
    ensures On(c, e, Pair(st, r, Prepared2(st.Of(r), r, q, id), q, Prepared2(st.Of(q), q, r, id)))
  {
    var x, y := Voting(st.Of(r), r, id), Voting(st.Of(q), q, id);
    var x', y' := Prepared2(st.Of(r), r, q, id), Prepared2(st.Of(q), q, r, id);
    PairFacts(st, r, x, q, y, x');
    HearsOne(c, e, Pair(st, r, x, q, y), r, q, id, READY.(prepares := {r}));
    PairFacts(st, r, x', q, y, y');
    HearsOne(c, e, Pair(st, r, x', q, y), q, r, id, READY.(prepares := {q}));
  }

  function Committed1(a: Actor, r: nat, q: nat, id: MsgId): Actor {
    With(a, id, Cert(true, true, {r} + {q}, true, {r}, false)).(prepares := a.prepares + {id}, commits := a.commits + {id})
  }

  /** The certificate of a replica that counted its own commit, another one, and the faulty one. */
  function Decided(r: nat, q: nat): Cert {
    Cert(true, true, {r} + {q}, true, {r} + {q} + {1}, false)
  }

  function Committed3(a: Actor, r: nat, q: nat, id: MsgId): Actor {
    Committed1(a, r, q, id).(certs := map[id := Decided(r, q)])
  }

  lemma Sizes(r: nat, q: nat)
    requires TwoHonest(r, q)
    ensures |{r} + {q}| == 2 && |{r} + {q} + {1}| == 3
  {
    var two := {r} + {q};
    assert |two| == 2;
    assert |two + {1}| == 3;
  }

  /** Both prepare and commit; the first one counts three commits. */
  lemma OneCommits(c: Config, e: Epoch, st: Stage, r: nat, q: nat, id: MsgId)
    requires Four(c) && On(c, e, st) && TwoHonest(r, q) && c.Primary(id.v) == 1 && id.n >= 1
    requires HasNone(st.Of(r)) && st.Of(r).view == id.v && HasNone(st.Of(q)) && st.Of(q).view == id.v
    ensures On(c, e, Pair(st, r, Committed3(st.Of(r), r, q, id), q, Committed1(st.Of(q), q, r, id)))
  {
    BothPrepare(c, e, st, r, q, id);
    BothCommit(c, e, st, r, q, id);
    OneCounts(c, e, st, r, q, id);
  }

  lemma BothCommit(c: Config, e: Epoch, st: Stage, r: nat, q: nat, id: MsgId)
    requires Four(c) && TwoHonest(r, q) && id.n >= 1
    requires HasNone(st.Of(r)) && st.Of(r).view == id.v && HasNone(st.Of(q)) && st.Of(q).view == id.v
    requires On(c, e, Pair(st, r, Prepared2(st.Of(r), r, q, id), q, Prepared2(st.Of(q), q, r, id)))
    ensures On(c, e, Pair(st, r, Committed1(st.Of(r), r, q, id), q, Committed1(st.Of(q), q, r, id)))
  {
    var x, y := Prepared2(st.Of(r), r, q, id), Prepared2(st.Of(q), q, r, id);
    var x', y' := Committed1(st.Of(r), r, q, id), Committed1(st.Of(q), q, r, id);
    Sizes(r, q);
    Sizes(q, r);
    PairFacts(st, r, x, q, y, x');
    CommitsOne(c, e, Pair(st, r, x, q, y), r, id, READY.(prepares := {r} + {q}));
    CommittedIs(st.Of(r), r, q, id);
    PairFacts(st, r, x', q, y, y');
    CommitsOne(c, e, Pair(st, r, x', q, y), q, id, READY.(prepares := {q} + {r}));
    CommittedIs(st.Of(q), q, r, id);
  }

  lemma CommittedIs(a: Actor, r: nat, q: nat, id: MsgId)
    ensures var ct := READY.(prepares := {r} + {q});
            With(Prepared2(a, r, q, id), id, ct.(sentCommit := true, commits := ct.commits + {r})).(commits := a.commits + {id})
            == Committed1(a, r, q, id)
  {
    assert {} + {r} == {r};
  }

  lemma OneCounts(c: Config, e: Epoch, st: Stage, r: nat, q: nat, id: MsgId)
    requires Four(c) && TwoHonest(r, q) && id.n >= 1 && HasNone(st.Of(r)) && st.Of(r).view == id.v
    requires On(c, e, Pair(st, r, Committed1(st.Of(r), r, q, id), q, Committed1(st.Of(q), q, r, id)))
    ensures On(c, e, Pair(st, r, Committed3(st.Of(r), r, q, id), q, Committed1(st.Of(q), q, r, id)))
  {
    var y := Committed1(st.Of(q), q, r, id);
    var x := Committed1(st.Of(r), r, q, id);
    var one := Cert(true, true, {r} + {q}, true, {r}, false);
    var two := one.(commits := {r} + {q});
    var mid := With(x, id, two);
    PairFacts(st, r, x, q, y, mid);
    CountsOne(c, e, Pair(st, r, x, q, y), r, q, id, one);
    PairFacts(st, r, mid, q, y, Committed3(st.Of(r), r, q, id));
    CountsOne(c, e, Pair(st, r, mid, q, y), r, 1, id, two);
  }

  predicate SentBoth(a: Actor, id: MsgId) {
    id in a.prepares && id in a.commits
  }

  function CommittedBy(a: Actor, r: nat, q: nat, id: MsgId): Actor {
    With(a, id, Cert(true, true, {r} + {q}, true, {r}, false))
  }

  /** A replica follows another one that has prepared and committed what a new view assigned. */
  lemma Follows(c: Config, e: Epoch, st: Stage, r: nat, q: nat, id: MsgId)
    requires Four(c) && On(c, e, st) && TwoHonest(r, q) && c.Primary(id.v) == 1
    requires HasOnly(st.Of(r), id, ACCEPTED) && SentBoth(st.Of(q), id)
    ensures On(c, e, st.Put(r, With(st.Of(r), id, Decided(r, q))))
  {
    PreparesWith(c, e, st, r, q, id);
    FollowsCommitting(c, e, st, r, q, id);
    FollowsCounting(c, e, st, r, q, id);
  }

  lemma PreparesFirst(c: Config, e: Epoch, st: Stage, r: nat, id: MsgId)
    requires Four(c) && On(c, e, st) && IsHonest(r) && c.Primary(id.v) != r && HasOnly(st.Of(r), id, ACCEPTED)
    ensures On(c, e, st.Put(r, Voting(st.Of(r), r, id)))
  {
    PreparesOne(c, e, st, r, id, ACCEPTED);
    assert {} + {r} == {r};
  }

  /** A backup prepares, with the prepare of another one, what a new view assigned. */
  lemma PreparesWith(c: Config, e: Epoch, st: Stage, r: nat, q: nat, id: MsgId)
    requires Four(c) && On(c, e, st) && IsHonest(r) && c.Primary(id.v) != r && c.Primary(id.v) != q
    requires HasOnly(st.Of(r), id, ACCEPTED) && r != q && KnowsPrepare(st, q, id)
    ensures On(c, e, st.Put(r, Prepared2(st.Of(r), r, q, id)))
  {
    var a := st.Of(r);
    PreparesFirst(c, e, st, r, id);
    PutTwice(st, r, Voting(a, r, id), Prepared2(a, r, q, id));
    PrepareStays(st, r, Voting(a, r, id), q, id);
    HearsOne(c, e, st.Put(r, Voting(a, r, id)), r, q, id, READY.(prepares := {r}));
  }

  lemma PrepareStays(st: Stage, r: nat, x: Actor, q: nat, id: MsgId)
    requires IsHonest(r) && r != q && KnowsPrepare(st, q, id)
    ensures KnowsPrepare(st.Put(r, x), q, id)
  {
  }

  lemma FollowsCommitting(c: Config, e: Epoch, st: Stage, r: nat, q: nat, id: MsgId)
    requires Four(c) && TwoHonest(r, q) && HasOnly(st.Of(r), id, ACCEPTED) && On(c, e, st.Put(r, Prepared2(st.Of(r), r, q, id)))
    ensures On(c, e, st.Put(r, CommittedBy(st.Of(r), r, q, id)))
  {
    var x, y := Prepared2(st.Of(r), r, q, id), Committed1(st.Of(r), r, q, id);
    Sizes(r, q);
    PutTwice(st, r, x, y);
    CommitsOne(c, e, st.Put(r, x), r, id, READY.(prepares := {r} + {q}));
    CommittedIs(st.Of(r), r, q, id);
    PutTwice(st, r, y, CommittedBy(st.Of(r), r, q, id));
    Forget(c, e, st.Put(r, y), r, CommittedBy(st.Of(r), r, q, id));
  }

  lemma FollowsCounting(c: Config, e: Epoch, st: Stage, r: nat, q: nat, id: MsgId)
    requires Four(c) && TwoHonest(r, q) && SentBoth(st.Of(q), id)
    requires HasOnly(st.Of(r), id, ACCEPTED) && On(c, e, st.Put(r, CommittedBy(st.Of(r), r, q, id)))
    ensures On(c, e, st.Put(r, With(st.Of(r), id, Decided(r, q))))
  {
    var x := CommittedBy(st.Of(r), r, q, id);
    var one := Cert(true, true, {r} + {q}, true, {r}, false);
    var y := With(st.Of(r), id, one.(commits := {r} + {q}));
    PutTwice(st, r, x, y);
    CountsOne(c, e, st.Put(r, x), r, q, id, one);
    PutTwice(st, r, y, With(st.Of(r), id, Decided(r, q)));
    CountsOne(c, e, st.Put(r, y), r, 1, id, one.(commits := {r} + {q}));
  }

  /** Who counted three commits holds a committed certificate. */
  lemma HoldsCommitted(c: Config, g: Digest, s: Node, a: Actor, r: nat, q: nat, id: MsgId)
    requires Four(c) && TwoHonest(r, q) && Plays(g, s, a) && id in a.certs && a.certs[id] == Decided(r, q)
    ensures id in s.certs && Committed(c, s.certs, id)
  {
    Sizes(r, q);
    assert c.Q() == 3;
  }

  /* ---------- what is reported ---------- */

  /** The lists of a replica that leaves a view in which it knew of one request. */
  lemma KeepsOne(c: Config, a: Actor, id: MsgId, ct: Cert)
    requires Four(c) && HasOnly(a, id, ct) && ct.prePrepared
    requires (forall n :: n in a.plist ==> a.plist[n].v <= id.v) && (forall x :: x in a.qlist ==> a.qlist[x] <= id.v)
    ensures var p := if |ct.prepares| >= 2 then a.plist[id.n := PEntry(id.v, id.d)] else a.plist;
            Keeps(c, a, p, a.qlist[QIdx(id.n, id.d) := id.v])
  {
    OnePSet(c, a.plist, id, ct);
    OneQSet(a.qlist, id, ct);
  }

  lemma OnePSet(c: Config, before: map<nat, PEntry>, id: MsgId, ct: Cert)
    requires Four(c) && ct.prePrepared && forall n :: n in before ==> before[n].v <= id.v
    ensures IsPSet(c, before, map[id := ct], if |ct.prepares| >= 2 then before[id.n := PEntry(id.v, id.d)] else before)
  {
    var none: map<MsgId, Cert> := map[];
    assert c.Q() == 3;
    assert IsPSet(c, before, none, before);
    PSetStep(c, before, none, id, ct, before);
    assert none[id := ct] == map[id := ct];
  }

  lemma OneQSet(before: map<QIdx, nat>, id: MsgId, ct: Cert)
    requires ct.prePrepared && forall x :: x in before ==> before[x] <= id.v
    ensures IsQSet(before, map[id := ct], before[QIdx(id.n, id.d) := id.v])
  {
    var none: map<MsgId, Cert> := map[];
    assert IsQSet(before, none, before);
    QSetStep(before, none, id, ct, before);
    assert none[id := ct] == map[id := ct];
  }

  /** The lists held nothing of other numbers, and of this one nothing newer. */
  ghost predicate Older(a: Actor, id: MsgId) {
    && a.plist.Keys <= {id.n} && a.qlist.Keys <= {QIdx(id.n, id.d)}
    && (forall n :: n in a.plist ==> a.plist[n].v <= id.v) && forall x :: x in a.qlist ==> a.qlist[x] <= id.v
  }

  /** So are those of a replica that prepared. */
  lemma KeepsPrepared(c: Config, a: Actor, r: nat, q: nat, id: MsgId, ct: Cert)
    requires Four(c) && r != q && HasOnly(a, id, ct) && Older(a, id) && ct.prePrepared && {r} + {q} <= ct.prepares
    ensures Keeps(c, a, map[id.n := PEntry(id.v, id.d)], map[QIdx(id.n, id.d) := id.v])
  {
    TwoAtLeast(r, q, ct.prepares);
    OnePSet(c, a.plist, id, ct);
    OneQSet(a.qlist, id, ct);
    Overwritten(a.plist, id.n, PEntry(id.v, id.d));
    Overwritten(a.qlist, QIdx(id.n, id.d), id.v);
  }

  lemma TwoAtLeast(r: nat, q: nat, s: set<nat>)
    requires r != q && {r} + {q} <= s
    ensures |s| >= 2
  {
    var two := {r} + {q};
    assert |two| == 2;
    SubsetCount(two, s);
  }

  lemma Overwritten<K, V>(m: map<K, V>, k: K, v: V)
    requires m.Keys <= {k}
    ensures m[k := v] == map[k := v]
  {
  }

  lemma KeepsNone(c: Config, a: Actor)
    requires c.n >= 1 && a.certs == map[]
    ensures Keeps(c, a, a.plist, a.qlist)
  {
  }

  /** What is left of an actor that has moved to view w with these lists and sent basis b. */
  function Moved(a: Actor, w: nat, p: map<nat, PEntry>, q: map<QIdx, nat>, b: VcBasis): Actor {
    Actor(w, true, map[], map[], p, q, a.executed, a.stored - {w}, {}, {}, {b}, a.announced)
  }

  lemma LeavesWith(c: Config, e: Epoch, st: Stage, r: nat, w: nat, p: map<nat, PEntry>, q: map<QIdx, nat>, b: VcBasis)
    requires Four(c) && On(c, e, st) && IsHonest(r)
    requires CanLeave(st.Of(r), w) && Keeps(c, st.Of(r), p, q) && Reports(e.genesis, r, w, p, q, b)
    ensures On(c, e, st.Put(r, Moved(st.Of(r), w, p, q, b)))
  {
    Leaves(c, e, st, r, w, p, q, b);
    PutTwice(st, r, Leaving(st.Of(r), w, p, q, b), Moved(st.Of(r), w, p, q, b));
    Forget(c, e, st.Put(r, Leaving(st.Of(r), w, p, q, b)), r, Moved(st.Of(r), w, p, q, b));
  }

  /** A replica that knows of one request leaves the view. */
  lemma LeavesOne(c: Config, e: Epoch, st: Stage, r: nat, w: nat, id: MsgId, p: map<nat, PEntry>, q: map<QIdx, nat>, b: VcBasis)
    requires Four(c) && On(c, e, st) && IsHonest(r) && w > st.Of(r).view
    requires id in st.Of(r).certs && HasOnly(st.Of(r), id, st.Of(r).certs[id]) && st.Of(r).certs[id].prePrepared
    requires Keeps(c, st.Of(r), p, q) && Reports(e.genesis, r, w, p, q, b)
    ensures On(c, e, st.Put(r, Moved(st.Of(r), w, p, q, b)))
  {
    CanLeaveOne(st.Of(r), id, w);
    LeavesWith(c, e, st, r, w, p, q, b);
  }

  lemma CanLeaveOne(a: Actor, id: MsgId, w: nat)
    requires id in a.certs && HasOnly(a, id, a.certs[id]) && w > a.view
    ensures CanLeave(a, w)
  {
  }

  /** A replica that knows of none leaves its view, or repeats its view change. */
  lemma LeavesNone(c: Config, e: Epoch, st: Stage, r: nat, w: nat, b: VcBasis)
    requires Four(c) && On(c, e, st) && IsHonest(r) && st.Of(r).certs == map[] && st.Of(r).seqMap == map[]
    requires w > st.Of(r).view || (w == st.Of(r).view && st.Of(r).inVC)
    requires Reports(e.genesis, r, w, st.Of(r).plist, st.Of(r).qlist, b)
    ensures On(c, e, st.Put(r, Moved(st.Of(r), w, st.Of(r).plist, st.Of(r).qlist, b)))
  {
    KeepsNone(c, st.Of(r));
    LeavesWith(c, e, st, r, w, st.Of(r).plist, st.Of(r).qlist, b);
  }

  function EntryOf(id: MsgId): VcPq {
    VcPq(id.n, id.d, id.v)
  }

  /** One entry in each list. */
  lemma ReportsOne(g: Digest, r: nat, w: nat, id: MsgId)
    ensures Reports(g, r, w, map[id.n := PEntry(id.v, id.d)], map[QIdx(id.n, id.d) := id.v], Basis(g, w, r, [EntryOf(id)], [EntryOf(id)]))
  {
  }

  lemma ReportsNone(g: Digest, r: nat, w: nat)
    ensures Reports(g, r, w, map[], map[], Basis(g, w, r, [], []))
  {
  }

  function P(id: MsgId): map<nat, PEntry> {
    map[id.n := PEntry(id.v, id.d)]
  }

  function Q(id: MsgId): map<QIdx, nat> {
    map[QIdx(id.n, id.d) := id.v]
  }

  /** The basis of a replica that prepared one request. */
  function Reporting(g: Digest, w: nat, r: nat, id: MsgId): VcBasis {
    Basis(g, w, r, [EntryOf(id)], [EntryOf(id)])
  }

  /** A replica that prepared one request leaves its view. */
  lemma LeavesPrepared(c: Config, e: Epoch, st: Stage, r: nat, q: nat, w: nat, id: MsgId, ct: Cert)
    requires Four(c) && On(c, e, st) && IsHonest(r) && r != q && w > st.Of(r).view
    requires HasOnly(st.Of(r), id, ct) && Older(st.Of(r), id) && ct.prePrepared && {r} + {q} <= ct.prepares
    ensures On(c, e, st.Put(r, Moved(st.Of(r), w, P(id), Q(id), Reporting(e.genesis, w, r, id))))
  {
    KeepsPrepared(c, st.Of(r), r, q, id, ct);
    ReportsOne(e.genesis, r, w, id);
    LeavesOne(c, e, st, r, w, id, P(id), Q(id), Reporting(e.genesis, w, r, id));
  }

  predicate KnewOne(a: Actor, id: MsgId) {
    a.certs == map[] && a.seqMap == map[] && a.plist == P(id) && a.qlist == Q(id)
  }

  /** A replica that learnt nothing since it reported one request leaves again. */
  lemma LeavesAgain(c: Config, e: Epoch, st: Stage, r: nat, w: nat, id: MsgId)
    requires Four(c) && On(c, e, st) && IsHonest(r) && w > st.Of(r).view && KnewOne(st.Of(r), id)
    ensures On(c, e, st.Put(r, Moved(st.Of(r), w, P(id), Q(id), Reporting(e.genesis, w, r, id))))
  {
    ReportsOne(e.genesis, r, w, id);
    LeavesNone(c, e, st, r, w, Reporting(e.genesis, w, r, id));
  }

  /** The lists of a replica that prepared one request and, in another view, accepted another one. */
  function Q2(old_: MsgId, id: MsgId): map<QIdx, nat> {
    Q(old_)[QIdx(id.n, id.d) := id.v]
  }

  function ReportingBoth(g: Digest, w: nat, r: nat, old_: MsgId, id: MsgId): VcBasis {
    Basis(g, w, r, [EntryOf(old_)], [EntryOf(old_), EntryOf(id)])
  }

  lemma ReportsBoth(g: Digest, r: nat, w: nat, old_: MsgId, id: MsgId)
    requires old_.n != id.n || old_.d != id.d
    ensures Reports(g, r, w, P(old_), Q2(old_, id), ReportingBoth(g, w, r, old_, id))
  {
  }

  lemma KeepsAccepted(c: Config, a: Actor, old_: MsgId, id: MsgId, ct: Cert)
    requires Four(c) && HasOnly(a, id, ct) && ct.prePrepared && |ct.prepares| < 2 && old_.v <= id.v
    requires a.plist == P(old_) && a.qlist == Q(old_)
    ensures Keeps(c, a, P(old_), Q2(old_, id))
  {
    KeepsOne(c, a, id, ct);
  }

  lemma LeavesAccepted(c: Config, e: Epoch, st: Stage, r: nat, w: nat, old_: MsgId, id: MsgId, ct: Cert)
    requires Four(c) && On(c, e, st) && IsHonest(r) && w > st.Of(r).view && old_.d != id.d && old_.v <= id.v
    requires HasOnly(st.Of(r), id, ct) && ct.prePrepared && |ct.prepares| < 2
    requires st.Of(r).plist == P(old_) && st.Of(r).qlist == Q(old_)
    ensures On(c, e, st.Put(r, Moved(st.Of(r), w, P(old_), Q2(old_, id), ReportingBoth(e.genesis, w, r, old_, id))))
  {
    KeepsAccepted(c, st.Of(r), old_, id, ct);
    ReportsBoth(e.genesis, r, w, old_, id);
    LeavesOne(c, e, st, r, w, id, P(old_), Q2(old_, id), ReportingBoth(e.genesis, w, r, old_, id));
  }

  /** It learnt nothing since, and leaves again. */
  lemma LeavesBothAgain(c: Config, e: Epoch, st: Stage, r: nat, w: nat, old_: MsgId, id: MsgId)
    requires Four(c) && On(c, e, st) && IsHonest(r) && w > st.Of(r).view && old_.d != id.d
    requires st.Of(r).certs == map[] && st.Of(r).seqMap == map[]
    requires st.Of(r).plist == P(old_) && st.Of(r).qlist == Q2(old_, id)
    ensures On(c, e, st.Put(r, Moved(st.Of(r), w, P(old_), Q2(old_, id), ReportingBoth(e.genesis, w, r, old_, id))))
  {
    ReportsBoth(e.genesis, r, w, old_, id);
    LeavesNone(c, e, st, r, w, ReportingBoth(e.genesis, w, r, old_, id));
  }

  predicate KnewNone(a: Actor) {
    a.certs == map[] && a.seqMap == map[] && a.plist == map[] && a.qlist == map[]
  }

  /** A replica that never accepted anything leaves its view. */
  lemma LeavesIdle(c: Config, e: Epoch, st: Stage, r: nat, w: nat)
    requires Four(c) && On(c, e, st) && IsHonest(r) && w > st.Of(r).view && KnewNone(st.Of(r))
    ensures On(c, e, st.Put(r, Moved(st.Of(r), w, map[], map[], Basis(e.genesis, w, r, [], []))))
  {
    ReportsNone(e.genesis, r, w);
    LeavesNone(c, e, st, r, w, Basis(e.genesis, w, r, [], []));
  }

  lemma ThreeKnown(st: Stage, s: seq<VcBasis>)
    requires |s| == 3 && KnowsBasis(st, s[0]) && KnowsBasis(st, s[1]) && KnowsBasis(st, s[2])
    ensures KnowsBases(st, s)
  {
  }

  lemma FourKnown(st: Stage, s: seq<VcBasis>)
    requires |s| == 4 && KnowsBasis(st, s[0]) && KnowsBasis(st, s[1]) && KnowsBasis(st, s[2]) && KnowsBasis(st, s[3])
    ensures KnowsBases(st, s)
  {
  }

  lemma StillKnown(st: Stage, r: nat, x: Actor, s: seq<VcBasis>)
    requires IsHonest(r) && KnowsBases(st, s) && st.Of(r).bases <= x.bases
    ensures KnowsBases(st.Put(r, x), s)
  {
    forall i | 0 <= i < |s| ensures KnowsBasis(st.Put(r, x), s[i]) {
      assert KnowsBasis(st, s[i]);
    }
  }

  /* ---------- what is assigned ---------- */

  lemma AssignsNone(w: nat, s: seq<VcBasis>)
    ensures var nv := Listing(s, 0, []); nv.xset == map[] && Assigned(w, nv) == map[]
  {
  }

  lemma AssignsOne(w: nat, s: seq<VcBasis>, d: Digest)
    ensures var nv := Listing(s, 0, [XEntry(1, d)]); nv.xset == map[1 := d] && Assigned(w, nv) == map[MsgId(w, 1, d) := ACCEPTED]
  {
    var nv := Listing(s, 0, [XEntry(1, d)]);
    assert forall n :: n in nv.xset <==> n == 1;
    assert NewIds(w, nv, 0) == {MsgId(w, 1, d)};
  }

  /** A replica enters a new view that assigns one request. */
  lemma EntersOne(c: Config, e: Epoch, st: Stage, r: nat, s: seq<VcBasis>, d: Digest)
    requires Four(c) && On(c, e, st) && IsHonest(r) && KnowsBases(st, s) && IsWaiting(st.Of(r))
    requires Gathered(e.genesis, st.Of(r).view, s) && Assignment(c, s, 0) == Some([XEntry(1, d)])
    requires KnowsNewView(c, st, st.Of(r).view, Listing(s, 0, [XEntry(1, d)]))
    ensures On(c, e, st.Put(r, With(st.Of(r).(inVC := false), MsgId(st.Of(r).view, 1, d), ACCEPTED)))
  {
    GatheredOnce(c, e.genesis, st.Of(r).view, s);
    GatheredPasses(c, e.genesis, st.Of(r).view, s, [XEntry(1, d)]);
    AssignsOne(st.Of(r).view, s, d);
    Enters(c, e, st, r, Listing(s, 0, [XEntry(1, d)]));
  }

  /** A replica enters a new view that assigns nothing. */
  lemma EntersNone(c: Config, e: Epoch, st: Stage, r: nat, s: seq<VcBasis>)
    requires Four(c) && On(c, e, st) && IsHonest(r) && KnowsBases(st, s) && IsWaiting(st.Of(r))
    requires Gathered(e.genesis, st.Of(r).view, s) && Assignment(c, s, 0) == Some([])
    requires KnowsNewView(c, st, st.Of(r).view, Listing(s, 0, []))
    ensures On(c, e, st.Put(r, st.Of(r).(inVC := false)))
  {
    GatheredOnce(c, e.genesis, st.Of(r).view, s);
    GatheredPasses(c, e.genesis, st.Of(r).view, s, []);
    AssignsNone(st.Of(r).view, s);
    Enters(c, e, st, r, Listing(s, 0, []));
  }

  /** Two replicas enter such views of a faulty primary. */
  lemma BothEnterNone(c: Config, e: Epoch, st: Stage, r: nat, q: nat, s: seq<VcBasis>, w: nat)
    requires Four(c) && On(c, e, st) && TwoHonest(r, q) && KnowsBases(st, s) && c.Primary(w) == 1
    requires IsWaiting(st.Of(r)) && IsWaiting(st.Of(q)) && st.Of(r).view == w == st.Of(q).view
    requires Gathered(e.genesis, w, s) && Assignment(c, s, 0) == Some([])
    ensures On(c, e, Pair(st, r, st.Of(r).(inVC := false), q, st.Of(q).(inVC := false)))
  {
    var x := st.Of(r).(inVC := false);
    EntersNone(c, e, st, r, s);
    StillKnown(st, r, x, s);
    EntersNone(c, e, st.Put(r, x), q, s);
  }

  lemma BothEnterOne(c: Config, e: Epoch, st: Stage, r: nat, q: nat, s: seq<VcBasis>, w: nat, d: Digest)
    requires Four(c) && On(c, e, st) && TwoHonest(r, q) && KnowsBases(st, s) && c.Primary(w) == 1
    requires IsWaiting(st.Of(r)) && IsWaiting(st.Of(q)) && st.Of(r).view == w == st.Of(q).view
    requires Gathered(e.genesis, w, s) && Assignment(c, s, 0) == Some([XEntry(1, d)])
    ensures On(c, e, Pair(st, r, With(st.Of(r).(inVC := false), MsgId(w, 1, d), ACCEPTED),
                          q, With(st.Of(q).(inVC := false), MsgId(w, 1, d), ACCEPTED)))
  {
    var x := With(st.Of(r).(inVC := false), MsgId(w, 1, d), ACCEPTED);
    EntersOne(c, e, st, r, s, d);
    StillKnown(st, r, x, s);
    EntersOne(c, e, st.Put(r, x), q, s, d);
  }

  /** An honest primary announces what the bases it gathered assign. */
  lemma AnnouncesList(c: Config, e: Epoch, st: Stage, r: nat, s: seq<VcBasis>, xs: seq<XEntry>)
    requires Four(c) && On(c, e, st) && IsHonest(r) && KnowsBases(st, s)
    requires st.Of(r).inVC && c.Primary(st.Of(r).view) == r && st.Of(r).view !in st.Of(r).stored
    requires Gathered(e.genesis, st.Of(r).view, s) && Assignment(c, s, 0) == Some(xs)
    ensures On(c, e, st.Put(r, Announcing(st.Of(r), Listing(s, 0, xs))))
  {
    GatheredOnce(c, e.genesis, st.Of(r).view, s);
    GatheredPasses(c, e.genesis, st.Of(r).view, s, xs);
    Announces(c, e, st, r, Listing(s, 0, xs));
  }

  /** A list that assigns nothing leaves a replica with empty stores. */
  lemma EnteringNone(a: Actor, nv: NewViewMsg)
    requires nv.xset == map[] && IsWaiting(a)
    ensures Entering(a, nv) == a.(inVC := false)
  {
    assert Assigned(a.view, nv) == map[];
  }
}
