/** Weak and stable checkpoint certificates: what compareCheckpointWithWeakSet finds among the
    checkpoints received for one height. The digest stands for the whole checkpoint. */
module Checkpoints {
  import opened Quorum
  import opened NewView

  datatype ChkptId = ChkptId(author: nat, sequence: nat)

  type Received = map<ChkptId, Digest>

  /** The authors of value `v` for a height, among the messages `seen`. */
  function Authors(store: Received, seen: set<ChkptId>, height: nat, v: Digest): set<nat> {
    set x | x in seen && x in store && x.sequence == height && store[x] == v :: x.author
  }

  function Values(store: Received, seen: set<ChkptId>, height: nat): set<Digest> {
    set x | x in seen && x in store && x.sequence == height :: store[x]
  }

  /** The values that F + 1 authors or more sent. */
  function Certified(store: Received, height: nat, weak: nat): set<Digest> {
    set v | v in Values(store, store.Keys, height) && |Authors(store, store.Keys, height, v)| >= weak
  }

  datatype WeakResult = NoWeakCert | WeakCert(value: Digest, authors: set<nat>) | Inconsistent

  /** What the messages for a height say, in no particular order: more than F + 1 different values,
      or two certified ones, can never become stable. */
  ghost predicate IsWeakResult(store: Received, height: nat, weak: nat, r: WeakResult) {
    match r
    case Inconsistent => |Values(store, store.Keys, height)| > weak || |Certified(store, height, weak)| > 1
    case NoWeakCert => |Values(store, store.Keys, height)| <= weak && Certified(store, height, weak) == {}
    case WeakCert(v, authors) =>
      && |Values(store, store.Keys, height)| <= weak && Certified(store, height, weak) == {v}
      && authors == Authors(store, store.Keys, height, v)
  }

  /** The result does not depend on the order in which the store is walked. */
  lemma WeakResultUnique(store: Received, height: nat, weak: nat, a: WeakResult, b: WeakResult)
    requires IsWeakResult(store, height, weak, a) && IsWeakResult(store, height, weak, b)
    ensures a == b
  {
    if a.WeakCert? && b.WeakCert? {
      assert a.value in {b.value};
    }
  }

  /* ---------- what a weak certificate means ---------- */

  /** Authors are validators, and an honest author's message carries the one digest it computed. */
  ghost predicate Authentic(c: Config, store: Received, height: nat, says: nat -> Digest) {
    forall x :: x in store && x.sequence == height ==>
      x.author in c.Replicas() && (x.author in c.Honest() ==> store[x] == says(x.author))
  }

  /** A certified value was computed by an honest replica. */
  lemma CertifiedIsHonest(c: Config, store: Received, height: nat, says: nat -> Digest, v: Digest) returns (r: nat)
    requires c.Valid() && Authentic(c, store, height, says)
    requires |Authors(store, store.Keys, height, v)| >= c.Weak()
    ensures r in c.Honest() && says(r) == v && ChkptId(r, height) in store
  {
    r := WeakHasHonest(c, Authors(store, store.Keys, height, v));
  }

  /** Two honest replicas with quorum-sized sets at one height hold the same value. */
  lemma StableCheckpointsAgree(c: Config, s1: Received, s2: Received, height: nat, says: nat -> Digest,
                               r1: WeakResult, r2: WeakResult)
    requires c.Valid() && Authentic(c, s1, height, says) && Authentic(c, s2, height, says)
    requires IsWeakResult(s1, height, c.Weak(), r1) && IsWeakResult(s2, height, c.Weak(), r2)
    requires r1.WeakCert? && |r1.authors| >= c.Q() && r2.WeakCert? && |r2.authors| >= c.Q()
    ensures r1.value == r2.value
  {
    var r := QuorumsShareHonest(c, r1.authors, r2.authors);
  }

  function ValuesOf(store: Received, ids: set<ChkptId>): set<Digest> {
    set x | x in ids && x in store :: store[x]
  }

  lemma {:induction false} ValuesOfCount(store: Received, ids: set<ChkptId>)
    requires ids <= store.Keys
    ensures |ValuesOf(store, ids)| <= |ids|
    decreases |ids|
  {
    if x :| x in ids {
      ValuesOfCount(store, ids - {x});
      assert ValuesOf(store, ids) == ValuesOf(store, ids - {x}) + {store[x]};
      assert ids == ids - {x} + {x};
    }
  }

  /** Values other than the honest one come from faulty authors. */
  lemma ValuesBound(c: Config, store: Received, height: nat, says: nat -> Digest, v: Digest)
    requires c.Valid() && Authentic(c, store, height, says)
    requires forall r :: r in c.Honest() ==> says(r) == v
    ensures |Values(store, store.Keys, height) - {v}| <= |FaultyAuthors(c, store.Keys, height)|
  {
    var faulty := FaultyAuthors(c, store.Keys, height);
    ValuesOfCount(store, faulty);
    forall w | w in Values(store, store.Keys, height) - {v} ensures w in ValuesOf(store, faulty) {
      var x :| x in store && x.sequence == height && store[x] == w;
      assert x in faulty;
    }
    SubsetCount(Values(store, store.Keys, height) - {v}, ValuesOf(store, faulty));
  }

  function FaultyAuthors(c: Config, seen: set<ChkptId>, height: nat): set<ChkptId> {
    set x | x in seen && x.sequence == height && x.author in c.byz
  }

  lemma {:induction false} FaultyAuthorsFew(c: Config, seen: set<ChkptId>, height: nat, byz: set<nat>)
    requires forall x :: x in seen ==> x.sequence == height && x.author in byz
    ensures |seen| <= |byz|
    decreases |byz|
  {
    if x :| x in seen {
      var rest := byz - {x.author};
      assert byz == rest + {x.author};
      forall y | y in seen - {x} ensures y.author in rest {
        assert y.author == x.author ==> y == x;
      }
      FaultyAuthorsFew(c, seen - {x}, height, rest);
      assert seen == seen - {x} + {x};
    }
  }

  /** While honest replicas agree on a height, faulty ones can never make it inconsistent: the
      result is the honest value or nothing yet. */
  lemma HonestAgreementKept(c: Config, store: Received, height: nat, says: nat -> Digest, v: Digest, r: WeakResult)
    requires c.Valid() && Authentic(c, store, height, says)
    requires forall x :: x in c.Honest() ==> says(x) == v
    requires IsWeakResult(store, height, c.Weak(), r)
    ensures r == NoWeakCert || (r.WeakCert? && r.value == v)
  {
    var all := store.Keys;
    ValuesBound(c, store, height, says, v);
    var faulty := FaultyAuthors(c, all, height);
    FaultyAuthorsFew(c, faulty, height, c.byz);
    assert |Values(store, all, height)| <= c.Weak() by {
      if v in Values(store, all, height) {
        assert Values(store, all, height) == Values(store, all, height) - {v} + {v};
      } else {
        assert Values(store, all, height) == Values(store, all, height) - {v};
      }
    }
    forall w | w in Certified(store, height, c.Weak()) ensures w == v {
      var x := CertifiedIsHonest(c, store, height, says, w);
    }
    SubsetCount(Certified(store, height, c.Weak()), {v});
  }

  /** Once every honest replica's checkpoint for the height is in the store, there is a quorum for
      the honest value. */
  lemma StableWhenAllReport(c: Config, store: Received, height: nat, says: nat -> Digest, v: Digest, r: WeakResult)
    requires c.Valid() && Authentic(c, store, height, says)
    requires forall x :: x in c.Honest() ==> says(x) == v && ChkptId(x, height) in store
    requires IsWeakResult(store, height, c.Weak(), r)
    ensures r.WeakCert? && r.value == v && |r.authors| >= c.Q()
  {
    var authors := Authors(store, store.Keys, height, v);
    forall x | x in c.Honest() ensures x in authors {
      assert store[ChkptId(x, height)] == v;
    }
    SubsetCount(c.Honest(), authors);
    HonestQuorum(c, {});
    var one := WeakHasHonest(c, authors);
    assert store[ChkptId(one, height)] == v;
    assert v in Certified(store, height, c.Weak());
    HonestAgreementKept(c, store, height, says, v, r);
  }

  /** The authors sent the value for the height. */
  predicate SentBy(store: Received, height: nat, v: Digest, authors: set<nat>) {
    forall x :: x in authors ==> ChkptId(x, height) in store && store[ChkptId(x, height)] == v
  }

  /** Each of the values was sent by somebody. */
  ghost predicate AllSeen(store: Received, height: nat, values: set<Digest>) {
    forall v :: v in values ==> exists x :: ChkptId(x, height) in store && store[ChkptId(x, height)] == v
  }

  /** What is found, exactly: a certificate names all who sent its value, F + 1 or more; where F + 1 agree on a
      value and nothing is inconsistent it is found; more than F + 1 values are inconsistent. */
  lemma WeakResultIs(store: Received, height: nat, weak: nat, r: WeakResult)
    requires IsWeakResult(store, height, weak, r) && weak >= 1
    ensures r.WeakCert? ==> SentBy(store, height, r.value, r.authors) && |r.authors| >= weak
    ensures forall v, authors: set<nat> :: SentBy(store, height, v, authors) && |authors| >= weak && !r.Inconsistent? ==>
              r.WeakCert? && r.value == v && authors <= r.authors
    ensures forall values: set<Digest> :: AllSeen(store, height, values) && |values| > weak ==> r.Inconsistent?
  {
    forall v, authors: set<nat> | SentBy(store, height, v, authors) && |authors| >= weak && !r.Inconsistent?
      ensures r.WeakCert? && r.value == v && authors <= r.authors
    {
      CertifiedBySenders(store, height, weak, v, authors);
    }
    forall values: set<Digest> | AllSeen(store, height, values) ensures |values| <= |Values(store, store.Keys, height)| {
      SubsetCount(values, Values(store, store.Keys, height));
    }
  }

  lemma CertifiedBySenders(store: Received, height: nat, weak: nat, v: Digest, authors: set<nat>)
    requires SentBy(store, height, v, authors) && |authors| >= weak >= 1
    ensures v in Certified(store, height, weak) && authors <= Authors(store, store.Keys, height, v)
  {
    var x :| x in authors;
    assert store[ChkptId(x, height)] == v;
    SubsetCount(authors, Authors(store, store.Keys, height, v));
  }

  /** Inconsistent checkpoints prove that two honest replicas disagree. */
  lemma InconsistentMeansDisagreement(c: Config, store: Received, height: nat, says: nat -> Digest, r: WeakResult)
    requires c.Valid() && Authentic(c, store, height, says) && IsWeakResult(store, height, c.Weak(), r) && r.Inconsistent?
    ensures exists a, b ::
              && a in c.Honest() && b in c.Honest() && says(a) != says(b)
              && ChkptId(a, height) in store && ChkptId(b, height) in store
  {
    if a :| a in c.Honest() && ChkptId(a, height) in store {
      var v := says(a);
      if forall b :: b in c.Honest() && ChkptId(b, height) in store ==> says(b) == v {
        OneValueIsConsistent(c, store, height, says, v, r);
      }
    } else {
      OneValueIsConsistent(c, store, height, says, "", r);
    }
  }

  lemma OneValueIsConsistent(c: Config, store: Received, height: nat, says: nat -> Digest, v: Digest, r: WeakResult)
    requires c.Valid() && Authentic(c, store, height, says) && IsWeakResult(store, height, c.Weak(), r)
    requires forall b :: b in c.Honest() && ChkptId(b, height) in store ==> says(b) == v
    ensures !r.Inconsistent?
  {
    forall x | x in store && x.sequence == height && x.author in c.Honest() ensures store[x] == v {
      assert x == ChkptId(x.author, height);
    }
    HonestAgreementKept(c, store, height, (x: nat) => v, v, r);
  }

  /* ---------- the program ---------- */

  ghost predicate Tracked(store: Received, seen: set<ChkptId>, height: nat, diff: map<Digest, seq<nat>>) {
    && diff.Keys == Values(store, seen, height)
    && forall v :: v in diff ==> IsListOfSet(diff[v], Authors(store, seen, height, v))
  }

  ghost predicate IsListOfSet(s: seq<nat>, t: set<nat>) {
    |s| == |t| && forall x :: x in s <==> x in t
  }

  lemma AuthorStep(store: Received, seen: set<ChkptId>, height: nat, x: ChkptId, v: Digest)
    requires x in store && x !in seen && x.sequence == height
    ensures Authors(store, seen + {x}, height, v)
         == Authors(store, seen, height, v) + (if store[x] == v then {x.author} else {})
    ensures x.author !in Authors(store, seen, height, store[x])
  {
  }

  lemma TrackOther(store: Received, seen: set<ChkptId>, height: nat, x: ChkptId, diff: map<Digest, seq<nat>>)
    requires Tracked(store, seen, height, diff) && x in store && x.sequence != height
    ensures Tracked(store, seen + {x}, height, diff)
  {
    assert Values(store, seen + {x}, height) == Values(store, seen, height);
    forall v ensures Authors(store, seen + {x}, height, v) == Authors(store, seen, height, v) {
    }
  }

  function Counted(diff: map<Digest, seq<nat>>, hash: Digest, author: nat): map<Digest, seq<nat>> {
    diff[hash := (if hash in diff then diff[hash] else []) + [author]]
  }

  lemma TrackStep(store: Received, seen: set<ChkptId>, height: nat, x: ChkptId, diff: map<Digest, seq<nat>>)
    requires Tracked(store, seen, height, diff)
    requires x in store && x !in seen && x.sequence == height
    ensures Tracked(store, seen + {x}, height, Counted(diff, store[x], x.author))
  {
    var hash := store[x];
    var after := Counted(diff, hash, x.author);
    assert Values(store, seen + {x}, height) == Values(store, seen, height) + {hash};
    forall v | v in after ensures IsListOfSet(after[v], Authors(store, seen + {x}, height, v)) {
      AuthorStep(store, seen, height, x, v);
      if v == hash {
        ListGrows(store, seen, height, x, diff);
      }
    }
  }

  lemma ListGrows(store: Received, seen: set<ChkptId>, height: nat, x: ChkptId, diff: map<Digest, seq<nat>>)
    requires Tracked(store, seen, height, diff)
    requires x in store && x !in seen && x.sequence == height
    ensures IsListOfSet((if store[x] in diff then diff[store[x]] else []) + [x.author],
                        Authors(store, seen, height, store[x]) + {x.author})
  {
    AuthorStep(store, seen, height, x, store[x]);
    if store[x] !in diff {
      assert Authors(store, seen, height, store[x]) == {};
    }
  }

  /** The values counted so far that reached F + 1, each once. */
  ghost predicate Reached(diff: map<Digest, seq<nat>>, weak: nat, correct: seq<Digest>) {
    && (forall v :: v in correct <==> v in diff && |diff[v]| >= weak)
    && (forall i, j :: 0 <= i < j < |correct| ==> correct[i] != correct[j])
  }

  /** A value is recorded when its count reaches F + 1. */
  function WithReached(diff: map<Digest, seq<nat>>, weak: nat, correct: seq<Digest>, hash: Digest): seq<Digest>
    requires hash in diff
  {
    if |diff[hash]| == weak then correct + [hash] else correct
  }

  lemma ReachedStep(diff: map<Digest, seq<nat>>, weak: nat, correct: seq<Digest>, hash: Digest, author: nat)
    requires weak >= 1 && Reached(diff, weak, correct)
    ensures var after := Counted(diff, hash, author);
            Reached(after, weak, WithReached(after, weak, correct, hash))
  {
  }

  lemma SeenGrows(store: Received, seen: set<ChkptId>, height: nat)
    requires seen <= store.Keys
    ensures |Values(store, seen, height)| <= |Values(store, store.Keys, height)|
  {
    SubsetCount(Values(store, seen, height), Values(store, store.Keys, height));
  }

  lemma CorrectCount(store: Received, height: nat, weak: nat, diff: map<Digest, seq<nat>>, correct: seq<Digest>)
    requires Tracked(store, store.Keys, height, diff) && Reached(diff, weak, correct)
    ensures |Certified(store, height, weak)| == |correct|
    ensures forall v :: v in Certified(store, height, weak) <==> v in correct
  {
    DistinctCount(correct, Certified(store, height, weak));
  }

  lemma {:induction false} DistinctCount(s: seq<Digest>, t: set<Digest>)
    requires forall i, j :: 0 <= i < j < |s| ==> s[i] != s[j]
    requires forall x :: x in s <==> x in t
    ensures |s| == |t|
    decreases |s|
  {
    if s != [] {
      var init := s[..|s| - 1];
      var last := s[|s| - 1];
      assert s == init + [last];
      DistinctCount(init, t - {last});
    }
  }

  lemma CountStep(store: Received, seen: set<ChkptId>, height: nat, weak: nat, x: ChkptId,
                  diff: map<Digest, seq<nat>>, correct: seq<Digest>)
    requires weak >= 1 && seen <= store.Keys && x in store && x !in seen && x.sequence == height
    requires Tracked(store, seen, height, diff) && Reached(diff, weak, correct)
    ensures var after := Counted(diff, store[x], x.author);
            && Tracked(store, seen + {x}, height, after)
            && Reached(after, weak, WithReached(after, weak, correct, store[x]))
            && |after.Keys| <= |Values(store, store.Keys, height)|
  {
    TrackStep(store, seen, height, x, diff);
    ReachedStep(diff, weak, correct, store[x], x.author);
    SeenGrows(store, seen + {x}, height);
  }

  lemma SeenAll(store: Received, height: nat, weak: nat, diff: map<Digest, seq<nat>>, correct: seq<Digest>, r: WeakResult)
    requires Tracked(store, store.Keys, height, diff) && Reached(diff, weak, correct) && |diff.Keys| <= weak
    requires r == if |correct| == 0 then NoWeakCert
                  else if |correct| > 1 then Inconsistent
                  else WeakCert(correct[0], Authors(store, store.Keys, height, correct[0]))
    ensures IsWeakResult(store, height, weak, r)
    ensures r.WeakCert? ==> correct[0] in diff && IsListOfSet(diff[correct[0]], r.authors)
  {
    CorrectCount(store, height, weak, diff, correct);
    if |correct| == 0 {
      assert Certified(store, height, weak) == {};
    } else if |correct| == 1 {
      assert correct[0] in correct;
      assert Certified(store, height, weak) == {correct[0]};
    }
  }

  ghost predicate Counting(store: Received, seen: set<ChkptId>, height: nat, weak: nat,
                           diff: map<Digest, seq<nat>>, correct: seq<Digest>)
  {
    Tracked(store, seen, height, diff) && Reached(diff, weak, correct)
  }

  method CountOne(store: Received, ghost seen: set<ChkptId>, height: nat, weak: nat, cp: ChkptId,
                  diff: map<Digest, seq<nat>>, correct: seq<Digest>)
    returns (after: map<Digest, seq<nat>>, reached: seq<Digest>)
    requires weak >= 1 && seen <= store.Keys && cp in store && cp !in seen
    requires Counting(store, seen, height, weak, diff, correct)
    ensures Counting(store, seen + {cp}, height, weak, after, reached)
    ensures |after.Keys| <= |Values(store, store.Keys, height)|
  {
    if cp.sequence != height {
      TrackOther(store, seen, height, cp, diff);
      SeenGrows(store, seen, height);
      return diff, correct;
    }
    var hash := store[cp];
    CountStep(store, seen, height, weak, cp, diff, correct);
    after := Counted(diff, hash, cp.author);
    reached := WithReached(after, weak, correct, hash);
  }

  /** The loop of compareCheckpointWithWeakSet, visiting the messages in any order and giving up as
      soon as more than F + 1 different values have been seen. */
  method CountValues(store: Received, height: nat, weak: nat)
    returns (tooMany: bool, diff: map<Digest, seq<nat>>, correct: seq<Digest>)
    requires weak >= 1
    ensures tooMany ==> |Values(store, store.Keys, height)| > weak
    ensures !tooMany ==> Counting(store, store.Keys, height, weak, diff, correct) && |diff.Keys| <= weak
  {
    tooMany, diff, correct := false, map[], [];
    var todo := store.Keys;
    while todo != {}
      invariant todo <= store.Keys
      invariant Counting(store, store.Keys - todo, height, weak, diff, correct) && |diff.Keys| <= weak
      decreases |todo|
    {
      var cp :| cp in todo;
      assert store.Keys - (todo - {cp}) == store.Keys - todo + {cp};
      diff, correct := CountOne(store, store.Keys - todo, height, weak, cp, diff, correct);
      if |diff.Keys| > weak {
        return true, diff, correct;
      }
      todo := todo - {cp};
    }
    assert store.Keys - todo == store.Keys;
  }

  /** The weak certificate for a height, if there is exactly one, with all its signers. */
  method FindWeakSet(store: Received, height: nat, weak: nat) returns (r: WeakResult, matching: seq<nat>)
    requires weak >= 1
    ensures IsWeakResult(store, height, weak, r)
    ensures r.WeakCert? ==> IsListOfSet(matching, r.authors)
  {
    var tooMany, diff, correct := CountValues(store, height, weak);
    if tooMany {
      return Inconsistent, [];
    }
    r := if |correct| == 0 then NoWeakCert
         else if |correct| > 1 then Inconsistent
         else WeakCert(correct[0], Authors(store, store.Keys, height, correct[0]));
    SeenAll(store, height, weak, diff, correct, r);
    matching := if r.WeakCert? then diff[correct[0]] else [];
  }

  /** What compareCheckpointWithWeakSet answers: whether the checkpoint is legal, and the matching
      ones. A local checkpoint that differs from the certified value is illegal. */
  ghost predicate IsComparison(store: Received, local: map<nat, Digest>, height: nat, weak: nat, legal: bool, matching: seq<nat>) {
    exists r :: IsWeakResult(store, height, weak, r)
      && (legal <==> r.NoWeakCert? || (r.WeakCert? && (height in local ==> local[height] == r.value)))
      && (if legal && r.WeakCert? then IsListOfSet(matching, r.authors) else matching == [])
  }

  /** These are all who sent the value for the height. */
  ghost predicate AreSendersOf(store: Received, height: nat, v: Digest, senders: seq<nat>) {
    forall x :: x in senders <==> ChkptId(x, height) in store && store[ChkptId(x, height)] == v
  }

  /** No F + 1 authors agree on a value yet, and there are no more than F + 1 values. */
  ghost predicate Undecided(store: Received, height: nat, weak: nat) {
    && (forall v, authors: set<nat> :: SentBy(store, height, v, authors) ==> |authors| < weak)
    && (forall values: set<Digest> :: AllSeen(store, height, values) ==> |values| <= weak)
  }

  /** The answer, exactly: matching checkpoints are all those for one value that F + 1 authors sent and the
      local checkpoint does not contradict; a local checkpoint that differs from such a value makes the answer
      illegal; and as long as no F + 1 agree and there are not too many values, it is legal with none. */
  lemma ComparisonIs(store: Received, local: map<nat, Digest>, height: nat, weak: nat, legal: bool, matching: seq<nat>)
    requires IsComparison(store, local, height, weak, legal, matching) && weak >= 1
    ensures matching != [] ==> legal && |matching| >= weak
    ensures matching != [] ==> exists v :: AreSendersOf(store, height, v, matching) && (height in local ==> local[height] == v)
    ensures forall v, authors: set<nat> :: SentBy(store, height, v, authors) && |authors| >= weak ==>
              height in local && local[height] != v ==> !legal
    ensures Undecided(store, height, weak) ==> legal && matching == []
  {
    var r :| IsWeakResult(store, height, weak, r)
      && (legal <==> r.NoWeakCert? || (r.WeakCert? && (height in local ==> local[height] == r.value)))
      && (if legal && r.WeakCert? then IsListOfSet(matching, r.authors) else matching == []);
    WeakResultIs(store, height, weak, r);
    if r.WeakCert? {
      SendersAreAll(store, height, r.value);
      assert matching != [] ==> AreSendersOf(store, height, r.value, matching);
    }
    if !r.NoWeakCert? {
      NothingCertified(store, height, weak, r);
    }
  }

  lemma SendersAreAll(store: Received, height: nat, v: Digest)
    ensures forall x :: x in Authors(store, store.Keys, height, v) <==> ChkptId(x, height) in store && store[ChkptId(x, height)] == v
  {
    forall x | ChkptId(x, height) in store && store[ChkptId(x, height)] == v ensures x in Authors(store, store.Keys, height, v) {
    }
  }

  lemma NothingCertified(store: Received, height: nat, weak: nat, r: WeakResult)
    requires IsWeakResult(store, height, weak, r) && weak >= 1 && !r.NoWeakCert?
    ensures (exists v, authors: set<nat> :: SentBy(store, height, v, authors) && |authors| >= weak)
            || (exists values: set<Digest> :: AllSeen(store, height, values) && |values| > weak)
  {
    if |Values(store, store.Keys, height)| > weak {
      assert AllSeen(store, height, Values(store, store.Keys, height)) by {
        forall v | v in Values(store, store.Keys, height) ensures exists x :: ChkptId(x, height) in store && store[ChkptId(x, height)] == v {
          var m :| m in store && m.sequence == height && store[m] == v;
          assert m == ChkptId(m.author, height);
        }
      }
    } else {
      var v :| v in Certified(store, height, weak);
      SendersAreAll(store, height, v);
      assert SentBy(store, height, v, Authors(store, store.Keys, height, v));
    }
  }

  class CheckpointStore {
    var h: nat
    var checkpointStore: map<ChkptId, Digest>
    var localCheckpoints: map<nat, Digest>

    /** compareCheckpointWithWeakSet. A message at or below the low watermark is ignored; any other
        one replaces what its author sent for that height before. */
    method CompareCheckpointWithWeakSet(author: nat, height: nat, digest: Digest, weak: nat)
      returns (legal: bool, matching: seq<nat>)
      requires weak >= 1
      modifies this`checkpointStore
      ensures height <= h ==> !legal && matching == [] && checkpointStore == old(checkpointStore)
      ensures height > h ==> checkpointStore == old(checkpointStore)[ChkptId(author, height) := digest]
      ensures height > h ==> IsComparison(checkpointStore, localCheckpoints, height, weak, legal, matching)
    {
      if height <= h {
        return false, [];
      }
      checkpointStore := checkpointStore[ChkptId(author, height) := digest];
      var r, found := FindWeakSet(checkpointStore, height, weak);
      if r.Inconsistent? {
        return false, [];
      }
      if r.NoWeakCert? {
        return true, [];
      }
      if height in localCheckpoints && localCheckpoints[height] != r.value {
        return false, [];
      }
      return true, found;
    }
  }

  /** A comparison with a quorum of matching checkpoints is what makes a checkpoint stable, and it
      confirms the replica's own one. */
  lemma QuorumConfirmsLocal(c: Config, store: Received, local: map<nat, Digest>, height: nat, says: nat -> Digest,
                            legal: bool, matching: seq<nat>) returns (r: nat)
    requires c.Valid() && Authentic(c, store, height, says)
    requires IsComparison(store, local, height, c.Weak(), legal, matching) && |matching| >= c.Q()
    ensures legal && r in c.Honest() && ChkptId(r, height) in store
    ensures height in local ==> local[height] == says(r)
  {
    var w :| IsWeakResult(store, height, c.Weak(), w)
      && (legal <==> w.NoWeakCert? || (w.WeakCert? && (height in local ==> local[height] == w.value)))
      && (if legal && w.WeakCert? then IsListOfSet(matching, w.authors) else matching == []);
    r := CertifiedIsHonest(c, store, height, says, w.value);
  }
}
