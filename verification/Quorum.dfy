/** Quorum arithmetic of one epoch: replica ids, the primary of a view and the three vote
    thresholds, with the intersection facts the protocol rests on. */
module Quorum {

  /** Fixed data of an epoch. `ckptAt` says which heights are checkpoint heights: the multiples of
      the checkpoint period and the epoch's last block. `elect` is the election of the primary of a view.
      `byz` is the set of replicas that may behave arbitrarily; it is only read by
      specifications, never by the code being modelled. */
  datatype Config = Config(n: nat, l: nat, ckptAt: nat -> bool, elect: nat -> nat, byz: set<nat>) {

    /** The number of faulty validators tolerated. */
    function F(): nat
      requires n >= 1
    {
      (n - 1) / 3
    }

    /** commonCaseQuorum: the ceiling of (N + F + 1) / 2. */
    function Q(): nat
      requires n >= 1
    {
      (n + F() + 2) / 2
    }

    /** oneCorrectQuorum. */
    function Weak(): nat
      requires n >= 1
    {
      F() + 1
    }

    /** The primary of view v. */
    function Primary(v: nat): nat {
      elect(v)
    }

    /** Validators are numbered 1..N. */
    function Replicas(): set<nat> {
      Ids(n)
    }

    function Honest(): set<nat> {
      Replicas() - byz
    }

    /** updateDerivedData refuses fewer than four validators; at most F of them are faulty. */
    ghost predicate Valid() {
      && n >= 4
      && ckptAt(0)
      && (forall v :: elect(v) in Replicas())
      && byz <= Replicas()
      && |byz| <= F()
    }
  }

  /** The ids 1..n. */
  function Ids(n: nat): (ids: set<nat>)
    ensures forall r: nat :: r in ids <==> 1 <= r <= n
    ensures |ids| == n
  {
    if n == 0 then {} else Ids(n - 1) + {n}
  }

  /** Rotation election: the primary of view v is v % N + 1, a validator. */
  function Rotation(n: nat): (elect: nat -> nat)
    requires n >= 1
    ensures forall v: nat :: elect(v) in Ids(n)
  {
    (v: nat) => v % n + 1
  }

  /** Every validator has its turn: view 0 belongs to the first one, and each next view to the next
      one, the first again after the last. */
  lemma RotationTurns(n: nat, v: nat)
    requires n >= 1
    ensures Rotation(n)(0) == 1
    ensures Rotation(n)(v + 1) == if Rotation(n)(v) == n then 1 else Rotation(n)(v) + 1
  {
    var q, r := v / n, v % n;
    assert v == q * n + r;
    if r + 1 == n {
      OneMore(q, n);
      RemainderIs(v + 1, n, q + 1, 0);
    } else {
      RemainderIs(v + 1, n, q, r + 1);
    }
  }

  lemma OneMore(q: nat, n: nat)
    ensures (q + 1) * n == q * n + n
  {
  }

  lemma RemainderIs(x: nat, n: nat, q: nat, r: nat)
    requires n >= 1 && x == q * n + r && r < n
    ensures x % n == r
  {
    var more: int := x / n - q;
    assert x == x / n * n + x % n;
    assert more * n == r - x % n;
    assert more >= 1 ==> more * n >= n;
    assert more <= -1 ==> more * n + n <= 0;
  }

  lemma SubsetCount<T>(a: set<T>, b: set<T>)
    requires a <= b
    ensures |a| <= |b|
  {
    assert b == a + (b - a);
  }

  lemma InclusionExclusion<T>(a: set<T>, b: set<T>)
    ensures |a + b| + |a * b| == |a| + |b|
  {
    assert a + b == a + (b - a);
    assert b == (a * b) + (b - a);
  }

  /** Any two common-case quorums share at least F + 1 members. */
  lemma QuorumsOverlap(c: Config, a: set<nat>, b: set<nat>)
    requires c.Valid()
    requires a <= c.Replicas() && b <= c.Replicas()
    requires |a| >= c.Q() && |b| >= c.Q()
    ensures |a * b| >= c.Weak()
  {
    InclusionExclusion(a, b);
    SubsetCount(a + b, c.Replicas());
  }

  /** A set of more than F replicas has an honest member. */
  lemma WeakHasHonest(c: Config, a: set<nat>) returns (r: nat)
    requires c.Valid()
    requires |a| >= c.Weak()
    ensures r in a && r !in c.byz
  {
    if a <= c.byz {
      SubsetCount(a, c.byz);
    }
    r :| r in a && r !in c.byz;
  }

  /** Any two common-case quorums share an honest replica. */
  lemma QuorumsShareHonest(c: Config, a: set<nat>, b: set<nat>) returns (r: nat)
    requires c.Valid()
    requires a <= c.Replicas() && b <= c.Replicas()
    requires |a| >= c.Q() && |b| >= c.Q()
    ensures r in a && r in b && r in c.Honest()
  {
    QuorumsOverlap(c, a, b);
    r := WeakHasHonest(c, a * b);
  }

  /** The honest replicas alone can form a common-case quorum, and every common-case quorum
      holds at least F + 1 honest replicas. */
  lemma HonestQuorum(c: Config, a: set<nat>)
    requires c.Valid()
    ensures |c.Honest()| >= c.n - c.F() >= c.Q()
    ensures a <= c.Replicas() && |a| >= c.Q() ==> |a - c.byz| >= c.Weak()
  {
    RemovedCount(c.Replicas(), c.byz);
    RemovedCount(a, c.byz);
  }

  lemma RemovedCount<T>(a: set<T>, b: set<T>)
    ensures |a - b| >= |a| - |b|
  {
    InclusionExclusion(a - b, a * b);
    assert (a - b) * (a * b) == {};
    assert (a - b) + (a * b) == a;
    SubsetCount(a * b, b);
  }

  /* ---------- the thresholds are the least ones ---------- */

  /** F is the largest number of faulty validators that 3F + 1 <= N allows. */
  lemma FaultyIsLargest(c: Config, f: nat)
    requires c.n >= 1
    ensures 3 * f + 1 <= c.n <==> f <= c.F()
  {
  }

  /** Any two sets of k replicas share at least F + 1 of them. */
  ghost predicate AlwaysOverlap(c: Config, k: nat)
    requires c.n >= 1
  {
    forall a: set<nat>, b: set<nat> ::
      a <= c.Replicas() && b <= c.Replicas() && |a| == k && |b| == k ==> |a * b| >= c.F() + 1
  }

  /** The common-case quorum is the least size at which any two sets of replicas share F + 1. */
  lemma QuorumIsLeast(c: Config, k: nat)
    requires c.n >= 1 && k <= c.n
    ensures AlwaysOverlap(c, k) <==> k >= c.Q()
  {
    if k >= c.Q() {
      forall a: set<nat>, b: set<nat> | a <= c.Replicas() && b <= c.Replicas() && |a| == k && |b| == k
        ensures |a * b| >= c.F() + 1
      {
        InclusionExclusion(a, b);
        SubsetCount(a + b, c.Replicas());
      }
    } else {
      var a, b := FirstAndLast(c, k);
    }
  }

  /** The first k replicas and the last k share no more than they must. */
  lemma FirstAndLast(c: Config, k: nat) returns (a: set<nat>, b: set<nat>)
    requires c.n >= 1 && k <= c.n
    ensures a <= c.Replicas() && b <= c.Replicas() && |a| == k && |b| == k
    ensures |a * b| == if 2 * k <= c.n then 0 else 2 * k - c.n
  {
    a, b := Ids(k), c.Replicas() - Ids(c.n - k);
    LastCount(c.n, k);
    if 2 * k <= c.n {
      assert a * b == {};
    } else {
      InclusionExclusion(a, b);
      FirstAndLastCover(c.n, k);
    }
  }

  lemma FirstAndLastCover(n: nat, k: nat)
    requires k <= n < 2 * k
    ensures Ids(k) + (Ids(n) - Ids(n - k)) == Ids(n)
  {
  }

  lemma LastCount(n: nat, k: nat)
    requires k <= n
    ensures |Ids(n) - Ids(n - k)| == k
  {
    var last, rest := Ids(n) - Ids(n - k), Ids(n - k);
    assert last + rest == Ids(n) && last * rest == {};
    InclusionExclusion(last, rest);
  }

  /** Whoever the F faulty replicas are, a set of k replicas has another one. */
  ghost predicate AlwaysHonest(c: Config, k: nat)
    requires c.n >= 1
  {
    forall a: set<nat>, faulty: set<nat> ::
      a <= c.Replicas() && faulty <= c.Replicas() && |a| == k && |faulty| <= c.F() ==> !(a <= faulty)
  }

  /** The one-correct quorum is the least size that guarantees an honest member. */
  lemma WeakIsLeast(c: Config, k: nat)
    requires c.n >= 1 && k <= c.n
    ensures AlwaysHonest(c, k) <==> k >= c.Weak()
  {
    if k >= c.Weak() {
      forall a: set<nat>, faulty: set<nat> | a <= faulty && |faulty| <= c.F() ensures |a| < k {
        SubsetCount(a, faulty);
      }
    } else {
      assert Ids(k) <= Ids(k) && Ids(k) <= c.Replicas();
    }
  }
}
