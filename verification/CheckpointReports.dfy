/** Checkpoints over whole runs: when every honest replica reports what a deterministic application
    computes from the requests it executed, checkpoint certificates follow from the agreement on
    executions. */
module CheckpointReports {
  import opened Quorum
  import opened NewView
  import opened Replica
  import opened Protocol
  import opened Agreement
  import opened ViewChanges
  import opened Checkpoints

  function Digests(executed: seq<MsgId>): seq<Digest> {
    seq(|executed|, i requires 0 <= i < |executed| => executed[i].d)
  }

  /** A signed checkpoint of an honest replica. */
  datatype Signed = Signed(author: nat, height: nat, digest: Digest)

  /** The system, with every checkpoint that honest replicas signed so far. */
  datatype Book = Book(sys: Sys, signed: set<Signed>)

  /** The application is a function of the requests executed so far. */
  ghost predicate BookStep(c: Config, app: seq<Digest> -> Digest, b: Book, a: Action, next: Book)
    requires c.n >= 1
  {
    && Enabled(c, b.sys, a) && next.sys == Next(c, b.sys, a)
    && var executed := b.sys[a.r].executed;
       if a.DoReport? then a.digest == app(Digests(executed)) && next.signed == b.signed + {Signed(a.r, |executed|, a.digest)}
       else next.signed == b.signed
  }

  ghost function BookSteps(c: Config, app: seq<Digest> -> Digest): iset<(Book, Action, Book)>
    requires c.n >= 1
  {
    iset b: Book, a: Action, next: Book | BookStep(c, app, b, a, next) :: (b, a, next)
  }

  ghost function BookRelation(c: Config, app: seq<Digest> -> Digest): (Book, Action, Book) -> bool
    requires c.n >= 1
  {
    (b: Book, a: Action, next: Book) => (b, a, next) in BookSteps(c, app)
  }

  /** The given steps of a system with this application lead to the given book. */
  ghost predicate Books(c: Config, genesis: Digest, app: seq<Digest> -> Digest, steps: seq<Action>, b: Book)
    requires c.n >= 1
  {
    exists start: Sys :: Init(c, start, genesis) && Chain(BookRelation(c, app), Book(start, {}), steps, b)
  }

  /** Every signed checkpoint is what the application makes of the executed requests up to its height. */
  ghost predicate TrueToExecution(app: seq<Digest> -> Digest, b: Book) {
    forall m :: m in b.signed ==>
      && m.author in b.sys && m.height <= |b.sys[m.author].executed|
      && m.digest == app(Digests(b.sys[m.author].executed[..m.height]))
  }

  lemma BookStepKeeps(c: Config, app: seq<Digest> -> Digest, b: Book, a: Action, next: Book)
    requires c.n >= 1 && TrueToExecution(app, b) && (b, a, next) in BookSteps(c, app)
    ensures TrueToExecution(app, next)
  {
    StepAdvances(c, b.sys, a);
    var s, t := b.sys[a.r], next.sys[a.r];
    forall m | m in next.signed
      ensures m.author in next.sys && m.height <= |next.sys[m.author].executed|
      ensures m.digest == app(Digests(next.sys[m.author].executed[..m.height]))
    {
      if m in b.signed {
        assert m.author == a.r ==> t.executed[..m.height] == s.executed[..m.height] by {
          assert t.executed[..|s.executed|] == s.executed;
        }
      } else {
        assert t.executed[..m.height] == s.executed;
      }
    }
  }

  lemma BookRunOn(c: Config, app: seq<Digest> -> Digest, start: Sys, init: seq<Action>, before: Book, last: Action, b: Book)
    requires c.n >= 1 && Run(c, start, init, before.sys) && (before, last, b) in BookSteps(c, app)
    ensures Run(c, start, init + [last], b.sys)
  {
    RunOneMore(c, start, init, before.sys, last, b.sys);
  }

  ghost predicate IsBook(c: Config, app: seq<Digest> -> Digest, start: Sys, acts: seq<Action>, b: Book)
    requires c.n >= 1
  {
    Run(c, start, acts, b.sys) && TrueToExecution(app, b)
  }

  lemma BookStarts(c: Config, app: seq<Digest> -> Digest, start: Sys)
    requires c.n >= 1
    ensures IsBook(c, app, start, [], Book(start, {}))
  {
  }

  lemma BookGoesOn(c: Config, app: seq<Digest> -> Digest, start: Sys, acts: seq<Action>, b: Book, a: Action, next: Book)
    requires c.n >= 1 && IsBook(c, app, start, acts, b) && (b, a, next) in BookSteps(c, app)
    ensures IsBook(c, app, start, acts + [a], next)
  {
    BookStepKeeps(c, app, b, a, next);
    BookRunOn(c, app, start, acts, b, a, next);
  }

  /** A run with its book is a run, and its signed checkpoints are true to the executions. */
  lemma BookRun(c: Config, app: seq<Digest> -> Digest, start: Sys, steps: seq<Action>, b: Book)
    requires c.n >= 1 && Chain(BookRelation(c, app), Book(start, {}), steps, b)
    ensures Run(c, start, steps, b.sys) && TrueToExecution(app, b)
  {
    var inv := (acts: seq<Action>, x: Book) => IsBook(c, app, start, acts, x);
    BookStarts(c, app, start);
    forall acts, x, a, y | inv(acts, x) && BookRelation(c, app)(x, a, y) ensures inv(acts + [a], y) {
      BookGoesOn(c, app, start, acts, x, a, y);
    }
    ChainKeeps(BookRelation(c, app), Book(start, {}), steps, b, inv);
  }

  /** The hypotheses of agreement for every number up to a height. */
  ghost predicate RegularUpTo(c: Config, sys: Sys, height: nat) {
    forall n :: 1 <= n <= height ==> NoNullExecuted(sys, n) && Windowed(c, sys, n)
  }

  lemma SamePrefix(c: Config, genesis: Digest, steps: seq<Action>, sys: Sys, r1: nat, r2: nat, height: nat)
    requires c.Valid() && Reaches(c, genesis, steps, sys) && GuardedSteps(c, steps) && RegularUpTo(c, sys, height)
    requires r1 in sys && r2 in sys && height <= |sys[r1].executed| && height <= |sys[r2].executed|
    ensures Digests(sys[r1].executed[..height]) == Digests(sys[r2].executed[..height])
  {
    forall i: nat | i < height ensures sys[r1].executed[i].d == sys[r2].executed[i].d {
      ExecutionsAgree(c, genesis, steps, sys, r1, r2, i);
    }
  }

  /** Honest replicas sign one digest per height. */
  lemma SignedAgree(c: Config, genesis: Digest, app: seq<Digest> -> Digest, steps: seq<Action>, b: Book, m1: Signed, m2: Signed)
    requires c.Valid() && Books(c, genesis, app, steps, b) && GuardedSteps(c, steps)
    requires m1 in b.signed && m2 in b.signed && m1.height == m2.height && RegularUpTo(c, b.sys, m1.height)
    ensures m1.digest == m2.digest
  {
    var start: Sys :| Init(c, start, genesis) && Chain(BookRelation(c, app), Book(start, {}), steps, b);
    BookRun(c, app, start, steps, b);
    SamePrefix(c, genesis, steps, b.sys, m1.author, m2.author, m1.height);
  }

  /** What a replica has received for a height: from honest authors only what they signed. */
  ghost predicate FromBook(c: Config, store: Received, height: nat, b: Book) {
    forall x :: x in store && x.sequence == height ==>
      x.author in c.Replicas() && (x.author in c.Honest() ==> Signed(x.author, height, store[x]) in b.signed)
  }

  /** In every reachable state, whatever checkpoints faulty replicas sign, what one replica finds for a
      height is the digest the honest ones sign there, or nothing yet; it is never inconsistent. */
  lemma CertifiedIsSigned(c: Config, genesis: Digest, app: seq<Digest> -> Digest, steps: seq<Action>, b: Book,
                          height: nat, store: Received, r: WeakResult)
    requires c.Valid() && Books(c, genesis, app, steps, b) && GuardedSteps(c, steps) && RegularUpTo(c, b.sys, height)
    requires FromBook(c, store, height, b) && IsWeakResult(store, height, c.Weak(), r)
    ensures !r.Inconsistent?
    ensures r.WeakCert? ==> (exists m :: m in b.signed && m.height == height)
                            && forall m :: m in b.signed && m.height == height ==> m.digest == r.value
  {
    if one :| one in b.signed && one.height == height {
      var says := (x: nat) => one.digest;
      forall x | x in store && x.sequence == height && x.author in c.Honest() ensures store[x] == one.digest {
        SignedAgree(c, genesis, app, steps, b, Signed(x.author, height, store[x]), one);
      }
      HonestAgreementKept(c, store, height, says, one.digest, r);
      forall m | m in b.signed && m.height == height ensures m.digest == one.digest {
        SignedAgree(c, genesis, app, steps, b, m, one);
      }
    } else {
      NothingCertified(c, store, height, b, r);
    }
  }

  lemma NothingCertified(c: Config, store: Received, height: nat, b: Book, r: WeakResult)
    requires c.Valid() && FromBook(c, store, height, b) && IsWeakResult(store, height, c.Weak(), r)
    requires forall m :: m in b.signed ==> m.height != height
    ensures r == NoWeakCert
  {
    var says := (x: nat) => NULL_REQUEST;
    forall x | x in store && x.sequence == height ensures x.author !in c.Honest() {
      assert Signed(x.author, height, store[x]) !in b.signed;
    }
    HonestAgreementKept(c, store, height, says, NULL_REQUEST, r);
    if r.WeakCert? {
      assert r.value in Certified(store, height, c.Weak());
      var x := CertifiedIsHonest(c, store, height, says, r.value);
      assert false;
    }
  }

  /** Checkpoint certificates agree over every run: whatever two replicas certify for one height, even
      with F + 1 signatures, is the same digest. */
  lemma CertificatesAgree(c: Config, genesis: Digest, app: seq<Digest> -> Digest, steps: seq<Action>, b: Book, height: nat,
                          s1: Received, r1: WeakResult, s2: Received, r2: WeakResult)
    requires c.Valid() && Books(c, genesis, app, steps, b) && GuardedSteps(c, steps) && RegularUpTo(c, b.sys, height)
    requires FromBook(c, s1, height, b) && IsWeakResult(s1, height, c.Weak(), r1) && r1.WeakCert?
    requires FromBook(c, s2, height, b) && IsWeakResult(s2, height, c.Weak(), r2) && r2.WeakCert?
    ensures r1.value == r2.value
  {
    CertifiedIsSigned(c, genesis, app, steps, b, height, s1, r1);
    CertifiedIsSigned(c, genesis, app, steps, b, height, s2, r2);
  }
}
