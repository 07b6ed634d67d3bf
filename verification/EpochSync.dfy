/** Catching up with later epochs: paged proofs of epoch changes, and skipping the part of a proof
    that is already known. */
module EpochSync {

  /** MaxNumEpochEndingCheckpoint: the page limit of a proof. */
  const MAX_PAGE: nat := 100

  /** A quorum checkpoint that may end its epoch. */
  datatype EpochChange = EpochChange(epoch: nat, needUpdateEpoch: bool, digest: string) {
    function NextEpoch(): nat {
      if needUpdateEpoch then epoch + 1 else epoch
    }
  }

  datatype Proof = Proof(changes: seq<EpochChange>, more: nat, genesis: string)

  /** Crash: the program reads through a nil pointer. */
  datatype Result<+T> = Ok(value: T) | Ignore | Err | Crash

  type Ledger = map<nat, EpochChange>

  /* ---------- serving a request ---------- */

  /** The ledger has the checkpoint that ended every epoch from..last-1. */
  ghost predicate HasEpochs(ledger: Ledger, from: nat, last: nat) {
    forall e :: from <= e < last ==> e in ledger
  }

  /** The epoch a page ends at. */
  function PageEnd(start: nat, target: nat, limit: nat): (end: nat)
    requires start <= target
    ensures start <= end <= target && end - start <= limit
    ensures end == target || end - start == limit
  {
    if target - start > limit then start + limit else target
  }

  /** The changes of the epochs from..last-1, in order. */
  function Changes(ledger: Ledger, from: nat, last: nat): (s: seq<EpochChange>)
    requires from <= last && HasEpochs(ledger, from, last)
    ensures |s| == last - from
    ensures forall i :: 0 <= i < |s| ==> s[i] == ledger[from + i]
  {
    seq(last - from, i requires 0 <= i < last - from => ledger[from + i])
  }

  /** The page for start..end-1 of a request up to target. */
  function Page(ledger: Ledger, start: nat, end: nat, target: nat, genesis: string): Proof
    requires start <= end <= target && HasEpochs(ledger, start, end)
  {
    Proof(Changes(ledger, start, end), if end < target then target else 0, genesis)
  }

  /** verifyEpochChangeRequest. */
  method VerifyRequest(epoch: nat, start: nat, target: nat) returns (ok: bool)
    ensures ok <==> start < target <= epoch
  {
    if start >= target {
      return false;
    }
    if epoch < target {
      return false;
    }
    return true;
  }

  /** pagingGetEpochChangeProof. Fails when an epoch of the page is missing; `more` names the target
      when it does not fit on the page. */
  method PagingGetProof(ledger: Ledger, start: nat, target: nat, limit: nat, genesis: string) returns (r: Result<Proof>)
    requires start <= target
    ensures var end := PageEnd(start, target, limit);
            r == if HasEpochs(ledger, start, end) then Ok(Page(ledger, start, end, target, genesis)) else Err
  {
    var pagingEpoch := target;
    var more := 0;
    if pagingEpoch - start > limit {
      more := pagingEpoch;
      pagingEpoch := start + limit;
    }
    var changes: seq<EpochChange> := [];
    var epoch := start;
    while epoch < pagingEpoch
      invariant start <= epoch <= pagingEpoch
      invariant HasEpochs(ledger, start, epoch)
      invariant changes == Changes(ledger, start, epoch)
    {
      if epoch !in ledger {
        return Err;
      }
      assert HasEpochs(ledger, start, epoch + 1);
      assert Changes(ledger, start, epoch + 1) == changes + [ledger[epoch]];
      changes := changes + [ledger[epoch]];
      epoch := epoch + 1;
    }
    return Ok(Proof(changes, more, genesis));
  }

  /** What a server in epoch `at` answers to a request for start..target. */
  ghost function Served(ledger: Ledger, at: nat, start: nat, target: nat, genesis: string): Result<Proof> {
    if start >= target || at < target then Err
    else
      var end := PageEnd(start, target, MAX_PAGE);
      if HasEpochs(ledger, start, end) then Ok(Page(ledger, start, end, target, genesis)) else Err
  }

  /** processEpochChangeRequest. */
  method ProcessRequest(ledger: Ledger, at: nat, start: nat, target: nat, genesis: string) returns (r: Result<Proof>)
    ensures r == Served(ledger, at, start, target, genesis)
    ensures r.Ok? <==> start < target <= at && forall e :: start <= e < target && e < start + 100 ==> e in ledger
    ensures r.Ok? ==>
              && r.value.genesis == genesis && r.value.more == (if target - start > 100 then target else 0)
              && |r.value.changes| == (if target - start > 100 then 100 else target - start)
              && forall i :: 0 <= i < |r.value.changes| ==> r.value.changes[i] == ledger[start + i]
  {
    var ok := VerifyRequest(at, start, target);
    if !ok {
      return Err;
    }
    r := PagingGetProof(ledger, start, target, MAX_PAGE, genesis);
  }

  /* ---------- accepting a proof ---------- */

  /** How many leading changes are for epochs below the current one. */
  function Stale(changes: seq<EpochChange>, epoch: nat): (k: nat)
    ensures k <= |changes|
    ensures forall j :: 0 <= j < k ==> changes[j].epoch < epoch
    ensures k < |changes| ==> changes[k].epoch >= epoch
    decreases |changes|
  {
    if changes == [] || changes[0].epoch >= epoch then 0 else 1 + Stale(changes[1..], epoch)
  }

  lemma {:induction false} StaleIs(changes: seq<EpochChange>, epoch: nat, k: nat)
    requires k <= |changes| && forall j :: 0 <= j < k ==> changes[j].epoch < epoch
    requires k < |changes| ==> changes[k].epoch >= epoch
    ensures Stale(changes, epoch) == k
  {
    var m := Stale(changes, epoch);
    assert m < |changes| ==> changes[m].epoch >= epoch;
  }

  /** A proof is accepted when its first change that is not stale is for exactly the current epoch;
      the stale ones before it are cut off. */
  function Verified(epoch: nat, changes: seq<EpochChange>): Result<seq<EpochChange>> {
    var k := Stale(changes, epoch);
    if k < |changes| && changes[k].epoch == epoch then Ok(changes[k..]) else Err
  }

  /** verifyEpochChangeProof. */
  method VerifyProof(epoch: nat, changes: seq<EpochChange>) returns (r: Result<seq<EpochChange>>)
    ensures r == Verified(epoch, changes)
  {
    var skip := 0;
    var startEpoch := 0;
    while skip < |changes| && changes[skip].epoch < epoch
      invariant 0 <= skip <= |changes|
      invariant forall j :: 0 <= j < skip ==> changes[j].epoch < epoch
    {
      skip := skip + 1;
    }
    StaleIs(changes, epoch, skip);
    if skip < |changes| {
      startEpoch := changes[skip].epoch;
    }
    if startEpoch != epoch {
      return Err;
    }
    var rest := changes[skip..];
    if |rest| == 0 {
      return Err;
    }
    return Ok(rest);
  }

  function Reaches(changes: seq<EpochChange>): nat
    requires changes != []
  {
    changes[|changes| - 1].NextEpoch()
  }

  /** processEpochChangeProof. A proof that reaches no later epoch, or of another genesis block, is
      ignored. The program reads the last change before it checks that there is one. */
  method ProcessProof(epoch: nat, genesis: string, proof: Proof) returns (r: Result<seq<EpochChange>>)
    ensures r == Processed(epoch, genesis, proof)
  {
    if proof.changes == [] {
      return Crash;
    }
    if proof.changes[|proof.changes| - 1].NextEpoch() <= epoch {
      return Ignore;
    }
    if proof.genesis != genesis {
      return Ignore;
    }
    r := VerifyProof(epoch, proof.changes);
  }

  function Processed(epoch: nat, genesis: string, proof: Proof): Result<seq<EpochChange>> {
    if proof.changes == [] then Crash
    else if Reaches(proof.changes) <= epoch || proof.genesis != genesis then Ignore else Verified(epoch, proof.changes)
  }

  /** What becomes of a proof: the program crashes on an empty one, a proof of another genesis block or one
      whose last change leads to no later epoch is ignored, and any other is accepted if and only if its first
      change that is not for an earlier epoch is for the current one; the earlier ones are cut off. */
  lemma ProcessedIs(epoch: nat, genesis: string, proof: Proof)
    ensures var r := Processed(epoch, genesis, proof);
            && (r.Crash? <==> proof.changes == [])
            && (r.Ignore? <==> proof.changes != [] && (proof.genesis != genesis || !LeadsOn(proof.changes, epoch)))
            && (r.Ok? <==> proof.changes != [] && proof.genesis == genesis && LeadsOn(proof.changes, epoch)
                           && exists k: nat :: StartsAt(proof.changes, epoch, k))
            && (r.Ok? ==> forall k: nat :: StartsAt(proof.changes, epoch, k) ==> r.value == proof.changes[k..])
  {
    forall k: nat | StartsAt(proof.changes, epoch, k) ensures Stale(proof.changes, epoch) == k {
      StaleIs(proof.changes, epoch, k);
    }
    var m := Stale(proof.changes, epoch);
    if m < |proof.changes| && proof.changes[m].epoch == epoch {
      assert StartsAt(proof.changes, epoch, m);
    }
  }

  /** The last change ends an epoch that is not before the current one, or belongs to a later one. */
  predicate LeadsOn(changes: seq<EpochChange>, epoch: nat)
    requires changes != []
  {
    var last := changes[|changes| - 1];
    last.epoch > epoch || (last.epoch == epoch && last.needUpdateEpoch)
  }

  predicate StartsAt(changes: seq<EpochChange>, epoch: nat, k: nat) {
    k < |changes| && changes[k].epoch == epoch && forall j :: 0 <= j < k ==> changes[j].epoch < epoch
  }

  /** A proof of another genesis block never moves the replica. */
  lemma ForeignProof(cl: Client, genesis: string, proof: Proof)
    requires proof.genesis != genesis
    ensures Receive(cl, genesis, proof) == cl
  {
    ProcessedIs(cl.epoch, genesis, proof);
  }

  /* ---------- catching up ---------- */

  /** Every entry of the ledger ends the epoch it is stored under. */
  predicate Genuine(ledger: Ledger) {
    forall e :: e in ledger ==> ledger[e].epoch == e && ledger[e].needUpdateEpoch
  }

  /** A page of a genuine ledger, requested for start..target, arrives at a replica in `epoch`: a
      reply to an older request is cut to start exactly at the current epoch, a wholly stale one is
      ignored, and one that starts later is refused. */
  lemma PageProcessed(ledger: Ledger, start: nat, end: nat, epoch: nat, genesis: string, more: nat)
    requires Genuine(ledger) && start < end && HasEpochs(ledger, start, end)
    ensures var r := Processed(epoch, genesis, Proof(Changes(ledger, start, end), more, genesis));
            && (end <= epoch ==> r == Ignore)
            && (start <= epoch < end ==> r == Ok(Changes(ledger, epoch, end)))
            && (epoch < start ==> r == Err)
  {
    PageEpochs(ledger, start, end);
    if epoch < end {
      PageVerified(ledger, start, end, epoch);
    }
  }

  lemma PageEpochs(ledger: Ledger, start: nat, end: nat)
    requires Genuine(ledger) && start < end && HasEpochs(ledger, start, end)
    ensures forall i :: 0 <= i < end - start ==> Changes(ledger, start, end)[i].epoch == start + i
    ensures Reaches(Changes(ledger, start, end)) == end
  {
  }

  lemma PageSuffix(ledger: Ledger, start: nat, end: nat, epoch: nat)
    requires HasEpochs(ledger, start, end) && start <= epoch < end
    ensures Changes(ledger, start, end)[epoch - start..] == Changes(ledger, epoch, end)
  {
  }

  lemma PageVerified(ledger: Ledger, start: nat, end: nat, epoch: nat)
    requires Genuine(ledger) && start < end && HasEpochs(ledger, start, end) && epoch < end
    ensures Verified(epoch, Changes(ledger, start, end))
         == if start <= epoch then Ok(Changes(ledger, epoch, end)) else Err
  {
    var changes := Changes(ledger, start, end);
    PageEpochs(ledger, start, end);
    if start <= epoch {
      StaleIs(changes, epoch, epoch - start);
      PageSuffix(ledger, start, end, epoch);
    } else {
      StaleIs(changes, epoch, 0);
    }
  }

  lemma ChangesJoin(ledger: Ledger, a: nat, b: nat, d: nat)
    requires a <= b <= d && HasEpochs(ledger, a, b) && HasEpochs(ledger, b, d)
    ensures HasEpochs(ledger, a, d)
    ensures Changes(ledger, a, b) + Changes(ledger, b, d) == Changes(ledger, a, d)
  {
  }

  /** A replica that synchronises: its epoch and the changes that led there. */
  datatype Client = Client(epoch: nat, known: seq<EpochChange>)

  /** A proof arrives; when it is accepted the replica synchronises to the epoch it reaches. */
  function Receive(cl: Client, genesis: string, proof: Proof): Client {
    var r := Processed(cl.epoch, genesis, proof);
    if r.Ok? && r.value != [] then Client(Reaches(r.value), cl.known + r.value) else cl
  }

  function ReceiveAll(cl: Client, genesis: string, proofs: seq<Proof>): Client
    decreases |proofs|
  {
    if proofs == [] then cl else ReceiveAll(Receive(cl, genesis, proofs[0]), genesis, proofs[1..])
  }

  /** The reply of some server to some request, whenever it was sent. */
  ghost predicate IsReply(ledger: Ledger, genesis: string, proof: Proof) {
    exists at: nat, start: nat, target: nat :: Served(ledger, at, start, target, genesis) == Ok(proof)
  }

  /** Client cl has followed the ledger from the given epoch on, without gap and without repeat. */
  ghost predicate Follows(ledger: Ledger, from: nat, cl: Client) {
    from <= cl.epoch && HasEpochs(ledger, from, cl.epoch) && cl.known == Changes(ledger, from, cl.epoch)
  }

  lemma ReplyFollows(ledger: Ledger, from: nat, cl: Client, genesis: string, proof: Proof)
    requires Genuine(ledger) && Follows(ledger, from, cl) && IsReply(ledger, genesis, proof)
    ensures Follows(ledger, from, Receive(cl, genesis, proof))
    ensures cl.epoch <= Receive(cl, genesis, proof).epoch
    ensures !Processed(cl.epoch, genesis, proof).Crash?
  {
    var at: nat, start: nat, target: nat :| Served(ledger, at, start, target, genesis) == Ok(proof);
    var end := PageEnd(start, target, MAX_PAGE);
    assert start < end && proof == Page(ledger, start, end, target, genesis);
    PageProcessed(ledger, start, end, cl.epoch, genesis, proof.more);
    if start <= cl.epoch < end {
      PageEpochs(ledger, cl.epoch, end);
      ChangesJoin(ledger, from, cl.epoch, end);
    }
  }

  /** However many requests are in flight and in whatever order their replies arrive, the replica
      moves through consecutive epochs with no gap and no repeat. */
  lemma {:induction false} NoGapNoRepeat(ledger: Ledger, from: nat, cl: Client, genesis: string, proofs: seq<Proof>)
    requires Genuine(ledger) && Follows(ledger, from, cl)
    requires forall i :: 0 <= i < |proofs| ==> IsReply(ledger, genesis, proofs[i])
    ensures Follows(ledger, from, ReceiveAll(cl, genesis, proofs))
    ensures cl.epoch <= ReceiveAll(cl, genesis, proofs).epoch
    decreases |proofs|
  {
    if proofs != [] {
      ReplyFollows(ledger, from, cl, genesis, proofs[0]);
      NoGapNoRepeat(ledger, from, Receive(cl, genesis, proofs[0]), genesis, proofs[1..]);
    }
  }

  /** One round: the replica hears of `target`, asks a server in epoch `at` for all it lacks, and
      processes the answer. */
  ghost function Round(ledger: Ledger, at: nat, genesis: string, cl: Client, target: nat): Client {
    var answer := Served(ledger, at, cl.epoch, target, genesis);
    if answer.Ok? then Receive(cl, genesis, answer.value) else cl
  }

  ghost function RoundFor(ledger: Ledger, at: nat, genesis: string, target: nat): Client -> Client {
    (cl: Client) => Round(ledger, at, genesis, cl, target)
  }

  function Iterate(round: Client -> Client, cl: Client, k: nat): Client
    decreases k
  {
    if k == 0 then cl else Iterate(round, round(cl), k - 1)
  }

  /** k rounds, one after the other. */
  ghost function RoundsOf(ledger: Ledger, at: nat, genesis: string, cl: Client, target: nat, k: nat): Client {
    Iterate(RoundFor(ledger, at, genesis, target), cl, k)
  }

  /** One round with a server that has the epochs brings the next page, and `more` says whether
      another round is needed. */
  lemma RoundAdvances(ledger: Ledger, at: nat, genesis: string, cl: Client, target: nat)
    requires Genuine(ledger) && cl.epoch < target <= at && HasEpochs(ledger, cl.epoch, target)
    ensures var end := PageEnd(cl.epoch, target, MAX_PAGE);
            && Round(ledger, at, genesis, cl, target) == Client(end, cl.known + Changes(ledger, cl.epoch, end))
            && Served(ledger, at, cl.epoch, target, genesis).Ok?
            && (Served(ledger, at, cl.epoch, target, genesis).value.more == 0 <==> end == target)
  {
    var end := PageEnd(cl.epoch, target, MAX_PAGE);
    var proof := Page(ledger, cl.epoch, end, target, genesis);
    PageProcessed(ledger, cl.epoch, end, cl.epoch, genesis, proof.more);
    PageEpochs(ledger, cl.epoch, end);
  }

  /** Where k rounds of at most 100 epochs each lead. */
  function EpochAfter(epoch: nat, target: nat, k: nat): nat {
    if target <= epoch + k * MAX_PAGE then target else epoch + k * MAX_PAGE
  }

  /** A round brings the next page up to the target, and nothing once it is reached. */
  ghost predicate BringsPages(round: Client -> Client, ledger: Ledger, target: nat) {
    forall cl: Client :: cl.epoch <= target && HasEpochs(ledger, cl.epoch, target) ==>
      var end := PageEnd(cl.epoch, target, MAX_PAGE);
      round(cl) == Client(end, cl.known + Changes(ledger, cl.epoch, end))
  }

  lemma RoundBringsPages(ledger: Ledger, at: nat, genesis: string, target: nat)
    requires Genuine(ledger) && target <= at
    ensures BringsPages(RoundFor(ledger, at, genesis, target), ledger, target)
  {
    forall cl: Client | cl.epoch <= target && HasEpochs(ledger, cl.epoch, target)
      ensures var end := PageEnd(cl.epoch, target, MAX_PAGE);
              Round(ledger, at, genesis, cl, target) == Client(end, cl.known + Changes(ledger, cl.epoch, end))
    {
      if cl.epoch < target {
        RoundAdvances(ledger, at, genesis, cl, target);
      } else {
        assert cl.known + Changes(ledger, target, target) == cl.known;
      }
    }
  }

  lemma {:induction false} RoundsLead(round: Client -> Client, ledger: Ledger, cl: Client, target: nat, k: nat, last: nat)
    requires BringsPages(round, ledger, target) && cl.epoch <= target && HasEpochs(ledger, cl.epoch, target)
    requires last == EpochAfter(cl.epoch, target, k)
    ensures cl.epoch <= last <= target
    ensures Iterate(round, cl, k) == Client(last, cl.known + Changes(ledger, cl.epoch, last))
    decreases k
  {
    if k == 0 {
      assert cl.known + Changes(ledger, cl.epoch, last) == cl.known;
    } else {
      var next := round(cl);
      EpochAfterStep(cl.epoch, target, k);
      RoundsLead(round, ledger, next, target, k - 1, last);
      KnownJoin(ledger, cl, next, last);
    }
  }

  lemma KnownJoin(ledger: Ledger, cl: Client, next: Client, last: nat)
    requires cl.epoch <= next.epoch <= last && HasEpochs(ledger, cl.epoch, last)
    requires next.known == cl.known + Changes(ledger, cl.epoch, next.epoch)
    ensures next.known + Changes(ledger, next.epoch, last) == cl.known + Changes(ledger, cl.epoch, last)
  {
    ChangesJoin(ledger, cl.epoch, next.epoch, last);
  }

  lemma EpochAfterStep(epoch: nat, target: nat, k: nat)
    requires epoch <= target && k > 0
    ensures EpochAfter(PageEnd(epoch, target, MAX_PAGE), target, k - 1) == EpochAfter(epoch, target, k)
    ensures PageEnd(epoch, target, MAX_PAGE) <= EpochAfter(epoch, target, k)
  {
    assert k * MAX_PAGE == (k - 1) * MAX_PAGE + MAX_PAGE;
  }

  /** Catching up: the replica has reached the target exactly when at least ceil(distance / 100)
      rounds of request, reply and processing have passed, and then it knows every change on the way,
      each once and in order. */
  lemma CatchUp(ledger: Ledger, at: nat, genesis: string, epoch: nat, target: nat, k: nat)
    requires Genuine(ledger) && epoch <= target <= at && HasEpochs(ledger, epoch, target)
    ensures var cl := RoundsOf(ledger, at, genesis, Client(epoch, []), target, k);
            && (cl.epoch == target <==> k >= (target - epoch + 99) / 100)
            && (cl.epoch == target ==> cl.known == Changes(ledger, epoch, target))
  {
    RoundBringsPages(ledger, at, genesis, target);
    RoundsLead(RoundFor(ledger, at, genesis, target), ledger, Client(epoch, []), target, k, EpochAfter(epoch, target, k));
    CeilingIs(target - epoch, k);
    assert [] + Changes(ledger, epoch, target) == Changes(ledger, epoch, target);
  }

  lemma CeilingIs(distance: nat, k: nat)
    ensures distance <= k * MAX_PAGE <==> k >= (distance + MAX_PAGE - 1) / MAX_PAGE
  {
  }
}
