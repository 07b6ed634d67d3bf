/** Facts every honest replica keeps about its own stores and its own history, whatever the other
    replicas send it. */
module ReplicaInv {
  import opened Quorum
  import opened NewView
  import opened Replica

  /** Certificates belong to the current view and lie above the low watermark; each pre-prepared
      one is the number's only digest in seqMap. */
  ghost predicate CertInv(s: Node) {
    && (forall id :: id in s.certs ==> id.v == s.view && id.n > s.h)
    && (forall id :: id in s.certs && s.certs[id].prePrepared ==>
          id in s.hist.accepted && !s.inViewChange && id.n in s.seqMap && s.seqMap[id.n] == id.d)
  }

  /** At most one digest is ever accepted per view and number. */
  ghost predicate AcceptInv(s: Node) {
    && (forall id :: id in s.hist.accepted ==> id.v <= s.view && (s.inViewChange ==> id.v < s.view))
    && (forall id :: id in s.hist.accepted && id.v == s.view && id.n > s.h ==> id in s.certs && s.certs[id].prePrepared)
    && (forall a, b :: a in s.hist.accepted && b in s.hist.accepted && a.v == b.v && a.n == b.n ==> a.d == b.d)
  }

  /** A P entry that accounts for having prepared `id`. */
  predicate Covers(e: PEntry, id: MsgId) {
    e.v > id.v || (e.v == id.v && e.d == id.d)
  }

  /** The P list never forgets a prepared request above the low watermark. */
  ghost predicate PInv(c: Config, s: Node)
    requires c.n >= 1
  {
    && (forall id :: id in s.hist.prepared ==> id in s.hist.accepted)
    && (forall id :: id in s.hist.prepared && id.n > s.h && id.v == s.view ==> Prepared(c, s.certs, id))
    && (forall id :: id in s.hist.prepared && id.n > s.h && id.v < s.view ==> id.n in s.plist && Covers(s.plist[id.n], id))
    && (forall n :: n in s.plist ==> n > s.h && s.plist[n].v < s.view && MsgId(s.plist[n].v, n, s.plist[n].d) in s.hist.prepared)
  }

  /** The Q list never forgets an accepted pre-prepare above the low watermark. */
  ghost predicate QInv(s: Node) {
    && (forall id :: id in s.hist.accepted && id.n > s.h && id.v < s.view ==>
          QIdx(id.n, id.d) in s.qlist && s.qlist[QIdx(id.n, id.d)] >= id.v)
    && (forall x :: x in s.qlist ==> x.n > s.h && s.qlist[x] < s.view && MsgId(s.qlist[x], x.n, x.d) in s.hist.accepted)
  }

  /** The replica executed this number before the view. */
  predicate ExecutedBefore(s: Node, n: nat, v: nat) {
    1 <= n <= |s.executed| && s.executed[n - 1].v < v
  }

  /** A commit is sent for an accepted request that was prepared, or repeated in a new view for a
      number executed earlier. */
  ghost predicate CommitInv(s: Node) {
    forall m :: m in s.hist.commits ==>
      m.id in s.hist.accepted && m.h <= s.h
      && (m.id in s.hist.prepared || ExecutedBefore(s, m.id.n, m.id.v))
  }

  /** A backup prepares what it accepted; below its low watermark it may also repeat what the new
      view assigns, and then never accepts anything for that number in that view. */
  ghost predicate PrepareInv(c: Config, r: nat, s: Node)
    requires c.n >= 1
  {
    forall id :: id in s.hist.prepares ==>
      && id.v <= s.view && (s.inViewChange ==> id.v < s.view)
      && r != c.Primary(id.v)
      && (id in s.hist.accepted
          || (id.n <= s.h && id.v in s.hist.entered && Assigns(s.hist.entered[id.v], id)
              && forall a :: a in s.hist.accepted && a.v == id.v ==> a.n != id.n))
  }

  /** Execution is in order, and every checkpoint height passed has its local checkpoint unless it
      is the one being waited for. */
  ghost predicate ExecInv(c: Config, s: Node)
  {
    && s.h <= |s.executed|
    && (forall i :: 0 <= i < |s.executed| ==> s.executed[i].n == i + 1 && s.executed[i].v <= s.view)
    && (s.inViewChange ==> forall i :: 0 <= i < |s.executed| ==> s.executed[i].v < s.view)
    && (forall k :: k in s.ckpts ==> c.ckptAt(k) && s.h <= k <= |s.executed|)
    && (forall k :: s.h <= k <= |s.executed| && c.ckptAt(k) ==> k in s.ckpts || (s.waiting && k == |s.executed|))
    && (s.waiting ==> |s.executed| in s.seqMap && |s.executed| > s.h && c.ckptAt(|s.executed|))
  }

  /** A block executed in the current view still has its certificate, unless a checkpoint passed it. */
  ghost predicate RanInv(s: Node) {
    forall i :: 0 <= i < |s.executed| && s.executed[i].v == s.view && i + 1 > s.h ==>
      var id := s.executed[i];
      id in s.certs && s.certs[id].prePrepared && s.certs[id].sentCommit
  }

  /** A commit that was sent is counted by its sender. */
  ghost predicate OwnInv(r: nat, s: Node) {
    forall id :: id in s.certs && s.certs[id].sentCommit ==> r in s.certs[id].commits
  }

  /** What is accepted in a view agrees with what the view was started from. */
  ghost predicate EnterInv(s: Node) {
    && (forall v :: v in s.hist.entered ==>
          v <= s.view && (s.inViewChange ==> v < s.view))
    && (!s.inViewChange && s.view > 0 ==> s.view in s.hist.entered)
    && (forall id :: id in s.hist.accepted && id.v > 0 ==>
          && id.v in s.hist.entered
          && (id.n in s.hist.entered[id.v].xset ==> Assigns(s.hist.entered[id.v], id)))
    && 0 !in s.hist.entered && (forall x :: x in s.hist.newViews ==> x.v > 0)
    && (s.inViewChange ==> s.view > 0)
  }

  /** The low watermark has reached the base of the view's new view, and nothing at or below that base
      is ever accepted there. This holds as long as new views start from checkpoint heights. */
  ghost predicate BaseInv(s: Node) {
    && (s.view in s.hist.entered && !s.inViewChange ==> s.h >= s.hist.entered[s.view].base)
    && (forall id :: id in s.hist.accepted && id.v in s.hist.entered ==> id.n > s.hist.entered[id.v].base)
  }

  /** Whatever a new view assigned has been accepted in that view, or is below the low watermark. */
  ghost predicate AssignedInv(s: Node) {
    forall id: MsgId :: AssignedTo(s, id) ==> id in s.hist.accepted || id.n <= s.h
  }

  predicate AssignedTo(s: Node, id: MsgId) {
    id.v in s.hist.entered && Assigns(s.hist.entered[id.v], id)
  }

  /** A primary's next number is above everything it has proposed, assigned or executed. */
  ghost predicate PrimaryInv(c: Config, r: nat, s: Node)
    requires c.n >= 1
  {
    && (r == c.Primary(s.view) && !s.inViewChange ==>
          && s.seqNo >= |s.executed|
          && (forall id :: id in s.certs && s.certs[id].prePrepared ==> id.n <= s.seqNo)
          && (s.view in s.hist.entered ==> forall n :: n in s.hist.entered[s.view].xset ==> n <= s.seqNo))
    && (forall id :: id in s.hist.proposals ==>
          && id in s.hist.accepted
          && (id.v in s.hist.entered ==> id.n !in s.hist.entered[id.v].xset))
  }

  /** What an honest basis says about the history of its sender. */
  ghost predicate BasisInv(c: Config, r: nat, s: Node, b: VcBasis)
  {
    && b.id == r && b.view <= s.view && b.h <= s.h
    && (forall i :: 0 <= i < |b.pset| ==>
          b.pset[i].n > b.h && b.pset[i].v < b.view && MsgId(b.pset[i].v, b.pset[i].n, b.pset[i].d) in s.hist.prepared)
    && (forall i :: 0 <= i < |b.qset| ==>
          b.qset[i].n > b.h && b.qset[i].v < b.view && MsgId(b.qset[i].v, b.qset[i].n, b.qset[i].d) in s.hist.accepted)
    && (forall id :: id in s.hist.prepared && id.v < b.view && id.n > b.h ==> PCovered(b, id))
    && (forall id :: id in s.hist.accepted && id.v < b.view && id.n > b.h ==> QCovered(b, id))
    && (forall m :: m in s.hist.commits && m.id.v < b.view ==> m.h <= b.h)
    && (forall id :: id in s.hist.prepares && id.v < b.view && id !in s.hist.accepted ==> id.n <= b.h)
    && (forall id :: AssignedTo(s, id) && id.v < b.view && id !in s.hist.accepted ==> id.n <= b.h)
    && (forall i :: 0 <= i < |b.cset| ==> b.cset[i].height >= b.h && c.ckptAt(b.cset[i].height))
  }

  ghost predicate PCovered(b: VcBasis, id: MsgId) {
    exists i :: 0 <= i < |b.pset| && b.pset[i].n == id.n && Covers(PEntry(b.pset[i].v, b.pset[i].d), id)
  }

  ghost predicate QCovered(b: VcBasis, id: MsgId) {
    exists i :: 0 <= i < |b.qset| && Backs(b.qset[i], VcPq(id.n, id.d, id.v))
  }

  ghost predicate BasesInv(c: Config, r: nat, s: Node)
  {
    forall b :: b in s.hist.bases ==> BasisInv(c, r, s, b)
  }

  ghost predicate NodeInv(c: Config, r: nat, s: Node) {
    && c.Valid()
    && CertInv(s)
    && AcceptInv(s)
    && PInv(c, s)
    && QInv(s)
    && CommitInv(s)
    && PrepareInv(c, r, s)
    && ExecInv(c, s)
    && RanInv(s)
    && OwnInv(r, s)
    && EnterInv(s)
    && AssignedInv(s)
    && PrimaryInv(c, r, s)
    && BasesInv(c, r, s)
  }

  lemma InitInv(c: Config, r: nat, genesis: Digest)
    requires c.Valid()
    ensures NodeInv(c, r, InitNode(genesis))
  {
  }
}
