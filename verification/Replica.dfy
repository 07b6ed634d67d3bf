/** One replica: the stores the handlers read and write, and each handler as a function from the
    old stores to the new ones. `History` records what the replica has sent and accepted; no step of
    the replica reads it. */
module Replica {
  import opened Quorum
  import opened NewView

  /** Key of a quorum certificate. */
  datatype MsgId = MsgId(v: nat, n: nat, d: Digest)

  /** The votes collected for one key; a vote is identified by its sender. */
  datatype Cert = Cert(prePrepared: bool, sentPrepare: bool, prepares: set<nat>,
                       sentCommit: bool, commits: set<nat>, sentExecute: bool)

  const NO_CERT := Cert(false, false, {}, false, {}, false)

  datatype PEntry = PEntry(v: nat, d: Digest)

  datatype QIdx = QIdx(n: nat, d: Digest)

  /** A commit this replica sent, with its low watermark at that moment. */
  datatype CommitMsg = CommitMsg(id: MsgId, h: nat)

  /** A new view: the bases it was built from, the height it starts from, and the digest it
      assigns to every number of base + 1 .. top. */
  datatype NewViewMsg = NewViewMsg(bases: seq<VcBasis>, base: nat, top: nat, xset: map<nat, Digest>)

  /** A new view that its primary has broadcast for view v. */
  datatype Announcement = Announcement(v: nat, nv: NewViewMsg)

  datatype History = History(
    proposals: set<MsgId>,
    prepares: set<MsgId>,
    commits: set<CommitMsg>,
    bases: set<VcBasis>,
    accepted: set<MsgId>,
    prepared: set<MsgId>,
    newViews: set<Announcement>,
    entered: map<nat, NewViewMsg>)

  datatype Node = Node(
    view: nat,
    inViewChange: bool,
    h: nat,
    seqNo: nat,
    waiting: bool,
    certs: map<MsgId, Cert>,
    seqMap: map<nat, Digest>,
    plist: map<nat, PEntry>,
    qlist: map<QIdx, nat>,
    ckpts: map<nat, Digest>,
    executed: seq<MsgId>,
    newViewStore: map<nat, NewViewMsg>,
    hist: History)

  /** A replica at the start of an epoch, holding the genesis checkpoint. */
  function InitNode(genesis: Digest): Node {
    Node(0, false, 0, 0, false, map[], map[], map[], map[], map[0 := genesis], [], map[],
         History({}, {}, {}, {}, {}, {}, {}, map[]))
  }

  function GetCert(certs: map<MsgId, Cert>, id: MsgId): Cert {
    if id in certs then certs[id] else NO_CERT
  }

  predicate PrePrepared(certs: map<MsgId, Cert>, id: MsgId) {
    GetCert(certs, id).prePrepared
  }

  predicate Prepared(c: Config, certs: map<MsgId, Cert>, id: MsgId)
    requires c.n >= 1
  {
    PrePrepared(certs, id) && |GetCert(certs, id).prepares| >= c.Q() - 1
  }

  predicate Committed(c: Config, certs: map<MsgId, Cert>, id: MsgId)
    requires c.n >= 1
  {
    Prepared(c, certs, id) && |GetCert(certs, id).commits| >= c.Q()
  }

  /* ---------- normal case ---------- */

  predicate InWV(s: Node, id: MsgId) {
    id.v == s.view && id.n > s.h
  }

  /** existedDigest: another pre-prepare of this view has the same digest under another number. */
  predicate ExistedDigest(s: Node, id: MsgId) {
    exists other :: other in s.certs && s.certs[other].prePrepared && other.v == id.v && other.n != id.n
                    && other.d == id.d && id.d != NULL_REQUEST
  }

  /** maybeSendPrePrepare: the primary may give the next number to this digest. */
  predicate CanPropose(c: Config, r: nat, s: Node, id: MsgId)
    requires c.n >= 1
  {
    && !s.inViewChange && id.v == s.view && r == c.Primary(s.view)
    && id.n == s.seqNo + 1 && id.n <= s.h + c.l
    && !ExistedDigest(s, id)
  }

  function Propose(s: Node, id: MsgId): Node {
    s.(certs := s.certs[id := GetCert(s.certs, id).(prePrepared := true)],
       seqMap := s.seqMap[id.n := id.d],
       seqNo := id.n,
       hist := s.hist.(proposals := s.hist.proposals + {id}, accepted := s.hist.accepted + {id}))
  }

  /** isPrePrepareLegal and the number-to-digest check of recvPrePrepare. */
  predicate CanAccept(c: Config, r: nat, s: Node, id: MsgId)
    requires c.n >= 1
  {
    && !s.inViewChange && InWV(s, id) && r != c.Primary(id.v)
    && !(id.n <= |s.executed| && PrePrepared(s.certs, id))
    && (id.n in s.seqMap ==> s.seqMap[id.n] == id.d)
  }

  function Accept(s: Node, id: MsgId): Node {
    s.(certs := s.certs[id := GetCert(s.certs, id).(prePrepared := true)],
       seqMap := s.seqMap[id.n := id.d],
       hist := s.hist.(accepted := s.hist.accepted + {id}))
  }

  /** findNextPrepareBatch: the batch is available and the pre-prepare is in the certificate. */
  predicate CanSendPrepare(c: Config, r: nat, s: Node, id: MsgId)
    requires c.n >= 1
  {
    id.v == s.view && id in s.certs && s.certs[id].prePrepared && r != c.Primary(id.v)
  }

  function SendPrepare(r: nat, s: Node, id: MsgId): Node
    requires id in s.certs
  {
    var ct := s.certs[id];
    s.(certs := s.certs[id := ct.(sentPrepare := true, prepares := ct.prepares + {r})],
       hist := s.hist.(prepares := s.hist.prepares + {id}))
  }

  /** isPrepareLegal. */
  predicate CanRecvPrepare(c: Config, s: Node, from: nat, id: MsgId)
    requires c.n >= 1
  {
    InWV(s, id) && from != c.Primary(id.v)
  }

  function RecvPrepare(s: Node, from: nat, id: MsgId): Node {
    var ct := GetCert(s.certs, id);
    s.(certs := s.certs[id := ct.(prepares := ct.prepares + {from})])
  }

  /** maybeSendCommit. */
  predicate CanSendCommit(c: Config, r: nat, s: Node, id: MsgId)
    requires c.n >= 1
  {
    && id.v == s.view && id in s.certs && Prepared(c, s.certs, id)
    && (r == c.Primary(id.v) || s.certs[id].sentPrepare)
    && !s.certs[id].sentCommit
  }

  function SendCommit(r: nat, s: Node, id: MsgId): Node
    requires id in s.certs
  {
    var ct := s.certs[id];
    s.(certs := s.certs[id := ct.(sentCommit := true, commits := ct.commits + {r})],
       hist := s.hist.(commits := s.hist.commits + {CommitMsg(id, s.h)}, prepared := s.hist.prepared + {id}))
  }

  function RecvCommit(s: Node, from: nat, id: MsgId): Node {
    var ct := GetCert(s.certs, id);
    s.(certs := s.certs[id := ct.(commits := ct.commits + {from})])
  }

  /** The second loop of processNewView: a number executed in an earlier view is committed again
      without being prepared. */
  predicate CanRecommit(s: Node, id: MsgId) {
    id.v == s.view && id in s.certs && s.certs[id].prePrepared && !s.certs[id].sentCommit && id.n <= |s.executed|
  }

  function Recommit(r: nat, s: Node, id: MsgId): Node
    requires id in s.certs
  {
    var ct := s.certs[id];
    s.(certs := s.certs[id := ct.(sentCommit := true, commits := ct.commits + {r})],
       hist := s.hist.(commits := s.hist.commits + {CommitMsg(id, s.h)}))
  }

  /* ---------- execution and checkpoints ---------- */

  /** findNextCommitBatch: the certificate is committed and its number is the next one. */
  predicate CanExecute(c: Config, s: Node, id: MsgId)
    requires c.n >= 1
  {
    && !s.waiting && id in s.certs && Committed(c, s.certs, id)
    && s.certs[id].sentCommit && !s.certs[id].sentExecute
    && id.n == |s.executed| + 1
  }

  /** afterCommitBlock: a block at a checkpoint height blocks the replica until it is reported. */
  function Execute(c: Config, s: Node, id: MsgId): Node
    requires id in s.certs
  {
    s.(certs := s.certs[id := s.certs[id].(sentExecute := true)],
       executed := s.executed + [id],
       waiting := c.ckptAt(id.n))
  }

  /** recvCheckpointBlockExecutedEvent for the last executed height, then checkpoint. */
  function Report(s: Node, digest: Digest): Node {
    s.(waiting := false,
       ckpts := if |s.executed| in s.seqMap then s.ckpts[|s.executed| := digest] else s.ckpts)
  }

  function CertsAbove(certs: map<MsgId, Cert>, n: nat): map<MsgId, Cert> {
    map id | id in certs && id.n > n :: certs[id]
  }

  function NumbersUpTo(certs: map<MsgId, Cert>, n: nat): set<nat> {
    set id | id in certs && id.n <= n :: id.n
  }

  function CkptsFrom(ckpts: map<nat, Digest>, n: nat): map<nat, Digest> {
    map k | k in ckpts && k >= n :: ckpts[k]
  }

  function PAbove(plist: map<nat, PEntry>, n: nat): map<nat, PEntry> {
    map k | k in plist && k > n :: plist[k]
  }

  function QAbove(qlist: map<QIdx, nat>, n: nat): map<QIdx, nat> {
    map x | x in qlist && x.n > n :: qlist[x]
  }

  /** moveWatermarks; a height below the current one changes nothing. */
  function MoveWatermarks(s: Node, n: nat): Node {
    if s.h > n then s
    else
      s.(certs := CertsAbove(s.certs, n),
         seqMap := s.seqMap - NumbersUpTo(s.certs, n),
         ckpts := CkptsFrom(s.ckpts, n),
         plist := PAbove(s.plist, n),
         qlist := QAbove(s.qlist, n),
         h := n)
  }

  /* ---------- view change ---------- */

  /** calcPSet: per number, a highest-view entry among the old list and the prepared
      certificates; a certificate wins a tie. */
  ghost predicate IsPSet(c: Config, old_: map<nat, PEntry>, certs: map<MsgId, Cert>, p: map<nat, PEntry>)
    requires c.n >= 1
  {
    && (forall n :: n in old_ ==> n in p && p[n].v >= old_[n].v)
    && (forall id :: id in certs && Prepared(c, certs, id) ==> id.n in p && p[id.n].v >= id.v)
    && (forall n :: n in p ==>
          var id := MsgId(p[n].v, n, p[n].d);
          || (id in certs && Prepared(c, certs, id))
          || (n in old_ && old_[n] == p[n] && forall o :: o in certs && Prepared(c, certs, o) && o.n == n ==> o.v < p[n].v))
  }

  /** calcQSet: per number and digest, the highest view among the old list and the pre-prepared
      certificates. */
  ghost predicate IsQSet(old_: map<QIdx, nat>, certs: map<MsgId, Cert>, q: map<QIdx, nat>) {
    && (forall x :: x in old_ ==> x in q && q[x] >= old_[x])
    && (forall id :: id in certs && certs[id].prePrepared ==> QIdx(id.n, id.d) in q && q[QIdx(id.n, id.d)] >= id.v)
    && (forall x :: x in q ==>
          var id := MsgId(q[x], x.n, x.d);
          || (id in certs && certs[id].prePrepared)
          || (x in old_ && old_[x] == q[x]))
  }

  function CertsFrom(certs: map<MsgId, Cert>, w: nat): map<MsgId, Cert> {
    map id | id in certs && id.v >= w :: certs[id]
  }

  function NumbersBefore(certs: map<MsgId, Cert>, w: nat): set<nat> {
    set id | id in certs && id.v < w :: id.n
  }

  function PreparedIds(c: Config, certs: map<MsgId, Cert>): set<MsgId>
    requires c.n >= 1
  {
    set id | id in certs && Prepared(c, certs, id)
  }

  /** beforeSendVC and the list and certificate updates of getVcBasis. A new view stored for the view
      being changed to is forgotten, also when the change repeats that view. */
  function StartViewChange(c: Config, s: Node, w: nat, p: map<nat, PEntry>, q: map<QIdx, nat>): Node
    requires c.n >= 1
  {
    s.(view := w, inViewChange := true, plist := p, qlist := q,
       certs := CertsFrom(s.certs, w),
       seqMap := s.seqMap - NumbersBefore(s.certs, w),
       newViewStore := s.newViewStore - {w},
       hist := s.hist.(prepared := s.hist.prepared + PreparedIds(c, s.certs)))
  }

  ghost predicate GathersP(s: Node, pset: seq<VcPq>) {
    forall e :: e in pset <==> e.n in s.plist && e.n >= s.h && s.plist[e.n] == PEntry(e.v, e.d)
  }

  ghost predicate GathersQ(s: Node, qset: seq<VcPq>) {
    forall e :: e in qset <==> QIdx(e.n, e.d) in s.qlist && e.n >= s.h && s.qlist[QIdx(e.n, e.d)] == e.v
  }

  ghost predicate GathersC(s: Node, cset: seq<CheckpointState>) {
    forall cs :: cs in cset <==> cs.height in s.ckpts && s.ckpts[cs.height] == cs.digest && !cs.isConfig
  }

  /** gatherPQC, in whatever order the maps are walked. */
  ghost predicate Gathers(s: Node, b: VcBasis) {
    GathersP(s, b.pset) && GathersQ(s, b.qset) && GathersC(s, b.cset)
  }

  ghost predicate IsBasisOf(r: nat, s: Node, b: VcBasis) {
    b.view == s.view && b.h == s.h && b.id == r && Gathers(s, b)
  }

  function SendBasis(s: Node, b: VcBasis): Node {
    s.(hist := s.hist.(bases := s.hist.bases + {b}))
  }

  /** A view change moves to a higher view; the resend timer repeats it for the same view. */
  ghost predicate CanChangeView(c: Config, s: Node, w: nat, p: map<nat, PEntry>, q: map<QIdx, nat>)
    requires c.n >= 1
  {
    && (w > s.view || (w == s.view && s.inViewChange))
    && IsPSet(c, s.plist, s.certs, p) && IsQSet(s.qlist, s.certs, q)
  }

  /* ---------- entering a new view ---------- */

  ghost predicate Gapless(nv: NewViewMsg) {
    nv.base <= nv.top && forall n :: n in nv.xset <==> nv.base < n <= nv.top
  }

  predicate Assigns(nv: NewViewMsg, id: MsgId) {
    id.n in nv.xset && nv.xset[id.n] == id.d
  }

  /** The ids of the assigned numbers above height h. */
  function NewIds(view: nat, nv: NewViewMsg, h: nat): (ids: set<MsgId>)
    ensures forall id: MsgId :: id in ids <==> id.v == view && id.n > h && Assigns(nv, id)
  {
    set n | n in nv.xset && n > h :: MsgId(view, n, nv.xset[n])
  }

  /** sendNewView: the primary announces a new view for the view it is changing to, unless its store
      holds one. It may process it later, once it has fetched the batches it lacks. */
  predicate CanAnnounce(c: Config, r: nat, s: Node)
    requires c.n >= 1
  {
    s.inViewChange && r == c.Primary(s.view) && s.view !in s.newViewStore
  }

  function Announce(s: Node, nv: NewViewMsg): Node {
    s.(newViewStore := s.newViewStore[s.view := nv],
       hist := s.hist.(newViews := s.hist.newViews + {Announcement(s.view, nv)}))
  }

  /** checkIfNeedStateUpdate finds no need for a state update. */
  predicate CanEnter(s: Node, nv: NewViewMsg, digest: Digest) {
    && s.inViewChange
    && (if s.h < nv.base && nv.base in s.ckpts then s.ckpts[nv.base] == digest else |s.executed| >= nv.base)
  }

  /** A replica that holds the base checkpoint itself raises its low watermark to it. */
  function Raise(s: Node, nv: NewViewMsg): Node {
    if s.h < nv.base && nv.base in s.ckpts then MoveWatermarks(s, nv.base) else s
  }

  /** The first loop of processNewView, on the raised stores: every assigned number above the low
      watermark is pre-prepared. A backup also announces its prepare for the numbers below; those
      above follow as SendPrepare steps. */
  function ProcessNewView(c: Config, r: nat, s: Node, nv: NewViewMsg): Node
    requires c.n >= 1
  {
    var ids := NewIds(s.view, nv, s.h);
    s.(inViewChange := false,
       seqNo := if nv.top > |s.executed| then nv.top else |s.executed|,
       certs := s.certs + map id | id in ids :: GetCert(s.certs, id).(prePrepared := true),
       seqMap := s.seqMap + map n | n in nv.xset && n > s.h :: nv.xset[n],
       hist := s.hist.(
         prepares := s.hist.prepares + (if r != c.Primary(s.view) then NewIds(s.view, nv, 0) - ids else {}),
         accepted := s.hist.accepted + ids,
         entered := s.hist.entered[s.view := nv]))
  }

  function Enter(c: Config, r: nat, s: Node, nv: NewViewMsg): Node
    requires c.n >= 1
  {
    ProcessNewView(c, r, Raise(s, nv), nv)
  }
}
