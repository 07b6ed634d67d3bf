/** What each handler of a replica does, as a relation between its stores before and after. The
    methods of module Stores are proved to satisfy these relations. */
module Handlers {
  import opened Quorum
  import opened NewView
  import opened Replica
  import opened ReplicaInv

  /** What a pre-prepare leads to. */
  datatype Outcome = Ignored | Accepted | SuspectPrimary

  /* ---------- executing what is committed ---------- */

  /** The next block can be executed and its batch is here. */
  predicate Ready(c: Config, s: Node, batches: set<Digest>, id: MsgId)
    requires c.n >= 1
  {
    CanExecute(c, s, id) && (id.d == NULL_REQUEST || id.d in batches)
  }

  function ExecuteIn(c: Config, s: Node, id: MsgId): Node {
    if id in s.certs then Execute(c, s, id) else s
  }

  ghost function ExecuteAll(c: Config, s: Node, ids: seq<MsgId>): Node
    requires c.n >= 1
    decreases |ids|
  {
    if ids == [] then s
    else ExecuteIn(c, ExecuteAll(c, s, ids[..|ids| - 1]), ids[|ids| - 1])
  }

  ghost predicate ReadyInTurn(c: Config, s: Node, batches: set<Digest>, ids: seq<MsgId>)
    requires c.n >= 1
    decreases |ids|
  {
    ids == [] ||
    (ReadyInTurn(c, s, batches, ids[..|ids| - 1])
     && Ready(c, ExecuteAll(c, s, ids[..|ids| - 1]), batches, ids[|ids| - 1]))
  }

  /** `ids` are executed one after the other, and then nothing more is ready. */
  ghost predicate Settles(c: Config, s: Node, batches: set<Digest>, ids: seq<MsgId>)
    requires c.n >= 1
  {
    ReadyInTurn(c, s, batches, ids) && forall id :: !Ready(c, ExecuteAll(c, s, ids), batches, id)
  }

  lemma OneExecuted(c: Config, s: Node, id: MsgId)
    requires id in s.certs
    ensures var t := Execute(c, s, id);
            t.executed == s.executed + [id] && t.seqMap == s.seqMap && (CertInv(s) ==> CertInv(t))
  {
  }

  lemma {:induction false} ExecutedAll(c: Config, s: Node, batches: set<Digest>, ids: seq<MsgId>)
    requires c.n >= 1 && ReadyInTurn(c, s, batches, ids)
    ensures ExecuteAll(c, s, ids).executed == s.executed + ids
    ensures CertInv(s) ==> CertInv(ExecuteAll(c, s, ids))
    decreases |ids|
  {
    if ids != [] {
      var init := ids[..|ids| - 1];
      var last := ids[|ids| - 1];
      ExecutedAll(c, s, batches, init);
      OneExecuted(c, ExecuteAll(c, s, init), last);
      assert ids == init + [last];
    }
  }

  /** At most one certificate is ready: certificates share the current view, the number is fixed,
      and seqMap admits one digest. */
  lemma ReadyUnique(c: Config, s: Node, batches: set<Digest>, a: MsgId, b: MsgId)
    requires c.n >= 1 && CertInv(s) && Ready(c, s, batches, a) && Ready(c, s, batches, b)
    ensures a == b
  {
  }

  lemma {:induction false} ReadyPrefix(c: Config, s: Node, batches: set<Digest>, ids: seq<MsgId>, k: nat)
    requires c.n >= 1 && ReadyInTurn(c, s, batches, ids) && k <= |ids|
    ensures ReadyInTurn(c, s, batches, ids[..k])
    ensures k < |ids| ==> Ready(c, ExecuteAll(c, s, ids[..k]), batches, ids[k])
    decreases |ids|
  {
    if k == |ids| {
      assert ids[..k] == ids;
    } else {
      assert ids[..|ids| - 1][..k] == ids[..k];
      ReadyPrefix(c, s, batches, ids[..|ids| - 1], k);
    }
  }

  /** What commitPendingBlocks executes does not depend on the order in which it walks the
      committed certificates. */
  lemma {:induction false} SettlesUnique(c: Config, s: Node, batches: set<Digest>, a: seq<MsgId>, b: seq<MsgId>)
    requires c.n >= 1 && CertInv(s) && Settles(c, s, batches, a) && Settles(c, s, batches, b)
    ensures a == b
  {
    if |a| <= |b| {
      SamePrefix(c, s, batches, a, b, |a|);
      ReadyPrefix(c, s, batches, b, |a|);
    } else {
      SamePrefix(c, s, batches, b, a, |b|);
      ReadyPrefix(c, s, batches, a, |b|);
    }
    assert a[..|a|] == a && b[..|b|] == b;
  }

  lemma NextSame(c: Config, s: Node, batches: set<Digest>, a: seq<MsgId>, b: seq<MsgId>, k: nat)
    requires c.n >= 1 && CertInv(s) && ReadyInTurn(c, s, batches, a) && ReadyInTurn(c, s, batches, b)
    requires k < |a| && k < |b| && a[..k] == b[..k]
    ensures a[k] == b[k]
  {
    var t := ExecuteAll(c, s, a[..k]);
    ReadyPrefix(c, s, batches, a, k);
    ReadyPrefix(c, s, batches, b, k);
    ExecutedAll(c, s, batches, a[..k]);
    ReadyUnique(c, t, batches, a[k], b[k]);
  }

  lemma {:induction false} SamePrefix(c: Config, s: Node, batches: set<Digest>, a: seq<MsgId>, b: seq<MsgId>, k: nat)
    requires c.n >= 1 && CertInv(s) && ReadyInTurn(c, s, batches, a) && ReadyInTurn(c, s, batches, b)
    requires k <= |a| && k <= |b|
    ensures a[..k] == b[..k]
    decreases k
  {
    if k > 0 {
      SamePrefix(c, s, batches, a, b, k - 1);
      NextSame(c, s, batches, a, b, k - 1);
      assert a[..k] == a[..k - 1] + [a[k - 1]] && b[..k] == b[..k - 1] + [b[k - 1]];
    }
  }

  lemma WaitsAfter(c: Config, s: Node, batches: set<Digest>, ids: seq<MsgId>, k: nat)
    requires c.n >= 1 && ReadyInTurn(c, s, batches, ids) && k < |ids|
    ensures ExecuteAll(c, s, ids[..k + 1]).waiting == c.ckptAt(ids[k].n)
  {
    ReadyPrefix(c, s, batches, ids, k);
    assert ids[..k + 1][..k] == ids[..k];
  }

  /** A block at a checkpoint height is the last one executed before its report. */
  lemma StopsAtCheckpoint(c: Config, s: Node, batches: set<Digest>, ids: seq<MsgId>, k: nat)
    requires c.n >= 1 && ReadyInTurn(c, s, batches, ids) && k < |ids| && c.ckptAt(ids[k].n)
    ensures k == |ids| - 1
  {
    if k + 1 < |ids| {
      WaitsAfter(c, s, batches, ids, k);
      ReadyPrefix(c, s, batches, ids, k + 1);
    }
  }

  /* ---------- what each handler does ---------- */

  /** sendPrepare before the replica handles its own prepare. */
  function MarkPrepare(s: Node, id: MsgId): Node
    requires id in s.certs
  {
    s.(certs := s.certs[id := s.certs[id].(sentPrepare := true)],
       hist := s.hist.(prepares := s.hist.prepares + {id}))
  }

  /** sendCommit before the replica handles its own commit. */
  function MarkCommit(s: Node, id: MsgId): Node
    requires id in s.certs
  {
    s.(certs := s.certs[id := s.certs[id].(sentCommit := true)],
       hist := s.hist.(commits := s.hist.commits + {CommitMsg(id, s.h)}, prepared := s.hist.prepared + {id}))
  }

  predicate Executable(c: Config, s: Node, id: MsgId)
    requires c.n >= 1
  {
    id in s.certs && Committed(c, s.certs, id) && s.certs[id].sentCommit && !s.certs[id].sentExecute
  }

  predicate CommitRepeated(s: Node, from: nat, id: MsgId) {
    from in GetCert(s.certs, id).commits && id.n <= |s.executed|
  }

  /** recvCommit leads from s to t and executes `ids`. */
  ghost predicate CommitHandled(c: Config, batches: set<Digest>, s: Node, from: nat, id: MsgId, ids: seq<MsgId>, t: Node)
    requires c.n >= 1
  {
    if !InWV(s, id) || CommitRepeated(s, from, id) then t == s && ids == []
    else
      var u := RecvCommit(s, from, id);
      if Executable(c, u, id) then Settles(c, u, batches, ids) && t == ExecuteAll(c, u, ids)
      else t == u && ids == []
  }

  /** maybeSendCommit. */
  ghost predicate CommitMaybeSent(c: Config, r: nat, batches: set<Digest>, s: Node, id: MsgId, ids: seq<MsgId>, t: Node)
    requires c.n >= 1
  {
    if CanSendCommit(c, r, s, id) then CommitHandled(c, batches, MarkCommit(s, id), r, id, ids, t)
    else t == s && ids == []
  }

  /** recvPrepare; a repeated prepare changes nothing. */
  ghost predicate PrepareHandled(c: Config, r: nat, batches: set<Digest>, s: Node, from: nat, id: MsgId, ids: seq<MsgId>, t: Node)
    requires c.n >= 1
  {
    if !CanRecvPrepare(c, s, from, id) || from in GetCert(s.certs, id).prepares then t == s && ids == []
    else CommitMaybeSent(c, r, batches, RecvPrepare(s, from, id), id, ids, t)
  }

  /** sendPrepare. */
  ghost predicate PrepareSent(c: Config, r: nat, batches: set<Digest>, s: Node, id: MsgId, ids: seq<MsgId>, t: Node)
    requires c.n >= 1 && id in s.certs
  {
    PrepareHandled(c, r, batches, MarkPrepare(s, id), r, id, ids, t)
  }

  /** isPrePrepareLegal. */
  predicate PrePrepareLegal(c: Config, r: nat, s: Node, from: nat, id: MsgId)
    requires c.n >= 1
  {
    && !s.inViewChange && InWV(s, id) && from == c.Primary(s.view) && r != c.Primary(s.view)
    && !(id.n <= |s.executed| && PrePrepared(s.certs, id))
  }

  /** The request pool's answer when the batch of a pre-prepare is looked up. */
  datatype PoolAnswer = PoolHas | PoolMisses | PoolFails

  /** findNextPrepareBatch: with the batch at hand the replica prepares. */
  ghost predicate BatchFound(c: Config, r: nat, batches: set<Digest>, s: Node, id: MsgId, pool: PoolAnswer,
                             outcome: Outcome, after: set<Digest>, ids: seq<MsgId>, t: Node)
    requires c.n >= 1 && id in s.certs
  {
    if id.d == NULL_REQUEST || id.d in batches then
      outcome == Accepted && after == batches && PrepareSent(c, r, after, s, id, ids, t)
    else
      match pool
      case PoolFails => outcome == SuspectPrimary && t == s && ids == [] && after == batches
      case PoolMisses => outcome == Accepted && t == s && ids == [] && after == batches
      case PoolHas => outcome == Accepted && after == batches + {id.d} && PrepareSent(c, r, after, s, id, ids, t)
  }

  /** recvPrePrepare. `digestOk` says whether the digest is that of the request list the message
      carries. */
  ghost predicate PrePrepareHandled(c: Config, r: nat, batches: set<Digest>, s: Node, from: nat, id: MsgId,
                                    digestOk: bool, pool: PoolAnswer,
                                    outcome: Outcome, after: set<Digest>, ids: seq<MsgId>, t: Node)
    requires c.n >= 1
  {
    if !PrePrepareLegal(c, r, s, from, id) then outcome == Ignored && t == s && ids == [] && after == batches
    else if (id.n in s.seqMap && s.seqMap[id.n] != id.d) || !digestOk then
      outcome == SuspectPrimary && t == s && ids == [] && after == batches
    else if Accept(s, id).certs[id].sentPrepare then
      outcome == Accepted && t == Accept(s, id) && ids == [] && after == batches
    else BatchFound(c, r, batches, Accept(s, id), id, pool, outcome, after, ids, t)
  }

  /* ---------- the primary's proposals ---------- */

  /** The next number is inside the window and the epoch. */
  predicate RoomForNext(c: Config, s: Node, epochEnd: nat) {
    s.seqNo + 1 <= s.h + c.l && s.seqNo + 1 <= epochEnd
  }

  function NextId(s: Node, d: Digest): MsgId {
    MsgId(s.view, s.seqNo + 1, d)
  }

  /** How many of the queued batches maybeSendPrePrepare proposes: it goes on until the window is
      full or a batch is already proposed under another number. */
  function ProposedCount(c: Config, s: Node, queue: seq<Digest>, epochEnd: nat): (k: nat)
    ensures k <= |queue|
    decreases |queue|
  {
    if queue == [] || !RoomForNext(c, s, epochEnd) || ExistedDigest(s, NextId(s, queue[0])) then 0
    else 1 + ProposedCount(c, Propose(s, NextId(s, queue[0])), queue[1..], epochEnd)
  }

  function ProposeAll(s: Node, queue: seq<Digest>): Node
    decreases |queue|
  {
    if queue == [] then s else ProposeAll(Propose(s, NextId(s, queue[0])), queue[1..])
  }

  /** What is left of the queue: a batch that is already proposed is dropped. */
  function LeftOver(c: Config, s: Node, queue: seq<Digest>, epochEnd: nat): seq<Digest> {
    var k := ProposedCount(c, s, queue, epochEnd);
    if k < |queue| && RoomForNext(c, ProposeAll(s, queue[..k]), epochEnd) then queue[k + 1..] else queue[k..]
  }

  lemma ProposeOne(c: Config, s: Node, queue: seq<Digest>, epochEnd: nat)
    requires queue != [] && RoomForNext(c, s, epochEnd) && !ExistedDigest(s, NextId(s, queue[0]))
    ensures var t := Propose(s, NextId(s, queue[0]));
            var k := ProposedCount(c, s, queue, epochEnd);
            && k == 1 + ProposedCount(c, t, queue[1..], epochEnd)
            && ProposeAll(s, queue[..k]) == ProposeAll(t, queue[1..][..k - 1])
            && LeftOver(c, s, queue, epochEnd) == LeftOver(c, t, queue[1..], epochEnd)
  {
    var t := Propose(s, NextId(s, queue[0]));
    var k := ProposedCount(c, s, queue, epochEnd);
    ProposeFirst(s, queue, k);
    if k < |queue| {
      assert queue[k + 1..] == queue[1..][k..] && queue[k..] == queue[1..][k - 1..];
    }
  }

  lemma ProposeFirst(s: Node, queue: seq<Digest>, k: nat)
    requires 1 <= k <= |queue|
    ensures ProposeAll(s, queue[..k]) == ProposeAll(Propose(s, NextId(s, queue[0])), queue[1..][..k - 1])
  {
    assert queue[..k][1..] == queue[1..][..k - 1];
  }

  /** Consecutive numbers from `first` on for the given batches. */
  function ProposedIds(view: nat, first: nat, ds: seq<Digest>): set<MsgId> {
    set i: nat | i < |ds| :: MsgId(view, first + i, ds[i])
  }

  /** Another number of the view has this request. */
  predicate HasAnother(s: Node, n: nat, d: Digest) {
    exists id :: id in s.certs && s.certs[id].prePrepared && id.v == s.view && id.n != n && id.d == d
  }

  lemma {:induction false} ProposalsStop(c: Config, s: Node, queue: seq<Digest>, epochEnd: nat)
    ensures var k := ProposedCount(c, s, queue, epochEnd);
            var t := ProposeAll(s, queue[..k]);
            && (k > 0 ==> t.seqNo <= s.h + c.l && t.seqNo <= epochEnd)
            && (k < |queue| ==> !RoomForNext(c, t, epochEnd) || ExistedDigest(t, NextId(t, queue[k])))
    decreases |queue|
  {
    var k := ProposedCount(c, s, queue, epochEnd);
    ProposedNumbers(s, queue[..k]);
    if k > 0 {
      var t := Propose(s, NextId(s, queue[0]));
      ProposalsStop(c, t, queue[1..], epochEnd);
      ProposeOne(c, s, queue, epochEnd);
      if k == 1 {
        assert queue[1..][..0] == [];
      }
    }
  }

  /** Every batch proposed is inside the window and the epoch, and proposing stops because the queue
      is empty, the window or the epoch ends, or another number of the view has the next batch. */
  lemma ProposalsConsecutive(c: Config, s: Node, queue: seq<Digest>, epochEnd: nat)
    ensures var k := ProposedCount(c, s, queue, epochEnd);
            var t := ProposeAll(s, queue[..k]);
            && t.seqNo == s.seqNo + k
            && (k > 0 ==> t.seqNo <= s.h + c.l && t.seqNo <= epochEnd)
            && (k < |queue| ==>
                  || t.seqNo + 1 > s.h + c.l || t.seqNo + 1 > epochEnd
                  || (queue[k] != NULL_REQUEST && HasAnother(t, t.seqNo + 1, queue[k])))
  {
    var k := ProposedCount(c, s, queue, epochEnd);
    var t := ProposeAll(s, queue[..k]);
    ProposedNumbers(s, queue[..k]);
    ProposalsStop(c, s, queue, epochEnd);
    RoomIs(c, t, epochEnd);
    if k < |queue| {
      StopsFor(t, queue[k]);
    }
  }

  lemma StopsFor(s: Node, d: Digest)
    ensures ExistedDigest(s, NextId(s, d)) <==> d != NULL_REQUEST && HasAnother(s, s.seqNo + 1, d)
  {
  }

  /** Proposed batches get consecutive numbers in queue order. */
  lemma {:induction false} ProposedNumbers(s: Node, queue: seq<Digest>)
    ensures var t := ProposeAll(s, queue);
            && t.seqNo == s.seqNo + |queue| && t.view == s.view && t.h == s.h
            && t.hist.proposals == s.hist.proposals + ProposedIds(s.view, s.seqNo + 1, queue)
    decreases |queue|
  {
    if queue != [] {
      ProposedNumbers(Propose(s, NextId(s, queue[0])), queue[1..]);
      ProposedShift(s, queue);
    }
  }

  /** Each of them is pre-prepared under its number. */
  lemma {:induction false} ProposedArePrePrepared(s: Node, queue: seq<Digest>, i: nat)
    requires i < |queue|
    ensures var t := ProposeAll(s, queue);
            var id := MsgId(s.view, s.seqNo + 1 + i, queue[i]);
            && id in t.certs && t.certs[id].prePrepared && id.n in t.seqMap && t.seqMap[id.n] == id.d && id in t.hist.accepted
    decreases |queue|
  {
    var t := Propose(s, NextId(s, queue[0]));
    if i > 0 {
      ProposedArePrePrepared(t, queue[1..], i - 1);
    } else {
      ProposingKeeps(t, queue[1..], NextId(s, queue[0]));
    }
  }

  /** Proposing leaves what other numbers have. */
  lemma {:induction false} ProposingKeeps(s: Node, queue: seq<Digest>, id: MsgId)
    requires id.n <= s.seqNo
    ensures var t := ProposeAll(s, queue);
            && (id in t.certs <==> id in s.certs) && (id in s.certs ==> t.certs[id] == s.certs[id])
            && (id.n in t.seqMap <==> id.n in s.seqMap) && (id.n in s.seqMap ==> t.seqMap[id.n] == s.seqMap[id.n])
            && s.hist.accepted <= t.hist.accepted
    decreases |queue|
  {
    if queue != [] {
      ProposingKeeps(Propose(s, NextId(s, queue[0])), queue[1..], id);
    }
  }

  /** A batch is proposed only if no other number of the view has it, and no two numbers get the same. */
  lemma {:induction false} ProposedOnce(c: Config, s: Node, queue: seq<Digest>, epochEnd: nat, i: nat)
    requires i < ProposedCount(c, s, queue, epochEnd) && queue[i] != NULL_REQUEST
    ensures !HasAnother(s, s.seqNo + 1 + i, queue[i])
    ensures forall j :: 0 <= j < i ==> queue[j] != queue[i]
    decreases |queue|
  {
    var t := Propose(s, NextId(s, queue[0]));
    if i > 0 {
      ProposedOnce(c, t, queue[1..], epochEnd, i - 1);
      assert queue[1..][i - 1] == queue[i];
      forall id | id in s.certs && s.certs[id].prePrepared && id.v == s.view && id.d == queue[i] ensures id.n == s.seqNo + 1 + i {
        assert id in t.certs && t.certs[id].prePrepared;
      }
      assert NextId(s, queue[0]) in t.certs && t.certs[NextId(s, queue[0])].prePrepared;
      forall j | 0 <= j < i ensures queue[j] != queue[i] {
        if j > 0 {
          assert queue[1..][j - 1] == queue[j];
        }
      }
    }
  }

  /** What stays queued: everything not proposed, except a batch at which proposing stopped although there
      was room for it. */
  lemma LeftOverIs(c: Config, s: Node, queue: seq<Digest>, epochEnd: nat)
    ensures var k := ProposedCount(c, s, queue, epochEnd);
            var left := LeftOver(c, s, queue, epochEnd);
            && (k == |queue| ==> left == [])
            && (k < |queue| && (s.seqNo + k >= s.h + c.l || s.seqNo + k >= epochEnd) ==> queue == queue[..k] + left)
            && (k < |queue| && s.seqNo + k < s.h + c.l && s.seqNo + k < epochEnd ==>
                  queue == queue[..k] + [queue[k]] + left && queue[k] != NULL_REQUEST
                  && HasAnother(ProposeAll(s, queue[..k]), s.seqNo + k + 1, queue[k]))
  {
    var k := ProposedCount(c, s, queue, epochEnd);
    ProposalsConsecutive(c, s, queue, epochEnd);
    ProposedNumbers(s, queue[..k]);
    SplitAt(queue, k);
    RoomIs(c, ProposeAll(s, queue[..k]), epochEnd);
  }

  lemma SplitAt(queue: seq<Digest>, k: nat)
    requires k <= |queue|
    ensures queue == queue[..k] + queue[k..]
    ensures k < |queue| ==> queue == queue[..k] + [queue[k]] + queue[k + 1..]
  {
  }

  lemma RoomIs(c: Config, s: Node, epochEnd: nat)
    ensures RoomForNext(c, s, epochEnd) <==> s.seqNo < s.h + c.l && s.seqNo < epochEnd
  {
  }

  lemma ProposedShift(s: Node, queue: seq<Digest>)
    requires queue != []
    ensures ProposedIds(s.view, s.seqNo + 1, queue)
         == {NextId(s, queue[0])} + ProposedIds(s.view, s.seqNo + 2, queue[1..])
  {
    var all, rest := ProposedIds(s.view, s.seqNo + 1, queue), ProposedIds(s.view, s.seqNo + 2, queue[1..]);
    forall id | id in all ensures id in {NextId(s, queue[0])} + rest
    {
      var i: nat :| i < |queue| && id == MsgId(s.view, s.seqNo + 1 + i, queue[i]);
      if i > 0 {
        assert id == MsgId(s.view, s.seqNo + 2 + (i - 1), queue[1..][i - 1]);
      }
    }
    forall id | id in rest ensures id in all
    {
      var i: nat :| i < |queue[1..]| && id == MsgId(s.view, s.seqNo + 2 + i, queue[1..][i]);
      assert id == MsgId(s.view, s.seqNo + 1 + (i + 1), queue[i + 1]);
    }
    assert NextId(s, queue[0]) == MsgId(s.view, s.seqNo + 1 + 0, queue[0]);
  }

  /* ---------- pending certificates ---------- */

  /** Certificates belong to the current view and lie above the low watermark; a certificate that
      is committed and not executed is pending, and of the current view only such are. */
  ghost predicate Consistent(c: Config, s: Node, pending: set<MsgId>)
    requires c.n >= 1
  {
    && (forall id :: id in s.certs ==> id.v == s.view && id.n > s.h && (s.inViewChange ==> !s.certs[id].prePrepared))
    && (forall id :: id in pending ==> id.v <= s.view)
    && (forall id :: id in pending && id.v == s.view ==> id in s.certs && s.certs[id].sentCommit)
    && (forall id :: id in s.certs && s.certs[id].sentCommit && id.n > |s.executed| ==>
          Prepared(c, s.certs, id) && (Committed(c, s.certs, id) && !s.certs[id].sentExecute ==> id in pending))
  }

  lemma PrepareConsistent(c: Config, s: Node, pending: set<MsgId>, from: nat, id: MsgId)
    requires c.n >= 1 && Consistent(c, s, pending) && InWV(s, id)
    ensures Consistent(c, RecvPrepare(s, from, id), pending)
  {
    var t := RecvPrepare(s, from, id);
    forall o | o in t.certs && t.certs[o].sentCommit && o.n > |t.executed|
      ensures Prepared(c, t.certs, o) && (Committed(c, t.certs, o) && !t.certs[o].sentExecute ==> o in pending)
    {
      if o == id {
        SubsetCount(s.certs[o].prepares, t.certs[o].prepares);
      }
    }
  }

  lemma CommitConsistent(c: Config, s: Node, pending: set<MsgId>, from: nat, id: MsgId)
    requires c.n >= 1 && Consistent(c, s, pending) && InWV(s, id)
    ensures var t := RecvCommit(s, from, id);
            && (t.certs[id].sentCommit ==> Consistent(c, t, pending + {id}))
            && (!t.certs[id].sentCommit ==> Consistent(c, t, pending))
  {
  }

  /** A certificate that is not committed, or is executed, need not be pending. */
  lemma NotPending(c: Config, s: Node, pending: set<MsgId>, id: MsgId)
    requires c.n >= 1 && Consistent(c, s, pending + {id})
    requires id.n <= |s.executed| || !Committed(c, s.certs, id) || (id in s.certs && s.certs[id].sentExecute)
    ensures Consistent(c, s, pending)
  {
  }

  lemma CommitStored(c: Config, s: Node, pending: set<MsgId>, from: nat, id: MsgId)
    requires c.n >= 1 && InWV(s, id)
    requires Consistent(c, s, pending) || (id in s.certs && Consistent(c, s, pending + {id}))
    ensures var t := RecvCommit(s, from, id);
            Consistent(c, t, if Executable(c, t, id) then pending + {id} else pending)
  {
    var t := RecvCommit(s, from, id);
    if Consistent(c, s, pending) {
      CommitConsistent(c, s, pending, from, id);
    } else {
      CommitConsistent(c, s, pending + {id}, from, id);
      assert pending + {id} + {id} == pending + {id};
      assert s.certs[id].sentCommit;
    }
    if !Executable(c, t, id) && !Consistent(c, t, pending) {
      NotPending(c, t, pending, id);
    }
  }

  lemma AcceptConsistent(c: Config, s: Node, pending: set<MsgId>, id: MsgId)
    requires c.n >= 1 && Consistent(c, s, pending) && InWV(s, id) && !s.inViewChange
    ensures Consistent(c, Accept(s, id), pending)
  {
  }

  lemma ProposeIsAccept(c: Config, s: Node, pending: set<MsgId>, id: MsgId)
    requires c.n >= 1 && Consistent(c, s, pending) && InWV(s, id) && !s.inViewChange
    ensures var t := Accept(s, id);
            Propose(s, id) == t.(seqNo := id.n, hist := t.hist.(proposals := t.hist.proposals + {id}))
    ensures Consistent(c, Propose(s, id), pending)
  {
    AcceptConsistent(c, s, pending, id);
  }

  lemma MarkPrepareConsistent(c: Config, s: Node, pending: set<MsgId>, id: MsgId)
    requires c.n >= 1 && Consistent(c, s, pending) && id in s.certs
    ensures Consistent(c, MarkPrepare(s, id), pending)
  {
  }

  lemma MarkCommitConsistent(c: Config, s: Node, pending: set<MsgId>, id: MsgId)
    requires c.n >= 1 && Consistent(c, s, pending) && id in s.certs && Prepared(c, s.certs, id)
    ensures Consistent(c, MarkCommit(s, id), pending + {id})
  {
  }

  lemma ExecuteConsistent(c: Config, s: Node, pending: set<MsgId>, id: MsgId)
    requires c.n >= 1 && Consistent(c, s, pending) && CanExecute(c, s, id)
    ensures Consistent(c, Execute(c, s, id), pending - {id})
  {
  }

  /* ---------- building P and Q sets ---------- */

  /** The certificates already visited. */
  function Seen(certs: map<MsgId, Cert>, todo: set<MsgId>): map<MsgId, Cert> {
    map id | id in certs && id !in todo :: certs[id]
  }

  lemma SeenStep(certs: map<MsgId, Cert>, todo: set<MsgId>, id: MsgId)
    requires id in todo && id in certs
    ensures id !in Seen(certs, todo) && Seen(certs, todo - {id}) == Seen(certs, todo)[id := certs[id]]
  {
  }

  lemma PSetStep(c: Config, old_: map<nat, PEntry>, seen: map<MsgId, Cert>, id: MsgId, ct: Cert, p: map<nat, PEntry>)
    requires c.n >= 1 && id !in seen && IsPSet(c, old_, seen, p)
    ensures var after := seen[id := ct];
            var skip := !Prepared(c, after, id) || (id.n in p && p[id.n].v > id.v);
            IsPSet(c, old_, after, if skip then p else p[id.n := PEntry(id.v, id.d)])
  {
    var after := seen[id := ct];
    forall o | o in seen ensures Prepared(c, after, o) == Prepared(c, seen, o) {
    }
  }

  lemma QSetStep(old_: map<QIdx, nat>, seen: map<MsgId, Cert>, id: MsgId, ct: Cert, q: map<QIdx, nat>)
    requires id !in seen && IsQSet(old_, seen, q)
    ensures var x := QIdx(id.n, id.d);
            var skip := !ct.prePrepared || (x in q && q[x] > id.v);
            IsQSet(old_, seen[id := ct], if skip then q else q[x := id.v])
  {
  }

  lemma ViewChangeConsistent(c: Config, s: Node, pending: set<MsgId>, w: nat, p: map<nat, PEntry>, q: map<QIdx, nat>)
    requires c.n >= 1 && Consistent(c, s, pending) && (w > s.view || (w == s.view && s.inViewChange))
    ensures Consistent(c, StartViewChange(c, s, w, p, q), pending)
  {
  }

  /** A view change does not depend on the view it leaves. */
  lemma ViewForgotten(c: Config, s: Node, v: nat, w: nat, p: map<nat, PEntry>, q: map<QIdx, nat>)
    requires c.n >= 1
    ensures StartViewChange(c, s.(view := v), w, p, q) == StartViewChange(c, s, w, p, q)
  {
  }

  lemma BasisStays(c: Config, s: Node, pending: set<MsgId>, b: VcBasis)
    requires c.n >= 1 && Consistent(c, s, pending)
    ensures Consistent(c, SendBasis(s, b), pending)
  {
  }

  lemma MoveConsistent(c: Config, s: Node, pending: set<MsgId>, n: nat)
    requires c.n >= 1 && Consistent(c, s, pending) && s.h <= n
    ensures Consistent(c, MoveWatermarks(s, n), set id | id in pending && !(id in s.certs && id.n <= n))
  {
  }

  /* ---------- what is cleared ---------- */

  ghost predicate SameAt<K, V>(a: map<K, V>, b: map<K, V>, k: K) {
    (k in a <==> k in b) && (k in a ==> a[k] == b[k])
  }

  /** Raising the low watermark clears what is at or below it, and local checkpoints below it, and nothing
      else. A number keeps its digest unless a certificate for it goes. */
  lemma MoveClears(s: Node, n: nat)
    requires s.h <= n
    ensures var t := MoveWatermarks(s, n);
            && t.h == n && t.view == s.view && t.inViewChange == s.inViewChange && t.seqNo == s.seqNo
            && t.waiting == s.waiting && t.executed == s.executed && t.hist == s.hist && t.newViewStore == s.newViewStore
            && (forall id: MsgId :: if id.n > n then SameAt(t.certs, s.certs, id) else id !in t.certs)
            && (forall k :: if k > n then SameAt(t.plist, s.plist, k) else k !in t.plist)
            && (forall x: QIdx :: if x.n > n then SameAt(t.qlist, s.qlist, x) else x !in t.qlist)
            && (forall k :: if k >= n then SameAt(t.ckpts, s.ckpts, k) else k !in t.ckpts)
            && (forall k :: if k > n || forall id :: id in s.certs ==> id.n != k then SameAt(t.seqMap, s.seqMap, k)
                            else k !in t.seqMap)
  {
    var t := MoveWatermarks(s, n);
    forall k ensures k in NumbersUpTo(s.certs, n) <==> k <= n && exists id :: id in s.certs && id.n == k {
    }
  }

  /** A view change clears the certificates of earlier views with their numbers, and the new view stored for
      the view changed to, and nothing else. */
  lemma ViewChangeClears(c: Config, s: Node, w: nat, p: map<nat, PEntry>, q: map<QIdx, nat>)
    requires c.n >= 1
    ensures var t := StartViewChange(c, s, w, p, q);
            && t.view == w && t.inViewChange && t.plist == p && t.qlist == q
            && t.h == s.h && t.seqNo == s.seqNo && t.waiting == s.waiting && t.ckpts == s.ckpts && t.executed == s.executed
            && (forall id: MsgId :: if id.v >= w then SameAt(t.certs, s.certs, id) else id !in t.certs)
            && (forall k :: if exists id :: id in s.certs && id.v < w && id.n == k then k !in t.seqMap
                            else SameAt(t.seqMap, s.seqMap, k))
            && (forall v :: if v == w then v !in t.newViewStore else SameAt(t.newViewStore, s.newViewStore, v))
  {
    forall k ensures k in NumbersBefore(s.certs, w) <==> exists id :: id in s.certs && id.v < w && id.n == k {
    }
  }

  /* ---------- eviction ---------- */

  function Numbers(ids: set<MsgId>): set<nat> {
    set id | id in ids :: id.n
  }

  function Kept(certs: map<MsgId, Cert>, ids: set<MsgId>): map<MsgId, Cert> {
    map id | id in certs && id in ids :: certs[id]
  }

  function OldIds(certs: map<MsgId, Cert>, view: nat): set<MsgId> {
    set id | id in certs && id.v < view
  }

  function LowIds(certs: map<MsgId, Cert>, n: nat): set<MsgId> {
    set id | id in certs && id.n <= n
  }

  /** The certificates `gone` have been moved to the cache. */
  ghost predicate EvictedSoFar(all: map<MsgId, Cert>, seqs: map<nat, Digest>, cache: map<MsgId, Cert>, gone: set<MsgId>,
                               certs: map<MsgId, Cert>, seqMap: map<nat, Digest>, cached: map<MsgId, Cert>)
  {
    && certs == all - gone
    && seqMap == seqs - Numbers(gone)
    && cached == cache + Kept(all, gone)
  }

  lemma EvictStep(all: map<MsgId, Cert>, seqs: map<nat, Digest>, cache: map<MsgId, Cert>, gone: set<MsgId>, idx: MsgId)
    requires idx in all && idx !in gone
    ensures all - gone - {idx} == all - (gone + {idx})
    ensures seqs - Numbers(gone) - {idx.n} == seqs - Numbers(gone + {idx})
    ensures (cache + Kept(all, gone))[idx := all[idx]] == cache + Kept(all, gone + {idx})
    ensures (all - gone)[idx] == all[idx]
  {
    assert Numbers(gone + {idx}) == Numbers(gone) + {idx.n};
  }

  /** The stores that evicting a certificate changes. */
  datatype Evicting = Evicting(certs: map<MsgId, Cert>, seqMap: map<nat, Digest>, cache: map<MsgId, Cert>)

  function EvictOne(e: Evicting, idx: MsgId): Evicting {
    if idx in e.certs then Evicting(e.certs - {idx}, e.seqMap - {idx.n}, e.cache[idx := e.certs[idx]]) else e
  }

  function EvictAll(e: Evicting, order: seq<MsgId>): Evicting
    decreases |order|
  {
    if order == [] then e else EvictOne(EvictAll(e, order[..|order| - 1]), order[|order| - 1])
  }

  lemma {:induction false} StillThere(e: Evicting, order: seq<MsgId>, idx: MsgId)
    requires idx in e.certs && idx !in order
    ensures var t := EvictAll(e, order);
            idx in t.certs && t.certs[idx] == e.certs[idx] && EvictAll(e, order + [idx]) == EvictOne(t, idx)
    decreases |order|
  {
    assert (order + [idx])[..|order|] == order;
    if order != [] {
      StillThere(e, order[..|order| - 1], idx);
    }
  }

  /** The order in which certificates are evicted does not matter. */
  lemma {:induction false} EvictedAll(e: Evicting, order: seq<MsgId>, gone: set<MsgId>)
    requires forall id :: id in order <==> id in gone
    requires gone <= e.certs.Keys
    ensures var t := EvictAll(e, order);
            EvictedSoFar(e.certs, e.seqMap, e.cache, gone, t.certs, t.seqMap, t.cache)
    decreases |order|
  {
    if order != [] {
      var idx := order[|order| - 1];
      var init := order[..|order| - 1];
      assert order == init + [idx];
      if idx in init {
        EvictedAll(e, init, gone);
      } else {
        EvictedAll(e, init, gone - {idx});
        EvictStep(e.certs, e.seqMap, e.cache, gone - {idx}, idx);
        assert gone - {idx} + {idx} == gone;
      }
    }
  }

  function PreparedAdded(c: Config, s: Node): History
    requires c.n >= 1
  {
    s.hist.(prepared := s.hist.prepared + PreparedIds(c, s.certs))
  }

  lemma SameStart(c: Config, s: Node, t: Node, p: map<nat, PEntry>, q: map<QIdx, nat>)
    requires c.n >= 1
    requires t.view == s.view + 1 && t.inViewChange && t.plist == p && t.qlist == q
    requires t.h == s.h && t.seqNo == s.seqNo && t.waiting == s.waiting && t.ckpts == s.ckpts && t.executed == s.executed
    requires t.certs == CertsFrom(s.certs, s.view + 1)
    requires t.seqMap == s.seqMap - NumbersBefore(s.certs, s.view + 1)
    requires t.hist == PreparedAdded(c, s) && t.newViewStore == s.newViewStore - {s.view + 1}
    ensures t == StartViewChange(c, s, s.view + 1, p, q)
  {
  }

  lemma SameExecute(c: Config, s: Node, t: Node, id: MsgId)
    requires id in s.certs && !s.waiting
    requires t.view == s.view && t.inViewChange == s.inViewChange && t.h == s.h && t.seqNo == s.seqNo
    requires t.seqMap == s.seqMap && t.plist == s.plist && t.qlist == s.qlist && t.ckpts == s.ckpts && t.hist == s.hist
    requires t.newViewStore == s.newViewStore
    requires t.certs == s.certs[id := s.certs[id].(sentExecute := true)]
    requires t.executed == s.executed + [id] && t.waiting == c.ckptAt(id.n)
    ensures t == Execute(c, s, id)
  {
  }

  lemma SameMove(s: Node, t: Node, n: nat)
    requires s.h <= n && t.h == n && t.view == s.view && t.inViewChange == s.inViewChange
    requires t.seqNo == s.seqNo && t.waiting == s.waiting && t.executed == s.executed && t.hist == s.hist
    requires t.newViewStore == s.newViewStore
    requires t.certs == CertsAbove(s.certs, n) && t.seqMap == s.seqMap - NumbersUpTo(s.certs, n)
    requires t.ckpts == CkptsFrom(s.ckpts, n) && t.plist == PAbove(s.plist, n) && t.qlist == QAbove(s.qlist, n)
    ensures t == MoveWatermarks(s, n)
  {
  }

  lemma MovedIsAbove(certs: map<MsgId, Cert>, seqMap: map<nat, Digest>, n: nat)
    ensures var gone := LowIds(certs, n);
            && CertsAbove(certs, n) == certs - gone
            && seqMap - NumbersUpTo(certs, n) == seqMap - Numbers(gone)
  {
    var gone := LowIds(certs, n);
    assert Numbers(gone) == NumbersUpTo(certs, n);
  }

  lemma ClearedIsStarted(certs: map<MsgId, Cert>, seqMap: map<nat, Digest>, w: nat)
    ensures var gone := OldIds(certs, w);
            && CertsFrom(certs, w) == certs - gone
            && seqMap - NumbersBefore(certs, w) == seqMap - Numbers(gone)
  {
    var gone := OldIds(certs, w);
    assert Numbers(gone) == NumbersBefore(certs, w);
  }

  /* ---------- retention ---------- */

  /** The batches numbered at most this are dropped when the low watermark moves to n. */
  function RetainTarget(n: nat, period: nat, cache: nat): (target: nat)
    requires period >= 1
    ensures target <= n
    ensures n - target >= (if n < cache then n else cache)
  {
    var pos := n / period * period;
    var target := if pos <= period then 0 else pos - period;
    PosBelow(n, period);
    if n - target < cache then (if n > cache then n - cache else 0) else target
  }

  lemma PosBelow(n: nat, period: nat)
    requires period >= 1
    ensures n / period * period <= n
  {
  }

  /** That is the start of the period before the current one, k whole periods from the beginning, or the
      number cache size below n, whichever keeps more. */
  lemma RetainTargetIs(n: nat, period: nat, cache: nat, k: nat)
    requires period >= 1 && n < k * period + 2 * period && (k == 0 || k * period + period <= n)
    ensures RetainTarget(n, period, cache)
         == if n <= cache then 0 else if n - cache < k * period then n - cache else k * period
  {
    if k * period + period <= n {
      QuotientIs(n, period, k + 1);
    } else {
      QuotientIs(n, period, 0);
    }
  }

  lemma QuotientIs(n: nat, period: nat, q: nat)
    requires period >= 1 && q * period <= n < q * period + period
    ensures n / period == q && n / period * period == q * period
  {
    var more: int := n / period - q;
    assert n == n / period * period + n % period;
    assert more * period == n - n % period - q * period;
    assert more >= 1 ==> more * period >= period;
    assert more <= -1 ==> more * period + period <= 0;
  }

  /** The certificates numbered at most n. */
  function CertsUpTo(certs: map<MsgId, Cert>, n: nat): map<MsgId, Cert> {
    map id | id in certs && id.n <= n :: certs[id]
  }
}
