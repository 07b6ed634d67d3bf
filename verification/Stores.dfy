/** The stores of one replica and the methods that update them in place. Every method is proved
    against the relation of module Handlers that says what it does. */
module Stores {
  import opened Quorum
  import opened NewView
  import opened Replica
  import opened Handlers
  import opened NewViewHandlers
  import opened ReplicaInv
  import opened Progress
  import opened Checkpoints
  import opened Protocol

  class StoreManager {
    const c: Config
    const self: nat
    const period: nat
    const cacheNumber: nat
    const epochEnd: nat

    var view: nat
    var inViewChange: bool
    var h: nat
    var seqNo: nat
    var lastExec: nat
    var waiting: bool
    var certStore: map<MsgId, Cert>
    var committedCert: set<MsgId>
    var committedCertCache: map<MsgId, Cert>
    var seqMap: map<nat, Digest>
    var plist: map<nat, PEntry>
    var qlist: map<QIdx, nat>
    var localCheckpoints: map<nat, Digest>
    var checkpointStore: map<ChkptId, Digest>
    var batchStore: map<Digest, nat>
    var cacheBatch: seq<Digest>
    var newViewStore: map<nat, NewViewMsg>

    ghost var executed: seq<MsgId>
    ghost var hist: History

    /** The stores as a value. */
    ghost function Abs(): Node
      reads this
    {
      Node(view, inViewChange, h, seqNo, waiting, certStore, seqMap, plist, qlist, localCheckpoints, executed,
           newViewStore, hist)
    }

    /** Facts about the stores that the handlers rely on. */
    ghost predicate Valid()
      reads this
    {
      && c.n >= 1 && period >= 1
      && lastExec == |executed|
      && Consistent(c, Abs(), committedCert)
    }

    constructor (c: Config, self: nat, genesis: Digest, period: nat, cacheNumber: nat, epochEnd: nat)
      requires c.n >= 1 && period >= 1
      ensures Valid() && this.c == c && this.self == self
      ensures Abs() == InitNode(genesis)
    {
      this.c, this.self := c, self;
      this.period, this.cacheNumber, this.epochEnd := period, cacheNumber, epochEnd;
      view, inViewChange, h, seqNo, lastExec, waiting := 0, false, 0, 0, 0, false;
      certStore, committedCert, committedCertCache := map[], {}, map[];
      seqMap, plist, qlist := map[], map[], map[];
      localCheckpoints, checkpointStore, batchStore, cacheBatch := map[0 := genesis], map[], map[], [];
      newViewStore := map[];
      executed, hist := [], History({}, {}, {}, {}, {}, {}, {}, map[]);
    }

    /** getCert: creates the certificate when there is none. */
    method GetCertificate(id: MsgId) returns (ct: Cert)
      modifies this`certStore
      ensures ct == GetCert(old(certStore), id)
      ensures certStore == old(certStore)[id := ct]
    {
      if id in certStore {
        return certStore[id];
      }
      ct := NO_CERT;
      certStore := certStore[id := ct];
    }

    /** The cache of old certificates holds what it held and what was moved to it, as far as it is recent:
        numbered at most cacheNumber below the given height. */
    ghost predicate CachedFrom(before: map<MsgId, Cert>, moved: map<MsgId, Cert>, height: nat, after: map<MsgId, Cert>) {
      forall id ::
        && (id in after <==> (id in before || id in moved) && id.n + cacheNumber >= height)
        && (id in after ==> after[id] == if id in moved then moved[id] else before[id])
    }

    /* ---------- execution ---------- */

    /** findNextCommitBatch: walks the pending certificates in any order. */
    method FindNextCommitBatch() returns (found: bool, idx: MsgId)
      requires Valid()
      ensures found ==> idx in committedCert && Ready(c, Abs(), batchStore.Keys, idx)
      ensures !found ==> forall id :: !Ready(c, Abs(), batchStore.Keys, id)
    {
      found, idx := false, MsgId(0, 0, "");
      if waiting {
        return;
      }
      var todo := committedCert;
      while todo != {}
        invariant todo <= committedCert
        invariant forall id :: id in committedCert && id !in todo ==> !Ready(c, Abs(), batchStore.Keys, id)
        decreases |todo|
      {
        idx :| idx in todo;
        todo := todo - {idx};
        if idx in certStore && certStore[idx].prePrepared && !certStore[idx].sentExecute
           && idx.n == lastExec + 1 && Committed(c, certStore, idx)
           && (idx.d == NULL_REQUEST || idx.d in batchStore) {
          return true, idx;
        }
      }
    }

    /** commitPendingBlocks: executes while a next block is ready. The loop ends because every round
        takes one certificate off the pending set. */
    method CommitPendingBlocks() returns (ghost ids: seq<MsgId>)
      requires Valid()
      modifies this`executed, this`lastExec, this`waiting, this`certStore, this`committedCert
      ensures Valid()
      ensures Settles(c, old(Abs()), batchStore.Keys, ids)
      ensures Abs() == ExecuteAll(c, old(Abs()), ids)
    {
      ids := [];
      ghost var start := Abs();
      var more := true;
      while more
        invariant Valid()
        invariant ReadyInTurn(c, start, batchStore.Keys, ids) && Abs() == ExecuteAll(c, start, ids)
        invariant !more ==> forall id :: !Ready(c, Abs(), batchStore.Keys, id)
        decreases more, |committedCert|
      {
        var found, idx := FindNextCommitBatch();
        if found {
          AfterCommitBlock(idx);
          assert (ids + [idx])[..|ids + [idx]| - 1] == ids;
          ids := ids + [idx];
        } else {
          more := false;
        }
      }
    }

    /** The end of one round of commitPendingBlocks and afterCommitBlock. */
    method AfterCommitBlock(idx: MsgId)
      requires Valid() && idx in committedCert && CanExecute(c, Abs(), idx)
      modifies this`executed, this`lastExec, this`waiting, this`certStore, this`committedCert
      ensures Valid()
      ensures Abs() == Execute(c, old(Abs()), idx)
      ensures committedCert == old(committedCert) - {idx}
    {
      ExecuteConsistent(c, Abs(), committedCert, idx);
      RecordExecution(idx);
      committedCert := committedCert - {idx};
    }

    method RecordExecution(idx: MsgId)
      requires idx in certStore && !waiting && idx.n == lastExec + 1 && lastExec == |executed|
      modifies this`executed, this`lastExec, this`waiting, this`certStore
      ensures lastExec == |executed| && Abs() == Execute(c, old(Abs()), idx)
    {
      ghost var s := Abs();
      certStore := certStore[idx := certStore[idx].(sentExecute := true)];
      executed := executed + [idx];
      lastExec := idx.n;
      if c.ckptAt(lastExec) {
        waiting := true;
      }
      SameExecute(c, s, Abs(), idx);
    }

    /* ---------- votes ---------- */

    /** recvCommit. Called for the replica's own commit while that one is being added, so the
        pending set may still lack `id`. */
    method HandleCommit(from: nat, id: MsgId) returns (ghost ids: seq<MsgId>)
      requires c.n >= 1 && period >= 1 && lastExec == |executed|
      requires Consistent(c, Abs(), committedCert) || (id in certStore && Consistent(c, Abs(), committedCert + {id}))
      modifies this`executed, this`lastExec, this`waiting, this`certStore, this`committedCert
      ensures Valid()
      ensures CommitHandled(c, batchStore.Keys, old(Abs()), from, id, ids, Abs())
      ensures NothingToRun(c, old(Abs()), batchStore.Keys) ==> NothingToRun(c, Abs(), batchStore.Keys)
      ensures id.v == view && id.n > h ==> id in certStore && from in certStore[id].commits
      ensures CertInv(old(Abs())) && CompletesNext(c, old(Abs()), batchStore.Keys, from, id) ==> old(executed) + [id] <= executed
    {
      ids := [];
      if !(id.v == view && id.n > h) {
        return;
      }
      if from in GetCert(certStore, id).commits && id.n <= lastExec {
        if !Consistent(c, Abs(), committedCert) {
          NotPending(c, Abs(), committedCert, id);
        }
        return;
      }
      var ready := StoreCommit(from, id);
      if ready {
        ids := CommitPendingBlocks();
      }
      CommitGetsDone(c, batchStore.Keys, old(Abs()), from, id, ids, Abs());
    }

    /** Adds a commit; a certificate that can now be executed becomes pending. */
    method StoreCommit(from: nat, id: MsgId) returns (ready: bool)
      requires c.n >= 1 && period >= 1 && lastExec == |executed|
      requires Consistent(c, Abs(), committedCert) || (id in certStore && Consistent(c, Abs(), committedCert + {id}))
      requires InWV(Abs(), id)
      modifies this`certStore, this`committedCert
      ensures Valid()
      ensures Abs() == RecvCommit(old(Abs()), from, id)
      ensures ready == Executable(c, Abs(), id)
    {
      CommitStored(c, Abs(), committedCert, from, id);
      var cert := GetCertificate(id);
      certStore := certStore[id := cert.(commits := cert.commits + {from})];
      assert Abs() == RecvCommit(old(Abs()), from, id);
      ready := Committed(c, certStore, id) && !certStore[id].sentExecute && certStore[id].sentCommit;
      if ready {
        committedCert := committedCert + {id};
      }
    }

    /** maybeSendCommit and sendCommit. */
    method MaybeSendCommit(id: MsgId) returns (ghost ids: seq<MsgId>)
      requires Valid() && id in certStore
      modifies this`executed, this`lastExec, this`waiting, this`certStore, this`committedCert, this`hist
      ensures Valid()
      ensures CommitMaybeSent(c, self, batchStore.Keys, old(Abs()), id, ids, Abs())
    {
      ids := [];
      if !Prepared(c, certStore, id) || (self != c.Primary(view) && !certStore[id].sentPrepare) || certStore[id].sentCommit {
        return;
      }
      MarkCommitConsistent(c, Abs(), committedCert, id);
      certStore := certStore[id := certStore[id].(sentCommit := true)];
      hist := hist.(commits := hist.commits + {CommitMsg(id, h)}, prepared := hist.prepared + {id});
      ids := HandleCommit(self, id);
    }

    /** recvPrepare. */
    method HandlePrepare(from: nat, id: MsgId) returns (ghost ids: seq<MsgId>)
      requires Valid()
      modifies this`executed, this`lastExec, this`waiting, this`certStore, this`committedCert, this`hist
      ensures Valid()
      ensures PrepareHandled(c, self, batchStore.Keys, old(Abs()), from, id, ids, Abs())
      ensures NothingToRun(c, old(Abs()), batchStore.Keys) ==> NothingToRun(c, Abs(), batchStore.Keys)
      ensures id.v == view && id.n > h && from != c.Primary(id.v) ==> id in certStore && from in certStore[id].prepares
      ensures CompletesPrepare(c, self, old(Abs()), from, id) ==> id in certStore && certStore[id].sentCommit
    {
      ids := [];
      if !(id.v == view && id.n > h) || from == c.Primary(view) {
        return;
      }
      PrepareConsistent(c, Abs(), committedCert, from, id);
      var cert := GetCertificate(id);
      if from in cert.prepares {
        assert Abs() == old(Abs());
        return;
      }
      certStore := certStore[id := cert.(prepares := cert.prepares + {from})];
      assert Abs() == RecvPrepare(old(Abs()), from, id);
      ids := MaybeSendCommit(id);
      PrepareHandledGetsDone(c, self, batchStore.Keys, old(Abs()), old(committedCert), from, id, ids, Abs());
    }

    method SendPrepare(id: MsgId) returns (ghost ids: seq<MsgId>)
      requires Valid() && id in certStore
      modifies this`executed, this`lastExec, this`waiting, this`certStore, this`committedCert, this`hist
      ensures Valid()
      ensures PrepareSent(c, self, batchStore.Keys, old(Abs()), id, ids, Abs())
    {
      MarkPrepareConsistent(c, Abs(), committedCert, id);
      certStore := certStore[id := certStore[id].(sentPrepare := true)];
      hist := hist.(prepares := hist.prepares + {id});
      ids := HandlePrepare(self, id);
    }

    /** recvPrePrepare and findNextPrepareBatch. After SuspectPrimary the replica starts a view
        change. */
    method HandlePrePrepare(from: nat, id: MsgId, digestOk: bool, pool: PoolAnswer)
      returns (outcome: Outcome, ghost ids: seq<MsgId>)
      requires Valid()
      modifies this`executed, this`lastExec, this`waiting, this`certStore, this`committedCert, this`hist,
               this`seqMap, this`batchStore
      ensures Valid()
      ensures PrePrepareHandled(c, self, old(batchStore.Keys), old(Abs()), from, id, digestOk, pool,
                                outcome, batchStore.Keys, ids, Abs())
      ensures batchStore == old(batchStore) || batchStore == old(batchStore)[id.d := id.n]
      ensures outcome == Ignored <==> !ComesInTime(c, self, old(Abs()), from, id)
      ensures ComesInTime(c, self, old(Abs()), from, id) && Contradicts(old(Abs()), id, digestOk) ==> outcome == SuspectPrimary
      ensures ComesInTime(c, self, old(Abs()), from, id) && !Contradicts(old(Abs()), id, digestOk)
                && (BatchHere(old(batchStore.Keys), id) || pool == PoolHas) ==>
                outcome == Accepted && id in certStore && certStore[id].prePrepared && certStore[id].sentPrepare
    {
      ids := [];
      if inViewChange || !(id.v == view && id.n > h) || from != c.Primary(view) || self == c.Primary(view)
         || (id.n <= lastExec && PrePrepared(certStore, id)) {
        return Ignored, [];
      }
      if (id.n in seqMap && seqMap[id.n] != id.d) || !digestOk {
        return SuspectPrimary, [];
      }
      AcceptPrePrepare(id);
      if certStore[id].sentPrepare {
        return Accepted, [];
      }
      outcome, ids := FindNextPrepareBatch(id, pool);
      PrePrepareGetsDone(c, self, old(batchStore.Keys), old(Abs()), from, id, digestOk, pool, outcome, batchStore.Keys, ids,
                         Abs());
    }

    /** The stores keep the pre-prepare. */
    method AcceptPrePrepare(id: MsgId)
      requires Valid() && InWV(Abs(), id) && !inViewChange
      modifies this`certStore, this`hist, this`seqMap
      ensures Valid() && Abs() == Accept(old(Abs()), id)
    {
      AcceptConsistent(c, Abs(), committedCert, id);
      var cert := GetCertificate(id);
      certStore := certStore[id := cert.(prePrepared := true)];
      seqMap := seqMap[id.n := id.d];
      hist := hist.(accepted := hist.accepted + {id});
      assert Abs() == Accept(old(Abs()), id);
    }

    /** findNextPrepareBatch. */
    method FindNextPrepareBatch(id: MsgId, pool: PoolAnswer) returns (outcome: Outcome, ghost ids: seq<MsgId>)
      requires Valid() && id in certStore
      modifies this`executed, this`lastExec, this`waiting, this`certStore, this`committedCert, this`hist, this`batchStore
      ensures Valid()
      ensures BatchFound(c, self, old(batchStore.Keys), old(Abs()), id, pool, outcome, batchStore.Keys, ids, Abs())
      ensures batchStore == old(batchStore) || batchStore == old(batchStore)[id.d := id.n]
    {
      if id.d != NULL_REQUEST && id.d !in batchStore {
        if pool == PoolFails {
          return SuspectPrimary, [];
        }
        if pool == PoolMisses {
          return Accepted, [];
        }
        batchStore := batchStore[id.d := id.n];
        assert batchStore.Keys == old(batchStore.Keys) + {id.d};
      }
      outcome := Accepted;
      ids := SendPrepare(id);
    }

    /* ---------- view change ---------- */

    /** calcPSet: walks the certificates in any order. */
    method CalcPSet() returns (p: map<nat, PEntry>)
      requires c.n >= 1
      ensures IsPSet(c, plist, certStore, p)
    {
      p := plist;
      var todo := certStore.Keys;
      while todo != {}
        invariant todo <= certStore.Keys
        invariant IsPSet(c, plist, Seen(certStore, todo), p)
        decreases |todo|
      {
        var idx :| idx in todo;
        SeenStep(certStore, todo, idx);
        PSetStep(c, plist, Seen(certStore, todo), idx, certStore[idx], p);
        assert Prepared(c, certStore, idx) == Prepared(c, Seen(certStore, todo - {idx}), idx);
        todo := todo - {idx};
        if Prepared(c, certStore, idx) && !(idx.n in p && p[idx.n].v > idx.v) {
          p := p[idx.n := PEntry(idx.v, idx.d)];
        }
      }
      assert Seen(certStore, {}) == certStore;
    }

    /** calcQSet: walks the certificates in any order. */
    method CalcQSet() returns (q: map<QIdx, nat>)
      ensures IsQSet(qlist, certStore, q)
    {
      q := qlist;
      var todo := certStore.Keys;
      while todo != {}
        invariant todo <= certStore.Keys
        invariant IsQSet(qlist, Seen(certStore, todo), q)
        decreases |todo|
      {
        var idx :| idx in todo;
        SeenStep(certStore, todo, idx);
        QSetStep(qlist, Seen(certStore, todo), idx, certStore[idx], q);
        todo := todo - {idx};
        var qi := QIdx(idx.n, idx.d);
        if certStore[idx].prePrepared && !(qi in q && q[qi] > idx.v) {
          q := q[qi := idx.v];
        }
      }
      assert Seen(certStore, {}) == certStore;
    }

    /** Moves one certificate to the cache of old ones. */
    method Evict(idx: MsgId)
      requires idx in certStore
      modifies this`certStore, this`seqMap, this`committedCertCache
      ensures Evicting(certStore, seqMap, committedCertCache)
           == EvictOne(Evicting(old(certStore), old(seqMap), old(committedCertCache)), idx)
    {
      var cert := certStore[idx];
      certStore := certStore - {idx};
      seqMap := seqMap - {idx.n};
      committedCertCache := committedCertCache[idx := cert];
    }

    /** The certificate clean-up of getVcBasis: certificates of earlier views go to the cache. */
    method ClearOldViews()
      modifies this`certStore, this`seqMap, this`committedCertCache
      ensures EvictedSoFar(old(certStore), old(seqMap), old(committedCertCache), OldIds(old(certStore), view),
                           certStore, seqMap, committedCertCache)
    {
      var todo := certStore.Keys;
      ghost var start := Evicting(certStore, seqMap, committedCertCache);
      ghost var order: seq<MsgId> := [];
      while todo != {}
        invariant todo <= start.certs.Keys
        invariant forall id :: id in order <==> id in start.certs && id !in todo && id.v < view
        invariant Evicting(certStore, seqMap, committedCertCache) == EvictAll(start, order)
        decreases |todo|
      {
        var idx :| idx in todo;
        todo := todo - {idx};
        if idx.v < view {
          StillThere(start, order, idx);
          Evict(idx);
          order := order + [idx];
        }
      }
      EvictedAll(start, order, OldIds(start.certs, view));
    }

    /** cleanCommittedCertCache. */
    method CleanCommittedCertCache(minHeight: nat)
      modifies this`committedCertCache
      ensures committedCertCache == map id | id in old(committedCertCache) && id.n + cacheNumber >= minHeight
                                      :: old(committedCertCache)[id]
    {
      var needCleanHeight := 0;
      if cacheNumber < minHeight {
        needCleanHeight := minHeight - cacheNumber;
      }
      ghost var all := committedCertCache;
      var todo := committedCertCache.Keys;
      while todo != {}
        invariant todo <= committedCertCache.Keys
        invariant committedCertCache == map id | id in all && (id in todo || id.n >= needCleanHeight) :: all[id]
        decreases |todo|
      {
        var idx :| idx in todo;
        todo := todo - {idx};
        if idx.n < needCleanHeight {
          committedCertCache := committedCertCache - {idx};
        }
      }
    }

    /** The P part of gatherPQC, in any order. */
    method GatherP() returns (pset: seq<VcPq>)
      ensures GathersP(Abs(), pset)
    {
      pset := [];
      var todo := plist.Keys;
      while todo != {}
        invariant todo <= plist.Keys
        invariant forall e :: e in pset <==> e.n in plist && e.n !in todo && e.n >= h && plist[e.n] == PEntry(e.v, e.d)
        decreases |todo|
      {
        var n :| n in todo;
        todo := todo - {n};
        if n >= h {
          pset := pset + [VcPq(n, plist[n].d, plist[n].v)];
        }
      }
    }

    method GatherQ() returns (qset: seq<VcPq>)
      ensures GathersQ(Abs(), qset)
    {
      qset := [];
      var todo := qlist.Keys;
      while todo != {}
        invariant todo <= qlist.Keys
        invariant forall e :: e in qset <==>
                    QIdx(e.n, e.d) in qlist && QIdx(e.n, e.d) !in todo && e.n >= h && qlist[QIdx(e.n, e.d)] == e.v
        decreases |todo|
      {
        var x :| x in todo;
        todo := todo - {x};
        if x.n >= h {
          qset := qset + [VcPq(x.n, x.d, qlist[x])];
        }
      }
    }

    method GatherC() returns (cset: seq<CheckpointState>)
      ensures GathersC(Abs(), cset)
    {
      cset := [];
      var todo := localCheckpoints.Keys;
      while todo != {}
        invariant todo <= localCheckpoints.Keys
        invariant forall cs :: cs in cset <==>
                    cs.height in localCheckpoints && cs.height !in todo && localCheckpoints[cs.height] == cs.digest && !cs.isConfig
        decreases |todo|
      {
        var k :| k in todo;
        todo := todo - {k};
        cset := cset + [CheckpointState(k, localCheckpoints[k], false)];
      }
    }

    /** The certificate and cache updates of getVcBasis. */
    method ClearCertificates()
      modifies this`certStore, this`seqMap, this`committedCertCache
      ensures certStore == CertsFrom(old(certStore), view)
      ensures seqMap == old(seqMap) - NumbersBefore(old(certStore), view)
      ensures CachedFrom(old(committedCertCache), Kept(old(certStore), OldIds(old(certStore), view)), h, committedCertCache)
    {
      ClearedIsStarted(certStore, seqMap, view);
      ClearOldViews();
      CleanCommittedCertCache(h);
    }

    /** gatherPQC; the basis is then broadcast. */
    method GatherPQC() returns (b: VcBasis)
      requires Valid()
      modifies this`hist
      ensures Valid()
      ensures IsBasisOf(self, old(Abs()), b)
      ensures Abs() == SendBasis(old(Abs()), b)
      ensures b.view == view && b.h == h && b.id == self
      ensures forall e :: e in b.pset <==> e.n in plist && e.n >= h && plist[e.n].v == e.v && plist[e.n].d == e.d
      ensures forall e :: e in b.qset <==> QIdx(e.n, e.d) in qlist && e.n >= h && qlist[QIdx(e.n, e.d)] == e.v
      ensures forall k :: k in localCheckpoints ==> CheckpointState(k, localCheckpoints[k], false) in b.cset
      ensures forall cs :: cs in b.cset ==> cs.height in localCheckpoints && localCheckpoints[cs.height] == cs.digest
    {
      var pset := GatherP();
      var qset := GatherQ();
      var cset := GatherC();
      b := VcBasis(view, h, self, pset, qset, cset);
      BasisStays(c, Abs(), committedCert, b);
      hist := hist.(bases := hist.bases + {b});
    }

    /** calcPSet and calcQSet, which read neither the view nor the status. */
    method CalcLists() returns (p: map<nat, PEntry>, q: map<QIdx, nat>)
      requires c.n >= 1
      ensures IsPSet(c, plist, certStore, p) && IsQSet(qlist, certStore, q)
    {
      p := CalcPSet();
      q := CalcQSet();
    }

    method RaiseView(p: map<nat, PEntry>, q: map<QIdx, nat>)
      requires c.n >= 1
      modifies this`view, this`inViewChange, this`plist, this`qlist, this`hist
      ensures view == old(view) + 1 && inViewChange && plist == p && qlist == q
      ensures hist == PreparedAdded(c, old(Abs()))
    {
      inViewChange := true;
      view := view + 1;
      plist, qlist := p, q;
      hist := hist.(prepared := hist.prepared + PreparedIds(c, certStore));
    }

    /** beforeSendVC and the updates of getVcBasis. */
    method EnterViewChange(p: map<nat, PEntry>, q: map<QIdx, nat>)
      requires c.n >= 1
      modifies this`view, this`inViewChange, this`plist, this`qlist, this`certStore, this`seqMap, this`committedCertCache,
               this`newViewStore, this`hist
      ensures Abs() == StartViewChange(c, old(Abs()), old(view) + 1, p, q)
    {
      ghost var s := Abs();
      RaiseView(p, q);
      newViewStore := newViewStore - {view};
      ClearCertificates();
      SameStart(c, s, Abs(), p, q);
    }

    method RaiseAndClear(p: map<nat, PEntry>, q: map<QIdx, nat>)
      requires Valid()
      modifies this`view, this`inViewChange, this`plist, this`qlist, this`certStore, this`seqMap, this`committedCertCache,
               this`newViewStore, this`hist
      ensures Valid()
      ensures Abs() == StartViewChange(c, old(Abs()), old(view) + 1, p, q)
    {
      ViewChangeConsistent(c, Abs(), committedCert, view + 1, p, q);
      EnterViewChange(p, q);
    }

    method RaiseAndAnnounce(p: map<nat, PEntry>, q: map<QIdx, nat>) returns (b: VcBasis)
      requires Valid()
      modifies this`view, this`inViewChange, this`plist, this`qlist, this`certStore, this`seqMap, this`committedCertCache,
               this`newViewStore, this`hist
      ensures Valid()
      ensures var s := StartViewChange(c, old(Abs()), old(view) + 1, p, q);
              IsBasisOf(self, s, b) && Abs() == SendBasis(s, b)
    {
      RaiseAndClear(p, q);
      b := GatherPQC();
    }

    /** sendViewChange: the replica moves to the next view and announces what it knows. */
    method SendViewChange() returns (b: VcBasis, ghost p: map<nat, PEntry>, ghost q: map<QIdx, nat>)
      requires Valid()
      modifies this`view, this`inViewChange, this`plist, this`qlist, this`certStore, this`seqMap, this`committedCertCache,
               this`newViewStore, this`hist
      ensures Valid()
      ensures view == old(view) + 1 == b.view && inViewChange
      ensures CanChangeView(c, old(Abs()), old(view) + 1, p, q)
      ensures IsBasisOf(self, StartViewChange(c, old(Abs()), old(view) + 1, p, q), b)
      ensures Abs() == SendBasis(StartViewChange(c, old(Abs()), old(view) + 1, p, q), b)
    {
      var newP, newQ := CalcLists();
      p, q := newP, newQ;
      b := RaiseAndAnnounce(newP, newQ);
    }

    /** The view is set back by one before it is raised again. */
    method RepeatAndClear(p: map<nat, PEntry>, q: map<QIdx, nat>)
      requires Valid() && inViewChange && view > 0
      modifies this`view, this`inViewChange, this`plist, this`qlist, this`certStore, this`seqMap, this`committedCertCache,
               this`newViewStore, this`hist
      ensures Valid()
      ensures Abs() == StartViewChange(c, old(Abs()), old(view), p, q)
    {
      ViewChangeConsistent(c, Abs(), committedCert, view, p, q);
      ViewForgotten(c, Abs(), view - 1, view, p, q);
      view := view - 1;
      EnterViewChange(p, q);
    }

    method RepeatAndAnnounce(p: map<nat, PEntry>, q: map<QIdx, nat>) returns (b: VcBasis)
      requires Valid() && inViewChange && view > 0
      modifies this`view, this`inViewChange, this`plist, this`qlist, this`certStore, this`seqMap, this`committedCertCache,
               this`newViewStore, this`hist
      ensures Valid()
      ensures var s := StartViewChange(c, old(Abs()), old(view), p, q);
              IsBasisOf(self, s, b) && Abs() == SendBasis(s, b)
    {
      RepeatAndClear(p, q);
      b := GatherPQC();
    }

    /** The resend timer: the view change is sent again for the same view. A new view stored for it is
        forgotten. */
    method ResendViewChange() returns (b: VcBasis, ghost p: map<nat, PEntry>, ghost q: map<QIdx, nat>)
      requires Valid() && inViewChange && view > 0
      modifies this`view, this`inViewChange, this`plist, this`qlist, this`certStore, this`seqMap, this`committedCertCache,
               this`newViewStore, this`hist
      ensures Valid()
      ensures view == old(view) == b.view && inViewChange && view !in newViewStore
      ensures CanChangeView(c, old(Abs()), old(view), p, q)
      ensures IsBasisOf(self, StartViewChange(c, old(Abs()), old(view), p, q), b)
      ensures Abs() == SendBasis(StartViewChange(c, old(Abs()), old(view), p, q), b)
    {
      var newP, newQ := CalcLists();
      p, q := newP, newQ;
      b := RepeatAndAnnounce(newP, newQ);
    }

    /** sendNewView, for the bases collected for the view: nothing is announced when the store holds a new
        view, when no checkpoint qualifies, when a number can be given nothing, or when the primary has to
        update its state first. */
    method SendNewView(vcSet: seq<VcBasis>) returns (r: Option<NewViewMsg>, ghost cs: CheckpointState)
      requires Valid() && inViewChange && self == c.Primary(view)
      requires OnePerReplica(c, vcSet) && forall i :: 0 <= i < |vcSet| ==> vcSet[i].view == view
      modifies this`certStore, this`seqMap, this`committedCertCache, this`committedCert, this`batchStore,
               this`checkpointStore, this`localCheckpoints, this`plist, this`qlist, this`h, this`newViewStore, this`hist
      ensures Valid()
      ensures r.None? ==> Abs() == old(Abs())
      ensures r.None? ==> view in old(newViewStore) || (forall x :: !Qualifies(c, vcSet, x))
                          || Assignment(c, vcSet, cs.height).None? || !CanEnter(old(Abs()), NewViewFor(c, vcSet, cs.height), cs.digest)
      ensures r.Some? ==> view !in old(newViewStore) && PassesCheck(c, view, r.value, cs) && r.value.bases == vcSet
      ensures r.Some? ==> CanEnter(old(Abs()), r.value, cs.digest)
      ensures r.Some? ==> Abs() == Announce(Raise(old(Abs()), r.value), r.value)
    {
      if view in newViewStore {
        cs := CheckpointState(0, "", false);
        return None, cs;
      }
      var nv, chosen := BuildNewView(vcSet);
      cs := chosen;
      if nv.None? {
        return None, cs;
      }
      var need := CheckIfNeedStateUpdate(nv.value, chosen.height, chosen.digest);
      if need {
        return None, cs;
      }
      StoreNewView(nv.value);
      return nv, cs;
    }

    /** The checkpoint and the list of a new view. */
    method BuildNewView(vcSet: seq<VcBasis>) returns (r: Option<NewViewMsg>, cs: CheckpointState)
      requires c.n >= 1 && forall i :: 0 <= i < |vcSet| ==> vcSet[i].view == view
      ensures r.None? ==> (forall x :: !Qualifies(c, vcSet, x)) || Assignment(c, vcSet, cs.height).None?
      ensures r.Some? ==> r.value == NewViewFor(c, vcSet, cs.height) && PassesCheck(c, view, r.value, cs)
    {
      var chosen := SelectInitialCheckpoint(c, vcSet);
      if chosen.None? {
        return None, CheckpointState(0, "", false);
      }
      cs := chosen.value;
      var msgList := AssignSequenceNumbers(c, vcSet, cs.height);
      if msgList.None? {
        return None, cs;
      }
      ListingPasses(c, view, vcSet, cs, msgList.value);
      r := Some(Listing(vcSet, cs.height, msgList.value));
    }

    /** The check of replicaCheckNewView: the checkpoint and the list are computed again from the bases of the
        new view, and the list it carries must be the same. */
    method RecheckNewView(vcSet: seq<VcBasis>, xset: seq<XEntry>) returns (ok: bool, cs: CheckpointState)
      requires c.n >= 1 && forall i :: 0 <= i < |vcSet| ==> vcSet[i].view == view
      ensures ok ==> PassesCheck(c, view, Listing(vcSet, cs.height, xset), cs) && Assignment(c, vcSet, cs.height) == Some(xset)
      ensures !ok ==> (forall x :: !Qualifies(c, vcSet, x))
                      || (IsInitialCheckpoint(c, vcSet, cs) && Assignment(c, vcSet, cs.height) != Some(xset))
    {
      var chosen := SelectInitialCheckpoint(c, vcSet);
      if chosen.None? {
        return false, CheckpointState(0, "", false);
      }
      cs := chosen.value;
      var msgList := AssignSequenceNumbers(c, vcSet, cs.height);
      if msgList.None? || |msgList.value| != |xset| {
        return false, cs;
      }
      for i := 0 to |xset|
        invariant msgList.value[..i] == xset[..i]
      {
        if msgList.value[i].n != xset[i].n || msgList.value[i].d != xset[i].d {
          return false, cs;
        }
      }
      assert msgList.value[..|xset|] == msgList.value && xset[..|xset|] == xset;
      ListingPasses(c, view, vcSet, cs, xset);
      ok := true;
    }

    method StoreNewView(nv: NewViewMsg)
      requires Valid()
      modifies this`newViewStore, this`hist
      ensures Valid() && Abs() == Announce(old(Abs()), nv)
    {
      AnnouncedConsistent(c, Abs(), committedCert, nv);
      newViewStore := newViewStore[view := nv];
      hist := hist.(newViews := hist.newViews + {Announcement(view, nv)});
    }

    /* ---------- checkpoints and watermarks ---------- */

    /** recvCheckpointBlockExecutedEvent: the report of the block being waited for ends the wait and
        leaves a local checkpoint; any other report is refused. */
    method HandleBlockExecuted(height: nat, digest: Digest)
      requires Valid()
      requires c.ckptAt(height) && height == lastExec ==> waiting
      modifies this`waiting, this`localCheckpoints
      ensures Valid()
      ensures Abs() == if c.ckptAt(height) && height == old(lastExec) then Report(old(Abs()), digest) else old(Abs())
      ensures c.ckptAt(height) && height == lastExec ==>
                && !waiting
                && localCheckpoints == if height in seqMap then old(localCheckpoints)[height := digest] else old(localCheckpoints)
      ensures !c.ckptAt(height) || height != lastExec ==> waiting == old(waiting) && localCheckpoints == old(localCheckpoints)
    {
      if c.ckptAt(height) && height == lastExec {
        waiting := false;
        if height in seqMap {
          localCheckpoints := localCheckpoints[height := digest];
        }
      }
    }

    /** Certificates up to n leave the stores for the cache of old ones. */
    method EvictUpTo(n: nat)
      modifies this`certStore, this`seqMap, this`committedCertCache, this`committedCert
      ensures EvictedSoFar(old(certStore), old(seqMap), old(committedCertCache), LowIds(old(certStore), n),
                           certStore, seqMap, committedCertCache)
      ensures committedCert == old(committedCert) - LowIds(old(certStore), n)
    {
      var todo := certStore.Keys;
      ghost var start := Evicting(certStore, seqMap, committedCertCache);
      ghost var order: seq<MsgId> := [];
      while todo != {}
        invariant todo <= start.certs.Keys
        invariant forall id :: id in order <==> id in start.certs && id !in todo && id.n <= n
        invariant Evicting(certStore, seqMap, committedCertCache) == EvictAll(start, order)
        invariant forall id :: id in committedCert <==> id in old(committedCert) && id !in order
        decreases |todo|
      {
        var idx :| idx in todo;
        todo := todo - {idx};
        if idx.n <= n {
          StillThere(start, order, idx);
          Evict(idx);
          committedCert := committedCert - {idx};
          order := order + [idx];
        }
      }
      EvictedAll(start, order, LowIds(start.certs, n));
      assert committedCert == old(committedCert) - LowIds(start.certs, n);
    }

    /** The cache of batches keeps those numbered above `target`. */
    method CleanBatches(target: nat)
      modifies this`batchStore
      ensures batchStore == map d | d in old(batchStore) && old(batchStore)[d] > target :: old(batchStore)[d]
    {
      var todo := batchStore.Keys;
      ghost var all := batchStore;
      while todo != {}
        invariant todo <= batchStore.Keys
        invariant batchStore == map d | d in all && (d in todo || all[d] > target) :: all[d]
        decreases |todo|
      {
        var d :| d in todo;
        todo := todo - {d};
        if batchStore[d] <= target {
          batchStore := batchStore - {d};
        }
      }
    }

    method CleanCheckpoints(n: nat)
      modifies this`checkpointStore
      ensures checkpointStore == map x | x in old(checkpointStore) && x.sequence > n :: old(checkpointStore)[x]
    {
      var todo := checkpointStore.Keys;
      ghost var all := checkpointStore;
      while todo != {}
        invariant todo <= checkpointStore.Keys
        invariant checkpointStore == map x | x in all && (x in todo || x.sequence > n) :: all[x]
        decreases |todo|
      {
        var x :| x in todo;
        todo := todo - {x};
        if x.sequence <= n {
          checkpointStore := checkpointStore - {x};
        }
      }
    }

    method CleanLocalCheckpoints(n: nat)
      modifies this`localCheckpoints
      ensures localCheckpoints == CkptsFrom(old(localCheckpoints), n)
    {
      var left := localCheckpoints.Keys;
      ghost var local := localCheckpoints;
      while left != {}
        invariant left <= localCheckpoints.Keys
        invariant localCheckpoints == map k | k in local && (k in left || k >= n) :: local[k]
        decreases |left|
      {
        var k :| k in left;
        left := left - {k};
        if k < n {
          localCheckpoints := localCheckpoints - {k};
        }
      }
    }

    method CleanQList(n: nat)
      modifies this`qlist
      ensures qlist == QAbove(old(qlist), n)
    {
      var todo := qlist.Keys;
      ghost var qs := qlist;
      while todo != {}
        invariant todo <= qlist.Keys
        invariant qlist == map x | x in qs && (x in todo || x.n > n) :: qs[x]
        decreases |todo|
      {
        var x :| x in todo;
        todo := todo - {x};
        if x.n <= n {
          qlist := qlist - {x};
        }
      }
    }

    method CleanPList(n: nat)
      modifies this`plist
      ensures plist == PAbove(old(plist), n)
    {
      var left := plist.Keys;
      ghost var ps := plist;
      while left != {}
        invariant left <= plist.Keys
        invariant plist == map k | k in ps && (k in left || k > n) :: ps[k]
        decreases |left|
      {
        var k :| k in left;
        left := left - {k};
        if k <= n {
          plist := plist - {k};
        }
      }
    }

    /** The part of moveWatermarks on certificates: every certificate up to n that is not too old
        stays available in the cache. */
    method MoveCertificates(n: nat)
      modifies this`certStore, this`seqMap, this`committedCertCache, this`committedCert
      ensures certStore == CertsAbove(old(certStore), n)
      ensures seqMap == old(seqMap) - NumbersUpTo(old(certStore), n)
      ensures committedCert == set id | id in old(committedCert) && !(id in old(certStore) && id.n <= n)
      ensures CachedFrom(old(committedCertCache), CertsUpTo(old(certStore), n), n, committedCertCache)
    {
      MovedIsAbove(certStore, seqMap, n);
      EvictUpTo(n);
      CleanCommittedCertCache(n);
    }

    method MoveStores(n: nat)
      requires period >= 1
      modifies this`batchStore, this`checkpointStore, this`localCheckpoints, this`plist, this`qlist, this`h
      ensures h == n && plist == PAbove(old(plist), n) && qlist == QAbove(old(qlist), n)
      ensures localCheckpoints == CkptsFrom(old(localCheckpoints), n)
      ensures checkpointStore == map x | x in old(checkpointStore) && x.sequence > n :: old(checkpointStore)[x]
      ensures batchStore == map d | d in old(batchStore) && old(batchStore)[d] > RetainTarget(n, period, cacheNumber)
                            :: old(batchStore)[d]
    {
      CleanBatches(RetainTarget(n, period, cacheNumber));
      CleanCheckpoints(n);
      CleanLocalCheckpoints(n);
      CleanQList(n);
      CleanPList(n);
      h := n;
    }

    /** moveWatermarks. */
    method MoveWatermarksTo(n: nat)
      requires Valid()
      modifies this`certStore, this`seqMap, this`committedCertCache, this`committedCert, this`batchStore,
               this`checkpointStore, this`localCheckpoints, this`plist, this`qlist, this`h
      ensures Valid()
      ensures Abs() == MoveWatermarks(old(Abs()), n)
      ensures old(h) <= n ==> checkpointStore == map x | x in old(checkpointStore) && x.sequence > n :: old(checkpointStore)[x]
      ensures old(h) > n ==> checkpointStore == old(checkpointStore) && batchStore == old(batchStore)
                             && committedCertCache == old(committedCertCache) && h == old(h)
      ensures old(h) <= n ==> CachedFrom(old(committedCertCache), CertsUpTo(old(certStore), n), n, committedCertCache)
      ensures old(h) <= n ==> forall id :: id in old(certStore) && id.n <= n <= id.n + cacheNumber ==>
                id in committedCertCache && committedCertCache[id] == old(certStore)[id]
      ensures old(h) <= n ==> batchStore == map d | d in old(batchStore) && old(batchStore)[d] > RetainTarget(n, period, cacheNumber)
                            :: old(batchStore)[d]
    {
      if h > n {
        return;
      }
      MoveConsistent(c, Abs(), committedCert, n);
      MoveUp(n);
    }

    method MoveUp(n: nat)
      requires period >= 1 && h <= n
      modifies this`certStore, this`seqMap, this`committedCertCache, this`committedCert, this`batchStore,
               this`checkpointStore, this`localCheckpoints, this`plist, this`qlist, this`h
      ensures Abs() == MoveWatermarks(old(Abs()), n) && committedCert == old(committedCert) - LowIds(old(certStore), n)
      ensures checkpointStore == map x | x in old(checkpointStore) && x.sequence > n :: old(checkpointStore)[x]
      ensures CachedFrom(old(committedCertCache), CertsUpTo(old(certStore), n), n, committedCertCache)
      ensures batchStore == map d | d in old(batchStore) && old(batchStore)[d] > RetainTarget(n, period, cacheNumber)
                            :: old(batchStore)[d]
    {
      ghost var s := Abs();
      MoveCertificates(n);
      MoveStores(n);
      SameMove(s, Abs(), n);
    }

    /* ---------- entering a new view ---------- */

    /** checkIfNeedStateUpdate: a replica that holds the base checkpoint raises its low watermark; one
        that differs from it or has not executed so far must update its state. */
    method CheckIfNeedStateUpdate(ghost nv: NewViewMsg, base: nat, digest: Digest) returns (need: bool)
      requires Valid() && inViewChange && base == nv.base
      modifies this`certStore, this`seqMap, this`committedCertCache, this`committedCert, this`batchStore,
               this`checkpointStore, this`localCheckpoints, this`plist, this`qlist, this`h
      ensures Valid()
      ensures need == !CanEnter(old(Abs()), nv, digest)
      ensures Abs() == if need then old(Abs()) else Raise(old(Abs()), nv)
      ensures need <==> if old(h) < base && base in old(localCheckpoints) then old(localCheckpoints)[base] != digest
                        else lastExec < base
      ensures h == if !need && old(h) < base && base in old(localCheckpoints) then base else old(h)
    {
      if h < base && base in localCheckpoints {
        if localCheckpoints[base] == digest {
          MoveWatermarksTo(base);
          return false;
        }
        return true;
      }
      return lastExec < base;
    }

    /** The first loop of processNewView. The batches of the list are here. */
    method PrePrepareAll(msgs: seq<XEntry>) returns (maxN: nat)
      requires Valid() && !inViewChange
      requires forall i :: 0 <= i < |msgs| ==> msgs[i].d == NULL_REQUEST || msgs[i].d in batchStore
      modifies this`certStore, this`hist, this`seqMap
      ensures Valid() && Abs() == AcceptAll(old(Abs()), IdsOf(view, msgs))
      ensures maxN == MaxListed(msgs, h, lastExec)
    {
      maxN := lastExec;
      ghost var s := Abs();
      ghost var ids := IdsOf(view, msgs);
      for i := 0 to |msgs|
        invariant Valid() && !inViewChange && Abs() == AcceptAll(s, ids[..i])
        invariant maxN == MaxListed(msgs[..i], h, lastExec)
      {
        AcceptMore(s, ids, i);
        MaxMore(msgs, i, h, lastExec);
        maxN := PrePrepareListed(msgs[i], maxN);
      }
      assert ids[..|msgs|] == ids && msgs[..|msgs|] == msgs;
    }

    /** One round of the first loop. */
    method PrePrepareListed(x: XEntry, maxN: nat) returns (m: nat)
      requires Valid() && !inViewChange
      modifies this`certStore, this`hist, this`seqMap
      ensures Valid() && Abs() == AcceptAbove(old(Abs()), MsgId(view, x.n, x.d))
      ensures m == if x.n > h && x.n > maxN then x.n else maxN
    {
      m := maxN;
      if x.n > h {
        AcceptPrePrepare(MsgId(view, x.n, x.d));
        if x.n > maxN {
          m := x.n;
        }
      }
    }

    /** The repeated commit of the second loop. */
    method ResendCommit(id: MsgId) returns (ghost ids: seq<MsgId>)
      requires Valid() && id in certStore
      modifies this`executed, this`lastExec, this`waiting, this`certStore, this`committedCert, this`hist
      ensures Valid()
      ensures CommitResent(c, self, batchStore.Keys, old(Abs()), id, ids, Abs())
    {
      ids := [];
      if id.n > lastExec {
        return;
      }
      RecommitConsistent(c, Abs(), committedCert, id);
      if !certStore[id].sentCommit {
        certStore := certStore[id := certStore[id].(sentCommit := true)];
        hist := hist.(commits := hist.commits + {CommitMsg(id, h)});
      }
      ids := HandleCommit(self, id);
    }

    /** One round of the second loop. */
    method Resend(id: MsgId)
      requires Valid() && (id.n > h ==> id in certStore)
      modifies this`executed, this`lastExec, this`waiting, this`certStore, this`committedCert, this`hist
      ensures Valid()
      ensures Resent(c, self, batchStore.Keys, old(Abs()), id, Abs())
      ensures Stays(old(Abs()), Abs())
    {
      if id.n <= h {
        return;
      }
      ghost var s := Abs();
      ghost var a: seq<MsgId> := [];
      if self != c.Primary(view) {
        a := SendPrepare(id);
        PrepareStays(c, self, batchStore.Keys, s, id, a, Abs());
      }
      ghost var u := Abs();
      assert PrepareResent(c, self, batchStore.Keys, s, id, a, u) && id in u.certs;
      ghost var b := ResendCommit(id);
      ResentStays(c, self, batchStore.Keys, s, id, Abs());
    }

    /** The second loop of processNewView. */
    method ResendAll(msgs: seq<XEntry>)
      requires Valid()
      requires forall i :: 0 <= i < |msgs| && msgs[i].n > h ==> MsgId(view, msgs[i].n, msgs[i].d) in certStore
      modifies this`executed, this`lastExec, this`waiting, this`certStore, this`committedCert, this`hist
      ensures Valid()
      ensures AllResent(c, self, batchStore.Keys, old(Abs()), IdsOf(view, msgs), Abs())
    {
      ghost var s := Abs();
      ghost var ids := IdsOf(view, msgs);
      for i := 0 to |msgs|
        invariant Valid() && Stays(s, Abs())
        invariant AllResent(c, self, batchStore.Keys, s, ids[..i], Abs())
      {
        ghost var mid := Abs();
        assert ids[i] == MsgId(view, msgs[i].n, msgs[i].d);
        Resend(MsgId(view, msgs[i].n, msgs[i].d));
        StaysTrans(s, mid, Abs());
        MoreResent(c, self, batchStore.Keys, s, ids, i, mid, Abs());
      }
      assert ids[..|msgs|] == ids;
    }

    /** resetStateForNewView with processNewView: the pending set is cleared, the list is
        pre-prepared, and then prepared and committed again as far as it was executed. */
    method EnterNewView(ghost nv: NewViewMsg, msgs: seq<XEntry>)
      requires Valid() && inViewChange && IsListing(nv, msgs) && nv.base <= h <= lastExec
      requires forall i :: 0 <= i < |msgs| ==> msgs[i].d == NULL_REQUEST || msgs[i].d in batchStore
      modifies this`executed, this`lastExec, this`waiting, this`certStore, this`committedCert, this`hist,
               this`seqMap, this`seqNo, this`inViewChange
      ensures Valid()
      ensures AllResent(c, self, batchStore.Keys, ProcessNewView(c, self, old(Abs()), nv), IdsOf(old(view), msgs), Abs())
      ensures !inViewChange && view == old(view) && h == old(h)
      ensures forall i :: 0 <= i < |msgs| && msgs[i].n > h ==>
                var id := MsgId(view, msgs[i].n, msgs[i].d);
                && id in certStore && certStore[id].prePrepared
                && (self != c.Primary(view) ==> certStore[id].sentPrepare)
                && (id.n <= old(lastExec) ==> certStore[id].sentCommit)
    {
      StartNewView(nv, msgs);
      ghost var entered := Abs();
      forall i: nat | i < |msgs| && msgs[i].n > h ensures MsgId(view, msgs[i].n, msgs[i].d) in certStore {
        ListedCerts(c, self, old(Abs()), nv, msgs, i);
      }
      ResendAll(msgs);
      AllResentDone(c, self, batchStore.Keys, entered, IdsOf(view, msgs), Abs());
      forall i | 0 <= i < |msgs| && msgs[i].n > h
        ensures ResendDone(c, self, h, old(lastExec), MsgId(view, msgs[i].n, msgs[i].d), Abs())
      {
        assert IdsOf(view, msgs)[i] == MsgId(view, msgs[i].n, msgs[i].d);
      }
    }

    method StartNewView(ghost nv: NewViewMsg, msgs: seq<XEntry>)
      requires Valid() && inViewChange && IsListing(nv, msgs) && nv.base <= h <= lastExec
      requires forall i :: 0 <= i < |msgs| ==> msgs[i].d == NULL_REQUEST || msgs[i].d in batchStore
      modifies this`certStore, this`committedCert, this`hist, this`seqMap, this`seqNo, this`inViewChange
      ensures Valid()
      ensures Abs() == ProcessNewView(c, self, old(Abs()), nv)
    {
      ghost var s := Abs();
      ClearPending();
      var maxN := PrePrepareAll(msgs);
      ghost var u := Abs();
      HistoryConsistent(c, u, committedCert, u.(seqNo := maxN, hist := EnteredHistory(c, self, s, nv, u.hist)));
      NextNumber(nv.base, msgs, h, lastExec);
      seqNo := maxN;
      hist := EnteredHistory(c, self, s, nv, hist);
      FirstLoopDone(c, self, s, nv, msgs, maxN, u, Abs());
    }

    method ClearPending()
      requires Valid() && inViewChange
      modifies this`committedCert, this`seqNo, this`inViewChange
      ensures Valid()
      ensures Abs() == old(Abs()).(inViewChange := false, seqNo := lastExec)
    {
      ClearConsistent(c, Abs(), committedCert, lastExec);
      committedCert := {};
      seqNo := lastExec;
      inViewChange := false;
    }

    /* ---------- the primary ---------- */

    /** existedDigest. */
    method FindExistedDigest(id: MsgId) returns (existed: bool)
      ensures existed == ExistedDigest(Abs(), id)
    {
      var todo := certStore.Keys;
      while todo != {}
        invariant todo <= certStore.Keys
        invariant forall o :: o in certStore && o !in todo ==>
                    !(certStore[o].prePrepared && o.v == id.v && o.n != id.n && o.d == id.d && id.d != NULL_REQUEST)
        decreases |todo|
      {
        var o :| o in todo;
        todo := todo - {o};
        if certStore[o].prePrepared && o.v == id.v && o.n != id.n && o.d == id.d && id.d != NULL_REQUEST {
          return true;
        }
      }
      return false;
    }

    /** sendPrePrepare. */
    method SendPrePrepare(id: MsgId)
      requires Valid() && id == NextId(Abs(), id.d) && h <= seqNo && !inViewChange
      modifies this`certStore, this`seqMap, this`seqNo, this`hist, this`batchStore
      ensures Valid() && Abs() == Propose(old(Abs()), id)
      ensures batchStore == old(batchStore)[id.d := id.n]
    {
      ProposeIsAccept(c, Abs(), committedCert, id);
      batchStore := batchStore[id.d := id.n];
      AcceptPrePrepare(id);
      ghost var t := Abs();
      seqNo := id.n;
      hist := hist.(proposals := hist.proposals + {id});
      assert Abs() == t.(seqNo := id.n, hist := t.hist.(proposals := t.hist.proposals + {id}));
    }

    /** Proposes a batch under the next number, unless it already has one in this view. */
    method ProposeNext(d: Digest) returns (existed: bool)
      requires Valid() && h <= seqNo && !inViewChange
      modifies this`certStore, this`seqMap, this`seqNo, this`hist, this`batchStore
      ensures Valid()
      ensures existed == ExistedDigest(old(Abs()), NextId(old(Abs()), d))
      ensures Abs() == if existed then old(Abs()) else Propose(old(Abs()), NextId(old(Abs()), d))
      ensures batchStore == if existed then old(batchStore) else old(batchStore)[d := old(seqNo) + 1]
    {
      var id := MsgId(view, seqNo + 1, d);
      existed := FindExistedDigest(id);
      if !existed {
        SendPrePrepare(id);
      }
    }

    /** maybeSendPrePrepare with findCache set: proposes from the cache of batches. */
    method SendCached()
      requires Valid() && h <= seqNo && cacheBatch != [] && !inViewChange
      modifies this`certStore, this`seqMap, this`seqNo, this`hist, this`batchStore, this`cacheBatch
      ensures Valid()
      ensures waiting ==> Abs() == old(Abs()) && cacheBatch == old(cacheBatch)
      ensures !waiting ==>
                && Abs() == ProposeAll(old(Abs()), old(cacheBatch)[..ProposedCount(c, old(Abs()), old(cacheBatch), epochEnd)])
                && cacheBatch == LeftOver(c, old(Abs()), old(cacheBatch), epochEnd)
      decreases |cacheBatch|
    {
      if waiting || seqNo + 1 > h + c.l || seqNo + 1 > epochEnd {
        return;
      }
      ghost var s, queue := Abs(), cacheBatch;
      var d := cacheBatch[0];
      cacheBatch := cacheBatch[1..];
      var existed := ProposeNext(d);
      if existed {
        return;
      }
      ProposeOne(c, s, queue, epochEnd);
      if seqNo + 1 <= h + c.l && seqNo + 1 <= epochEnd && |cacheBatch| > 0 {
        SendCached();
      }
    }

    /** maybeSendPrePrepare for a new batch. Outside the window the batch waits in the cache, and at
        the end of the epoch it goes back to the request pool. */
    method MaybeSendPrePrepare(d: Digest) returns (restored: bool)
      requires Valid() && h <= seqNo && !inViewChange
      modifies this`certStore, this`seqMap, this`seqNo, this`hist, this`batchStore, this`cacheBatch
      ensures Valid()
      ensures restored == (!waiting && old(seqNo) >= epochEnd)
      ensures waiting || old(seqNo) >= h + c.l || old(seqNo) >= epochEnd ==>
                Abs() == old(Abs())
                && cacheBatch == old(cacheBatch) + (if waiting || restored then [] else [d])
      ensures !waiting && old(seqNo) < h + c.l && old(seqNo) < epochEnd ==>
                var queue := [d] + old(cacheBatch);
                Abs() == ProposeAll(old(Abs()), queue[..ProposedCount(c, old(Abs()), queue, epochEnd)])
                && cacheBatch == LeftOver(c, old(Abs()), queue, epochEnd)
    {
      restored := false;
      if waiting {
        return;
      }
      if seqNo + 1 > h + c.l || seqNo + 1 > epochEnd {
        if seqNo >= epochEnd {
          return true;
        }
        cacheBatch := cacheBatch + [d];
        return;
      }
      ghost var s, queue := Abs(), [d] + cacheBatch;
      assert queue[1..] == cacheBatch;
      var existed := ProposeNext(d);
      if existed {
        return;
      }
      ProposeOne(c, s, queue, epochEnd);
      if seqNo + 1 <= h + c.l && seqNo + 1 <= epochEnd && |cacheBatch| > 0 {
        SendCached();
      }
    }
  }
}
