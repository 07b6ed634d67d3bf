/** Moving the low watermark, changing view and entering a new view keep the invariants of an
    honest replica. */
module ReplicaViewKeeps {
  import opened Quorum
  import opened NewView
  import opened Replica
  import opened ReplicaInv
  import opened ReplicaKeeps

  /* ---------- low watermark ---------- */

  lemma MoveCerts(s: Node, n: nat)
    requires CertInv(s) && AcceptInv(s) && s.h <= n
    ensures CertInv(MoveWatermarks(s, n)) && AcceptInv(MoveWatermarks(s, n))
  {
  }

  lemma MoveLists(c: Config, s: Node, n: nat)
    requires c.n >= 1 && PInv(c, s) && QInv(s) && s.h <= n
    ensures PInv(c, MoveWatermarks(s, n)) && QInv(MoveWatermarks(s, n))
  {
    var t := MoveWatermarks(s, n);
    forall id | id in t.hist.prepared && id.n > t.h && id.v == t.view ensures Prepared(c, t.certs, id) {
      assert Prepared(c, s.certs, id);
      assert t.certs[id] == s.certs[id];
    }
  }

  lemma MoveRuns(c: Config, s: Node, n: nat)
    requires ExecInv(c, s) && !s.waiting && n in s.ckpts
    ensures ExecInv(c, MoveWatermarks(s, n))
  {
  }

  lemma MoveWatermarksKeeps(c: Config, r: nat, s: Node, n: nat)
    requires NodeInv(c, r, s) && !s.waiting && n in s.ckpts
    ensures NodeInv(c, r, MoveWatermarks(s, n))
  {
    var t := MoveWatermarks(s, n);
    MoveCerts(s, n);
    MoveLists(c, s, n);
    MoveRuns(c, s, n);
    CommitFramed(s, t);
    PrepareFramed(c, r, s, t);
    EnterFramed(s, t);
    AssignedFramed(s, t);
    PrimaryFramed(c, r, s, t);
    BasesFramed(c, r, s, t);
  }

  /* ---------- changing view ---------- */

  lemma ChangeLists(c: Config, s: Node, w: nat, p: map<nat, PEntry>, q: map<QIdx, nat>)
    requires c.n >= 1 && CertInv(s) && AcceptInv(s) && PInv(c, s) && QInv(s) && CanChangeView(c, s, w, p, q)
    ensures PInv(c, StartViewChange(c, s, w, p, q)) && QInv(StartViewChange(c, s, w, p, q))
  {
    var t := StartViewChange(c, s, w, p, q);
    forall n | n in t.plist ensures n > t.h && t.plist[n].v < t.view && MsgId(t.plist[n].v, n, t.plist[n].d) in t.hist.prepared {
      var id := MsgId(p[n].v, n, p[n].d);
      assert (id in s.certs && Prepared(c, s.certs, id)) || (n in s.plist && s.plist[n] == p[n]);
    }
    forall id | id in t.hist.prepared && id.n > t.h && id.v < t.view ensures id.n in t.plist && Covers(t.plist[id.n], id) {
      PCoverStep(c, s, w, p, q, id);
    }
    QCoverStep(c, s, w, p, q);
  }

  lemma PCoverStep(c: Config, s: Node, w: nat, p: map<nat, PEntry>, q: map<QIdx, nat>, id: MsgId)
    requires c.n >= 1 && CertInv(s) && AcceptInv(s) && PInv(c, s) && CanChangeView(c, s, w, p, q)
    requires id in StartViewChange(c, s, w, p, q).hist.prepared && id.n > s.h && id.v < w
    ensures id.n in p && Covers(p[id.n], id)
  {
    var e := MsgId(p[id.n].v, id.n, p[id.n].d);
    if id.v == s.view {
      assert Prepared(c, s.certs, id);
      assert id in s.hist.accepted;
      if e in s.certs && Prepared(c, s.certs, e) {
        assert e in s.hist.accepted;
      }
    } else {
      assert id in s.hist.prepared;
      if e in s.certs && Prepared(c, s.certs, e) {
        assert e.v == s.view;
      }
    }
  }

  lemma QCoverStep(c: Config, s: Node, w: nat, p: map<nat, PEntry>, q: map<QIdx, nat>)
    requires c.n >= 1 && CertInv(s) && AcceptInv(s) && QInv(s) && CanChangeView(c, s, w, p, q)
    ensures QInv(StartViewChange(c, s, w, p, q))
  {
    forall id | id in s.hist.accepted && id.n > s.h && id.v < w ensures QIdx(id.n, id.d) in q && q[QIdx(id.n, id.d)] >= id.v {
      QCover(s, w, q, id);
    }
    forall x | x in q ensures x.n > s.h && q[x] < w && MsgId(q[x], x.n, x.d) in s.hist.accepted {
      QGenuine(s, w, q, x);
    }
  }

  lemma QCover(s: Node, w: nat, q: map<QIdx, nat>, id: MsgId)
    requires AcceptInv(s) && QInv(s) && IsQSet(s.qlist, s.certs, q)
    requires id in s.hist.accepted && id.n > s.h && id.v < w
    ensures QIdx(id.n, id.d) in q && q[QIdx(id.n, id.d)] >= id.v
  {
    if id.v == s.view {
      assert id in s.certs && s.certs[id].prePrepared;
    } else {
      assert QIdx(id.n, id.d) in s.qlist;
    }
  }

  lemma QGenuine(s: Node, w: nat, q: map<QIdx, nat>, x: QIdx)
    requires CertInv(s) && QInv(s) && IsQSet(s.qlist, s.certs, q) && x in q
    requires w > s.view || (w == s.view && s.inViewChange)
    ensures x.n > s.h && q[x] < w && MsgId(q[x], x.n, x.d) in s.hist.accepted
  {
    var id := MsgId(q[x], x.n, x.d);
    if id in s.certs && s.certs[id].prePrepared {
      assert id in s.hist.accepted;
    } else {
      assert x in s.qlist;
    }
  }

  lemma ChangeCerts(c: Config, r: nat, s: Node, w: nat, p: map<nat, PEntry>, q: map<QIdx, nat>)
    requires c.n >= 1 && CertInv(s) && AcceptInv(s) && EnterInv(s) && AssignedInv(s) && PrimaryInv(c, r, s)
    requires CanChangeView(c, s, w, p, q)
    ensures var t := StartViewChange(c, s, w, p, q);
            CertInv(t) && AcceptInv(t) && EnterInv(t) && AssignedInv(t) && PrimaryInv(c, r, t)
  {
  }

  lemma ChangeSent(c: Config, r: nat, s: Node, w: nat, p: map<nat, PEntry>, q: map<QIdx, nat>)
    requires c.n >= 1 && CertInv(s) && CommitInv(s) && PrepareInv(c, r, s) && ExecInv(c, s) && !s.waiting
    requires CanChangeView(c, s, w, p, q)
    ensures var t := StartViewChange(c, s, w, p, q);
            CommitInv(t) && PrepareInv(c, r, t) && ExecInv(c, t) && Extends(s, t)
  {
  }

  lemma StartViewChangeKeeps(c: Config, r: nat, s: Node, w: nat, p: map<nat, PEntry>, q: map<QIdx, nat>)
    requires NodeInv(c, r, s) && !s.waiting && CanChangeView(c, s, w, p, q)
    ensures NodeInv(c, r, StartViewChange(c, s, w, p, q))
  {
    ChangeCerts(c, r, s, w, p, q);
    ChangeLists(c, s, w, p, q);
    ChangeSent(c, r, s, w, p, q);
    BasesFramed(c, r, s, StartViewChange(c, s, w, p, q));
  }

  lemma GatheredCovers(c: Config, s: Node, b: VcBasis, id: MsgId)
    requires Gathers(s, b) && b.h == s.h && b.view == s.view && id.v < b.view && id.n > b.h
    ensures c.n >= 1 && PInv(c, s) && id in s.hist.prepared ==> PCovered(b, id)
    ensures QInv(s) && id in s.hist.accepted ==> QCovered(b, id)
  {
    if c.n >= 1 && PInv(c, s) && id in s.hist.prepared {
      var e := VcPq(id.n, s.plist[id.n].d, s.plist[id.n].v);
      assert e in b.pset;
      var i :| 0 <= i < |b.pset| && b.pset[i] == e;
      assert Covers(PEntry(b.pset[i].v, b.pset[i].d), id);
    }
    if QInv(s) && id in s.hist.accepted {
      var e := VcPq(id.n, id.d, s.qlist[QIdx(id.n, id.d)]);
      assert e in b.qset;
      var i :| 0 <= i < |b.qset| && b.qset[i] == e;
      assert Backs(b.qset[i], VcPq(id.n, id.d, id.v));
    }
  }

  lemma NewBasisInv(c: Config, r: nat, s: Node, b: VcBasis)
    requires c.n >= 1 && PInv(c, s) && QInv(s) && CommitInv(s) && PrepareInv(c, r, s) && ExecInv(c, s)
    requires AssignedInv(s) && IsBasisOf(r, s, b)
    ensures BasisInv(c, r, s, b)
  {
    forall id | id in s.hist.prepared && id.v < b.view && id.n > b.h ensures PCovered(b, id) {
      GatheredCovers(c, s, b, id);
    }
    forall id | id in s.hist.accepted && id.v < b.view && id.n > b.h ensures QCovered(b, id) {
      GatheredCovers(c, s, b, id);
    }
  }

  lemma SendBasisFrames(c: Config, r: nat, s: Node, b: VcBasis)
    requires NodeInv(c, r, s) && IsBasisOf(r, s, b)
    ensures BasesInv(c, r, SendBasis(s, b))
  {
    var t := SendBasis(s, b);
    NewBasisInv(c, r, s, b);
    forall x | x in t.hist.bases ensures BasisInv(c, r, t, x) {
      BasisFramed(c, r, s, t, x);
    }
  }

  /** Sending a basis or a new view changes nothing else. */
  lemma SendsKeep(c: Config, r: nat, s: Node, t: Node)
    requires NodeInv(c, r, s) && BasesInv(c, r, t) && forall x :: x in t.hist.newViews ==> x.v > 0
    requires t == s.(newViewStore := t.newViewStore, hist := s.hist.(bases := t.hist.bases, newViews := t.hist.newViews))
    ensures NodeInv(c, r, t)
  {
    VotesKeepCerts(s, t.(hist := s.hist));
    RanFramed(s, t);
    PFramed(c, s, t);
    QFramed(s, t);
    CommitFramed(s, t);
    PrepareFramed(c, r, s, t);
    ExecFramed(c, s, t);
    EnterFramed(s, t);
    AssignedFramed(s, t);
    PrimaryFramed(c, r, s, t);
  }

  lemma SendBasisKeeps(c: Config, r: nat, s: Node, b: VcBasis)
    requires NodeInv(c, r, s) && IsBasisOf(r, s, b)
    ensures NodeInv(c, r, SendBasis(s, b))
  {
    var t := SendBasis(s, b);
    SendBasisFrames(c, r, s, b);
    SendsKeep(c, r, s, t);
  }

  lemma AnnounceKeeps(c: Config, r: nat, s: Node, nv: NewViewMsg)
    requires NodeInv(c, r, s) && CanAnnounce(c, r, s)
    ensures NodeInv(c, r, Announce(s, nv))
  {
    BasesFramed(c, r, s, Announce(s, nv));
    SendsKeep(c, r, s, Announce(s, nv));
  }

  /* ---------- entering a view ---------- */

  ghost predicate Rebuilds(c: Config, s: Node, nv: NewViewMsg) {
    c.n >= 1 && s.inViewChange && Gapless(nv)
  }

  lemma RebuiltSeqMap(c: Config, r: nat, s: Node, nv: NewViewMsg, id: MsgId)
    requires Rebuilds(c, s, nv) && id.v == s.view && id.n > s.h && Assigns(nv, id)
    ensures var t := ProcessNewView(c, r, s, nv); id.n in t.seqMap && t.seqMap[id.n] == id.d
  {
  }

  lemma RebuildCerts(c: Config, r: nat, s: Node, nv: NewViewMsg)
    requires Rebuilds(c, s, nv) && CertInv(s)
    ensures CertInv(ProcessNewView(c, r, s, nv))
  {
    var t := ProcessNewView(c, r, s, nv);
    forall id | id in t.certs ensures id.v == t.view && id.n > t.h {
      RebuiltPlace(c, r, s, nv, id);
    }
    forall id | id in t.certs && t.certs[id].prePrepared
      ensures id in t.hist.accepted && id.n in t.seqMap && t.seqMap[id.n] == id.d
    {
      RebuiltPrePrepared(c, r, s, nv, id);
    }
  }

  lemma RebuiltPlace(c: Config, r: nat, s: Node, nv: NewViewMsg, id: MsgId)
    requires Rebuilds(c, s, nv) && CertInv(s) && id in ProcessNewView(c, r, s, nv).certs
    ensures id.v == s.view && id.n > s.h
  {
    var ids := NewIds(s.view, nv, s.h);
    assert id in s.certs || id in ids;
  }

  lemma RebuiltPrePrepared(c: Config, r: nat, s: Node, nv: NewViewMsg, id: MsgId)
    requires Rebuilds(c, s, nv) && CertInv(s)
    requires var t := ProcessNewView(c, r, s, nv); id in t.certs && t.certs[id].prePrepared
    ensures var t := ProcessNewView(c, r, s, nv);
            id in t.hist.accepted && id.n in t.seqMap && t.seqMap[id.n] == id.d
  {
    assert id in NewIds(s.view, nv, s.h);
    RebuiltSeqMap(c, r, s, nv, id);
  }

  lemma RebuildAccepts(c: Config, r: nat, s: Node, nv: NewViewMsg)
    requires Rebuilds(c, s, nv) && AcceptInv(s)
    ensures AcceptInv(ProcessNewView(c, r, s, nv))
  {
    var t := ProcessNewView(c, r, s, nv);
    forall a, b | a in t.hist.accepted && b in t.hist.accepted && a.v == b.v && a.n == b.n ensures a.d == b.d {
      if a.v == s.view {
        assert a in NewIds(s.view, nv, s.h) && b in NewIds(s.view, nv, s.h);
      } else {
        assert a in s.hist.accepted && b in s.hist.accepted;
      }
    }
    forall id | id in t.hist.accepted && id.v == t.view && id.n > t.h ensures id in t.certs && t.certs[id].prePrepared {
      assert id in NewIds(s.view, nv, s.h);
    }
  }

  lemma RebuildLists(c: Config, r: nat, s: Node, nv: NewViewMsg)
    requires Rebuilds(c, s, nv) && AcceptInv(s) && PInv(c, s) && QInv(s)
    ensures PInv(c, ProcessNewView(c, r, s, nv)) && QInv(ProcessNewView(c, r, s, nv))
  {
  }

  lemma RebuildCommits(c: Config, r: nat, s: Node, nv: NewViewMsg)
    requires Rebuilds(c, s, nv) && CommitInv(s) && ExecInv(c, s)
    ensures CommitInv(ProcessNewView(c, r, s, nv))
  {
  }

  lemma RebuildRuns(c: Config, r: nat, s: Node, nv: NewViewMsg)
    requires Rebuilds(c, s, nv) && ExecInv(c, s)
    ensures ExecInv(c, ProcessNewView(c, r, s, nv))
  {
    var t := ProcessNewView(c, r, s, nv);
    assert forall n :: n in s.seqMap ==> n in t.seqMap.Keys;
  }

  lemma RebuildPrepares(c: Config, r: nat, s: Node, nv: NewViewMsg)
    requires Rebuilds(c, s, nv) && AcceptInv(s) && PrepareInv(c, r, s) && EnterInv(s)
    ensures PrepareInv(c, r, ProcessNewView(c, r, s, nv))
  {
  }

  lemma RebuildEnters(c: Config, r: nat, s: Node, nv: NewViewMsg)
    requires Rebuilds(c, s, nv) && AcceptInv(s) && EnterInv(s)
    ensures EnterInv(ProcessNewView(c, r, s, nv))
  {
  }

  lemma RebuildAssigned(c: Config, r: nat, s: Node, nv: NewViewMsg)
    requires Rebuilds(c, s, nv) && AssignedInv(s)
    ensures AssignedInv(ProcessNewView(c, r, s, nv))
  {
    var t := ProcessNewView(c, r, s, nv);
    forall id: MsgId | AssignedTo(t, id) ensures id in t.hist.accepted || id.n <= t.h {
      if id.v == s.view {
        assert id.n > s.h ==> id in NewIds(s.view, nv, s.h);
      } else {
        assert AssignedTo(s, id);
      }
    }
  }

  lemma RebuildPrimary(c: Config, r: nat, s: Node, nv: NewViewMsg)
    requires Rebuilds(c, s, nv) && CertInv(s) && AcceptInv(s) && EnterInv(s) && PrimaryInv(c, r, s)
    ensures PrimaryInv(c, r, ProcessNewView(c, r, s, nv))
  {
  }

  lemma RebuildExtends(c: Config, r: nat, s: Node, nv: NewViewMsg)
    requires Rebuilds(c, s, nv)
    ensures Extends(s, ProcessNewView(c, r, s, nv))
  {
  }

  lemma RebuildOwn(c: Config, r: nat, s: Node, nv: NewViewMsg)
    requires Rebuilds(c, s, nv) && OwnInv(r, s) && ExecInv(c, s)
    ensures OwnInv(r, ProcessNewView(c, r, s, nv)) && RanInv(ProcessNewView(c, r, s, nv))
  {
  }

  lemma RebuildKeeps(c: Config, r: nat, s: Node, nv: NewViewMsg)
    requires NodeInv(c, r, s) && Rebuilds(c, s, nv)
    ensures NodeInv(c, r, ProcessNewView(c, r, s, nv))
  {
    RebuildCerts(c, r, s, nv);
    RebuildAccepts(c, r, s, nv);
    RebuildLists(c, r, s, nv);
    RebuildCommits(c, r, s, nv);
    RebuildRuns(c, r, s, nv);
    RebuildPrepares(c, r, s, nv);
    RebuildEnters(c, r, s, nv);
    RebuildAssigned(c, r, s, nv);
    RebuildPrimary(c, r, s, nv);
    RebuildExtends(c, r, s, nv);
    RebuildOwn(c, r, s, nv);
    BasesFramed(c, r, s, ProcessNewView(c, r, s, nv));
  }

  /** A replica that has executed a checkpoint height and is not waiting for its report holds
      the local checkpoint: entering a view never leaves the low watermark below the base. */
  lemma RaiseReachesBase(c: Config, s: Node, nv: NewViewMsg, digest: Digest)
    requires ExecInv(c, s) && !s.waiting && CanEnter(s, nv, digest)
    requires c.ckptAt(nv.base)
    ensures s.h < nv.base ==> nv.base in s.ckpts
    ensures Raise(s, nv).h >= nv.base
  {
  }

  lemma EnterKeeps(c: Config, r: nat, s: Node, nv: NewViewMsg, digest: Digest)
    requires NodeInv(c, r, s) && !s.waiting && CanEnter(s, nv, digest) && Gapless(nv)
    ensures NodeInv(c, r, Enter(c, r, s, nv))
  {
    if s.h < nv.base && nv.base in s.ckpts {
      MoveWatermarksKeeps(c, r, s, nv.base);
    }
    RebuildKeeps(c, r, Raise(s, nv), nv);
  }
}
