/** Entering a new view, handler by handler: the first loop of processNewView pre-prepares what the
    new view assigns, the second one sends the prepares and repeats commits, each of which may
    trigger further commits and executions. */
module NewViewHandlers {
  import opened Quorum
  import opened NewView
  import opened Replica
  import opened Handlers
  import opened Protocol

  /* ---------- the list of a new view ---------- */

  /** The list a new view carries, as numbers and digests. */
  ghost predicate IsListing(nv: NewViewMsg, msgs: seq<XEntry>) {
    && Gapless(nv) && |msgs| == nv.top - nv.base
    && forall i :: 0 <= i < |msgs| ==> msgs[i].n == nv.base + 1 + i && nv.xset[msgs[i].n] == msgs[i].d
  }

  function IdsOf(view: nat, msgs: seq<XEntry>): (ids: seq<MsgId>)
    ensures |ids| == |msgs|
    ensures forall i :: 0 <= i < |ids| ==> ids[i] == MsgId(view, msgs[i].n, msgs[i].d)
  {
    seq(|msgs|, i requires 0 <= i < |msgs| => MsgId(view, msgs[i].n, msgs[i].d))
  }

  /** The listed ids above h. */
  function Above(ids: seq<MsgId>, h: nat): set<MsgId> {
    set id | id in ids && id.n > h
  }

  lemma ListedIds(nv: NewViewMsg, msgs: seq<XEntry>, view: nat, h: nat)
    requires IsListing(nv, msgs)
    ensures Above(IdsOf(view, msgs), h) == NewIds(view, nv, h)
  {
    var ids := IdsOf(view, msgs);
    forall id: MsgId | id in NewIds(view, nv, h) ensures id in ids {
      assert ids[id.n - nv.base - 1] == id;
    }
  }

  /* ---------- the first loop ---------- */

  function AcceptAbove(s: Node, id: MsgId): Node {
    if id.n > s.h then Accept(s, id) else s
  }

  function AcceptAll(s: Node, ids: seq<MsgId>): Node
    decreases |ids|
  {
    if ids == [] then s else AcceptAbove(AcceptAll(s, ids[..|ids| - 1]), ids[|ids| - 1])
  }

  lemma AcceptMore(s: Node, ids: seq<MsgId>, i: nat)
    requires i < |ids|
    ensures AcceptAll(s, ids[..i + 1]) == AcceptAbove(AcceptAll(s, ids[..i]), ids[i])
  {
    assert ids[..i + 1][..i] == ids[..i];
  }

  /** The certificates of `ids` have become pre-prepared. */
  ghost predicate CertsSet(a: map<MsgId, Cert>, b: map<MsgId, Cert>, ids: set<MsgId>) {
    && (forall id :: id in b <==> id in a || id in ids)
    && (forall id :: id in b ==> b[id] == if id in ids then GetCert(a, id).(prePrepared := true) else a[id])
  }

  ghost predicate HasNumber(ids: set<MsgId>, n: nat) {
    exists id :: id in ids && id.n == n
  }

  /** The numbers of `ids` have been given their digests. */
  ghost predicate SeqSet(a: map<nat, Digest>, b: map<nat, Digest>, ids: set<MsgId>) {
    && (forall n :: n in b <==> n in a || HasNumber(ids, n))
    && (forall id :: id in ids ==> id.n in b && b[id.n] == id.d)
    && (forall n :: n in b && !HasNumber(ids, n) ==> b[n] == a[n])
  }

  /** What accepting a set of ids with different numbers leaves. */
  ghost predicate AcceptedSet(s: Node, t: Node, ids: set<MsgId>) {
    && t == s.(certs := t.certs, seqMap := t.seqMap, hist := s.hist.(accepted := s.hist.accepted + ids))
    && CertsSet(s.certs, t.certs, ids) && SeqSet(s.seqMap, t.seqMap, ids)
  }

  lemma OneMoreCert(a: map<MsgId, Cert>, b: map<MsgId, Cert>, ids: set<MsgId>, id: MsgId)
    requires CertsSet(a, b, ids) && id !in ids
    ensures CertsSet(a, b[id := GetCert(b, id).(prePrepared := true)], ids + {id})
  {
  }

  lemma OneMoreNumber(a: map<nat, Digest>, b: map<nat, Digest>, ids: set<MsgId>, id: MsgId)
    requires SeqSet(a, b, ids) && !HasNumber(ids, id.n)
    ensures SeqSet(a, b[id.n := id.d], ids + {id})
  {
    assert id in ids + {id};
    forall n: nat ensures HasNumber(ids + {id}, n) <==> HasNumber(ids, n) || n == id.n {
      if HasNumber(ids, n) {
        var o :| o in ids && o.n == n;
        assert o in ids + {id};
      }
    }
  }

  lemma AcceptedOneMore(s: Node, t: Node, ids: set<MsgId>, id: MsgId)
    requires AcceptedSet(s, t, ids) && !HasNumber(ids, id.n)
    ensures AcceptedSet(s, Accept(t, id), ids + {id})
  {
    assert id !in ids;
    OneMoreCert(s.certs, t.certs, ids, id);
    OneMoreNumber(s.seqMap, t.seqMap, ids, id);
    assert s.hist.accepted + ids + {id} == s.hist.accepted + (ids + {id});
  }

  predicate DifferentNumbers(ids: seq<MsgId>) {
    forall i, j :: 0 <= i < j < |ids| ==> ids[i].n != ids[j].n
  }

  lemma {:induction false} AcceptedAll(s: Node, ids: seq<MsgId>)
    requires DifferentNumbers(ids)
    ensures AcceptedSet(s, AcceptAll(s, ids), Above(ids, s.h))
    decreases |ids|
  {
    if ids == [] {
      NothingAccepted(s);
    } else {
      var init, last := ids[..|ids| - 1], ids[|ids| - 1];
      assert ids == init + [last];
      AcceptedAll(s, init);
      AcceptedStep(s, AcceptAll(s, init), init, last);
    }
  }

  lemma NothingAccepted(s: Node)
    ensures AcceptedSet(s, s, Above([], s.h))
  {
    assert Above([], s.h) == {};
    assert s.hist.accepted + {} == s.hist.accepted;
  }

  lemma AcceptedStep(s: Node, u: Node, init: seq<MsgId>, last: MsgId)
    requires AcceptedSet(s, u, Above(init, s.h)) && DifferentNumbers(init + [last])
    ensures AcceptedSet(s, AcceptAbove(u, last), Above(init + [last], s.h))
  {
    AboveMore(init, last, s.h);
    if last.n > s.h {
      NotYet(init, last, s.h);
      AcceptedOneMore(s, u, Above(init, s.h), last);
    } else {
      assert Above(init, s.h) + {} == Above(init, s.h);
    }
  }

  lemma AboveMore(init: seq<MsgId>, last: MsgId, h: nat)
    ensures Above(init + [last], h) == Above(init, h) + (if last.n > h then {last} else {})
  {
  }

  lemma NotYet(init: seq<MsgId>, last: MsgId, h: nat)
    requires DifferentNumbers(init + [last])
    ensures !HasNumber(Above(init, h), last.n)
  {
    forall id | id in Above(init, h) ensures id.n != last.n {
      var i :| 0 <= i < |init| && init[i] == id;
      assert (init + [last])[i].n != (init + [last])[|init|].n;
    }
  }

  lemma SameCerts(a: map<MsgId, Cert>, b: map<MsgId, Cert>, ids: set<MsgId>)
    requires CertsSet(a, b, ids)
    ensures b == a + map id | id in ids :: GetCert(a, id).(prePrepared := true)
  {
  }

  lemma SameSeqMap(a: map<nat, Digest>, b: map<nat, Digest>, view: nat, nv: NewViewMsg, h: nat)
    requires SeqSet(a, b, NewIds(view, nv, h))
    ensures b == a + map n | n in nv.xset && n > h :: nv.xset[n]
  {
    var ids := NewIds(view, nv, h);
    forall n: nat ensures HasNumber(ids, n) <==> n in nv.xset && n > h {
      if n in nv.xset && n > h {
        assert MsgId(view, n, nv.xset[n]) in ids;
      }
    }
    forall n | n in b && HasNumber(ids, n) ensures b[n] == nv.xset[n] {
      assert MsgId(view, n, nv.xset[n]) in ids;
    }
  }

  /** The first loop leaves what the protocol's step says. */
  lemma FirstLoop(c: Config, r: nat, s: Node, nv: NewViewMsg, msgs: seq<XEntry>)
    requires c.n >= 1 && IsListing(nv, msgs)
    ensures var u := AcceptAll(s, IdsOf(s.view, msgs));
            var t := ProcessNewView(c, r, s, nv);
            && u == s.(certs := t.certs, seqMap := t.seqMap, hist := s.hist.(accepted := t.hist.accepted))
  {
    var ids := IdsOf(s.view, msgs);
    var u := AcceptAll(s, ids);
    AcceptedAll(s, ids);
    ListedIds(nv, msgs, s.view, s.h);
    SameCerts(s.certs, u.certs, NewIds(s.view, nv, s.h));
    SameSeqMap(s.seqMap, u.seqMap, s.view, nv, s.h);
  }

  /** The highest of `start` and the listed numbers above h. */
  function MaxListed(msgs: seq<XEntry>, h: nat, start: nat): nat
    decreases |msgs|
  {
    if msgs == [] then start
    else
      var m := MaxListed(msgs[..|msgs| - 1], h, start);
      var n := msgs[|msgs| - 1].n;
      if n > h && n > m then n else m
  }

  lemma MaxMore(msgs: seq<XEntry>, i: nat, h: nat, start: nat)
    requires i < |msgs|
    ensures var m := MaxListed(msgs[..i], h, start);
            MaxListed(msgs[..i + 1], h, start) == if msgs[i].n > h && msgs[i].n > m then msgs[i].n else m
  {
    assert msgs[..i + 1][..i] == msgs[..i];
  }

  /** The next number is the last one listed, unless the replica has executed further. */
  lemma {:induction false} NextNumber(base: nat, msgs: seq<XEntry>, h: nat, lastExec: nat)
    requires base <= h <= lastExec
    requires forall i :: 0 <= i < |msgs| ==> msgs[i].n == base + 1 + i
    ensures MaxListed(msgs, h, lastExec) == if base + |msgs| > lastExec then base + |msgs| else lastExec
    decreases |msgs|
  {
    if msgs != [] {
      NextNumber(base, msgs[..|msgs| - 1], h, lastExec);
    }
  }

  /** The state after the first loop, as the protocol's step. */
  lemma FirstLoopDone(c: Config, r: nat, s: Node, nv: NewViewMsg, msgs: seq<XEntry>, maxN: nat, u: Node, t: Node)
    requires c.n >= 1 && IsListing(nv, msgs) && maxN == if nv.top > |s.executed| then nv.top else |s.executed|
    requires u == AcceptAll(s.(inViewChange := false, seqNo := |s.executed|), IdsOf(s.view, msgs))
    requires t == u.(seqNo := maxN, hist := EnteredHistory(c, r, s, nv, u.hist))
    ensures t == ProcessNewView(c, r, s, nv)
  {
    var s1 := s.(inViewChange := false, seqNo := |s.executed|);
    FirstLoop(c, r, s1, nv, msgs);
    var t1 := ProcessNewView(c, r, s1, nv);
    assert t1 == ProcessNewView(c, r, s, nv);
  }

  /** Entering is recorded, and so are the prepares for numbers below the low watermark. */
  function EnteredHistory(c: Config, r: nat, s: Node, nv: NewViewMsg, hist: History): History {
    hist.(entered := hist.entered[s.view := nv],
          prepares := hist.prepares + (if r != c.Primary(s.view) then NewIds(s.view, nv, 0) - NewIds(s.view, nv, s.h) else {}))
  }

  /** Every listed number above the low watermark is pre-prepared then. */
  lemma ListedCerts(c: Config, r: nat, s: Node, nv: NewViewMsg, msgs: seq<XEntry>, i: nat)
    requires c.n >= 1 && IsListing(nv, msgs) && i < |msgs| && msgs[i].n > s.h
    ensures MsgId(s.view, msgs[i].n, msgs[i].d) in ProcessNewView(c, r, s, nv).certs
  {
    assert MsgId(s.view, msgs[i].n, msgs[i].d) in NewIds(s.view, nv, s.h);
  }

  /* ---------- the second loop ---------- */

  /** The repeated commit, before the replica handles it itself. */
  function MarkRecommit(s: Node, id: MsgId): Node
    requires id in s.certs
  {
    if s.certs[id].sentCommit then s
    else
      s.(certs := s.certs[id := s.certs[id].(sentCommit := true)],
         hist := s.hist.(commits := s.hist.commits + {CommitMsg(id, s.h)}))
  }

  ghost predicate CommitResent(c: Config, r: nat, batches: set<Digest>, s: Node, id: MsgId, ids: seq<MsgId>, t: Node)
    requires c.n >= 1 && id in s.certs
  {
    if id.n <= |s.executed| then CommitHandled(c, batches, MarkRecommit(s, id), r, id, ids, t)
    else t == s && ids == []
  }

  ghost predicate PrepareResent(c: Config, r: nat, batches: set<Digest>, s: Node, id: MsgId, ids: seq<MsgId>, t: Node)
    requires c.n >= 1 && id in s.certs
  {
    if r != c.Primary(s.view) then PrepareSent(c, r, batches, s, id, ids, t) else t == s && ids == []
  }

  /** One round: a backup sends its prepare, and an executed number is committed again. */
  ghost predicate Resent(c: Config, r: nat, batches: set<Digest>, s: Node, id: MsgId, t: Node)
    requires c.n >= 1
  {
    if id.n <= s.h then t == s
    else id in s.certs && exists u, a, b ::
      PrepareResent(c, r, batches, s, id, a, u) && id in u.certs && CommitResent(c, r, batches, u, id, b, t)
  }

  ghost predicate AllResent(c: Config, r: nat, batches: set<Digest>, s: Node, ids: seq<MsgId>, t: Node)
    requires c.n >= 1
    decreases |ids|
  {
    if ids == [] then t == s
    else
      var init, last := ids[..|ids| - 1], ids[|ids| - 1];
      exists mid: Node :: AllResent(c, r, batches, s, init, mid) && Resent(c, r, batches, mid, last, t)
  }

  lemma MoreResent(c: Config, r: nat, batches: set<Digest>, s: Node, ids: seq<MsgId>, i: nat, mid: Node, t: Node)
    requires c.n >= 1 && i < |ids| && AllResent(c, r, batches, s, ids[..i], mid) && Resent(c, r, batches, mid, ids[i], t)
    ensures AllResent(c, r, batches, s, ids[..i + 1], t)
  {
    assert ids[..i + 1][..i] == ids[..i];
  }

  /* ---------- what handling votes keeps ---------- */

  /** Pre-prepared certificates stay, in the same view and window. */
  ghost predicate Stays(s: Node, t: Node) {
    && t.view == s.view && t.h == s.h && t.inViewChange == s.inViewChange
    && forall id :: id in s.certs ==> id in t.certs && (s.certs[id].prePrepared ==> t.certs[id].prePrepared)
  }

  lemma StaysTrans(s: Node, t: Node, u: Node)
    requires Stays(s, t) && Stays(t, u)
    ensures Stays(s, u)
  {
  }

  lemma {:induction false} ExecutionStays(c: Config, s: Node, ids: seq<MsgId>)
    requires c.n >= 1
    ensures Stays(s, ExecuteAll(c, s, ids))
    decreases |ids|
  {
    if ids != [] {
      ExecutionStays(c, s, ids[..|ids| - 1]);
    }
  }

  lemma CommitStays(c: Config, batches: set<Digest>, s: Node, from: nat, id: MsgId, ids: seq<MsgId>, t: Node)
    requires c.n >= 1 && CommitHandled(c, batches, s, from, id, ids, t)
    ensures Stays(s, t)
  {
    var u := RecvCommit(s, from, id);
    ExecutionStays(c, u, ids);
  }

  lemma PrepareStays(c: Config, r: nat, batches: set<Digest>, s: Node, id: MsgId, ids: seq<MsgId>, t: Node)
    requires c.n >= 1 && id in s.certs && PrepareSent(c, r, batches, s, id, ids, t)
    ensures Stays(s, t)
  {
    var u := MarkPrepare(s, id);
    if t != u {
      var v := RecvPrepare(u, r, id);
      SentStays(c, r, batches, v, id, ids, t);
      StaysTrans(u, v, t);
    }
    StaysTrans(s, u, t);
  }

  lemma SentStays(c: Config, r: nat, batches: set<Digest>, s: Node, id: MsgId, ids: seq<MsgId>, t: Node)
    requires c.n >= 1 && id in s.certs && CommitMaybeSent(c, r, batches, s, id, ids, t)
    ensures Stays(s, t)
  {
    if CanSendCommit(c, r, s, id) {
      CommitStays(c, batches, MarkCommit(s, id), r, id, ids, t);
      StaysTrans(s, MarkCommit(s, id), t);
    }
  }

  lemma ResentStays(c: Config, r: nat, batches: set<Digest>, s: Node, id: MsgId, t: Node)
    requires c.n >= 1 && Resent(c, r, batches, s, id, t)
    ensures Stays(s, t)
  {
    if id.n > s.h {
      var u, a, b :| PrepareResent(c, r, batches, s, id, a, u) && id in u.certs && CommitResent(c, r, batches, u, id, b, t);
      if r != c.Primary(s.view) {
        PrepareStays(c, r, batches, s, id, a, u);
      }
      RecommitStays(c, r, batches, u, id, b, t);
      StaysTrans(s, u, t);
    }
  }

  lemma RecommitStays(c: Config, r: nat, batches: set<Digest>, s: Node, id: MsgId, ids: seq<MsgId>, t: Node)
    requires c.n >= 1 && id in s.certs && CommitResent(c, r, batches, s, id, ids, t)
    ensures Stays(s, t)
  {
    if id.n <= |s.executed| {
      assert Stays(s, MarkRecommit(s, id));
      CommitStays(c, batches, MarkRecommit(s, id), r, id, ids, t);
    }
  }

  /* ---------- pending certificates ---------- */

  lemma ClearConsistent(c: Config, s: Node, pending: set<MsgId>, seqNo: nat)
    requires c.n >= 1 && Consistent(c, s, pending) && s.inViewChange
    ensures Consistent(c, s.(inViewChange := false, seqNo := seqNo), {})
  {
  }

  lemma RecommitConsistent(c: Config, s: Node, pending: set<MsgId>, id: MsgId)
    requires c.n >= 1 && Consistent(c, s, pending) && id in s.certs && id.n <= |s.executed|
    ensures Consistent(c, MarkRecommit(s, id), pending)
  {
  }

  /** The pending set does not depend on what only the history and the next number record. */
  lemma HistoryConsistent(c: Config, s: Node, pending: set<MsgId>, t: Node)
    requires c.n >= 1 && Consistent(c, s, pending) && t == s.(seqNo := t.seqNo, hist := t.hist)
    ensures Consistent(c, t, pending)
  {
  }

  /* ---------- announcing ---------- */

  /** The new view that carries the given list. */
  function Listing(bases: seq<VcBasis>, base: nat, xs: seq<XEntry>): NewViewMsg {
    var numbers := Span(base, base + |xs|);
    NewViewMsg(bases, base, base + |xs|, map n | n in numbers :: xs[n - base - 1].d)
  }

  function NewViewFor(c: Config, bases: seq<VcBasis>, base: nat): NewViewMsg
    requires c.n >= 1
  {
    var xs := Assignment(c, bases, base);
    Listing(bases, base, if xs.Some? then xs.value else [])
  }

  lemma ListingPasses(c: Config, v: nat, bases: seq<VcBasis>, cs: CheckpointState, xs: seq<XEntry>)
    requires c.n >= 1 && IsInitialCheckpoint(c, bases, cs) && Assignment(c, bases, cs.height) == Some(xs)
    requires forall i :: 0 <= i < |bases| ==> bases[i].view == v
    ensures PassesCheck(c, v, Listing(bases, cs.height, xs), cs)
    ensures Listing(bases, cs.height, xs) == NewViewFor(c, bases, cs.height)
  {
  }

  /** A new view passes the check exactly when its bases are for the view, it starts from a highest checkpoint
      that qualifies among them, and its list is the one they assign, no longer and no shorter. */
  lemma PassesCheckIff(c: Config, v: nat, nv: NewViewMsg, cs: CheckpointState)
    requires c.n >= 1
    ensures PassesCheck(c, v, nv, cs) <==>
              && (forall b :: b in nv.bases ==> b.view == v)
              && Qualifies(c, nv.bases, cs) && (forall other :: Qualifies(c, nv.bases, other) ==> other.height <= cs.height)
              && nv.base == cs.height
              && Assignment(c, nv.bases, cs.height).Some?
              && nv == Listing(nv.bases, cs.height, Assignment(c, nv.bases, cs.height).value)
  {
    if PassesCheck(c, v, nv, cs) {
      CarriesList(nv, Assignment(c, nv.bases, nv.base).value);
    } else if IsInitialCheckpoint(c, nv.bases, cs) && Assignment(c, nv.bases, cs.height).Some?
              && nv == Listing(nv.bases, cs.height, Assignment(c, nv.bases, cs.height).value) {
      if forall i :: 0 <= i < |nv.bases| ==> nv.bases[i].view == v {
        ListingPasses(c, v, nv.bases, cs, Assignment(c, nv.bases, cs.height).value);
      }
    }
  }

  lemma CarriesList(nv: NewViewMsg, xs: seq<XEntry>)
    requires nv.top == nv.base + |xs| && Gapless(nv)
    requires forall i :: 0 <= i < |xs| ==> xs[i].n == nv.base + 1 + i && nv.xset[xs[i].n] == xs[i].d
    ensures nv == Listing(nv.bases, nv.base, xs)
  {
    assert nv.xset == Listing(nv.bases, nv.base, xs).xset;
  }

  lemma AnnouncedConsistent(c: Config, s: Node, pending: set<MsgId>, nv: NewViewMsg)
    requires c.n >= 1 && Consistent(c, s, pending)
    ensures Consistent(c, Announce(s, nv), pending)
  {
  }
}
