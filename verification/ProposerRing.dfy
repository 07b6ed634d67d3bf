/** The ring of recent proposers refines a sliding window over the ledger, and its size leaves the
    election a candidate. */
module ProposerRing {
  import Quorum

  datatype BlockMeta = BlockMeta(processorNodeID: nat, blockNum: nat)

  datatype Slot = Empty | Block(meta: BlockMeta)

  /** The last r elements, or all when there are fewer. */
  function Last(s: seq<BlockMeta>, r: nat): (t: seq<BlockMeta>)
    ensures |t| == if |s| < r then |s| else r
  {
    if |s| <= r then s else s[|s| - r..]
  }

  function Proposers(s: seq<BlockMeta>): set<nat> {
    set m | m in s :: m.processorNodeID
  }

  /** The blocks start..end-1 of the ledger. */
  function Since(ledger: nat -> nat, start: nat, end: nat): (s: seq<BlockMeta>)
    requires start <= end
    ensures |s| == end - start
    ensures forall i :: 0 <= i < |s| ==> s[i] == BlockMeta(ledger(start + i), start + i)
  {
    seq(end - start, i requires 0 <= i => BlockMeta(ledger(start + i), start + i))
  }

  /** Where the window of r blocks ending at `last` starts, in an epoch that starts at `first`. */
  function WindowStart(first: nat, last: nat, r: nat): nat
    requires r >= 1
  {
    if last > first + r - 1 then last - r + 1 else first
  }

  /** The window after block `last`: the last r blocks of the epoch, or all of them. */
  function Window(ledger: nat -> nat, first: nat, last: nat, r: nat): seq<BlockMeta>
    requires r >= 1
  {
    var start := WindowStart(first, last, r);
    Since(ledger, start, if start <= last then last + 1 else start)
  }

  /** The window holds exactly the blocks of the epoch that are not r or more behind the last one. */
  lemma WindowIs(ledger: nat -> nat, first: nat, last: nat, r: nat, m: BlockMeta)
    requires r >= 1
    ensures m in Window(ledger, first, last, r) <==>
              first <= m.blockNum <= last && last < m.blockNum + r && m.processorNodeID == ledger(m.blockNum)
  {
    var w := Window(ledger, first, last, r);
    var start := WindowStart(first, last, r);
    if first <= m.blockNum <= last && last < m.blockNum + r && m.processorNodeID == ledger(m.blockNum) {
      assert w[m.blockNum - start] == m;
    }
  }

  /** Adding the next block to a window and dropping the oldest gives the next window. */
  lemma WindowSlides(ledger: nat -> nat, first: nat, last: nat, r: nat)
    requires r >= 1 && last + 1 >= first
    ensures Last(Window(ledger, first, last, r) + [BlockMeta(ledger(last + 1), last + 1)], r)
         == Window(ledger, first, last + 1, r)
  {
  }

  /** Ring content read from the oldest slot on. */
  function Unrolled(ring: seq<Slot>, next: nat): seq<Slot>
    requires next <= |ring|
  {
    ring[next..] + ring[..next]
  }

  function AsSlots(s: seq<BlockMeta>): (t: seq<Slot>)
    ensures |t| == |s| && forall i :: 0 <= i < |s| ==> t[i] == Block(s[i])
  {
    seq(|s|, i requires 0 <= i < |s| => Block(s[i]))
  }

  /** The ring holds the window: while it fills, from its first slot on, and the other slots are
      empty; once full, from the next slot to be overwritten on. */
  ghost predicate Holds(ring: seq<Slot>, next: nat, window: seq<BlockMeta>) {
    && next <= |ring| && |window| <= |ring|
    && (next == |ring| ==> next == 0)
    && if |window| < |ring| then
         next == |window| && ring[..next] == AsSlots(window) && forall i :: next <= i < |ring| ==> ring[i] == Empty
       else Unrolled(ring, next) == AsSlots(window)
  }

  function Wrap(i: nat, r: nat): nat
    requires r >= 1
  {
    (i + 1) % r
  }

  lemma WrapIs(i: nat, r: nat)
    requires i < r
    ensures Wrap(i, r) == if i + 1 == r then 0 else i + 1
  {
  }

  lemma FillStep(ring: seq<Slot>, next: nat, window: seq<BlockMeta>, m: BlockMeta)
    requires Holds(ring, next, window) && |window| < |ring|
    ensures Holds(ring[next := Block(m)], Wrap(next, |ring|), window + [m])
  {
    WrapIs(next, |ring|);
    assert ring[next := Block(m)][..next + 1] == ring[..next] + [Block(m)];
    assert AsSlots(window + [m]) == AsSlots(window) + [Block(m)];
    if next + 1 == |ring| {
      assert Unrolled(ring[next := Block(m)], 0) == ring[next := Block(m)][..next + 1];
    }
  }

  lemma SlideStep(ring: seq<Slot>, next: nat, window: seq<BlockMeta>, m: BlockMeta)
    requires Holds(ring, next, window) && |window| == |ring| && ring != []
    ensures Holds(ring[next := Block(m)], Wrap(next, |ring|), window[1..] + [m])
  {
    WrapIs(next, |ring|);
    var after := ring[next := Block(m)];
    assert Unrolled(after, Wrap(next, |ring|)) == Unrolled(ring, next)[1..] + [Block(m)];
    assert AsSlots(window[1..] + [m]) == AsSlots(window)[1..] + [Block(m)];
  }

  lemma AddStep(ring: seq<Slot>, next: nat, window: seq<BlockMeta>, m: BlockMeta)
    requires Holds(ring, next, window) && ring != []
    ensures Holds(ring[next := Block(m)], Wrap(next, |ring|), Last(window + [m], |ring|))
  {
    if |window| < |ring| {
      FillStep(ring, next, window, m);
    } else {
      SlideStep(ring, next, window, m);
      assert (window + [m])[1..] == window[1..] + [m];
    }
  }

  /** The blocks found in the slots of a ring are those of its window. */
  lemma HeldBlocks(ring: seq<Slot>, next: nat, window: seq<BlockMeta>, m: BlockMeta)
    requires Holds(ring, next, window)
    ensures Block(m) in ring <==> m in window
  {
    if |window| < |ring| {
      assert ring == ring[..next] + ring[next..];
      if m in window {
        var i :| 0 <= i < |window| && window[i] == m;
        assert ring[..next][i] == Block(m);
      }
    } else {
      assert forall x :: x in Unrolled(ring, next) <==> x in ring by {
        assert ring == ring[..next] + ring[next..];
      }
      if m in window {
        var i :| 0 <= i < |window| && window[i] == m;
        assert Unrolled(ring, next)[i] == Block(m);
      }
      if Block(m) in ring {
        var i :| 0 <= i < |window| && Unrolled(ring, next)[i] == Block(m);
        assert window[i] == m;
      }
    }
  }

  class BlockProcessorTracker {
    var blockProcessors: seq<Slot>
    var recentBlockNum: nat
    var nextIdx: nat
    var blockProcessorIDSet: set<nat>
    var startBlockNum: nat
    var endBlockNum: nat
    ghost var window: seq<BlockMeta>

    /** The ring holds the window and the id set is that of its proposers. */
    ghost predicate Valid()
      reads this
    {
      && |blockProcessors| == recentBlockNum
      && Holds(blockProcessors, nextIdx, window)
      && blockProcessorIDSet == Proposers(window)
    }

    /** The start and end numbers are those of a window of consecutive blocks from 1 on. */
    ghost predicate Numbered()
      reads this
    {
      && (window == [] ==> startBlockNum == 0 && endBlockNum == 0)
      && (window != [] ==> startBlockNum >= 1 && endBlockNum == startBlockNum + |window| - 1
                           && forall i :: 0 <= i < |window| ==> window[i].blockNum == startBlockNum + i)
    }

    constructor ()
      ensures Valid() && Numbered() && window == []
    {
      blockProcessors, recentBlockNum, nextIdx := [], 0, 0;
      blockProcessorIDSet, startBlockNum, endBlockNum := {}, 0, 0;
      window := [];
    }

    method CollectIDs() returns (ids: set<nat>)
      ensures forall id :: id in ids <==> exists m :: Block(m) in blockProcessors && m.processorNodeID == id
    {
      ids := {};
      for i := 0 to |blockProcessors|
        invariant forall id :: id in ids <==> exists m :: Block(m) in blockProcessors[..i] && m.processorNodeID == id
      {
        var item := blockProcessors[i];
        assert blockProcessors[..i + 1] == blockProcessors[..i] + [item];
        if item.Block? {
          assert Block(item.meta) in blockProcessors[..i + 1];
          ids := ids + {item.meta.processorNodeID};
        }
      }
      assert blockProcessors[..|blockProcessors|] == blockProcessors;
    }

    /** AddBlock. */
    method AddBlock(m: BlockMeta)
      requires Valid() && recentBlockNum >= 1
      modifies this
      ensures Valid() && recentBlockNum == old(recentBlockNum)
      ensures window == Last(old(window) + [m], recentBlockNum)
      ensures old(Numbered()) && m.blockNum >= 1 && (old(window) != [] ==> m.blockNum == old(endBlockNum) + 1) ==> Numbered()
    {
      ghost var before, first := window, startBlockNum;
      AddToRing(m);
      NumberStep(before, m, first, recentBlockNum);
      if startBlockNum == 0 && endBlockNum == 0 {
        startBlockNum := m.blockNum;
        endBlockNum := m.blockNum;
      } else {
        endBlockNum := endBlockNum + 1;
        if endBlockNum - startBlockNum == recentBlockNum {
          startBlockNum := startBlockNum + 1;
        }
      }
    }

    lemma NumberStep(before: seq<BlockMeta>, m: BlockMeta, first: nat, r: nat)
      requires r >= 1 && |before| <= r
      ensures var after := Last(before + [m], r);
              && after[|after| - 1] == m
              && (|before| < r ==> after == before + [m])
              && (|before| == r ==> after == before[1..] + [m])
    {
    }

    /** The part of AddBlock on the ring and the id set. */
    method AddToRing(m: BlockMeta)
      requires Valid() && recentBlockNum >= 1
      modifies this`blockProcessors, this`nextIdx, this`window, this`blockProcessorIDSet
      ensures Valid()
      ensures window == Last(old(window) + [m], recentBlockNum)
    {
      Overwrite(m);
      var ids := CollectIDs();
      IDsOfWindow(ids);
      blockProcessorIDSet := ids;
    }

    /** The next slot takes the block. */
    method Overwrite(m: BlockMeta)
      requires |blockProcessors| == recentBlockNum && recentBlockNum >= 1 && Holds(blockProcessors, nextIdx, window)
      modifies this`blockProcessors, this`nextIdx, this`window
      ensures |blockProcessors| == recentBlockNum && Holds(blockProcessors, nextIdx, window)
      ensures window == Last(old(window) + [m], recentBlockNum)
    {
      AddStep(blockProcessors, nextIdx, window, m);
      blockProcessors := blockProcessors[nextIdx := Block(m)];
      nextIdx := Wrap(nextIdx, recentBlockNum);
      window := Last(window + [m], recentBlockNum);
    }

    lemma IDsOfWindow(ids: set<nat>)
      requires Holds(blockProcessors, nextIdx, window)
      requires forall id :: id in ids <==> exists m :: Block(m) in blockProcessors && m.processorNodeID == id
      ensures ids == Proposers(window)
    {
      forall m: BlockMeta ensures Block(m) in blockProcessors <==> m in window {
        HeldBlocks(blockProcessors, nextIdx, window, m);
      }
    }

    /** The blocks already in the ring, by number. */
    method OldBlocks() returns (olds: map<nat, BlockMeta>)
      ensures forall n :: n in olds ==> olds[n].blockNum == n && Block(olds[n]) in blockProcessors
    {
      olds := map[];
      for i := 0 to |blockProcessors|
        invariant forall n :: n in olds ==> olds[n].blockNum == n && Block(olds[n]) in blockProcessors
      {
        if blockProcessors[i].Block? {
          olds := olds[blockProcessors[i].meta.blockNum := blockProcessors[i].meta];
        }
      }
    }

    /** The old ring's blocks agree with the ledger when its window does. */
    method LedgerBlocks(ledger: nat -> nat) returns (olds: map<nat, BlockMeta>)
      requires Valid()
      requires forall m :: m in window ==> m == BlockMeta(ledger(m.blockNum), m.blockNum)
      ensures forall n :: n in olds ==> olds[n] == BlockMeta(ledger(n), n)
    {
      olds := OldBlocks();
      forall n | n in olds ensures olds[n] == BlockMeta(ledger(n), n) {
        HeldBlocks(blockProcessors, nextIdx, window, olds[n]);
      }
    }

    method Clear(r: nat)
      requires r >= 1
      modifies this
      ensures Valid() && Numbered() && recentBlockNum == r && window == []
    {
      blockProcessors := seq(r, i => Empty);
      recentBlockNum, nextIdx, blockProcessorIDSet, startBlockNum, endBlockNum := r, 0, {}, 0, 0;
      window := [];
    }

    /** The next block of the ledger extends the blocks since `start`. */
    method AddNext(ledger: nat -> nat, start: nat, i: nat, m: BlockMeta)
      requires Valid() && recentBlockNum >= 1 && start <= i < start + recentBlockNum
      requires m == BlockMeta(ledger(i), i)
      requires window == Since(ledger, start, i)
      requires start >= 1 ==> Numbered()
      modifies this
      ensures Valid() && recentBlockNum == old(recentBlockNum)
      ensures window == Since(ledger, start, i + 1)
      ensures start >= 1 ==> Numbered()
    {
      if start >= 1 && window != [] {
        assert window[|window| - 1].blockNum == i - 1;
      }
      AddBlock(m);
      assert Since(ledger, start, i) + [m] == Since(ledger, start, i + 1);
    }

    /** ResetRecentBlockNum: rebuilds the ring, taking blocks from the old ring where it has them and
        from the ledger otherwise. The old ring must agree with the ledger. */
    method ResetRecentBlockNum(ledger: nat -> nat, first: nat, last: nat, r: nat)
      requires Valid() && r >= 1
      requires forall m :: m in window ==> m == BlockMeta(ledger(m.blockNum), m.blockNum)
      modifies this
      ensures Valid() && recentBlockNum == r
      ensures window == Window(ledger, first, last, r)
      ensures first >= 1 ==> Numbered()
    {
      var olds := LedgerBlocks(ledger);
      Clear(r);
      var start := first;
      if last > first + r - 1 {
        start := last - r + 1;
      }
      var i := start;
      while i <= last
        invariant start <= i && (i > start ==> i <= last + 1)
        invariant Valid() && recentBlockNum == r
        invariant window == Since(ledger, start, i)
        invariant start >= 1 ==> Numbered()
        decreases last + 1 - i
      {
        var m := if i in olds then olds[i] else BlockMeta(ledger(i), i);
        AddNext(ledger, start, i, m);
        i := i + 1;
      }
    }
  }

  /* ---------- main results ---------- */

  /** Tracking block by block gives what rebuilding from the ledger would give. */
  lemma {:induction false} TrackingIsRebuilding(ledger: nat -> nat, first: nat, last: nat, r: nat, window: seq<BlockMeta>, k: nat)
    requires r >= 1 && last + 1 >= first && window == Window(ledger, first, last, r)
    ensures AddedUpTo(ledger, last, r, window, k) == Window(ledger, first, last + k, r)
    decreases k
  {
    if k > 0 {
      TrackingIsRebuilding(ledger, first, last, r, window, k - 1);
      WindowSlides(ledger, first, last + k - 1, r);
    }
  }

  /** The window after k calls of AddBlock for the blocks following `last`. */
  function AddedUpTo(ledger: nat -> nat, last: nat, r: nat, window: seq<BlockMeta>, k: nat): seq<BlockMeta>
    decreases k
  {
    if k == 0 then window
    else Last(AddedUpTo(ledger, last, r, window, k - 1) + [BlockMeta(ledger(last + k), last + k)], r)
  }

  /** ChainConfig.ResetRecentBlockNum: the ring size for `n` validators. */
  function RecentNum(n: nat, percentage: nat): nat {
    var r := n * percentage / 100;
    if r == 0 then 1 else if r == n then n - 1 else r
  }

  /** The ring is smaller than the validator set exactly when the percentage does not ask for more
      blocks than there are validators. */
  lemma RingSmallerIff(n: nat, percentage: nat)
    requires n >= 4
    ensures RecentNum(n, percentage) >= 1
    ensures RecentNum(n, percentage) < n <==> n * percentage / 100 <= n
  {
  }

  /** The ring size is the percentage of the validators, rounded down, but at least one block, and one fewer
      than the validators where it would be all of them. */
  lemma RecentNumIs(n: nat, percentage: nat)
    requires n >= 1
    ensures var asked, size := n * percentage, RecentNum(n, percentage);
            && (asked < 100 ==> size == 1)
            && (asked >= 100 && 100 * n <= asked < 100 * n + 100 ==> size == n - 1)
            && (asked >= 100 && (asked < 100 * n || asked >= 100 * n + 100) ==> 100 * size <= asked < 100 * size + 100)
  {
  }

  lemma PercentageFits(n: nat, percentage: nat)
    requires percentage <= 100
    ensures n * percentage / 100 <= n
  {
    assert n * percentage <= n * 100 by {
      assert n * (100 - percentage) >= 0;
    }
  }

  lemma {:induction false} FewProposers(s: seq<BlockMeta>)
    ensures |Proposers(s)| <= |s|
    decreases |s|
  {
    if s == [] {
      assert Proposers(s) == {};
    } else {
      var init := s[..|s| - 1];
      FewProposers(init);
      assert s == init + [s[|s| - 1]];
      assert Proposers(s) == Proposers(init) + {s[|s| - 1].processorNodeID};
    }
  }

  /** The election always keeps a candidate: some validator has proposed none of the recent blocks. */
  lemma CandidateRemains(validators: set<nat>, percentage: nat, window: seq<BlockMeta>) returns (id: nat)
    requires |validators| >= 4 && percentage <= 100
    requires |window| <= RecentNum(|validators|, percentage)
    ensures id in validators && id !in Proposers(window)
  {
    PercentageFits(|validators|, percentage);
    RingSmallerIff(|validators|, percentage);
    FewProposers(window);
    if validators <= Proposers(window) {
      Quorum.SubsetCount(validators, Proposers(window));
    }
    id :| id in validators && id !in Proposers(window);
  }
}
