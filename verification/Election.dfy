/** Weighted random election of a primary: the running totals of the voting powers, the binary
    search among them, and how many of the residues each node owns. */
module Election {

  datatype ValidatorInfo = ValidatorInfo(id: nat, power: nat)

  /* ---------- running totals ---------- */

  function Total(powers: seq<nat>): nat
    decreases |powers|
  {
    if powers == [] then 0 else Total(powers[..|powers| - 1]) + powers[|powers| - 1]
  }

  predicate Positive(powers: seq<nat>) {
    forall i :: 0 <= i < |powers| ==> powers[i] > 0
  }

  /** Element i is the total of the powers up to and including i. */
  predicate IsCumulative(powers: seq<nat>, cumulative: seq<nat>) {
    |cumulative| == |powers| && forall i :: 0 <= i < |powers| ==> cumulative[i] == Total(powers[..i + 1])
  }

  lemma TotalStep(powers: seq<nat>, i: nat)
    requires i < |powers|
    ensures Total(powers[..i + 1]) == Total(powers[..i]) + powers[i]
  {
    assert powers[..i + 1][..i] == powers[..i];
  }

  lemma {:induction false} TotalsIncrease(powers: seq<nat>, i: nat, j: nat)
    requires Positive(powers) && i < j <= |powers|
    ensures Total(powers[..i]) < Total(powers[..j])
    decreases j - i
  {
    TotalStep(powers, j - 1);
    if i < j - 1 {
      TotalsIncrease(powers, i, j - 1);
    }
  }

  predicate Increasing(nums: seq<nat>) {
    forall i, j :: 0 <= i < j < |nums| ==> nums[i] < nums[j]
  }

  predicate Ascending(nums: seq<nat>) {
    forall i, j :: 0 <= i < j < |nums| ==> nums[i] <= nums[j]
  }

  lemma CumulativeIncreases(powers: seq<nat>, cumulative: seq<nat>)
    requires Positive(powers) && IsCumulative(powers, cumulative)
    ensures Increasing(cumulative)
  {
    forall i, j | 0 <= i < j < |cumulative| ensures cumulative[i] < cumulative[j] {
      TotalsIncrease(powers, i + 1, j + 1);
    }
  }

  /* ---------- the search ---------- */

  /** The least index whose number is at least the target; the length when there is none. */
  ghost predicate IsLeast(nums: seq<nat>, target: nat, k: nat) {
    && k <= |nums|
    && (forall i :: 0 <= i < k ==> nums[i] < target)
    && (forall i :: k <= i < |nums| ==> nums[i] >= target)
  }

  /** binarySearch. Among equal numbers any one may be found; without them it is the least index. */
  method BinarySearch(nums: seq<nat>, target: nat) returns (k: nat)
    requires Ascending(nums)
    ensures k <= |nums|
    ensures target in nums ==> k < |nums| && nums[k] == target
    ensures target !in nums || Increasing(nums) ==> IsLeast(nums, target, k)
  {
    var left, right := 0, |nums| - 1;
    while left <= right
      invariant 0 <= left <= right + 1 <= |nums|
      invariant forall i :: 0 <= i < left ==> nums[i] < target
      invariant forall i :: right < i < |nums| ==> nums[i] > target
      decreases right - left + 1
    {
      var mid := left + (right - left) / 2;
      if nums[mid] == target {
        return mid;
      } else if nums[mid] < target {
        left := mid + 1;
      } else {
        right := mid - 1;
      }
    }
    return left;
  }

  lemma LeastUnique(nums: seq<nat>, target: nat, a: nat, b: nat)
    requires IsLeast(nums, target, a) && IsLeast(nums, target, b)
    ensures a == b
  {
    assert a < |nums| ==> nums[a] >= target;
    assert b < |nums| ==> nums[b] >= target;
  }

  /* ---------- shares ---------- */

  /** The residues for which the search chooses node i. */
  ghost predicate Owns(cumulative: seq<nat>, i: nat, residue: nat) {
    IsLeast(cumulative, residue, i)
  }

  /** The numbers lo..hi-1. */
  function Range(lo: nat, hi: nat): (r: set<nat>)
    requires lo <= hi
    ensures forall k: nat :: k in r <==> lo <= k < hi
    ensures |r| == hi - lo
    decreases hi
  {
    if lo == hi then {} else Range(lo, hi - 1) + {hi - 1}
  }

  /** Every residue below the total chooses a node. */
  lemma ResidueOwned(powers: seq<nat>, cumulative: seq<nat>, residue: nat, k: nat)
    requires IsCumulative(powers, cumulative) && residue < Total(powers) && IsLeast(cumulative, residue, k)
    ensures k < |powers|
  {
    assert powers[..|powers|] == powers;
    assert cumulative[|powers| - 1] == Total(powers);
  }

  /** The residues of node i: from just above the previous total up to its own, cut at the end. */
  lemma OwnedInterval(powers: seq<nat>, cumulative: seq<nat>, i: nat, residue: nat)
    requires Positive(powers) && IsCumulative(powers, cumulative) && i < |powers|
    requires residue < Total(powers)
    ensures Owns(cumulative, i, residue) <==>
              (if i == 0 then 0 else cumulative[i - 1] + 1) <= residue <= cumulative[i]
  {
    CumulativeIncreases(powers, cumulative);
  }

  /** The choice is exact up to the two ends: counting the residues 0..total-1, every middle node
      owns exactly its voting power, the first node one more and the last node one fewer. */
  lemma ShareIsExact(powers: seq<nat>, cumulative: seq<nat>, i: nat, owned: set<nat>)
    requires Positive(powers) && IsCumulative(powers, cumulative) && i < |powers|
    requires forall residue: nat :: residue in owned <==> residue < Total(powers) && Owns(cumulative, i, residue)
    ensures |owned| == powers[i] + (if i == 0 then 1 else 0) - (if i == |powers| - 1 then 1 else 0)
  {
    CumulativeIncreases(powers, cumulative);
    TotalStep(powers, i);
    assert powers[..|powers|] == powers;
    var lo := if i == 0 then 0 else cumulative[i - 1] + 1;
    var hi := if i == |powers| - 1 then Total(powers) else cumulative[i] + 1;
    if i < |powers| - 1 {
      TotalsIncrease(powers, i + 1, |powers|);
    }
    if i > 0 {
      TotalsIncrease(powers, i, i + 1);
    }
    forall residue: nat ensures residue in owned <==> lo <= residue < hi {
      if residue < Total(powers) {
        OwnedInterval(powers, cumulative, i, residue);
      }
    }
    assert owned == Range(lo, hi);
  }

  /* ---------- the election ---------- */

  function Powers(nodes: seq<ValidatorInfo>): (p: seq<nat>)
    ensures |p| == |nodes| && forall i :: 0 <= i < |nodes| ==> p[i] == nodes[i].power
  {
    seq(|nodes|, i requires 0 <= i < |nodes| => nodes[i].power)
  }

  /** Sorted by id, as the candidates are before the election. */
  predicate SortedById(nodes: seq<ValidatorInfo>) {
    forall i, j :: 0 <= i < j < |nodes| ==> nodes[i].id < nodes[j].id
  }

  /** A set of candidates has one sorted list, so the order in which the map of voting powers is
      walked does not influence the election. */
  lemma {:induction false} SortedUnique(a: seq<ValidatorInfo>, b: seq<ValidatorInfo>)
    requires SortedById(a) && SortedById(b)
    requires forall x :: x in a <==> x in b
    ensures a == b
    decreases |a|
  {
    HeadIn(a);
    HeadIn(b);
    if a != [] {
      var i :| 0 <= i < |b| && b[i] == a[0];
      var j :| 0 <= j < |a| && a[j] == b[0];
      assert a[0] == b[0];
      RestSame(a, b);
      SortedUnique(a[1..], b[1..]);
    }
  }

  lemma HeadIn(a: seq<ValidatorInfo>)
    ensures a != [] ==> a[0] in a
  {
  }

  lemma RestSame(a: seq<ValidatorInfo>, b: seq<ValidatorInfo>)
    requires a != [] && b != [] && a[0] == b[0] && SortedById(a) && SortedById(b)
    requires forall x :: x in a <==> x in b
    ensures forall x :: x in a[1..] <==> x in b[1..]
  {
    forall x ensures x in a[1..] <==> x in b[1..] {
      RestKeeps(a, x);
      RestKeeps(b, x);
    }
  }

  lemma RestKeeps(a: seq<ValidatorInfo>, x: ValidatorInfo)
    requires a != [] && SortedById(a)
    ensures x in a[1..] <==> x in a && x != a[0]
  {
    assert a == [a[0]] + a[1..];
    if x in a[1..] {
      var k :| 0 <= k < |a[1..]| && a[1..][k] == x;
      assert a[k + 1].id > a[0].id;
    }
  }

  method Cumulate(nodes: seq<ValidatorInfo>) returns (cumulative: seq<nat>, total: nat)
    ensures IsCumulative(Powers(nodes), cumulative) && total == Total(Powers(nodes))
  {
    var powers := Powers(nodes);
    cumulative, total := [], 0;
    for i := 0 to |nodes|
      invariant |cumulative| == i && total == Total(powers[..i])
      invariant forall k :: 0 <= k < i ==> cumulative[k] == Total(powers[..k + 1])
    {
      TotalStep(powers, i);
      total := total + nodes[i].power;
      cumulative := cumulative + [total];
    }
    assert powers[..|nodes|] == powers;
  }

  /** The indices the search may end at for a residue: when running totals repeat, because some powers
      are zero, any of those that equal the residue. */
  ghost predicate MayChoose(cumulative: seq<nat>, residue: nat, k: nat) {
    k < |cumulative| && if residue in cumulative then cumulative[k] == residue else IsLeast(cumulative, residue, k)
  }

  lemma {:induction false} TotalsAscend(powers: seq<nat>, i: nat, j: nat)
    requires i <= j <= |powers|
    ensures Total(powers[..i]) <= Total(powers[..j])
    decreases j - i
  {
    if i < j {
      TotalStep(powers, j - 1);
      TotalsAscend(powers, i, j - 1);
    }
  }

  lemma CumulativeAscends(powers: seq<nat>, cumulative: seq<nat>)
    requires IsCumulative(powers, cumulative)
    ensures Ascending(cumulative)
  {
    forall i, j | 0 <= i < j < |cumulative| ensures cumulative[i] <= cumulative[j] {
      TotalsAscend(powers, i + 1, j + 1);
    }
  }

  datatype Elected = Elected(id: nat) | ZeroTotal

  /** wrfSelectNodeByVotingPower, from the sorted candidates on. `hash` is the hash of the seed. Taking
      the residue of a zero total, as when there is no candidate, fails. */
  method SelectNode(nodes: seq<ValidatorInfo>, hash: nat) returns (r: Elected)
    ensures r == ZeroTotal <==> Total(Powers(nodes)) == 0
    ensures r.Elected? ==> exists k: nat, cumulative ::
              && k < |nodes| && r.id == nodes[k].id && IsCumulative(Powers(nodes), cumulative)
              && MayChoose(cumulative, hash % Total(Powers(nodes)), k)
              && (Positive(Powers(nodes)) ==> Owns(cumulative, k, hash % Total(Powers(nodes))))
  {
    var cumulative, total := Cumulate(nodes);
    if total == 0 {
      return ZeroTotal;
    }
    CumulativeAscends(Powers(nodes), cumulative);
    var residue: nat := hash % total;
    var k := BinarySearch(cumulative, residue);
    if residue !in cumulative {
      ResidueOwned(Powers(nodes), cumulative, residue, k);
    }
    if Positive(Powers(nodes)) {
      CumulativeIncreases(Powers(nodes), cumulative);
    }
    r := Elected(nodes[k].id);
  }

  /** A candidate without voting power is elected for at most one residue, its running total; as the
      first candidate it is, for residue 0. */
  lemma ZeroPower(powers: seq<nat>, cumulative: seq<nat>, i: nat, residue: nat)
    requires IsCumulative(powers, cumulative) && i < |powers| && powers[i] == 0
    ensures MayChoose(cumulative, residue, i) <==> residue == cumulative[i]
    ensures i == 0 ==> cumulative[i] == 0
  {
    TotalStep(powers, i);
    if i > 0 {
      assert cumulative[i - 1] == Total(powers[..i]);
    }
  }

  /** However the candidates were collected, all replicas elect the same one for a residue. */
  lemma OneElected(a: seq<ValidatorInfo>, b: seq<ValidatorInfo>, ca: seq<nat>, cb: seq<nat>, residue: nat, i: nat, j: nat)
    requires SortedById(a) && SortedById(b) && forall x :: x in a <==> x in b
    requires IsCumulative(Powers(a), ca) && IsCumulative(Powers(b), cb)
    requires i < |a| && j < |b| && Owns(ca, i, residue) && Owns(cb, j, residue)
    ensures a[i].id == b[j].id
  {
    SortedUnique(a, b);
    assert ca == cb;
    LeastUnique(ca, residue, i, j);
  }
}
