/** Bookkeeping of voting power: primaries of failed views lose their power for a while, and every
    view's map is recomputed from the last stable one. */
module VotingPower {

  datatype Info = Info(power: int, reduced: bool, reduceView: nat)

  type Powers = map<nat, Info>

  /** Parameters of an epoch: the validators with their full power, the weight of an inactive node,
      for how many views a node stays excluded, and the election of a view's primary, which may
      depend on the powers. */
  datatype Params = Params(full: map<nat, int>, notActive: int, exclude: nat, elect: (nat, Powers) -> nat)

  /** A primary is elected among the validators. */
  ghost predicate ValidParams(p: Params) {
    forall v: nat, m: Powers :: m.Keys == p.full.Keys ==> p.elect(v, m) in p.full
  }

  /* ---------- the maps as functions ---------- */

  /** A primary already punished for this view is left as it is. */
  function Punish(p: Params, v: nat, m: Powers): Powers {
    var id := p.elect(v, m);
    if id in m && m[id].reduced && m[id].reduceView == v then m else m[id := Info(p.notActive, true, v)]
  }

  /** Punishes the primaries of the views from..to-1, one after the other. */
  function PunishViews(p: Params, m: Powers, from: nat, end: nat): Powers
    decreases end
  {
    if end <= from then m else Punish(p, end - 1, PunishViews(p, m, from, end - 1))
  }

  /** A recovery does not punish the last view's primary. */
  function PunishEnd(w: nat, recovery: bool): nat {
    if recovery && w > 0 then w - 1 else w
  }

  predicate Expired(p: Params, w: nat, i: Info) {
    i.reduced && w >= i.reduceView + p.exclude
  }

  function Recover(p: Params, w: nat, m: Powers): Powers
    requires m.Keys == p.full.Keys
  {
    map id | id in m :: if Expired(p, w, m[id]) then Info(p.full[id], false, 0) else m[id]
  }

  /** The map of view w, from the last stable one. A view below the current one leaves it as it is. */
  function Unstable(p: Params, stable: Powers, lastStable: nat, current: nat, w: nat, recovery: bool): Powers
    requires ValidParams(p) && stable.Keys == p.full.Keys
  {
    if w == 0 || w < current then stable
    else
      PunishKeys(p, stable, lastStable, PunishEnd(w, recovery));
      Recover(p, w, if w == lastStable then stable else PunishViews(p, stable, lastStable, PunishEnd(w, recovery)))
  }

  /* ---------- well-formed maps ---------- */

  /** Each entry is at full power and unreduced, or inactive since a view inside the window. */
  predicate WellFormedEntry(p: Params, w: nat, id: nat, i: Info)
    requires id in p.full
  {
    if i.reduced then i.power == p.notActive && (i.reduceView < w < i.reduceView + p.exclude)
    else i.power == p.full[id] && i.reduceView == 0
  }

  ghost predicate WellFormed(p: Params, w: nat, m: Powers) {
    m.Keys == p.full.Keys && forall id :: id in m ==> WellFormedEntry(p, w, id, m[id])
  }

  lemma {:induction false} PunishKeys(p: Params, m: Powers, from: nat, end: nat)
    requires ValidParams(p) && m.Keys == p.full.Keys
    ensures PunishViews(p, m, from, end).Keys == p.full.Keys
    decreases end
  {
    if end > from {
      PunishKeys(p, m, from, end - 1);
    }
  }

  /** After punishing, an entry is what it was or inactive since one of the punished views. */
  lemma {:induction false} PunishEntries(p: Params, m: Powers, from: nat, end: nat, id: nat)
    requires ValidParams(p) && m.Keys == p.full.Keys && id in m
    ensures var t := PunishViews(p, m, from, end);
            && id in t
            && (t[id] == m[id] || (t[id].reduced && t[id].power == p.notActive && from <= t[id].reduceView < end))
            && (m[id].reduced ==> t[id].reduced)
    decreases end
  {
    PunishKeys(p, m, from, end);
    if end > from {
      PunishKeys(p, m, from, end - 1);
      PunishEntries(p, m, from, end - 1, id);
    }
  }

  /** Every punished view's primary ends up inactive, no earlier than that view. */
  lemma {:induction false} PunishedPrimary(p: Params, m: Powers, from: nat, end: nat, v: nat)
    requires ValidParams(p) && m.Keys == p.full.Keys && from <= v < end
    ensures var t := PunishViews(p, m, from, end);
            var id := p.elect(v, PunishViews(p, m, from, v));
            id in t && t[id].reduced && v <= t[id].reduceView < end
    decreases end
  {
    PunishKeys(p, m, from, v);
    PunishKeys(p, m, from, end - 1);
    if v < end - 1 {
      PunishedPrimary(p, m, from, end - 1, v);
    }
  }

  /** The map of every view reached is well formed: exactly the validators, each at full power or
      inactive for less than the exclusion window. */
  lemma UnstableWellFormed(p: Params, stable: Powers, lastStable: nat, current: nat, w: nat, recovery: bool)
    requires ValidParams(p) && WellFormed(p, lastStable, stable)
    requires lastStable <= current <= w
    ensures WellFormed(p, w, Unstable(p, stable, lastStable, current, w, recovery))
  {
    var end := PunishEnd(w, recovery);
    if w > 0 {
      PunishKeys(p, stable, lastStable, end);
      forall id | id in stable
        ensures WellFormedEntry(p, w, id, Unstable(p, stable, lastStable, current, w, recovery)[id])
      {
        PunishEntries(p, stable, lastStable, end, id);
      }
    }
  }

  /** Every reduction in the map counts at view w. */
  ghost predicate StillReduced(p: Params, m: Powers, w: nat) {
    forall id :: id in m && m[id].reduced ==> m[id].reduceView < w < m[id].reduceView + p.exclude
  }

  /** A view below the current one takes the stable map as it is, so its map is well formed exactly
      when no reduction in the stable map has expired or lies ahead at that view. */
  lemma BackwardView(p: Params, stable: Powers, lastStable: nat, current: nat, w: nat, recovery: bool)
    requires ValidParams(p) && WellFormed(p, lastStable, stable) && w < current
    ensures WellFormed(p, w, Unstable(p, stable, lastStable, current, w, recovery))
            <==> StillReduced(p, stable, w)
  {
    forall id | id in stable
      ensures WellFormedEntry(p, w, id, stable[id])
              <==> (stable[id].reduced ==> stable[id].reduceView < w < stable[id].reduceView + p.exclude)
    {
      assert WellFormedEntry(p, lastStable, id, stable[id]);
    }
  }

  /** The primary of every failed view inside the exclusion window is inactive in the new view. Failed are
      all views from the last stable one up to the new one; in a recovery, up to the one before that. */
  lemma FailedPrimaryInactive(p: Params, stable: Powers, lastStable: nat, current: nat, w: nat, recovery: bool, v: nat)
    requires ValidParams(p) && WellFormed(p, lastStable, stable)
    requires lastStable <= v < w && (recovery ==> v + 1 < w) && current <= w < v + p.exclude
    ensures var id := p.elect(v, PunishViews(p, stable, lastStable, v));
            var m := Unstable(p, stable, lastStable, current, w, recovery);
            id in m && m[id].reduced && m[id].reduceView >= v && m[id].power == p.notActive
  {
    var end := PunishEnd(w, recovery);
    PunishKeys(p, stable, lastStable, end);
    PunishedPrimary(p, stable, lastStable, end, v);
    var id := p.elect(v, PunishViews(p, stable, lastStable, v));
    PunishEntries(p, stable, lastStable, end, id);
  }

  /** The node is elected for one of the views from..end-1. */
  ghost predicate ElectedIn(p: Params, m: Powers, from: nat, end: nat, id: nat) {
    exists v {:trigger PunishViews(p, m, from, v)} :: from <= v < end && p.elect(v, PunishViews(p, m, from, v)) == id
  }

  /** Punishing changes an entry if and only if its node was elected for a punished view. */
  lemma {:induction false} PunishedIff(p: Params, m: Powers, from: nat, end: nat, id: nat)
    requires ValidParams(p) && m.Keys == p.full.Keys && id in m && (m[id].reduced ==> m[id].reduceView < from)
    ensures id in PunishViews(p, m, from, end)
    ensures PunishViews(p, m, from, end)[id] != m[id] <==> ElectedIn(p, m, from, end, id)
    decreases end
  {
    PunishEntries(p, m, from, end, id);
    if end > from {
      var before := PunishViews(p, m, from, end - 1);
      PunishEntries(p, m, from, end - 1, id);
      PunishedIff(p, m, from, end - 1, id);
      assert ElectedIn(p, m, from, end, id) <==> ElectedIn(p, m, from, end - 1, id) || p.elect(end - 1, before) == id;
    }
  }

  /** Nobody else loses power: a node that was elected for no failed view keeps its entry, or is back at
      full power when its exclusion has expired. In a recovery the view before the new one has not failed. */
  lemma OthersKeepPower(p: Params, stable: Powers, lastStable: nat, current: nat, w: nat, recovery: bool, id: nat)
    requires ValidParams(p) && WellFormed(p, lastStable, stable) && lastStable <= current <= w && id in stable
    requires forall v :: lastStable <= v < w && (recovery ==> v + 1 < w) ==> p.elect(v, PunishViews(p, stable, lastStable, v)) != id
    ensures var m := Unstable(p, stable, lastStable, current, w, recovery);
            && id in m
            && (stable[id].reduced && w >= stable[id].reduceView + p.exclude && w > 0 ==> m[id] == Info(p.full[id], false, 0))
            && (!stable[id].reduced || w < stable[id].reduceView + p.exclude ==> m[id] == stable[id])
  {
    var end := PunishEnd(w, recovery);
    PunishKeys(p, stable, lastStable, end);
    PunishedIff(p, stable, lastStable, end, id);
  }

  /* ---------- the program ---------- */

  class ChainConfig {
    const p: Params
    var view: nat
    var lastStableView: nat
    var primaryID: nat
    var validatorDynamicInfoMap: Powers
    var lastStableValidatorDynamicInfoMap: Powers

    /** All that the methods need: the stable map holds the validators. */
    ghost predicate Usable()
      reads this
    {
      ValidParams(p) && lastStableValidatorDynamicInfoMap.Keys == p.full.Keys
    }

    ghost predicate Valid()
      reads this
    {
      && Usable()
      && lastStableView <= view
      && WellFormed(p, lastStableView, lastStableValidatorDynamicInfoMap)
      && WellFormed(p, view, validatorDynamicInfoMap)
    }

    /** A new epoch: view 0, everyone at full power. */
    constructor (p: Params)
      requires ValidParams(p)
      ensures Valid() && this.p == p && view == 0
    {
      this.p := p;
      view, lastStableView := 0, 0;
      validatorDynamicInfoMap := map id | id in p.full :: Info(p.full[id], false, 0);
      lastStableValidatorDynamicInfoMap := map id | id in p.full :: Info(p.full[id], false, 0);
      primaryID := p.elect(0, map id | id in p.full :: Info(p.full[id], false, 0));
    }

    /** punishAbnormalNodes. */
    method PunishAbnormalNodes(recovery: bool, w: nat, m: Powers) returns (r: Powers)
      requires ValidParams(p) && m.Keys == p.full.Keys
      ensures r == if w == 0 || w == lastStableView || w < view then m
                   else PunishViews(p, m, lastStableView, PunishEnd(w, recovery))
      ensures r.Keys == p.full.Keys
    {
      r := m;
      if w == 0 || w == lastStableView || w < view {
        return;
      }
      var v: nat := lastStableView;
      while v < w
        invariant r.Keys == p.full.Keys
        invariant lastStableView <= v && (v <= w || v == lastStableView)
        invariant r == PunishViews(p, m, lastStableView, if v <= PunishEnd(w, recovery) then v else PunishEnd(w, recovery))
      {
        if !(v == w - 1 && recovery) {
          var id := p.elect(v, r);
          if !(r[id].reduced && r[id].reduceView == v) {
            r := r[id := Info(p.notActive, true, v)];
          }
          assert r == Punish(p, v, PunishViews(p, m, lastStableView, v));
        }
        v := v + 1;
      }
    }

    /** recoverAbnormalNodes: visits the nodes in any order. */
    method RecoverAbnormalNodes(w: nat, m: Powers) returns (r: Powers)
      requires m.Keys == p.full.Keys
      ensures r == if w == 0 || w < view then m else Recover(p, w, m)
    {
      r := m;
      if w == 0 || w < view {
        return;
      }
      var todo := m.Keys;
      while todo != {}
        invariant todo <= m.Keys && r.Keys == m.Keys
        invariant forall id :: id in m ==> r[id] == if id in todo then m[id] else Recover(p, w, m)[id]
        decreases |todo|
      {
        var id :| id in todo;
        todo := todo - {id};
        if r[id].reduced && w >= r[id].reduceView + p.exclude {
          r := r[id := Info(p.full[id], false, 0)];
        }
      }
      assert r == Recover(p, w, m);
    }

    /** getUnstableValidatorDynamicInfoMap: the map of view w from a copy of the stable one. */
    method GetUnstable(w: nat, recovery: bool) returns (m: Powers)
      requires ValidParams(p) && lastStableValidatorDynamicInfoMap.Keys == p.full.Keys
      ensures m == Unstable(p, lastStableValidatorDynamicInfoMap, lastStableView, view, w, recovery)
    {
      m := PunishAbnormalNodes(recovery, w, lastStableValidatorDynamicInfoMap);
      m := RecoverAbnormalNodes(w, m);
    }

    /** setView and setViewWithRecovery. Forwards every map stays well formed; backwards exactly when
        no reduction of the stable map has expired or lies ahead. */
    method SetView(w: nat, recovery: bool)
      requires Usable()
      modifies this`view, this`validatorDynamicInfoMap, this`primaryID
      ensures Usable() && view == w
      ensures validatorDynamicInfoMap
           == Unstable(p, lastStableValidatorDynamicInfoMap, lastStableView, old(view), w, recovery)
      ensures w < old(view) ==> validatorDynamicInfoMap == lastStableValidatorDynamicInfoMap
      ensures primaryID == p.elect(w, validatorDynamicInfoMap)
      ensures old(Valid()) && w >= old(view) ==> Valid()
      ensures old(Valid()) && w < old(view) ==>
                (Valid() <==> lastStableView <= w && StillReduced(p, lastStableValidatorDynamicInfoMap, w))
    {
      if Valid() {
        if w >= view {
          UnstableWellFormed(p, lastStableValidatorDynamicInfoMap, lastStableView, view, w, recovery);
        } else {
          BackwardView(p, lastStableValidatorDynamicInfoMap, lastStableView, view, w, recovery);
        }
      }
      validatorDynamicInfoMap := GetUnstable(w, recovery);
      view := w;
      primaryID := p.elect(view, validatorDynamicInfoMap);
    }

    /** persistNewView: the view becomes stable with the map that the new view carries. View 0 keeps
        the stable map. */
    method PersistNewView(w: nat, recovery: bool, info: Powers)
      requires Usable()
      modifies this
      ensures view == w && lastStableView == w
      ensures lastStableValidatorDynamicInfoMap == if w > 0 then info else old(lastStableValidatorDynamicInfoMap)
      ensures validatorDynamicInfoMap == lastStableValidatorDynamicInfoMap
      ensures primaryID == p.elect(w, validatorDynamicInfoMap)
      ensures Usable() <==> w == 0 || info.Keys == p.full.Keys
      ensures Valid() <==> WellFormed(p, w, lastStableValidatorDynamicInfoMap)
    {
      lastStableView := w;
      validatorDynamicInfoMap := GetUnstable(w, recovery);
      view := w;
      if w != 0 {
        validatorDynamicInfoMap := info;
        lastStableValidatorDynamicInfoMap := info;
      }
      primaryID := p.elect(view, validatorDynamicInfoMap);
    }
  }

  /* ---------- path independence ---------- */

  /** The map after setting the views `ws` one after the other, starting in view `current`. */
  function Walk(p: Params, stable: Powers, lastStable: nat, current: nat, now: Powers, ws: seq<nat>, recovery: bool): Powers
    requires ValidParams(p) && stable.Keys == p.full.Keys
    decreases |ws|
  {
    if ws == [] then now
    else Walk(p, stable, lastStable, ws[0], Unstable(p, stable, lastStable, current, ws[0], recovery), ws[1..], recovery)
  }

  predicate Growing(current: nat, ws: seq<nat>) {
    (ws != [] ==> current <= ws[0]) && forall i :: 0 <= i < |ws| - 1 ==> ws[i] <= ws[i + 1]
  }

  /** Stepping through views or jumping to the last one gives the same map. */
  lemma {:induction false} PathIndependent(p: Params, stable: Powers, lastStable: nat, current: nat, now: Powers, ws: seq<nat>, recovery: bool)
    requires ValidParams(p) && stable.Keys == p.full.Keys && ws != [] && Growing(current, ws)
    ensures Walk(p, stable, lastStable, current, now, ws, recovery)
         == Unstable(p, stable, lastStable, current, ws[|ws| - 1], recovery)
    decreases |ws|
  {
    if |ws| > 1 {
      PathIndependent(p, stable, lastStable, ws[0], Unstable(p, stable, lastStable, current, ws[0], recovery), ws[1..], recovery);
      assert ws[1..][|ws| - 2] == ws[|ws| - 1];
      GrowingEnd(current, ws);
    }
  }

  lemma {:induction false} GrowingEnd(current: nat, ws: seq<nat>)
    requires ws != [] && Growing(current, ws)
    ensures current <= ws[0] <= ws[|ws| - 1]
    decreases |ws|
  {
    if |ws| > 1 {
      GrowingEnd(ws[0], ws[1..]);
    }
  }
}
