// The arithmetic of greedy CPU placement: every container takes its CPUs among the least
// loaded ones.  A load vector gives the number of placements on each CPU, by position; a
// choice of CPUs is a mask over the same positions.
//
// Two facts carry everything.  First, how many CPUs sit below a level h after a placement
// depends only on how many sat below h and below h - 1 before it (BelowPlaced), which makes
// the outcome independent of tie-breaking and of the order of the containers (Confluence).
// Second, the total load above a level is never larger than under any other choice of CPUs
// for the same containers (GreedyIsOptimal).
module Greedy {

  type Loads = seq<nat>
  type Mask = seq<bool>

  function Min(x: int, y: int): int { if x < y then x else y }

  function Max(x: int, y: int): int { if x < y then y else x }

  /** The number of CPUs chosen by a mask. */
  function Ones(t: Mask): nat {
    if t == [] then 0 else Ones(t[..|t|-1]) + if t[|t|-1] then 1 else 0
  }

  /** The number of CPUs whose load is smaller than h. */
  function Below(l: Loads, h: int): nat {
    if l == [] then 0 else Below(l[..|l|-1], h) + if l[|l|-1] < h then 1 else 0
  }

  /** The number of chosen CPUs whose load is smaller than h. */
  function ChosenBelow(l: Loads, t: Mask, h: int): nat
    requires |t| == |l|
  {
    if l == [] then 0
    else ChosenBelow(l[..|l|-1], t[..|l|-1], h) + if t[|l|-1] && l[|l|-1] < h then 1 else 0
  }

  /** The load above level h, summed over all CPUs. */
  function Excess(l: Loads, h: int): nat {
    if l == [] then 0 else Excess(l[..|l|-1], h) + Max(0, l[|l|-1] - h)
  }

  function Total(l: Loads): nat {
    if l == [] then 0 else Total(l[..|l|-1]) + l[|l|-1]
  }

  /** The load of the chosen CPUs. */
  function ChosenLoad(l: Loads, t: Mask): nat
    requires |t| == |l|
  {
    if l == [] then 0
    else ChosenLoad(l[..|l|-1], t[..|l|-1]) + if t[|l|-1] then l[|l|-1] else 0
  }

  /** One more placement on every chosen CPU. */
  function Bump(l: Loads, t: Mask): (r: Loads)
    requires |t| == |l|
    ensures |r| == |l|
  {
    seq(|l|, i requires 0 <= i < |l| => l[i] + if t[i] then 1 else 0)
  }

  /** How many CPUs a container with the given limit takes out of n: the loop that counts the
      limit down to zero never meets zero when the limit is negative. */
  function Share(limit: int, n: nat): (k: nat)
    ensures k <= n
  {
    if limit < 0 || n < limit then n else limit
  }

  ghost predicate LeastLoaded(l: Loads, t: Mask)
    requires |t| == |l|
  {
    forall i, j :: 0 <= i < |l| && 0 <= j < |l| && t[i] && !t[j] ==> l[i] <= l[j]
  }

  ghost predicate Chooses(l: Loads, limit: int, t: Mask) {
    |t| == |l| && Ones(t) == Share(limit, |l|)
  }

  ghost predicate PlacedBy(l: Loads, limit: int, t: Mask, l': Loads) {
    Chooses(l, limit, t) && LeastLoaded(l, t) && l' == Bump(l, t)
  }

  /** A container with this limit may turn the loads l into l' when its CPUs are taken from
      the front of a list sorted by load, however the sort orders equal loads. */
  ghost predicate Placed(l: Loads, limit: int, l': Loads) {
    exists t :: PlacedBy(l, limit, t, l')
  }

  /** The containers with these limits, placed one after the other. */
  ghost predicate Run(l: Loads, limits: seq<int>, l': Loads)
    decreases |limits|
  {
    if limits == [] then l' == l
    else
      var earlier, limit := limits[..|limits|-1], limits[|limits|-1];
      exists m :: Run(l, earlier, m) && Placed(m, limit, l')
  }

  ghost predicate AnyPlacedBy(l: Loads, limit: int, t: Mask, l': Loads) {
    Chooses(l, limit, t) && l' == Bump(l, t)
  }

  /** The same number of CPUs for the container, but any CPUs. */
  ghost predicate AnyPlaced(l: Loads, limit: int, l': Loads) {
    exists t :: AnyPlacedBy(l, limit, t, l')
  }

  ghost predicate AnyRun(l: Loads, limits: seq<int>, l': Loads)
    decreases |limits|
  {
    if limits == [] then l' == l
    else
      var earlier, limit := limits[..|limits|-1], limits[|limits|-1];
      exists m :: AnyRun(l, earlier, m) && AnyPlaced(m, limit, l')
  }

  // ----- Counting below a level -----------------------------------------------------------

  lemma {:induction false} ChosenBelowBounds(l: Loads, t: Mask, h: int)
    requires |t| == |l|
    ensures ChosenBelow(l, t, h) <= Ones(t) <= |t|
    ensures ChosenBelow(l, t, h) <= Below(l, h) <= |l|
  {
    if l != [] {
      ChosenBelowBounds(l[..|l|-1], t[..|l|-1], h);
    }
  }

  lemma {:induction false} BelowBump(l: Loads, t: Mask, h: int)
    requires |t| == |l|
    ensures Below(Bump(l, t), h) == Below(l, h) - ChosenBelow(l, t, h) + ChosenBelow(l, t, h - 1)
  {
    if l != [] {
      BelowBump(l[..|l|-1], t[..|l|-1], h);
      assert Bump(l, t)[..|l|-1] == Bump(l[..|l|-1], t[..|l|-1]);
    }
  }

  lemma {:induction false} ChosenAllBelow(l: Loads, t: Mask, h: int)
    requires |t| == |l|
    requires forall i :: 0 <= i < |l| && t[i] ==> l[i] < h
    ensures ChosenBelow(l, t, h) == Ones(t)
  {
    if l != [] {
      ChosenAllBelow(l[..|l|-1], t[..|l|-1], h);
    }
  }

  lemma {:induction false} BelowAllChosen(l: Loads, t: Mask, h: int)
    requires |t| == |l|
    requires forall i :: 0 <= i < |l| && l[i] < h ==> t[i]
    ensures ChosenBelow(l, t, h) == Below(l, h)
  {
    if l != [] {
      BelowAllChosen(l[..|l|-1], t[..|l|-1], h);
    }
  }

  /** Of the least loaded CPUs, as many as possible lie below any given level. */
  lemma LeastLoadedBelow(l: Loads, t: Mask, h: int)
    requires |t| == |l| && LeastLoaded(l, t)
    ensures ChosenBelow(l, t, h) == Min(Ones(t), Below(l, h))
  {
    ChosenBelowBounds(l, t, h);
    if forall i :: 0 <= i < |l| && t[i] ==> l[i] < h {
      ChosenAllBelow(l, t, h);
    } else {
      BelowAllChosen(l, t, h);
    }
  }

  /** The level count after a placement, from the counts at the level and just under it. */
  function Fill(x: int, y: int, k: int): int {
    x + y - if k < x then x else if y < k then y else k
  }

  lemma {:induction false} BelowMonotone(l: Loads, h: int)
    ensures Below(l, h - 1) <= Below(l, h) <= |l|
    ensures h <= 0 ==> Below(l, h) == 0
  {
    if l != [] {
      BelowMonotone(l[..|l|-1], h);
    }
  }

  lemma BelowPlaced(l: Loads, limit: int, l': Loads, h: int)
    requires Placed(l, limit, l')
    ensures |l'| == |l|
    ensures Below(l', h) == Fill(Below(l, h - 1), Below(l, h), Share(limit, |l|))
  {
    var t :| PlacedBy(l, limit, t, l');
    BelowBump(l, t, h);
    LeastLoadedBelow(l, t, h);
    LeastLoadedBelow(l, t, h - 1);
    BelowMonotone(l, h);
  }

  // ----- The outcome does not depend on order or ties --------------------------------------

  /** What a run makes of the count below h, computed from the starting counts and the limits
      alone. */
  function Predict(l: Loads, limits: seq<int>, h: int): int
    decreases |limits|
  {
    if limits == [] then Below(l, h)
    else
      var earlier := limits[..|limits|-1];
      Fill(Predict(l, earlier, h - 1), Predict(l, earlier, h), Share(limits[|limits|-1], |l|))
  }

  lemma {:induction false} RunPredicted(l: Loads, limits: seq<int>, l': Loads, h: int)
    requires Run(l, limits, l')
    ensures |l'| == |l|
    ensures Below(l', h) == Predict(l, limits, h)
    decreases |limits|
  {
    if limits != [] {
      var earlier := limits[..|limits|-1];
      var m :| Run(l, earlier, m) && Placed(m, limits[|limits|-1], l');
      RunPredicted(l, earlier, m, h);
      RunPredicted(l, earlier, m, h - 1);
      BelowPlaced(m, limits[|limits|-1], l', h);
    }
  }

  lemma {:induction false} PredictMonotone(l: Loads, limits: seq<int>, h: int)
    ensures Predict(l, limits, h - 1) <= Predict(l, limits, h)
    decreases |limits|
  {
    if limits == [] {
      BelowMonotone(l, h);
    } else {
      var earlier := limits[..|limits|-1];
      PredictMonotone(l, earlier, h);
      PredictMonotone(l, earlier, h - 1);
    }
  }

  lemma FillCommutes(x: int, y: int, z: int, j: int, k: int)
    requires x <= y <= z
    ensures Fill(Fill(x, y, j), Fill(y, z, j), k) == Fill(Fill(x, y, k), Fill(y, z, k), j)
  {
  }

  lemma SwapLastTwo(l: Loads, limits: seq<int>, j: int, k: int, h: int)
    ensures Predict(l, limits + [j] + [k], h) == Predict(l, limits + [k] + [j], h)
  {
    var jk, kj := limits + [j] + [k], limits + [k] + [j];
    assert jk[..|jk|-1] == limits + [j] && kj[..|kj|-1] == limits + [k];
    assert (limits + [j])[..|limits|] == limits && (limits + [k])[..|limits|] == limits;
    PredictMonotone(l, limits, h);
    PredictMonotone(l, limits, h - 1);
    FillCommutes(Predict(l, limits, h - 2), Predict(l, limits, h - 1), Predict(l, limits, h),
                 Share(j, |l|), Share(k, |l|));
  }

  /** Two prefixes with the same prediction keep it under a common last limit. */
  lemma PredictSnoc(l: Loads, a: seq<int>, b: seq<int>, k: int)
    requires forall h :: Predict(l, a, h) == Predict(l, b, h)
    ensures forall h :: Predict(l, a + [k], h) == Predict(l, b + [k], h)
  {
    assert (a + [k])[..|a|] == a && (b + [k])[..|b|] == b;
  }

  lemma {:induction false} MoveToEnd(l: Loads, a: seq<int>, k: int, b: seq<int>)
    ensures forall h :: Predict(l, a + [k] + b, h) == Predict(l, a + b + [k], h)
    decreases |b|
  {
    if b == [] {
      assert a + [k] + b == a + b + [k];
    } else {
      var c, j := b[..|b|-1], b[|b|-1];
      MoveToEnd(l, a, k, c);
      PredictSnoc(l, a + [k] + c, a + c + [k], j);
      assert a + [k] + c + [j] == a + [k] + b;
      assert a + c + [j] + [k] == a + b + [k];
      forall h ensures Predict(l, a + c + [k] + [j], h) == Predict(l, a + c + [j] + [k], h) {
        SwapLastTwo(l, a + c, k, j, h);
      }
    }
  }

  lemma OneLess(a: seq<int>, c: seq<int>, d: seq<int>, k: int, e: seq<int>)
    requires a == c + [k] && multiset(a) == multiset(d + [k] + e)
    ensures multiset(c) == multiset(d + e)
  {
    assert multiset(d + [k] + e) == multiset(d + e) + multiset{k};
    assert multiset(c) == multiset(a) - multiset{k};
    assert multiset(d + e) == multiset(d + [k] + e) - multiset{k};
  }

  lemma {:induction false} PredictPermuted(l: Loads, a: seq<int>, b: seq<int>)
    requires multiset(a) == multiset(b)
    ensures forall h :: Predict(l, a, h) == Predict(l, b, h)
    decreases |a|
  {
    if a == [] {
      assert |multiset(b)| == 0;
      assert b == [];
    } else {
      var c, k := a[..|a|-1], a[|a|-1];
      assert a == c + [k];
      assert k in multiset(b);
      var i :| 0 <= i < |b| && b[i] == k;
      var d, e := b[..i], b[i+1..];
      assert b == d + [k] + e;
      OneLess(a, c, d, k, e);
      PredictPermuted(l, c, d + e);
      PredictSnoc(l, c, d + e, k);
      MoveToEnd(l, d, k, e);
    }
  }

  // ----- Level counts and multisets of loads ------------------------------------------------

  lemma {:induction false} MultisetFromLevels(l: Loads, v: nat)
    ensures multiset(l)[v] == Below(l, v + 1) - Below(l, v)
  {
    if l != [] {
      MultisetFromLevels(l[..|l|-1], v);
      assert l == l[..|l|-1] + [l[|l|-1]];
    }
  }

  lemma {:induction false} LevelsFromMultiset(l: Loads, m: Loads, h: int)
    requires multiset(l) == multiset(m)
    ensures Below(l, h) == Below(m, h)
    decreases if h < 0 then 0 else h
  {
    BelowMonotone(l, h);
    BelowMonotone(m, h);
    if 0 < h {
      LevelsFromMultiset(l, m, h - 1);
      MultisetFromLevels(l, h - 1);
      MultisetFromLevels(m, h - 1);
    }
  }

  lemma SameLevelsSameMultiset(l: Loads, m: Loads)
    requires forall h :: Below(l, h) == Below(m, h)
    ensures multiset(l) == multiset(m)
  {
    forall v: nat ensures multiset(l)[v] == multiset(m)[v] {
      MultisetFromLevels(l, v);
      MultisetFromLevels(m, v);
    }
  }

  lemma {:induction false} PredictCongruent(l: Loads, m: Loads, limits: seq<int>, h: int)
    requires multiset(l) == multiset(m)
    ensures |l| == |m|
    ensures Predict(l, limits, h) == Predict(m, limits, h)
    decreases |limits|
  {
    assert |multiset(l)| == |l| && |multiset(m)| == |m|;
    if limits == [] {
      LevelsFromMultiset(l, m, h);
    } else {
      PredictCongruent(l, m, limits[..|limits|-1], h);
      PredictCongruent(l, m, limits[..|limits|-1], h - 1);
    }
  }

  /** Whatever order the containers are visited in and however the sort orders equal loads,
      the loads at the end are the same up to the naming of the CPUs. */
  lemma Confluence(l: Loads, m: Loads, limits: seq<int>, limits': seq<int>, l': Loads, m': Loads)
    requires multiset(l) == multiset(m)
    requires multiset(limits) == multiset(limits')
    requires Run(l, limits, l') && Run(m, limits', m')
    ensures multiset(l') == multiset(m')
  {
    forall h ensures Below(l', h) == Below(m', h) {
      RunPredicted(l, limits, l', h);
      RunPredicted(m, limits', m', h);
      PredictPermuted(l, limits, limits');
      PredictCongruent(l, m, limits', h);
    }
    SameLevelsSameMultiset(l', m');
  }

  // ----- Optimality ------------------------------------------------------------------------

  lemma {:induction false} ExcessBump(l: Loads, t: Mask, h: int)
    requires |t| == |l|
    ensures Excess(Bump(l, t), h) == Excess(l, h) + Ones(t) - ChosenBelow(l, t, h)
  {
    if l != [] {
      ExcessBump(l[..|l|-1], t[..|l|-1], h);
      assert Bump(l, t)[..|l|-1] == Bump(l[..|l|-1], t[..|l|-1]);
    }
  }

  lemma {:induction false} ExcessStep(l: Loads, h: int)
    ensures Excess(l, h - 1) == Excess(l, h) + |l| - Below(l, h)
  {
    if l != [] {
      ExcessStep(l[..|l|-1], h);
    }
  }

  /** m has at least as much load above every level as l: l is the better balanced one. */
  ghost predicate NoWorse(l: Loads, m: Loads) {
    |l| == |m| && forall h :: Excess(l, h) <= Excess(m, h)
  }

  lemma PlacedNoWorse(l: Loads, m: Loads, limit: int, l': Loads, m': Loads)
    requires NoWorse(l, m)
    requires Placed(l, limit, l') && AnyPlaced(m, limit, m')
    ensures NoWorse(l', m')
  {
    var t :| PlacedBy(l, limit, t, l');
    var u :| AnyPlacedBy(m, limit, u, m');
    forall h ensures Excess(l', h) <= Excess(m', h) {
      ExcessBump(l, t, h);
      ExcessBump(m, u, h);
      LeastLoadedBelow(l, t, h);
      ChosenBelowBounds(m, u, h);
      ExcessStep(l, h);
      ExcessStep(m, h);
      assert Excess(l, h) <= Excess(m, h) && Excess(l, h - 1) <= Excess(m, h - 1);
    }
  }

  lemma {:induction false} SameOrderNoWorse(l: Loads, limits: seq<int>, l': Loads, m': Loads)
    requires Run(l, limits, l') && AnyRun(l, limits, m')
    ensures NoWorse(l', m')
    decreases |limits|
  {
    if limits != [] {
      var earlier, k := limits[..|limits|-1], limits[|limits|-1];
      var a :| Run(l, earlier, a) && Placed(a, k, l');
      var b :| AnyRun(l, earlier, b) && AnyPlaced(b, k, m');
      SameOrderNoWorse(l, earlier, a, b);
      PlacedNoWorse(a, b, k, l', m');
    }
  }

  lemma {:induction false} OnesUpdate(t: Mask, j: nat)
    requires j < |t| && !t[j]
    ensures Ones(t[j := true]) == Ones(t) + 1
  {
    var n := |t| - 1;
    if j < n {
      OnesUpdate(t[..n], j);
      assert t[j := true][..n] == t[..n][j := true];
    } else {
      assert t[j := true][..n] == t[..n];
    }
  }

  lemma {:induction false} AllChosen(t: Mask)
    requires forall i :: 0 <= i < |t| ==> t[i]
    ensures Ones(t) == |t|
  {
    if t != [] {
      AllChosen(t[..|t|-1]);
    }
  }

  lemma {:induction false} NoneChosen(t: Mask)
    requires forall i :: 0 <= i < |t| ==> !t[i]
    ensures Ones(t) == 0
  {
    if t != [] {
      NoneChosen(t[..|t|-1]);
    }
  }

  /** There always are k least loaded CPUs. */
  lemma {:induction false} LeastLoadedExists(l: Loads, k: nat) returns (t: Mask)
    requires k <= |l|
    ensures |t| == |l| && Ones(t) == k && LeastLoaded(l, t)
  {
    if k == 0 {
      t := seq(|l|, _ => false);
      NoneChosen(t);
    } else {
      var s := LeastLoadedExists(l, k - 1);
      if forall i :: 0 <= i < |s| ==> s[i] {
        AllChosen(s);
        assert false;
      }
      var j: nat :| j < |s| && !s[j];
      for n := 0 to |l|
        invariant j < |s| && !s[j]
        invariant forall i :: 0 <= i < n && !s[i] ==> l[j] <= l[i]
      {
        if !s[n] && l[n] < l[j] {
          j := n;
        }
      }
      OnesUpdate(s, j);
      t := s[j := true];
    }
  }

  lemma {:induction false} RunExists(l: Loads, limits: seq<int>) returns (l': Loads)
    ensures |l'| == |l| && Run(l, limits, l')
    decreases |limits|
  {
    l' := l;
    if limits != [] {
      var limit := limits[|limits|-1];
      var m := RunExists(l, limits[..|limits|-1]);
      var t := LeastLoadedExists(m, Share(limit, |m|));
      l' := Bump(m, t);
      assert PlacedBy(m, limit, t, l');
      assert Placed(m, limit, l');
    }
  }

  lemma {:induction false} ExcessFromMultiset(l: Loads, m: Loads, h: int, top: int)
    requires multiset(l) == multiset(m) && |l| == |m| && h <= top
    requires forall i :: 0 <= i < |l| ==> l[i] <= top && m[i] <= top
    ensures Excess(l, h) == Excess(m, h)
    decreases top - h
  {
    if h == top {
      NoExcess(l, h);
      NoExcess(m, h);
    } else {
      ExcessFromMultiset(l, m, h + 1, top);
      ExcessStep(l, h + 1);
      ExcessStep(m, h + 1);
      LevelsFromMultiset(l, m, h + 1);
    }
  }

  lemma {:induction false} UpperBound(l: Loads) returns (top: nat)
    ensures forall i :: 0 <= i < |l| ==> l[i] <= top
  {
    if l == [] {
      top := 0;
    } else {
      var t := UpperBound(l[..|l|-1]);
      top := Max(t, l[|l|-1]);
    }
  }

  lemma SameMultisetSameExcess(l: Loads, m: Loads, h: int)
    requires multiset(l) == multiset(m)
    ensures |l| == |m| && Excess(l, h) == Excess(m, h)
  {
    assert |multiset(l)| == |l| && |multiset(m)| == |m|;
    var a := UpperBound(l);
    var b := UpperBound(m);
    ExcessFromMultiset(l, m, h, Max(h, Max(a, b)));
  }

  /** No other way of giving the same containers the same numbers of CPUs, in whatever order,
      leaves less load above any level: from any starting loads the greedy result is the best
      balanced one there is. */
  lemma GreedyIsOptimal(l: Loads, limits: seq<int>, l': Loads, limits': seq<int>, m': Loads)
    requires multiset(limits) == multiset(limits')
    requires Run(l, limits, l') && AnyRun(l, limits', m')
    ensures NoWorse(l', m')
  {
    var k' := RunExists(l, limits');
    SameOrderNoWorse(l, limits', k', m');
    Confluence(l, l, limits, limits', l', k');
    SameMultisetSameExcess(l', k', 0);
    forall h ensures Excess(l', h) == Excess(k', h) {
      SameMultisetSameExcess(l', k', h);
    }
  }

  ghost predicate AtMost(l: Loads, cap: int) { forall i :: 0 <= i < |l| ==> l[i] <= cap }

  lemma {:induction false} NoExcess(l: Loads, h: int)
    ensures Excess(l, h) == 0 <==> AtMost(l, h)
  {
    if l != [] {
      NoExcess(l[..|l|-1], h);
      assert forall i :: 0 <= i < |l| - 1 ==> l[i] == l[..|l|-1][i];
    }
  }

  /** In particular the busiest CPU is no busier than under any other assignment. */
  lemma NoWorseBusiest(l: Loads, m: Loads, cap: int)
    requires NoWorse(l, m) && AtMost(m, cap)
    ensures AtMost(l, cap)
  {
    NoExcess(m, cap);
    NoExcess(l, cap);
  }

  /** The CPUs a container gets have the least total load of all choices of that many. */
  lemma ChoiceIsCheapest(l: Loads, limit: int, t: Mask, l': Loads, u: Mask)
    requires PlacedBy(l, limit, t, l')
    requires Chooses(l, limit, u)
    ensures ChosenLoad(l, t) <= ChosenLoad(l, u)
  {
    if i: nat :| i < |t| && t[i] {
      var j := HeaviestChosen(l, t, i);
      OffsetLoad(l, t, u, l[j]);
    } else {
      NothingChosen(l, t);
    }
  }

  lemma {:induction false} HeaviestChosen(l: Loads, t: Mask, i: nat) returns (j: nat)
    requires |t| == |l| && i < |l| && t[i]
    ensures j < |l| && t[j] && forall i :: 0 <= i < |l| && t[i] ==> l[i] <= l[j]
  {
    j := i;
    for n := 0 to |l|
      invariant j < |l| && t[j]
      invariant forall i :: 0 <= i < n && t[i] ==> l[i] <= l[j]
    {
      if t[n] && l[j] < l[n] {
        j := n;
      }
    }
  }

  lemma {:induction false} NothingChosen(l: Loads, t: Mask)
    requires |t| == |l| && forall i :: 0 <= i < |t| ==> !t[i]
    ensures ChosenLoad(l, t) == 0
  {
    if l != [] {
      NothingChosen(l[..|l|-1], t[..|l|-1]);
    }
  }

  /** Measured from the level h of the heaviest chosen CPU, the chosen CPUs are the cheapest
      position by position. */
  lemma {:induction false} OffsetLoad(l: Loads, t: Mask, u: Mask, h: int)
    requires |t| == |l| == |u|
    requires forall i :: 0 <= i < |l| ==> (l[i] < h ==> t[i]) && (t[i] ==> l[i] <= h)
    ensures ChosenLoad(l, t) - h * Ones(t) <= ChosenLoad(l, u) - h * Ones(u)
  {
    if l != [] {
      var n := |l| - 1;
      OffsetLoad(l[..n], t[..n], u[..n], h);
      assert h * (Ones(t[..n]) + 1) == h * Ones(t[..n]) + h;
      assert h * (Ones(u[..n]) + 1) == h * Ones(u[..n]) + h;
    }
  }

  // ----- The gap between the busiest and the idlest CPU --------------------------------------

  ghost predicate GapAtMost(l: Loads, d: int) {
    forall i, j :: 0 <= i < |l| && 0 <= j < |l| ==> l[i] - l[j] <= d
  }

  /** A placement never widens the gap beyond what it was, or one. */
  lemma {:induction false} GapKept(l: Loads, limits: seq<int>, l': Loads, d: int)
    requires Run(l, limits, l') && 1 <= d && GapAtMost(l, d)
    ensures |l'| == |l| && GapAtMost(l', d)
    decreases |limits|
  {
    if limits != [] {
      var m :| Run(l, limits[..|limits|-1], m) && Placed(m, limits[|limits|-1], l');
      GapKept(l, limits[..|limits|-1], m, d);
    }
  }

  /** The number of placements a run makes. */
  function Placements(limits: seq<int>, n: nat): nat {
    if limits == [] then 0
    else Placements(limits[..|limits|-1], n) + Share(limits[|limits|-1], n)
  }

  lemma {:induction false} TotalBump(l: Loads, t: Mask)
    requires |t| == |l|
    ensures Total(Bump(l, t)) == Total(l) + Ones(t)
  {
    if l != [] {
      TotalBump(l[..|l|-1], t[..|l|-1]);
      assert Bump(l, t)[..|l|-1] == Bump(l[..|l|-1], t[..|l|-1]);
    }
  }

  lemma {:induction false} TotalOfRun(l: Loads, limits: seq<int>, l': Loads)
    requires Run(l, limits, l')
    ensures |l'| == |l| && Total(l') == Total(l) + Placements(limits, |l|)
    decreases |limits|
  {
    if limits != [] {
      var m :| Run(l, limits[..|limits|-1], m) && Placed(m, limits[|limits|-1], l');
      TotalOfRun(l, limits[..|limits|-1], m);
      var t :| PlacedBy(m, limits[|limits|-1], t, l');
      TotalBump(m, t);
    }
  }

  lemma {:induction false} TotalBounds(l: Loads, lo: nat, hi: nat)
    requires forall i :: 0 <= i < |l| ==> lo <= l[i] <= hi
    ensures lo * |l| <= Total(l) <= hi * |l|
  {
    if l != [] {
      var n := |l| - 1;
      TotalBounds(l[..n], lo, hi);
      assert lo * |l| == lo * n + lo && hi * |l| == hi * n + hi;
    }
  }

  /** Total as an upper bound with one CPU known to lie strictly lower. */
  lemma {:induction false} TotalStrict(l: Loads, i: nat, hi: nat)
    requires i < |l| && l[i] < hi && forall j :: 0 <= j < |l| ==> l[j] <= hi
    ensures Total(l) < hi * |l|
  {
    var n := |l| - 1;
    assert hi * |l| == hi * n + hi;
    if i < n {
      TotalStrict(l[..n], i, hi);
    } else {
      TotalBounds(l[..n], 0, hi);
    }
  }

  /** The busiest and the idlest CPU when the gap is at most one. */
  lemma EvenSpread(l: Loads, p: nat) returns (low: nat, top: nat)
    requires l != [] && Total(l) == p && GapAtMost(l, 1)
    ensures low < |l| && top < |l|
    ensures l[low] == p / |l| && l[top] == (p + |l| - 1) / |l|
    ensures forall i :: 0 <= i < |l| ==> l[low] <= l[i] <= l[top]
  {
    var n := |l|;
    top := Heaviest(l);
    low := Lightest(l);
    TotalBounds(l, l[low], l[top]);
    if l[low] < l[top] {
      TotalStrict(l, low, l[top]);
      TotalStrictly(l, top, l[low]);
      Quotients(p, n, l[low]);
    } else {
      DivExact(p, n, l[low]);
    }
  }

  /** The same with the bound from below. */
  lemma {:induction false} TotalStrictly(l: Loads, i: nat, lo: nat)
    requires i < |l| && lo < l[i] && forall j :: 0 <= j < |l| ==> lo <= l[j]
    ensures lo * |l| < Total(l)
  {
    var n := |l| - 1;
    assert lo * |l| == lo * n + lo;
    if i < n {
      TotalStrictly(l[..n], i, lo);
    } else {
      LowerTotal(l[..n], lo);
    }
  }

  lemma {:induction false} LowerTotal(l: Loads, lo: nat)
    requires forall j :: 0 <= j < |l| ==> lo <= l[j]
    ensures lo * |l| <= Total(l)
  {
    if l != [] {
      var n := |l| - 1;
      LowerTotal(l[..n], lo);
      assert lo * |l| == lo * n + lo;
    }
  }

  /** Every load is the average rounded down or up, and both occur. */
  ghost predicate Even(l: Loads, p: nat)
    requires l != []
  {
    var n := |l|;
    && (forall i :: 0 <= i < n ==> p / n <= l[i] <= (p + n - 1) / n)
    && (exists i :: 0 <= i < n && l[i] == (p + n - 1) / n)
    && (exists i :: 0 <= i < n && l[i] == p / n)
  }

  lemma SpreadIsEven(l: Loads, p: nat)
    requires l != [] && Total(l) == p && GapAtMost(l, 1)
    ensures Even(l, p)
  {
    var low, top := EvenSpread(l, p);
  }

  /** With no pinned containers, n CPUs and p placements in all, the busiest CPU carries
      exactly p / n rounded up, and the idlest p / n rounded down. */
  lemma BusiestIsCeiling(n: nat, limits: seq<int>, l: Loads)
    requires 0 < n && Run(seq(n, _ => 0), limits, l)
    ensures |l| == n && Even(l, Placements(limits, n))
  {
    var zero: Loads := seq(n, _ => 0);
    TotalBounds(zero, 0, 0);
    TotalOfRun(zero, limits, l);
    GapKept(zero, limits, l, 1);
    SpreadIsEven(l, Placements(limits, n));
  }

  lemma Heaviest(l: Loads) returns (j: nat)
    requires l != []
    ensures j < |l| && forall i :: 0 <= i < |l| ==> l[i] <= l[j]
  {
    j := HeaviestChosen(l, seq(|l|, _ => true), 0);
  }

  lemma Lightest(l: Loads) returns (j: nat)
    requires l != []
    ensures j < |l| && forall i :: 0 <= i < |l| ==> l[j] <= l[i]
  {
    j := 0;
    for n := 0 to |l|
      invariant j < |l| && forall i :: 0 <= i < n ==> l[j] <= l[i]
    {
      if l[n] < l[j] {
        j := n;
      }
    }
  }

  lemma Quotients(p: nat, n: nat, q: nat)
    requires 0 < n && q * n < p < (q + 1) * n
    ensures p / n == q && (p + n - 1) / n == q + 1
  {
    DivideBy(p, n, q, p - q * n);
    assert p + n - 1 == (q + 1) * n + (p - q * n - 1) by { assert (q + 1) * n == q * n + n; }
    DivideBy(p + n - 1, n, q + 1, p - q * n - 1);
  }

  lemma DivExact(p: nat, n: nat, q: nat)
    requires 0 < n && p == q * n
    ensures p / n == q && (p + n - 1) / n == q
  {
    DivideBy(p, n, q, 0);
    DivideBy(p + n - 1, n, q, n - 1);
  }

  lemma DivideBy(p: nat, n: nat, q: nat, r: nat)
    requires 0 < n && p == q * n + r && r < n
    ensures p / n == q
  {
    var a, b := p / n, p % n;
    assert p == a * n + b;
    TimesMonotone(a + 1, q, n);
    TimesMonotone(q + 1, a, n);
  }

  lemma TimesMonotone(a: nat, b: nat, n: nat)
    ensures a <= b ==> a * n <= b * n
  {
  }
}
