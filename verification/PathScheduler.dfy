/**
 The smooth weighted round-robin scheduler that spreads packets over the paths of a
 multipath stream. A path's weight is inversely proportional to its RTT, and the
 scheduler promises that dispatch counts follow the ratio of the weights.
 */
module PathScheduler {
  import opened Common

  /** Path identifiers are bytes. */
  type PathId = n: int | 0 <= n < 256

  datatype PathState = PathState(weight: int, current: int)

  datatype Table = Table(paths: map<PathId, PathState>, totalWeight: int)

  /** `round()` on a non-negative value: halves go away from zero. */
  function Round(x: real): int
  {
    (x + 0.5).Floor
  }

  /** The weight of a path whose latest RTT sample is `rtt` milliseconds. */
  function WeightOf(rtt: real): (w: int)
    ensures 1 <= w <= 1000
  {
    var clamped := if rtt < 1.0 then 1.0 else rtt;
    var scaled := 1000.0 / clamped;
    assert scaled <= 1000.0 by { QuotientAntitone(1.0, clamped); }
    if Round(scaled) < 1 then 1 else Round(scaled)
  }

  lemma QuotientAntitone(a: real, b: real)
    requires 0.0 < a <= b
    ensures 0.0 < 1000.0 / b <= 1000.0 / a
  {
    var x, y := 1000.0 / a, 1000.0 / b;
    assert x * a == 1000.0 && y * b == 1000.0;
    if y > x {
      GreaterProduct(x, a, y, b);
    }
  }

  lemma GreaterProduct(x: real, a: real, y: real, b: real)
    requires 0.0 < x < y && 0.0 < a <= b
    ensures x * a < y * b
  {
    assert x * a < y * a <= y * b;
  }

  /**
   Inverse proportionality, without division: between 1 ms and 2000 ms the product of weight and RTT is 1000
   up to half an RTT, the rounding; faster paths have weight 1000 and slower ones weight 1.
   */
  predicate IsInverse(w: int, rtt: real)
  {
    && (rtt <= 1.0 ==> w == 1000)
    && (1.0 <= rtt <= 2000.0 ==> 2.0 * (w as real * rtt - 1000.0) <= rtt && 2.0 * (1000.0 - w as real * rtt) < rtt)
    && (rtt >= 2000.0 ==> w == 1)
  }

  lemma WeightIsInverse(rtt: real)
    ensures IsInverse(WeightOf(rtt), rtt)
  {
    if rtt >= 1.0 {
      var q := 1000.0 / rtt;
      assert q * rtt == 1000.0;
      var w := Round(q);
      if rtt <= 2000.0 {
        AtLeastHalf(rtt, q);
        RoundedProduct(w, q, rtt);
      } else {
        BelowHalf(rtt, q);
      }
    }
  }

  lemma AtLeastHalf(rtt: real, q: real)
    requires 0.0 < rtt <= 2000.0 && q * rtt == 1000.0
    ensures q >= 0.5
  {
    if q < 0.5 {
      SmallProduct(q, rtt);
    }
  }

  lemma SmallProduct(q: real, rtt: real)
    requires 0.0 < rtt <= 2000.0 && q < 0.5
    ensures q * rtt < 1000.0
  {
    assert (0.5 - q) * rtt > 0.0;
  }

  lemma BelowHalf(rtt: real, q: real)
    requires rtt > 2000.0 && q * rtt == 1000.0
    ensures 0.0 < q < 0.5
  {
    if q >= 0.5 {
      LargeProduct(q, rtt);
    } else if q <= 0.0 {
      NonPositive(q, rtt);
    }
  }

  lemma LargeProduct(q: real, rtt: real)
    requires rtt > 2000.0 && q >= 0.5
    ensures q * rtt > 1000.0
  {
    assert (q - 0.5) * rtt >= 0.0;
  }

  lemma NonPositive(q: real, rtt: real)
    requires rtt > 0.0 && q <= 0.0
    ensures q * rtt <= 0.0
  {
  }

  lemma RoundedProduct(w: int, q: real, rtt: real)
    requires rtt > 0.0 && q * rtt == 1000.0 && w as real <= q + 0.5 < w as real + 1.0
    ensures 2.0 * (w as real * rtt - 1000.0) <= rtt && 2.0 * (1000.0 - w as real * rtt) < rtt
  {
    RealProduct(w as real, q, rtt);
  }

  lemma RealProduct(x: real, q: real, rtt: real)
    requires rtt > 0.0 && q * rtt == 1000.0 && x <= q + 0.5 < x + 1.0
    ensures 2.0 * (x * rtt - 1000.0) <= rtt && 2.0 * (1000.0 - x * rtt) < rtt
  {
    var product := x * rtt;
    var up, down := q + 0.5 - x, x + 0.5 - q;
    PositiveTimes(up, rtt);
    PositiveTimes(down, rtt);
    assert up * rtt == 1000.0 + 0.5 * rtt - product;
    assert down * rtt == product + 0.5 * rtt - 1000.0;
  }

  lemma PositiveTimes(a: real, r: real)
    requires r > 0.0
    ensures a >= 0.0 ==> a * r >= 0.0
    ensures a > 0.0 ==> a * r > 0.0
  {
  }

  /** A faster path never gets a smaller weight. */
  lemma WeightAntitone(fast: real, slow: real)
    requires fast <= slow
    ensures WeightOf(slow) <= WeightOf(fast)
  {
    QuotientAntitone(if fast < 1.0 then 1.0 else fast, if slow < 1.0 then 1.0 else slow);
  }

  // ---------- The three operations on values ----------

  function AfterUpdate(t: Table, id: PathId, rtt: real): Table
  {
    var w := WeightOf(rtt);
    if id in t.paths then
      Table(t.paths[id := PathState(w, t.paths[id].current)], t.totalWeight + (w - t.paths[id].weight))
    else
      Table(t.paths[id := PathState(w, 0)], t.totalWeight + w)
  }

  function AfterRemove(t: Table, id: PathId): Table
  {
    if id in t.paths then Table(t.paths - {id}, t.totalWeight - t.paths[id].weight) else t
  }

  /** The first half of a selection: every path earns its weight. */
  function Raised(t: Table): map<PathId, PathState>
  {
    map id | id in t.paths :: PathState(t.paths[id].weight, t.paths[id].current + t.paths[id].weight)
  }

  predicate IsMaximal(m: map<PathId, PathState>, best: PathId)
  {
    best in m && forall other :: other in m ==> m[other].current <= m[best].current
  }

  /**
   Ties are broken by hash-map iteration order, so any path of maximal credit may be the
   one that is selected.
   */
  predicate CanPick(t: Table, id: PathId)
  {
    IsMaximal(Raised(t), id)
  }

  /** The second half: the selected path pays the total weight. */
  function Picked(t: Table, id: PathId): Table
    requires id in t.paths
  {
    var r := Raised(t);
    t.(paths := r[id := PathState(r[id].weight, r[id].current - t.totalWeight)])
  }

  // ---------- Invariants ----------

  ghost function Weights(t: Table): map<PathId, int>
  {
    map id | id in t.paths :: t.paths[id].weight
  }

  ghost function Currents(paths: map<PathId, PathState>): map<PathId, int>
  {
    map id | id in paths :: paths[id].current
  }

  ghost predicate Valid(t: Table)
  {
    && t.totalWeight == Sum(Weights(t))
    && forall id :: id in t.paths ==> 1 <= t.paths[id].weight <= 1000
  }

  /** Credit is conserved, and no path is a whole round in debt. */
  ghost predicate Balanced(t: Table)
  {
    && Sum(Currents(t.paths)) == 0
    && forall id :: id in t.paths ==> t.paths[id].current > -t.totalWeight
  }

  lemma UpdateKeepsValid(t: Table, id: PathId, rtt: real)
    requires Valid(t)
    ensures Valid(AfterUpdate(t, id, rtt))
    ensures Sum(Currents(AfterUpdate(t, id, rtt).paths)) == Sum(Currents(t.paths))
  {
    var u := AfterUpdate(t, id, rtt);
    SumUpdate(Weights(t), id, WeightOf(rtt));
    assert Weights(u) == Weights(t)[id := WeightOf(rtt)];
    SumUpdate(Currents(t.paths), id, u.paths[id].current);
    assert Currents(u.paths) == Currents(t.paths)[id := u.paths[id].current];
  }

  /** Removing a path takes its credit or debt out of the system. */
  lemma RemoveKeepsValid(t: Table, id: PathId)
    requires Valid(t)
    ensures Valid(AfterRemove(t, id))
    ensures Sum(Currents(AfterRemove(t, id).paths)) ==
            Sum(Currents(t.paths)) - (if id in t.paths then t.paths[id].current else 0)
  {
    if id in t.paths {
      var u := AfterRemove(t, id);
      SumSplit(Weights(t), id);
      assert Weights(u) == Weights(t) - {id};
      SumSplit(Currents(t.paths), id);
      assert Currents(u.paths) == Currents(t.paths) - {id};
    }
  }

  /** Raising hands out exactly one total weight. */
  lemma RaisedSum(t: Table)
    requires Valid(t)
    ensures Sum(Currents(Raised(t))) == Sum(Currents(t.paths)) + t.totalWeight
  {
    SumAdd(Currents(t.paths), Weights(t), Currents(Raised(t)));
  }

  lemma PickKeepsValid(t: Table, id: PathId)
    requires Valid(t) && id in t.paths
    ensures Valid(Picked(t, id))
    ensures Sum(Currents(Picked(t, id).paths)) == Sum(Currents(t.paths))
  {
    var u := Picked(t, id);
    assert Weights(u) == Weights(t);
    RaisedSum(t);
    var r := Currents(Raised(t));
    SumUpdate(r, id, u.paths[id].current);
    assert Currents(u.paths) == r[id := u.paths[id].current];
  }

  lemma TotalBounds(t: Table)
    requires Valid(t)
    ensures |t.paths| <= t.totalWeight <= 1000 * |t.paths|
  {
    var ones: map<PathId, int> := map i | i in t.paths :: 1;
    var caps: map<PathId, int> := map i | i in t.paths :: 1000;
    assert ones.Keys == caps.Keys == t.paths.Keys;
    SumConstant(ones, 1);
    SumConstant(caps, 1000);
    SumMonotone(ones, Weights(t));
    SumMonotone(Weights(t), caps);
  }

  /** In a balanced table the selected path has positive credit before it pays. */
  lemma PickedCreditPositive(t: Table, id: PathId)
    requires Valid(t) && CanPick(t, id) && Sum(Currents(t.paths)) == 0
    ensures Raised(t)[id].current >= 1
    ensures t.totalWeight >= 1
  {
    var zero: map<PathId, int> := map i | i in t.paths :: 0;
    SumConstant(zero, 0);
    TotalBounds(t);
    assert id in t.paths.Keys;
    RaisedSum(t);
    if Raised(t)[id].current < 1 {
      SumMonotone(Currents(Raised(t)), zero);
    }
  }

  lemma PickKeepsBalanced(t: Table, id: PathId)
    requires Valid(t) && Balanced(t) && CanPick(t, id)
    ensures Balanced(Picked(t, id))
  {
    PickKeepsValid(t, id);
    PickedCreditPositive(t, id);
  }

  lemma PickKeeps(t: Table, id: PathId)
    requires Valid(t) && CanPick(t, id)
    ensures Valid(Picked(t, id))
    ensures Balanced(t) ==> Balanced(Picked(t, id))
  {
    PickKeepsValid(t, id);
    if Balanced(t) {
      PickKeepsBalanced(t, id);
    }
  }

  // ---------- Whole runs ----------

  /** The table after a run of selections; earlier selections come first. */
  function Run(t: Table, picks: seq<PathId>): (u: Table)
    requires forall p :: p in picks ==> p in t.paths
    ensures u.paths.Keys == t.paths.Keys && u.totalWeight == t.totalWeight
  {
    if picks == [] then t else Picked(Run(t, picks[..|picks| - 1]), picks[|picks| - 1])
  }

  /** Every selection in the run was allowed when it was made. */
  predicate IsRun(t: Table, picks: seq<PathId>)
  {
    if picks == [] then true
    else
      && IsRun(t, picks[..|picks| - 1])
      && (forall p :: p in picks ==> p in t.paths)
      && CanPick(Run(t, picks[..|picks| - 1]), picks[|picks| - 1])
  }

  lemma {:induction false} RunPaths(t: Table, picks: seq<PathId>)
    requires IsRun(t, picks)
    ensures forall p :: p in picks ==> p in t.paths
  {
  }

  /** How often `id` was selected. */
  ghost function Times(picks: seq<PathId>, id: PathId): nat
  {
    multiset(picks)[id]
  }

  lemma TimesSnoc(picks: seq<PathId>, last: PathId, id: PathId)
    ensures Times(picks + [last], id) == Times(picks, id) + (if last == id then 1 else 0)
  {
  }

  /** Credit is a ledger: `T` shares earned, one total weight paid per selection. */
  lemma {:induction false} Ledger(t: Table, picks: seq<PathId>, id: PathId)
    requires forall p :: p in picks ==> p in t.paths
    requires id in t.paths
    ensures Run(t, picks).paths[id].weight == t.paths[id].weight
    ensures Run(t, picks).paths[id].current ==
            t.paths[id].current + |picks| * t.paths[id].weight - Times(picks, id) * t.totalWeight
  {
    if picks == [] {
    } else {
      var n := |picks| - 1;
      var init, last := picks[..n], picks[n];
      Ledger(t, init, id);
      assert picks == init + [last];
      TimesSnoc(init, last, id);
      OneMore(n, t.paths[id].weight);
      OneMore(Times(init, id), t.totalWeight);
      var before := Run(t, init);
      assert Run(t, picks) == Picked(before, last);
      assert Run(t, picks).paths[id].current ==
             before.paths[id].current + before.paths[id].weight - (if last == id then t.totalWeight else 0);
    }
  }

  lemma OneMore(n: int, w: int)
    ensures (n + 1) * w == n * w + w
  {
  }

  lemma {:induction false} RunKeepsBalanced(t: Table, picks: seq<PathId>)
    requires Valid(t) && Balanced(t) && IsRun(t, picks)
    ensures Valid(Run(t, picks)) && Balanced(Run(t, picks))
  {
    if picks == [] {
    } else {
      var init := picks[..|picks| - 1];
      RunKeepsBalanced(t, init);
      PickKeepsValid(Run(t, init), picks[|picks| - 1]);
      PickKeepsBalanced(Run(t, init), picks[|picks| - 1]);
    }
  }

  ghost function TimesMap(t: Table, picks: seq<PathId>): map<PathId, int>
  {
    map id | id in t.paths :: Times(picks, id)
  }

  lemma TimesMapStep(t: Table, picks: seq<PathId>, last: PathId)
    requires last in t.paths
    ensures TimesMap(t, picks + [last]) == TimesMap(t, picks)[last := Times(picks, last) + 1]
  {
    var after := TimesMap(t, picks + [last]);
    forall id | id in t.paths
      ensures after[id] == Times(picks, id) + (if last == id then 1 else 0)
    {
      TimesSnoc(picks, last, id);
    }
  }

  lemma {:induction false} TimesSum(t: Table, picks: seq<PathId>)
    requires forall p :: p in picks ==> p in t.paths
    ensures Sum(TimesMap(t, picks)) == |picks|
  {
    if picks == [] {
      SumConstant(TimesMap(t, picks), 0);
    } else {
      var init, last := picks[..|picks| - 1], picks[|picks| - 1];
      assert picks == init + [last];
      TimesSum(t, init);
      TimesMapStep(t, init, last);
      SumUpdate(TimesMap(t, init), last, Times(init, last) + 1);
    }
  }

  /** A freshly configured scheduler: every path has credit zero. */
  ghost predicate Fresh(t: Table)
  {
    Valid(t) && forall id :: id in t.paths ==> t.paths[id].current == 0
  }

  lemma FreshIsBalanced(t: Table)
    requires Fresh(t) && t.paths != map[]
    ensures Balanced(t) && t.totalWeight >= 1
  {
    SumConstant(Currents(t.paths), 0);
    TotalBounds(t);
    var id :| id in t.paths;
    assert id in t.paths.Keys;
  }

  /** Adding a path, or raising a path's weight, keeps the table balanced. */
  lemma UpdateKeepsBalanced(t: Table, id: PathId, rtt: real)
    requires Valid(t) && Balanced(t)
    requires id in t.paths ==> WeightOf(rtt) >= t.paths[id].weight
    ensures Balanced(AfterUpdate(t, id, rtt))
  {
    UpdateKeepsValid(t, id, rtt);
    TotalBounds(t);
  }

  /**
   From any balanced table, no run selects a path a full turn more than its share and its starting
   credit: after `T` selections, `n * W < T * w + W + credit`.
   */
  lemma NeverOverserved(t: Table, picks: seq<PathId>, id: PathId)
    requires Valid(t) && Balanced(t) && IsRun(t, picks) && id in t.paths
    ensures Times(picks, id) * t.totalWeight < |picks| * t.paths[id].weight + t.totalWeight + t.paths[id].current
  {
    RunPaths(t, picks);
    RunKeepsBalanced(t, picks);
    Ledger(t, picks, id);
  }

  /**
   Nor does any path fall `k - 1` full turns behind, where `k` is the number of paths:
   `n * W >= T * w + credit - (k - 1) * W`.
   */
  lemma NeverStarved(t: Table, picks: seq<PathId>, id: PathId)
    requires Valid(t) && Balanced(t) && IsRun(t, picks) && id in t.paths
    ensures Times(picks, id) * t.totalWeight >=
            |picks| * t.paths[id].weight + t.paths[id].current - (|t.paths| - 1) * t.totalWeight
  {
    RunPaths(t, picks);
    RunKeepsBalanced(t, picks);
    CreditCap(Run(t, picks), id);
    assert |Run(t, picks).paths| == |Run(t, picks).paths.Keys| == |t.paths|;
    Ledger(t, picks, id);
  }

  /** What the others owe bounds what one path can be owed. */
  lemma CreditCap(t: Table, id: PathId)
    requires Balanced(t) && id in t.paths
    ensures t.paths[id].current <= (|t.paths| - 1) * t.totalWeight
  {
    var c := Currents(t.paths);
    SumSplit(c, id);
    var debt := map i | i in c.Keys - {id} :: -t.totalWeight;
    SumConstant(debt, -t.totalWeight);
    SumMonotone(debt, c - {id});
    assert debt.Keys == c.Keys - {id} && c.Keys == t.paths.Keys;
    assert |debt| == |t.paths| - 1;
    NegatedProduct(t.totalWeight, |t.paths| - 1);
  }

  lemma NegatedProduct(w: int, n: int)
    ensures -w * n == -(n * w)
  {
  }

  /**
   Exact proportionality: over any whole number `m` of rounds of `W` selections, however ties
   are broken, each path is selected exactly `m * w` times and every credit is back at zero.
   */
  lemma ExactRound(t: Table, picks: seq<PathId>, m: nat)
    requires Fresh(t) && t.paths != map[] && IsRun(t, picks)
    requires |picks| == m * t.totalWeight
    ensures forall id :: id in t.paths ==> Times(picks, id) == m * t.paths[id].weight
    ensures Run(t, picks) == t
  {
    RunPaths(t, picks);
    RoundTimes(t, picks, m);
    forall id | id in t.paths
      ensures Run(t, picks).paths[id] == t.paths[id]
    {
      Ledger(t, picks, id);
      Swap(m, t.totalWeight, t.paths[id].weight);
    }
    assert Run(t, picks).paths == t.paths;
  }

  /** No path exceeds its share of whole rounds, and the selections add up to all the shares. */
  lemma RoundTimes(t: Table, picks: seq<PathId>, m: nat)
    requires Fresh(t) && t.paths != map[] && IsRun(t, picks)
    requires |picks| == m * t.totalWeight
    ensures forall id :: id in t.paths ==> Times(picks, id) == m * t.paths[id].weight
  {
    RunPaths(t, picks);
    var share: map<PathId, int> := map id | id in t.paths :: m * t.paths[id].weight;
    forall id | id in t.paths
      ensures Times(picks, id) <= share[id]
    {
      AtMostShare(t, picks, m, id);
    }
    SumScale(Weights(t), share, m);
    TimesSum(t, picks);
    SumEqual(TimesMap(t, picks), share);
    forall id | id in t.paths
      ensures Times(picks, id) == m * t.paths[id].weight
    {
      assert TimesMap(t, picks)[id] == share[id];
    }
  }

  lemma AtMostShare(t: Table, picks: seq<PathId>, m: nat, id: PathId)
    requires Fresh(t) && IsRun(t, picks) && |picks| == m * t.totalWeight && id in t.paths
    ensures Times(picks, id) <= m * t.paths[id].weight
  {
    FreshIsBalanced(t);
    NeverOverserved(t, picks, id);
    RoundShare(Times(picks, id), m, t.paths[id].weight, t.totalWeight);
  }

  lemma RoundShare(n: nat, m: nat, w: int, total: int)
    requires total >= 1 && n * total < m * total * w + total
    ensures n <= m * w
  {
    Swap(m, total, w);
    if n > m * w {
      AtLeast(n, m * w + 1, total);
      OneMore(m * w, total);
    }
  }

  lemma Swap(a: int, b: int, c: int)
    ensures a * b * c == (a * c) * b
  {
  }

  lemma AtLeast(a: int, b: int, c: int)
    requires a >= b && c >= 0
    ensures a * c >= b * c
  {
  }

  /** From a fresh table the credits stay in a narrow range. */
  lemma FreshCreditBounds(t: Table, picks: seq<PathId>, id: PathId)
    requires Fresh(t) && IsRun(t, picks) && id in t.paths
    ensures 1 <= t.totalWeight <= 256_000
    ensures -256_000 < Run(t, picks).paths[id].current <= 65_280_000
  {
    FreshIsBalanced(t);
    RunPaths(t, picks);
    RunKeepsBalanced(t, picks);
    CreditBounds(Run(t, picks), id);
  }

  lemma CreditBounds(t: Table, id: PathId)
    requires Valid(t) && Balanced(t) && id in t.paths
    ensures t.totalWeight <= 256_000
    ensures -256_000 < t.paths[id].current <= 65_280_000
  {
    CreditCap(t, id);
    TotalBounds(t);
    PathCount(t);
    assert |t.paths| >= 1 by { assert id in t.paths.Keys; }
    ProductBound(|t.paths| - 1, t.totalWeight, 255, 256_000);
  }

  lemma ProductBound(a: nat, b: nat, x: nat, y: nat)
    requires a <= x && b <= y
    ensures a * b <= x * y
  {
    assert a * b <= a * y <= x * y;
  }

  lemma PathCount(t: Table)
    ensures |t.paths| <= 256
  {
    BelowCount(t.paths.Keys, 256);
    assert |t.paths| == |t.paths.Keys|;
  }

  lemma {:induction false} BelowCount(ids: set<PathId>, n: nat)
    requires forall id :: id in ids ==> id < n
    ensures |ids| <= n
  {
    if n == 0 {
      assert ids == {};
    } else {
      var top := n - 1;
      var rest := set id | id in ids && id != top;
      BelowCount(rest, n - 1);
      if exists id :: id in ids && id == top {
        var id :| id in ids && id == top;
        assert ids == rest + {id};
      } else {
        assert ids == rest;
      }
    }
  }

  // ---------- Histories that mix updates, removals and selections ----------

  ghost function Credits(paths: map<PathId, PathState>, p: set<PathId>): map<PathId, int>
    requires p <= paths.Keys
  {
    map id | id in p :: paths[id].current
  }

  ghost function Shares(paths: map<PathId, PathState>, p: set<PathId>): map<PathId, int>
    requires p <= paths.Keys
  {
    map id | id in p :: paths[id].weight
  }

  /** The credit of some of the paths together. */
  ghost function CreditOn(paths: map<PathId, PathState>, p: set<PathId>): int
    requires p <= paths.Keys
  {
    Sum(Credits(paths, p))
  }

  ghost function WeightOn(paths: map<PathId, PathState>, p: set<PathId>): int
    requires p <= paths.Keys
  {
    Sum(Shares(paths, p))
  }

  lemma CreditSplit(paths: map<PathId, PathState>, p: set<PathId>, id: PathId)
    requires p <= paths.Keys && id in p
    ensures CreditOn(paths, p) == paths[id].current + CreditOn(paths, p - {id})
  {
    SumSplit(Credits(paths, p), id);
    assert Credits(paths, p) - {id} == Credits(paths, p - {id});
  }

  lemma WeightSplit(paths: map<PathId, PathState>, p: set<PathId>, id: PathId)
    requires p <= paths.Keys && id in p
    ensures WeightOn(paths, p) == paths[id].weight + WeightOn(paths, p - {id})
  {
    SumSplit(Shares(paths, p), id);
    assert Shares(paths, p) - {id} == Shares(paths, p - {id});
  }

  lemma {:induction false} WeightNonNegative(t: Table, p: set<PathId>)
    requires Valid(t) && p <= t.paths.Keys
    ensures WeightOn(t.paths, p) >= 0
    decreases |p|
  {
    if p == {} {
      assert Shares(t.paths, p) == map[];
    } else {
      var id :| id in p;
      WeightSplit(t.paths, p, id);
      WeightNonNegative(t, p - {id});
    }
  }

  lemma SomeMissing(p: set<PathId>, q: set<PathId>)
    requires p <= q
    ensures p == q || exists id :: id in q && id !in p
  {
    if forall id :: id in q ==> id in p {
      assert p == q;
    }
  }

  lemma {:induction false} WeightWithinTotal(t: Table, p: set<PathId>)
    requires Valid(t) && p <= t.paths.Keys
    ensures WeightOn(t.paths, p) <= t.totalWeight
    ensures p == t.paths.Keys ==> WeightOn(t.paths, p) == t.totalWeight
    decreases |t.paths.Keys - p|
  {
    if p == t.paths.Keys {
      assert Shares(t.paths, p) == Weights(t);
    } else {
      SomeMissing(p, t.paths.Keys);
      var id :| id in t.paths.Keys && id !in p;
      assert p + {id} - {id} == p && t.paths.Keys - (p + {id}) == t.paths.Keys - p - {id};
      WeightWithinTotal(t, p + {id});
      WeightSplit(t.paths, p + {id}, id);
    }
  }

  /** A selection adds every weight to the credits and takes the total from the selected path. */
  lemma RaisedCredit(t: Table, p: set<PathId>)
    requires p <= t.paths.Keys
    ensures CreditOn(Raised(t), p) == CreditOn(t.paths, p) + WeightOn(t.paths, p)
  {
    SumAdd(Credits(t.paths, p), Shares(t.paths, p), Credits(Raised(t), p));
  }

  lemma PickedCredit(t: Table, best: PathId, p: set<PathId>)
    requires p <= t.paths.Keys && best in t.paths
    ensures CreditOn(Picked(t, best).paths, p) ==
            CreditOn(t.paths, p) + WeightOn(t.paths, p) - (if best in p then t.totalWeight else 0)
  {
    RaisedCredit(t, p);
    var r: map<PathId, int> := Credits(Raised(t), p);
    var u: map<PathId, int> := Credits(Picked(t, best).paths, p);
    if best in p {
      assert best in r;
      SumUpdate(r, best, r[best] - t.totalWeight);
      assert u == r[best := r[best] - t.totalWeight];
    } else {
      assert u == r;
    }
  }

  /** The most paths and the largest total weight that a table may have. */
  datatype Limits = Limits(paths: nat, total: nat)

  predicate Within(l: Limits, t: Table)
  {
    |t.paths| <= l.paths && t.totalWeight <= l.total
  }

  function Slots(n: int, j: int): int
  {
    j * (2 * n - 1 - j)
  }

  /** How much credit `j` paths may have or owe together: a concave bound. */
  function Room(l: Limits, j: int): int
  {
    l.total * Slots(l.paths, j)
  }

  lemma SlotsStep(n: int, j: int)
    ensures Slots(n, j + 1) + Slots(n, j - 1) == 2 * Slots(n, j) - 2
    ensures 0 <= j < n ==> 0 <= Slots(n, j) <= Slots(n, j + 1)
  {
    var a := 2 * n - 1 - j;
    OneUp(j, a);
    OneDown(j, a);
    if 0 <= j < n {
      AtLeast(j, 0, a);
    }
  }

  lemma OneUp(j: int, a: int)
    ensures (j + 1) * (a - 1) == j * a + a - j - 1
  {
  }

  lemma OneDown(j: int, a: int)
    ensures (j - 1) * (a + 1) == j * a + j - a - 1
  {
  }

  lemma RoomStep(l: Limits, j: int)
    ensures Room(l, j + 1) + Room(l, j - 1) == 2 * Room(l, j) - 2 * l.total
    ensures 0 <= j < l.paths ==> 0 <= Room(l, j) <= Room(l, j + 1)
  {
    var n := l.paths;
    SlotsStep(n, j);
    Distribute(l.total, Slots(n, j + 1), Slots(n, j - 1));
    Distribute(l.total, 2 * Slots(n, j), -2);
    if 0 <= j < n {
      AtLeast(Slots(n, j), 0, l.total);
      AtLeast(Slots(n, j + 1), Slots(n, j), l.total);
      assert l.total * Slots(n, j) == Slots(n, j) * l.total && l.total * Slots(n, j + 1) == Slots(n, j + 1) * l.total;
    }
  }

  lemma SlotsRatio(n: int, j: nat)
    ensures j * (Slots(n, j + 1) + 1) <= (j + 1) * Slots(n, j)
  {
    var a := 2 * n - 2 - j;
    assert Slots(n, j + 1) == (j + 1) * a && Slots(n, j) == j * (a + 1);
    assert (j + 1) * (a + 1) == (j + 1) * a + 1 + j;
    assert j * ((j + 1) * a + 1) <= j * ((j + 1) * (a + 1));
    assert (j + 1) * (j * (a + 1)) == j * ((j + 1) * (a + 1));
  }

  lemma RoomRatio(l: Limits, j: nat)
    ensures j * (Room(l, j + 1) + l.total) <= (j + 1) * Room(l, j)
  {
    var x, y := Slots(l.paths, j + 1), Slots(l.paths, j);
    SlotsRatio(l.paths, j);
    AtLeast((j + 1) * y, j * (x + 1), l.total);
    Distribute(l.total, x, 1);
    assert j * (l.total * (x + 1)) == j * (x + 1) * l.total;
    assert (j + 1) * (l.total * y) == (j + 1) * y * l.total;
  }

  /** Every set of paths has or owes no more than its room. */
  ghost predicate Tame(l: Limits, t: Table)
  {
    forall p: set<PathId> :: p <= t.paths.Keys ==> -Room(l, |p|) <= CreditOn(t.paths, p) <= Room(l, |p|)
  }

  lemma SubsetSize(t: Table, p: set<PathId>)
    requires p <= t.paths.Keys
    ensures |p| <= |t.paths|
  {
    assert |t.paths| == |t.paths.Keys|;
    SetSize(p, t.paths.Keys);
  }

  lemma {:induction false} SetSize(p: set<PathId>, q: set<PathId>)
    requires p <= q
    ensures |p| <= |q|
    decreases |p|
  {
    if p != {} {
      var id :| id in p;
      SetSize(p - {id}, q - {id});
    }
  }

  /** Paths that were not selected have at most the selected one's credit each. */
  lemma {:induction false} RaisedBelowBest(t: Table, best: PathId, p: set<PathId>)
    requires CanPick(t, best) && p <= t.paths.Keys
    ensures CreditOn(Raised(t), p) <= |p| * Raised(t)[best].current
    decreases |p|
  {
    if p == {} {
      assert Credits(Raised(t), p) == map[];
    } else {
      var id :| id in p;
      CreditSplit(Raised(t), p, id);
      RaisedBelowBest(t, best, p - {id});
      OneMore(|p| - 1, Raised(t)[best].current);
    }
  }

  lemma PickUpper(l: Limits, t: Table, best: PathId, p: set<PathId>)
    requires Valid(t) && Within(l, t) && Tame(l, t) && CanPick(t, best) && p <= t.paths.Keys
    ensures CreditOn(Picked(t, best).paths, p) <= Room(l, |p|)
  {
    PickedCredit(t, best, p);
    WeightWithinTotal(t, p);
    if best in p {
      assert CreditOn(t.paths, p) <= Room(l, |p|);
    } else {
      RaisedCredit(t, p);
      RaisedWithBest(l, t, best, p);
      RaisedBelowBest(t, best, p);
      ShareOfRoom(l, |p|, CreditOn(Raised(t), p), Raised(t)[best].current);
    }
  }

  lemma RaisedAtMost(l: Limits, t: Table, q: set<PathId>)
    requires Valid(t) && Within(l, t) && Tame(l, t) && q <= t.paths.Keys
    ensures CreditOn(Raised(t), q) <= Room(l, |q|) + l.total
  {
    RaisedCredit(t, q);
    WeightWithinTotal(t, q);
    assert CreditOn(t.paths, q) <= Room(l, |q|);
  }

  lemma RaisedAdded(t: Table, p: set<PathId>, i: PathId)
    requires p <= t.paths.Keys && i in t.paths && i !in p
    ensures p + {i} <= t.paths.Keys && |p + {i}| == |p| + 1
    ensures CreditOn(Raised(t), p + {i}) == CreditOn(Raised(t), p) + Raised(t)[i].current
  {
    assert p + {i} - {i} == p;
    CreditSplit(Raised(t), p + {i}, i);
  }

  lemma RaisedWithBest(l: Limits, t: Table, best: PathId, p: set<PathId>)
    requires Valid(t) && Within(l, t) && Tame(l, t) && best in t.paths && p <= t.paths.Keys && best !in p
    ensures CreditOn(Raised(t), p) + Raised(t)[best].current <= Room(l, |p| + 1) + l.total
  {
    RaisedAdded(t, p, best);
    RaisedAtMost(l, t, p + {best});
  }

  lemma ShareOfRoom(l: Limits, j: nat, x: int, b: int)
    requires x <= j * b && x + b <= Room(l, j + 1) + l.total
    ensures x <= Room(l, j)
  {
    RoomRatio(l, j);
    var y, r := Room(l, j + 1) + l.total, Room(l, j);
    AtLeast(y, x + b, j);
    Combine(j, x, b, y, r);
    CancelFactor(j + 1, x, r);
  }

  lemma Combine(j: nat, x: int, b: int, y: int, r: int)
    requires x <= j * b && (x + b) * j <= y * j && j * y <= (j + 1) * r
    ensures (j + 1) * x <= (j + 1) * r
  {
    assert (x + b) * j == j * x + j * b;
    OneMore(j, x);
  }

  lemma CancelFactor(c: nat, x: int, y: int)
    requires c > 0 && c * x <= c * y
    ensures x <= y
  {
    if x > y {
      StrictFactor(c, x, y);
    }
  }

  lemma {:induction false} StrictFactor(c: nat, x: int, y: int)
    requires c > 0 && x > y
    ensures c * x > c * y
  {
    if c > 1 {
      StrictFactor(c - 1, x, y);
      OneMore(c - 1, x);
      OneMore(c - 1, y);
    }
  }

  lemma PickLower(l: Limits, t: Table, best: PathId, p: set<PathId>)
    requires Valid(t) && Within(l, t) && Tame(l, t) && CanPick(t, best) && p <= t.paths.Keys
    ensures CreditOn(Picked(t, best).paths, p) >= -Room(l, |p|)
  {
    TameLower(l, t, p);
    if best !in p || p == t.paths.Keys {
      PickedCredit(t, best, p);
      WeightNonNegative(t, p);
      WeightWithinTotal(t, p);
    } else {
      SomeMissing(p, t.paths.Keys);
      var i :| i in t.paths.Keys && i !in p;
      PickLowerInside(l, t, best, p, i);
    }
  }

  lemma PickLowerInside(l: Limits, t: Table, best: PathId, p: set<PathId>, i: PathId)
    requires Valid(t) && Within(l, t) && Tame(l, t) && CanPick(t, best) && p <= t.paths.Keys
    requires best in p && i in t.paths && i !in p
    ensures CreditOn(Picked(t, best).paths, p) >= -Room(l, |p|)
  {
    PickedCredit(t, best, p);
    WeightAtLeast(t, p, best);
    BetweenNeighbours(l, t, best, p, i);
    RoomStep(l, |p|);
    Halve(CreditOn(t.paths, p), WeightOn(t.paths, p), t.paths[i].weight, t.paths[best].weight, l.total, t.totalWeight,
          Room(l, |p| + 1), Room(l, |p| - 1), Room(l, |p|));
  }

  lemma WeightAtLeast(t: Table, p: set<PathId>, i: PathId)
    requires Valid(t) && p <= t.paths.Keys && i in p
    ensures WeightOn(t.paths, p) >= t.paths[i].weight
  {
    WeightSplit(t.paths, p, i);
    WeightNonNegative(t, p - {i});
  }

  lemma Halve(c: int, w: int, wi: int, wb: int, most: int, total: int, up: int, down: int, room: int)
    requires 2 * c >= -up - down + wi - wb && up + down == 2 * room - 2 * most
    requires w >= wb && wi >= 0 && wb >= 0 && total <= most
    ensures c + w - total >= -room
  {
  }

  lemma AddedCredit(t: Table, p: set<PathId>, i: PathId)
    requires p <= t.paths.Keys && i in t.paths && i !in p
    ensures p + {i} <= t.paths.Keys && |p + {i}| == |p| + 1
    ensures CreditOn(t.paths, p + {i}) == CreditOn(t.paths, p) + t.paths[i].current
  {
    assert p + {i} - {i} == p;
    CreditSplit(t.paths, p + {i}, i);
  }

  lemma RemovedCredit(t: Table, p: set<PathId>, i: PathId)
    requires p <= t.paths.Keys && i in p
    ensures p - {i} <= t.paths.Keys && |p - {i}| == |p| - 1
    ensures CreditOn(t.paths, p - {i}) == CreditOn(t.paths, p) - t.paths[i].current
  {
    CreditSplit(t.paths, p, i);
  }

  lemma TameLower(l: Limits, t: Table, p: set<PathId>)
    requires Tame(l, t) && p <= t.paths.Keys
    ensures CreditOn(t.paths, p) >= -Room(l, |p|)
  {
  }

  lemma RaisedOrder(t: Table, best: PathId, i: PathId)
    requires CanPick(t, best) && i in t.paths
    ensures t.paths[i].current + t.paths[i].weight <= t.paths[best].current + t.paths[best].weight
  {
    assert Raised(t)[i].current <= Raised(t)[best].current;
  }

  /** One path more and one path less: the bounds on both sides of a set that holds the selected path. */
  lemma BetweenNeighbours(l: Limits, t: Table, best: PathId, p: set<PathId>, i: PathId)
    requires Tame(l, t) && CanPick(t, best) && p <= t.paths.Keys
    requires best in p && i in t.paths && i !in p
    ensures 2 * CreditOn(t.paths, p) >= -Room(l, |p| + 1) - Room(l, |p| - 1) + t.paths[i].weight - t.paths[best].weight
  {
    AddedCredit(t, p, i);
    RemovedCredit(t, p, best);
    TameLower(l, t, p + {i});
    TameLower(l, t, p - {best});
    RaisedOrder(t, best, i);
  }

  lemma PickKeepsTame(l: Limits, t: Table, best: PathId)
    requires Valid(t) && Within(l, t) && Tame(l, t) && CanPick(t, best)
    ensures Tame(l, Picked(t, best))
  {
    var u := Picked(t, best);
    forall p: set<PathId> | p <= u.paths.Keys
      ensures -Room(l, |p|) <= CreditOn(u.paths, p) <= Room(l, |p|)
    {
      PickLower(l, t, best, p);
      PickUpper(l, t, best, p);
    }
  }

  /** A new path adds no credit to any set. */
  lemma NewPathTame(l: Limits, t: Table, u: Table, id: PathId, p: set<PathId>)
    requires Tame(l, t) && Within(l, u) && p <= u.paths.Keys && id in p
    requires p - {id} <= t.paths.Keys && u.paths[id].current == 0
    requires forall i :: i in p - {id} ==> u.paths[i].current == t.paths[i].current
    ensures -Room(l, |p|) <= CreditOn(u.paths, p) <= Room(l, |p|)
  {
    var r := p - {id};
    RemovedCredit(u, p, id);
    SameCredit(t.paths, u.paths, r);
    SubsetSize(u, p);
    RoomStep(l, |p| - 1);
    TameBoth(l, t, r);
  }

  lemma TameBoth(l: Limits, t: Table, p: set<PathId>)
    requires Tame(l, t) && p <= t.paths.Keys
    ensures -Room(l, |p|) <= CreditOn(t.paths, p) <= Room(l, |p|)
  {
  }

  lemma UpdateKeepsTame(l: Limits, t: Table, id: PathId, rtt: real)
    requires Tame(l, t) && Within(l, AfterUpdate(t, id, rtt))
    ensures Tame(l, AfterUpdate(t, id, rtt))
  {
    var u := AfterUpdate(t, id, rtt);
    forall p: set<PathId> | p <= u.paths.Keys
      ensures -Room(l, |p|) <= CreditOn(u.paths, p) <= Room(l, |p|)
    {
      if id in t.paths || id !in p {
        SameCredit(t.paths, u.paths, p);
        TameBoth(l, t, p);
      } else {
        NewPathTame(l, t, u, id, p);
      }
    }
  }

  lemma SameCredit(a: map<PathId, PathState>, b: map<PathId, PathState>, p: set<PathId>)
    requires p <= a.Keys && p <= b.Keys && forall i :: i in p ==> a[i].current == b[i].current
    ensures CreditOn(a, p) == CreditOn(b, p)
  {
    assert Credits(a, p) == Credits(b, p);
  }

  lemma RemoveKeepsTame(l: Limits, t: Table, id: PathId)
    requires Tame(l, t)
    ensures Tame(l, AfterRemove(t, id))
  {
    var u := AfterRemove(t, id);
    forall p: set<PathId> | p <= u.paths.Keys
      ensures -Room(l, |p|) <= CreditOn(u.paths, p) <= Room(l, |p|)
    {
      SameCredit(t.paths, u.paths, p);
    }
  }

  datatype Op = Update(id: PathId, rtt: real) | Remove(id: PathId) | Select(id: PathId)

  predicate Enabled(t: Table, op: Op)
  {
    op.Select? ==> CanPick(t, op.id)
  }

  function After(t: Table, op: Op): Table
    requires Enabled(t, op)
  {
    match op
    case Update(id, rtt) => AfterUpdate(t, id, rtt)
    case Remove(id) => AfterRemove(t, id)
    case Select(id) => Picked(t, id)
  }

  predicate Follows(t: Table, op: Op, u: Table)
  {
    Enabled(t, op) && u == After(t, op)
  }

  /** `ts` lists the tables of a scheduler that starts empty and performs `ops`. */
  predicate IsHistory(ops: seq<Op>, ts: seq<Table>)
  {
    && |ts| == |ops| + 1
    && ts[0] == Table(map[], 0)
    && forall i :: 0 <= i < |ops| ==> Follows(ts[i], ops[i], ts[i + 1])
  }

  lemma EmptyIsTame(l: Limits)
    ensures Valid(Table(map[], 0)) && Within(l, Table(map[], 0)) && Tame(l, Table(map[], 0))
  {
    var t := Table(map[], 0);
    assert Weights(t) == map[];
    forall p: set<PathId> | p <= t.paths.Keys
      ensures CreditOn(t.paths, p) == 0 == Room(l, |p|)
    {
      assert p == {};
      assert Credits(t.paths, {}) == map[];
    }
  }

  lemma StepKeepsValid(t: Table, op: Op)
    requires Valid(t) && Enabled(t, op)
    ensures Valid(After(t, op))
    ensures Sum(Currents(After(t, op).paths)) == Sum(Currents(t.paths)) - CreditRemovedBy(t, op)
  {
    match op
    case Update(id, rtt) => UpdateKeepsValid(t, id, rtt);
    case Remove(id) => RemoveKeepsValid(t, id);
    case Select(id) => PickKeepsValid(t, id);
  }

  /** The credit that leaves the table with a removed path. */
  function CreditRemovedBy(t: Table, op: Op): int
  {
    if op.Remove? && op.id in t.paths then t.paths[op.id].current else 0
  }

  function CreditRemoved(ops: seq<Op>, ts: seq<Table>, k: nat): int
    requires k <= |ops| < |ts|
  {
    if k == 0 then 0 else CreditRemoved(ops, ts, k - 1) + CreditRemovedBy(ts[k - 1], ops[k - 1])
  }

  /**
   In every history the credits of all paths sum to minus what the removed paths took with them, so to zero
   as long as no path with credit or debt is removed.
   */
  lemma {:induction false} CreditsSumToRemoved(ops: seq<Op>, ts: seq<Table>, k: nat)
    requires IsHistory(ops, ts) && k <= |ops|
    ensures Valid(ts[k])
    ensures Sum(Currents(ts[k].paths)) == -CreditRemoved(ops, ts, k)
  {
    if k == 0 {
      EmptyIsTame(Limits(0, 0));
      assert Currents(ts[0].paths) == map[];
    } else {
      CreditsSumToRemoved(ops, ts, k - 1);
      assert Follows(ts[k - 1], ops[k - 1], ts[k - 1 + 1]);
      StepKeepsValid(ts[k - 1], ops[k - 1]);
    }
  }

  lemma StepKeepsTame(l: Limits, t: Table, op: Op)
    requires Valid(t) && Within(l, t) && Tame(l, t) && Enabled(t, op) && Within(l, After(t, op))
    ensures Tame(l, After(t, op))
  {
    match op
    case Update(id, rtt) => UpdateKeepsTame(l, t, id, rtt);
    case Remove(id) => RemoveKeepsTame(l, t, id);
    case Select(id) => PickKeepsTame(l, t, id);
  }

  /** The first tables of a history stay within the limits. */
  ghost predicate StaysWithin(l: Limits, ts: seq<Table>, k: nat)
    requires k < |ts|
  {
    forall i :: 0 <= i <= k ==> Within(l, ts[i])
  }

  lemma {:induction false} HistoryTame(l: Limits, ops: seq<Op>, ts: seq<Table>, k: nat)
    requires IsHistory(ops, ts) && k <= |ops| && StaysWithin(l, ts, k)
    ensures Valid(ts[k]) && Tame(l, ts[k])
  {
    CreditsSumToRemoved(ops, ts, k);
    if k == 0 {
      EmptyIsTame(l);
    } else {
      HistoryTame(l, ops, ts, k - 1);
      assert Follows(ts[k - 1], ops[k - 1], ts[k - 1 + 1]);
      StepKeepsTame(l, ts[k - 1], ops[k - 1]);
    }
  }

  /** The most credit, positive or negative, that one path can come to have within the limits. */
  function CreditLimit(l: Limits): int
  {
    l.total * (2 * l.paths - 2)
  }

  lemma CreditWithinLimit(l: Limits, t: Table, id: PathId)
    requires Tame(l, t) && id in t.paths
    ensures -CreditLimit(l) <= t.paths[id].current <= CreditLimit(l)
  {
    CreditSplit(t.paths, {id}, id);
    assert Credits(t.paths, {id} - {id}) == map[];
    assert Slots(l.paths, 1) == 2 * l.paths - 2;
    assert -Room(l, |{id}|) <= CreditOn(t.paths, {id}) <= Room(l, |{id}|);
  }

  /** With byte identifiers every table has at most 256 paths of weight at most 1000. */
  const ALL_TABLES := Limits(256, 256_000)

  lemma {:induction false} AlwaysWithin(ops: seq<Op>, ts: seq<Table>, k: nat)
    requires IsHistory(ops, ts) && k <= |ops|
    ensures StaysWithin(ALL_TABLES, ts, k)
  {
    forall i | 0 <= i <= k
      ensures Within(ALL_TABLES, ts[i])
    {
      CreditsSumToRemoved(ops, ts, i);
      TotalBounds(ts[i]);
      PathCount(ts[i]);
    }
  }

  /**
   The `i32` fields never overflow, whatever the history of updates, removals and selections: not the
   stored credits, not the credits raised during a selection, and not the total weight.
   */
  lemma NoOverflow(ops: seq<Op>, ts: seq<Table>, k: nat, id: PathId)
    requires IsHistory(ops, ts) && k <= |ops| && id in ts[k].paths
    ensures 1 <= ts[k].totalWeight <= 256_000
    ensures -130_560_000 <= ts[k].paths[id].current <= 130_560_000
    ensures -0x8000_0000 <= ts[k].paths[id].current <= Raised(ts[k])[id].current <= 0x7fff_ffff
  {
    AlwaysWithin(ops, ts, k);
    HistoryTame(ALL_TABLES, ops, ts, k);
    TotalBounds(ts[k]);
    assert Within(ALL_TABLES, ts[k]);
    assert id in ts[k].paths.Keys;
    CreditWithinLimit(ALL_TABLES, ts[k], id);
  }

  /** The weight a path has earned since it was added, one share per selection of any path. */
  function Earned(ops: seq<Op>, ts: seq<Table>, k: nat, id: PathId): int
    requires k <= |ops| < |ts|
  {
    if k == 0 || ops[k - 1] == Remove(id) then 0
    else Earned(ops, ts, k - 1, id)
         + (if ops[k - 1].Select? && id in ts[k - 1].paths then ts[k - 1].paths[id].weight else 0)
  }

  /** The total weights it has paid since then, one per selection of its own. */
  function Paid(ops: seq<Op>, ts: seq<Table>, k: nat, id: PathId): int
    requires k <= |ops| < |ts|
  {
    if k == 0 || ops[k - 1] == Remove(id) then 0
    else Paid(ops, ts, k - 1, id) + (if ops[k - 1] == Select(id) then ts[k - 1].totalWeight else 0)
  }

  lemma {:induction false} CreditIsBalance(ops: seq<Op>, ts: seq<Table>, k: nat, id: PathId)
    requires IsHistory(ops, ts) && k <= |ops|
    ensures Earned(ops, ts, k, id) - Paid(ops, ts, k, id) == if id in ts[k].paths then ts[k].paths[id].current else 0
  {
    if k > 0 {
      CreditIsBalance(ops, ts, k - 1, id);
      assert Follows(ts[k - 1], ops[k - 1], ts[k - 1 + 1]);
    }
  }

  /**
   Service over any history: what a path pays by being selected follows what its weight earns, up to less
   than two of the largest total weights per path, however long the history is.
   */
  lemma ServiceFollowsWeights(l: Limits, ops: seq<Op>, ts: seq<Table>, k: nat, id: PathId)
    requires IsHistory(ops, ts) && k <= |ops| && StaysWithin(l, ts, k)
    ensures id in ts[k].paths ==>
              -CreditLimit(l) <= Earned(ops, ts, k, id) - Paid(ops, ts, k, id) <= CreditLimit(l)
    ensures id !in ts[k].paths ==> Earned(ops, ts, k, id) == Paid(ops, ts, k, id)
  {
    CreditIsBalance(ops, ts, k, id);
    if id in ts[k].paths {
      HistoryTame(l, ops, ts, k);
      CreditWithinLimit(l, ts[k], id);
    }
  }

  lemma {:induction false} RunKeepsTame(l: Limits, t: Table, picks: seq<PathId>)
    requires Valid(t) && Within(l, t) && Tame(l, t) && IsRun(t, picks)
    ensures Valid(Run(t, picks)) && Tame(l, Run(t, picks))
  {
    if picks == [] {
    } else {
      var init, last := picks[..|picks| - 1], picks[|picks| - 1];
      RunKeepsTame(l, t, init);
      SameSize(t, Run(t, init));
      PickKeepsValid(Run(t, init), last);
      PickKeepsTame(l, Run(t, init), last);
    }
  }

  lemma SameSize(t: Table, u: Table)
    requires t.paths.Keys == u.paths.Keys
    ensures |t.paths| == |u.paths|
  {
    assert |t.paths| == |t.paths.Keys| && |u.paths| == |u.paths.Keys|;
  }

  /**
   So from every table that any history leads to, `T` selections follow the weights: `n * W` and `T * w`
   differ by less than four of the largest total weights per path.
   */
  lemma DispatchFollowsWeights(l: Limits, ops: seq<Op>, ts: seq<Table>, k: nat, picks: seq<PathId>, id: PathId)
    requires IsHistory(ops, ts) && k <= |ops| && StaysWithin(l, ts, k)
    requires IsRun(ts[k], picks) && id in ts[k].paths
    ensures -2 * CreditLimit(l) <= |picks| * ts[k].paths[id].weight - Times(picks, id) * ts[k].totalWeight
            <= 2 * CreditLimit(l)
  {
    HistoryTame(l, ops, ts, k);
    RunPaths(ts[k], picks);
    RunKeepsTame(l, ts[k], picks);
    CreditWithinLimit(l, ts[k], id);
    CreditWithinLimit(l, Run(ts[k], picks), id);
    Ledger(ts[k], picks, id);
  }

  // ---------- The mutable scheduler ----------

  class WeightedRrScheduler {
    var paths: map<PathId, PathState>
    var totalWeight: int

    function View(): Table
      reads this
    {
      Table(paths, totalWeight)
    }

    constructor ()
      ensures View() == Table(map[], 0)
      ensures Fresh(View())
    {
      paths, totalWeight := map[], 0;
    }

    method UpdatePath(id: PathId, rtt: real)
      requires Valid(View())
      modifies this
      ensures Valid(View())
      ensures View() == AfterUpdate(old(View()), id, rtt)
      ensures id in paths && IsInverse(paths[id].weight, rtt)
      ensures paths[id].current == if id in old(paths) then old(paths)[id].current else 0
      ensures paths - {id} == old(paths) - {id}
    {
      WeightIsInverse(rtt);
      UpdateKeepsValid(View(), id, rtt);
      var w := WeightOf(rtt);
      if id in paths {
        totalWeight := totalWeight + (w - paths[id].weight);
        paths := paths[id := paths[id].(weight := w)];
      } else {
        paths := paths[id := PathState(w, 0)];
        totalWeight := totalWeight + w;
      }
    }

    method RemovePath(id: PathId)
      requires Valid(View())
      modifies this
      ensures Valid(View())
      ensures View() == AfterRemove(old(View()), id)
      ensures paths == old(paths) - {id}
    {
      RemoveKeepsValid(View(), id);
      if id in paths {
        totalWeight := totalWeight - paths[id].weight;
        paths := paths - {id};
      }
    }

    /** Returns `None` exactly when there are no paths; otherwise some path of maximal credit. */
    method Next() returns (picked: Option<PathId>)
      requires Valid(View())
      modifies this
      ensures Valid(View())
      ensures picked.None? <==> old(paths) == map[]
      ensures picked.None? ==> View() == old(View())
      ensures picked.Some? ==> CanPick(old(View()), picked.value)
      ensures picked.Some? ==> View() == Picked(old(View()), picked.value)
      ensures old(Balanced(View())) ==> Balanced(View())
    {
      if paths == map[] {
        return None;
      }
      ghost var before := View();
      var best := Select();
      PickKeeps(before, best);
      picked := Some(best);
    }

    /** The selection itself: everyone earns, one path of maximal credit pays. */
    method Select() returns (best: PathId)
      requires paths != map[]
      modifies this
      ensures CanPick(old(View()), best)
      ensures View() == Picked(old(View()), best)
    {
      paths := Raised(View());
      MaximumExists(paths);
      best :| IsMaximal(paths, best);
      paths := paths[best := PathState(paths[best].weight, paths[best].current - totalWeight)];
    }
  }

  lemma {:induction false} MaximumExists(m: map<PathId, PathState>)
    requires m != map[]
    ensures exists best :: IsMaximal(m, best)
    decreases |m|
  {
    var k :| k in m;
    var rest := m - {k};
    if rest == map[] {
      assert m.Keys - {k} == rest.Keys == {};
      forall other | other in m
        ensures m[other].current <= m[k].current
      {
        assert other !in m.Keys - {k};
      }
      assert IsMaximal(m, k);
    } else {
      MaximumExists(rest);
      var b :| IsMaximal(rest, b);
      var best := if m[k].current <= m[b].current then b else k;
      forall other | other in m
        ensures m[other].current <= m[best].current
      {
        assert other == k || other in rest;
      }
      assert IsMaximal(m, best);
    }
  }
}
