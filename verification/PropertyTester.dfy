/**
 The property-based tester: counting random runs and greedily shrinking a counterexample. A property is
 a function, a generator's random draws are an arbitrary sequence.
 */
module PropertyTester {
  import opened Common

  datatype Verdict = Passed | Failed | Discarded

  /** A generator's shrinker lists candidates in the order in which they are tried. */
  type Shrinker<!T> = T -> seq<T>

  type Property<!T> = T -> Verdict

  // ---------- Greedy shrinking ----------

  /** The candidate the shrinker moves to: the first one that still fails. */
  ghost predicate FirstFailing<T>(shrink: Shrinker<T>, test: Property<T>, from: T, to: T)
  {
    exists i :: 0 <= i < |shrink(from)| && shrink(from)[i] == to && test(to) == Failed
                && forall j :: 0 <= j < i ==> test(shrink(from)[j]) != Failed
  }

  ghost predicate NoneFails<T>(shrink: Shrinker<T>, test: Property<T>, value: T)
  {
    forall i :: 0 <= i < |shrink(value)| ==> test(shrink(value)[i]) != Failed
  }

  /** A chain of failing cases, each the first failing candidate of the one before it. */
  ghost predicate IsShrinkPath<T>(shrink: Shrinker<T>, test: Property<T>, path: seq<T>)
  {
    forall i :: 0 <= i < |path| - 1 ==> FirstFailing(shrink, test, path[i], path[i + 1])
  }

  /** A chain that the budget allows and that only the budget may have cut off. */
  ghost predicate ShrinkResult<T>(shrink: Shrinker<T>, test: Property<T>, attempts: nat, path: seq<T>)
  {
    && 1 <= |path| <= attempts + 1
    && IsShrinkPath(shrink, test, path)
    && (|path| <= attempts ==> NoneFails(shrink, test, path[|path| - 1]))
  }

  /**
   Shrinking returns a failing case that is reached from the original through successive first failing
   candidates, within the budget; if it stops before the budget is spent, no candidate of the result
   fails.
   */
  method ShrinkCounterexample<T(==)>(shrink: Shrinker<T>, test: Property<T>, original: T, attempts: nat)
    returns (minimal: T, steps: seq<T>)
    requires test(original) == Failed
    ensures test(minimal) == Failed
    ensures (steps + [minimal])[0] == original
    ensures ShrinkResult(shrink, test, attempts, steps + [minimal])
    ensures minimal == Shrunk(shrink, test, original, attempts)
  {
    minimal, steps := original, [];
    for k := 0 to attempts
      invariant test(minimal) == Failed
      invariant (steps + [minimal])[0] == original && IsShrinkPath(shrink, test, steps + [minimal])
      invariant |steps| == k
    {
      var candidates := shrink(minimal);
      var found := false;
      ghost var before := minimal;
      for i := 0 to |candidates|
        invariant !found
        invariant forall j :: 0 <= j < i ==> test(candidates[j]) != Failed
      {
        if test(candidates[i]) == Failed {
          assert FirstFailing(shrink, test, before, candidates[i]);
          ghost var path := steps + [minimal];
          steps := steps + [minimal];
          minimal := candidates[i];
          assert (steps + [minimal])[..|path|] == path;
          found := true;
          break;
        }
      }
      if !found {
        break;
      }
    }
    PathEndsAtShrunk(shrink, test, steps + [minimal], attempts);
  }

  /** The shrinker as a function, for reasoning about whole shrinks. */
  function Shrunk<T>(shrink: Shrinker<T>, test: Property<T>, value: T, attempts: nat): T
    decreases attempts
  {
    var next := FirstFailure(shrink(value), test);
    if attempts == 0 || next.None? then value else Shrunk(shrink, test, next.value, attempts - 1)
  }

  function FirstFailure<T>(candidates: seq<T>, test: Property<T>): (r: Option<T>)
    ensures r.None? <==> forall i :: 0 <= i < |candidates| ==> test(candidates[i]) != Failed
    ensures r.Some? ==> exists i :: 0 <= i < |candidates| && candidates[i] == r.value && test(r.value) == Failed
                                    && forall j :: 0 <= j < i ==> test(candidates[j]) != Failed
  {
    if candidates == [] then None
    else if test(candidates[0]) == Failed then Some(candidates[0])
    else FirstFailure(candidates[1..], test)
  }

  /** The end of any shrink path that used its whole budget, or stopped early, is `Shrunk`. */
  lemma {:induction false} PathEndsAtShrunk<T>(shrink: Shrinker<T>, test: Property<T>, path: seq<T>, attempts: nat)
    requires ShrinkResult(shrink, test, attempts, path)
    ensures path[|path| - 1] == Shrunk(shrink, test, path[0], attempts)
    decreases |path|
  {
    var next := FirstFailure(shrink(path[0]), test);
    if |path| == 1 {
    } else {
      assert FirstFailing(shrink, test, path[0], path[1]);
      SameFirst(shrink(path[0]), test, path[1]);
      forall i | 0 <= i < |path[1..]| - 1
        ensures FirstFailing(shrink, test, path[1..][i], path[1..][i + 1])
      {
        assert FirstFailing(shrink, test, path[i + 1], path[i + 2]);
      }
      PathEndsAtShrunk(shrink, test, path[1..], attempts - 1);
    }
  }

  lemma SameFirst<T>(candidates: seq<T>, test: Property<T>, to: T)
    requires exists i :: 0 <= i < |candidates| && candidates[i] == to && test(to) == Failed
                         && forall j :: 0 <= j < i ==> test(candidates[j]) != Failed
    ensures FirstFailure(candidates, test) == Some(to)
  {
    var i :| 0 <= i < |candidates| && candidates[i] == to && test(to) == Failed
             && forall j :: 0 <= j < i ==> test(candidates[j]) != Failed;
    var r := FirstFailure(candidates, test);
    var k :| 0 <= k < |candidates| && candidates[k] == r.value && test(r.value) == Failed
             && forall j :: 0 <= j < k ==> test(candidates[j]) != Failed;
    assert i == k;
  }

  // ---------- Unsigned integers ----------

  /** Candidates of `U32Generator`, on non-negative integers: the minimum, the half, the predecessor. */
  function ShrinkU32(min: int, value: int): seq<int>
  {
    if value <= min then [] else
      [min] + (if value > min + 1 then [value / 2, value - 1] else [])
  }

  /** Every candidate is strictly smaller, so every step of a shrink decreases the value. */
  lemma U32Decreases(gen: Shrinker<int>, min: int, test: Property<int>, path: seq<int>)
    requires min >= 0 && IsU32Shrinker(gen, min) && IsShrinkPath(gen, test, path)
    ensures forall i :: 0 <= i < |path| - 1 ==> path[i + 1] < path[i]
  {
    forall i | 0 <= i < |path| - 1
      ensures path[i + 1] < path[i]
    {
      assert FirstFailing(gen, test, path[i], path[i + 1]);
      assert path[i + 1] in gen(path[i]);
      assert gen(path[i]) == ShrinkU32(min, path[i]);
      SmallerCandidates(min, path[i], path[i + 1]);
    }
  }

  lemma SmallerCandidates(min: int, value: int, c: int)
    requires min >= 0 && c in ShrinkU32(min, value)
    ensures c < value
  {
  }

  /**
   Candidates stay at or above the generator's minimum exactly when there is no halving or the half is
   still in range: from 13 with minimum 10 the shrinker proposes 6.
   */
  lemma U32CandidatesInRange(min: int, value: int)
    requires min >= 0
    ensures (forall c :: c in ShrinkU32(min, value) ==> min <= c) <==> value <= min + 1 || value >= 2 * min
    ensures 6 in ShrinkU32(10, 13)
  {
    var s := ShrinkU32(min, value);
    if value > min + 1 {
      assert s[1] == value / 2;
      assert value / 2 in s;
    }
    assert ShrinkU32(10, 13)[1] == 6;
  }

  ghost predicate IsU32Shrinker(gen: Shrinker<int>, min: int)
  {
    forall v: int :: gen(v) == ShrinkU32(min, v)
  }

  /** The property that fails exactly on the values from `t` on. */
  ghost predicate IsThreshold(test: Property<int>, t: int)
  {
    forall v: int :: test(v) == Failed <==> v >= t
  }

  function Max(a: int, b: int): int
  {
    if a < b then b else a
  }

  /** How many steps a threshold shrink takes: halvings while they still fail, then single steps. */
  function StepsNeeded(min: int, t: int, value: int): (n: nat)
    requires min >= 0 && value >= Max(t, min)
    decreases value
    ensures n <= value - Max(t, min)
    ensures n == 0 <==> value == Max(t, min)
  {
    if value == Max(t, min) then 0
    else if t <= min then 1
    else if value / 2 >= t then 1 + StepsNeeded(min, t, value / 2)
    else value - t
  }

  /** Where a threshold shrink moves from a value above the target. */
  function NextThreshold(min: int, t: int, value: int): int
    requires value > Max(t, min)
  {
    if t <= min then min else if value / 2 >= t then value / 2 else value - 1
  }

  lemma ThresholdStep(min: int, t: int, test: Property<int>, value: int)
    requires min >= 0 && IsThreshold(test, t) && value >= Max(t, min)
    ensures FirstFailure(ShrinkU32(min, value), test) ==
            if value == Max(t, min) then None else Some(NextThreshold(min, t, value))
  {
    var s := ShrinkU32(min, value);
    if value > min + 1 {
      var tail: seq<int> := s[1..];
      var last: seq<int> := tail[1..];
      assert tail == [value / 2, value - 1] && last == [value - 1] && last[1..] == [];
      assert FirstFailure(last, test) == if value - 1 >= t then Some(value - 1) else None;
      assert FirstFailure(tail, test) == if value / 2 >= t then Some(value / 2) else FirstFailure(last, test);
      assert FirstFailure(s, test) == if min >= t then Some(min) else FirstFailure(tail, test);
    } else if value > min {
      assert s[1..] == [];
    }
  }

  /** Where a threshold shrink ends after at most `attempts` moves. */
  function Descend(min: int, t: int, value: int, attempts: nat): int
    requires min >= 0 && value >= Max(t, min)
    decreases attempts
  {
    if attempts == 0 || value == Max(t, min) then value
    else Descend(min, t, NextThreshold(min, t, value), attempts - 1)
  }

  lemma {:induction false} DescendReaches(min: int, t: int, value: int, attempts: nat)
    requires min >= 0 && value >= Max(t, min)
    ensures Descend(min, t, value, attempts) == Max(t, min) <==> attempts >= StepsNeeded(min, t, value)
    decreases attempts
  {
    if value != Max(t, min) && attempts > 0 {
      StepsShrink(min, t, value);
      DescendReaches(min, t, NextThreshold(min, t, value), attempts - 1);
    }
  }

  /** Where the shrinker moves from a failing value at or above the target. */
  function NextOf(min: int, t: int, value: int): Option<int>
    requires value >= Max(t, min)
  {
    if value == Max(t, min) then None else Some(NextThreshold(min, t, value))
  }

  ghost predicate Moves(gen: Shrinker<int>, test: Property<int>, min: int, t: int)
  {
    forall v: int :: v >= Max(t, min) ==> FirstFailure(gen(v), test) == NextOf(min, t, v)
  }

  lemma GeneratorMoves(gen: Shrinker<int>, min: int, t: int, test: Property<int>)
    requires min >= 0 && IsU32Shrinker(gen, min) && IsThreshold(test, t)
    ensures Moves(gen, test, min, t)
  {
    forall v: int | v >= Max(t, min)
      ensures FirstFailure(gen(v), test) == NextOf(min, t, v)
    {
      assert gen(v) == ShrinkU32(min, v);
      ThresholdStep(min, t, test, v);
    }
  }

  lemma {:induction false} ShrunkDescends(gen: Shrinker<int>, min: int, t: int, test: Property<int>, value: int,
                                          attempts: nat)
    requires min >= 0 && Moves(gen, test, min, t) && value >= Max(t, min)
    ensures Shrunk(gen, test, value, attempts) == Descend(min, t, value, attempts)
    decreases attempts
  {
    assert FirstFailure(gen(value), test) == NextOf(min, t, value);
    if value != Max(t, min) && attempts > 0 {
      ShrunkDescends(gen, min, t, test, NextThreshold(min, t, value), attempts - 1);
    }
  }

  /**
   For a property that fails exactly from `t` on, the shrinker finds the least failing value of the
   generator's range, `max(t, min)`, exactly when the budget covers the steps needed.
   */
  lemma ThresholdShrink(gen: Shrinker<int>, min: int, t: int, test: Property<int>, original: int, attempts: nat)
    requires min >= 0 && IsU32Shrinker(gen, min) && IsThreshold(test, t) && original >= Max(t, min)
    ensures Shrunk(gen, test, original, attempts) == Max(t, min) <==> attempts >= StepsNeeded(min, t, original)
  {
    GeneratorMoves(gen, min, t, test);
    ShrunkDescends(gen, min, t, test, original, attempts);
    DescendReaches(min, t, original, attempts);
  }

  /** `original - max(t, min)` attempts always suffice. */
  lemma ThresholdBudget(gen: Shrinker<int>, min: int, t: int, test: Property<int>, original: int, attempts: nat)
    requires min >= 0 && IsU32Shrinker(gen, min) && IsThreshold(test, t) && original >= Max(t, min)
    requires attempts >= original - Max(t, min)
    ensures Shrunk(gen, test, original, attempts) == Max(t, min)
  {
    ThresholdShrink(gen, min, t, test, original, attempts);
  }

  lemma StepsShrink(min: int, t: int, value: int)
    requires min >= 0 && value > Max(t, min)
    ensures NextThreshold(min, t, value) >= Max(t, min)
    ensures StepsNeeded(min, t, value) == 1 + StepsNeeded(min, t, NextThreshold(min, t, value))
  {
    if t > min && value / 2 < t {
      assert (value - 1) / 2 < t;
    }
  }

  // ---------- Counterexamples below the range ----------

  /** Some property makes the shrinker return a counterexample below the generator's minimum. */
  ghost predicate LeavesRange(gen: Shrinker<int>, min: int, original: int)
  {
    exists test: Property<int>, attempts: nat :: test(original) == Failed && Shrunk(gen, test, original, attempts) < min
  }

  /** A property that passes on the minimum and its successor and fails on a value below them. */
  function Lure(min: int): Property<int>
  {
    (v: int) => if v >= min + 2 || v == (min + 2) / 2 then Failed else Passed
  }

  /** Where the shrinker moves under that property. */
  function LureNext(min: int, value: int): int
  {
    if value / 2 >= min + 2 || value / 2 == (min + 2) / 2 then value / 2 else value - 1
  }

  lemma LureStep(min: int, value: int)
    requires min >= 3 && value >= min + 2
    ensures FirstFailure(ShrinkU32(min, value), Lure(min)) == Some(LureNext(min, value))
  {
    var test := Lure(min);
    var s := ShrinkU32(min, value);
    var tail: seq<int> := s[1..];
    var last: seq<int> := tail[1..];
    assert tail == [value / 2, value - 1] && last == [value - 1];
    assert test(min) != Failed;
    assert FirstFailure(s, test) == FirstFailure(tail, test);
    if test(value / 2) != Failed {
      assert FirstFailure(tail, test) == FirstFailure(last, test);
      assert value - 1 >= min + 2;
    }
  }

  ghost predicate LureMoves(gen: Shrinker<int>, min: int)
  {
    && (forall v: int :: v >= min + 2 ==> FirstFailure(gen(v), Lure(min)) == Some(LureNext(min, v)))
    && FirstFailure(gen((min + 2) / 2), Lure(min)) == None
  }

  lemma GeneratorLured(gen: Shrinker<int>, min: int)
    requires min >= 3 && IsU32Shrinker(gen, min)
    ensures LureMoves(gen, min)
  {
    forall v: int | v >= min + 2
      ensures FirstFailure(gen(v), Lure(min)) == Some(LureNext(min, v))
    {
      assert gen(v) == ShrinkU32(min, v);
      LureStep(min, v);
    }
    assert gen((min + 2) / 2) == ShrinkU32(min, (min + 2) / 2) == [];
  }

  lemma {:induction false} LuredBelow(gen: Shrinker<int>, min: int, value: int, attempts: nat)
    requires min >= 3 && LureMoves(gen, min)
    requires value >= min + 2 && attempts >= value
    ensures Shrunk(gen, Lure(min), value, attempts) < min
    decreases value
  {
    var next := LureNext(min, value);
    assert FirstFailure(gen(value), Lure(min)) == Some(next);
    if next >= min + 2 {
      LuredBelow(gen, min, next, attempts - 1);
    } else {
      assert next == (min + 2) / 2;
      assert Shrunk(gen, Lure(min), next, attempts - 1) == next;
    }
  }

  /** Values from which no candidate leaves the range. */
  predicate Safe(min: int, value: int)
  {
    value >= min && (min <= 2 || value <= min + 1)
  }

  lemma CandidatesSafe(gen: Shrinker<int>, min: int, test: Property<int>, value: int)
    requires min >= 0 && IsU32Shrinker(gen, min) && Safe(min, value)
    ensures FirstFailure(gen(value), test).Some? ==> Safe(min, FirstFailure(gen(value), test).value)
  {
    var s := ShrinkU32(min, value);
    assert gen(value) == s;
    var r := FirstFailure(s, test);
    if r.Some? {
      var i :| 0 <= i < |s| && s[i] == r.value;
      assert s[i] == min || (value > min + 1 && (s[i] == value / 2 || s[i] == value - 1));
    }
  }

  ghost predicate KeepsSafe(gen: Shrinker<int>, test: Property<int>, min: int)
  {
    forall v: int :: Safe(min, v) && FirstFailure(gen(v), test).Some? ==> Safe(min, FirstFailure(gen(v), test).value)
  }

  lemma {:induction false} ShrunkInRange(gen: Shrinker<int>, min: int, test: Property<int>, value: int, attempts: nat)
    requires KeepsSafe(gen, test, min) && Safe(min, value)
    ensures Safe(min, Shrunk(gen, test, value, attempts))
    decreases attempts
  {
    var next := FirstFailure(gen(value), test);
    if attempts > 0 && next.Some? {
      ShrunkInRange(gen, min, test, next.value, attempts - 1);
    }
  }

  /**
   The returned counterexample can lie below the generator's minimum exactly for a minimum of at least 3
   and an original at least 2 above it.
   */
  lemma LeavesRangeIff(gen: Shrinker<int>, min: int, original: int)
    requires min >= 0 && IsU32Shrinker(gen, min) && original >= min
    ensures LeavesRange(gen, min, original) <==> min >= 3 && original >= min + 2
  {
    if min >= 3 && original >= min + 2 {
      GeneratorLured(gen, min);
      LuredBelow(gen, min, original, original);
      assert Lure(min)(original) == Failed;
      assert LeavesRange(gen, min, original);
    } else {
      forall test: Property<int>, attempts: nat
        ensures Shrunk(gen, test, original, attempts) >= min
      {
        forall v: int | Safe(min, v)
          ensures FirstFailure(gen(v), test).Some? ==> Safe(min, FirstFailure(gen(v), test).value)
        {
          CandidatesSafe(gen, min, test, v);
        }
        ShrunkInRange(gen, min, test, original, attempts);
      }
    }
  }

  // ---------- Byte vectors ----------

  /** Candidates of `ByteVecGenerator`: empty, half as long, one shorter, with a zero in front. */
  function ShrinkBytes(minLen: nat, v: seq<Byte>): seq<seq<Byte>>
  {
    (if |v| > minLen then [[]] else [])
    + (if |v| > 1 then [v[..|v| / 2], v[..|v| - 1]] else [])
    + (if v != [] then [v[0 := 0]] else [])
  }

  /** Every candidate is shorter, except the last one, which repeats `v` exactly if `v` starts with zero. */
  lemma BytesCandidates(minLen: nat, v: seq<Byte>)
    ensures forall i :: 0 <= i < |ShrinkBytes(minLen, v)| - 1 ==> |ShrinkBytes(minLen, v)[i]| < |v|
    ensures v in ShrinkBytes(minLen, v) <==> v != [] && v[0] == 0
  {
    var s := ShrinkBytes(minLen, v);
    if v != [] {
      assert s[|s| - 1] == v[0 := 0];
      if v[0] == 0 {
        assert v[0 := 0] == v;
      }
    }
  }

  /**
   Candidates stay at least as long as the generator's minimum exactly when there is no minimum, nothing
   to shrink, or only one byte that is the minimum. Both the empty and the shortened candidates go below.
   */
  lemma BytesCandidatesInRange(minLen: nat, v: seq<Byte>)
    ensures (forall c :: c in ShrinkBytes(minLen, v) ==> minLen <= |c|)
            <==> minLen == 0 || v == [] || (|v| == 1 && minLen == 1)
    ensures [] in ShrinkBytes(2, [7, 7, 7]) && [7] in ShrinkBytes(2, [7, 7])
  {
    var s := ShrinkBytes(minLen, v);
    if |v| > 1 {
      assert s[|s| - 2] == v[..|v| - 1];
      assert v[..|v| - 1] in s;
      assert |v| > minLen ==> s[0] == [] && [] in s;
    } else if |v| == 1 {
      assert s[|s| - 1] == v[0 := 0];
      assert v[0 := 0] in s;
    }
    EmptyCandidateBelowMinimum();
  }

  lemma EmptyCandidateBelowMinimum()
    ensures [] in ShrinkBytes(2, [7, 7, 7]) && [7] in ShrinkBytes(2, [7, 7])
  {
    assert ShrinkBytes(2, [7, 7, 7])[0] == [];
    assert ShrinkBytes(2, [7, 7])[0] == [7];
  }

  ghost predicate IsBytesShrinker(gen: Shrinker<seq<Byte>>, minLen: nat)
  {
    forall v :: gen(v) == ShrinkBytes(minLen, v)
  }

  /** A failing vector that starts with zero and whose other candidates all pass. */
  ghost predicate Stuck(minLen: nat, test: Property<seq<Byte>>, v: seq<Byte>)
  {
    && v != [] && v[0] == 0 && test(v) == Failed
    && forall c :: c in ShrinkBytes(minLen, v) && c != v ==> test(c) != Failed
  }

  /** These are exactly the vectors that the shrinker repeats, and it moves nowhere else from them. */
  lemma RepeatsIffStuck(gen: Shrinker<seq<Byte>>, minLen: nat, test: Property<seq<Byte>>, v: seq<Byte>)
    requires IsBytesShrinker(gen, minLen)
    ensures FirstFailing(gen, test, v, v) <==> Stuck(minLen, test, v)
    ensures Stuck(minLen, test, v) ==> forall to :: FirstFailing(gen, test, v, to) ==> to == v
  {
    var s := ShrinkBytes(minLen, v);
    assert gen(v) == s;
    BytesCandidates(minLen, v);
    if FirstFailing(gen, test, v, v) {
      var i :| 0 <= i < |s| && s[i] == v && test(v) == Failed && forall j :: 0 <= j < i ==> test(s[j]) != Failed;
      assert i == |s| - 1;
    }
    if Stuck(minLen, test, v) {
      assert s[|s| - 1] == v[0 := 0] == v;
      assert forall j :: 0 <= j < |s| - 1 ==> s[j] in s && s[j] != v;
      assert FirstFailing(gen, test, v, v);
      forall to | FirstFailing(gen, test, v, to)
        ensures to == v
      {
        assert to in gen(v);
      }
    }
  }

  /** The length, and one more while the first byte is not yet zero. */
  function Weight(v: seq<Byte>): nat
  {
    |v| + (if v != [] && v[0] != 0 then 1 else 0)
  }

  /** Every step to another vector lowers the weight. */
  lemma ByteStepDecreases(gen: Shrinker<seq<Byte>>, minLen: nat, test: Property<seq<Byte>>, v: seq<Byte>, to: seq<Byte>)
    requires IsBytesShrinker(gen, minLen) && FirstFailing(gen, test, v, to) && to != v
    ensures Weight(to) < Weight(v)
  {
    assert gen(v) == ShrinkBytes(minLen, v);
    LighterCandidates(minLen, v, to);
  }

  lemma LighterCandidates(minLen: nat, v: seq<Byte>, to: seq<Byte>)
    requires to in ShrinkBytes(minLen, v)
    ensures to == v || Weight(to) < Weight(v)
  {
    if v != [] {
      var last := v[0 := 0];
      assert to == [] || to == v[..|v| / 2] || to == v[..|v| - 1] || to == last;
      assert v[0] == 0 ==> last == v;
    }
  }

  lemma {:induction false} MovingPathIsShort(gen: Shrinker<seq<Byte>>, minLen: nat, test: Property<seq<Byte>>,
                                             path: seq<seq<Byte>>, k: nat)
    requires IsBytesShrinker(gen, minLen) && IsShrinkPath(gen, test, path) && k < |path|
    requires forall i :: 0 <= i < k ==> path[i] != path[i + 1]
    ensures Weight(path[k]) + k <= Weight(path[0])
  {
    if k > 0 {
      MovingPathIsShort(gen, minLen, test, path, k - 1);
      assert FirstFailing(gen, test, path[k - 1], path[k - 1 + 1]);
      assert path[k - 1] != path[k - 1 + 1];
      ByteStepDecreases(gen, minLen, test, path[k - 1], path[k]);
    }
  }

  lemma {:induction false} StaysPut<T>(shrink: Shrinker<T>, test: Property<T>, path: seq<T>, i: nat, j: nat)
    requires i <= j < |path| && IsShrinkPath(shrink, test, path)
    requires forall to :: FirstFailing(shrink, test, path[i], to) ==> to == path[i]
    ensures path[j] == path[i]
    decreases j
  {
    if j > i {
      StaysPut(shrink, test, path, i, j - 1);
      assert FirstFailing(shrink, test, path[j - 1], path[j - 1 + 1]);
    }
  }

  /** Once a stuck vector is reached it is repeated until the whole budget is spent. */
  lemma StuckSpendsBudget(gen: Shrinker<seq<Byte>>, minLen: nat, test: Property<seq<Byte>>, attempts: nat,
                          path: seq<seq<Byte>>, i: nat)
    requires IsBytesShrinker(gen, minLen) && ShrinkResult(gen, test, attempts, path)
    requires i < |path| && Stuck(minLen, test, path[i])
    ensures |path| == attempts + 1
    ensures forall j :: i <= j < |path| ==> path[j] == path[i]
  {
    RepeatsIffStuck(gen, minLen, test, path[i]);
    forall j | i <= j < |path|
      ensures path[j] == path[i]
    {
      StaysPut(gen, test, path, i, j);
    }
    assert path[|path| - 1] == path[i];
    RepeatMeansFailing(gen, test, path[i]);
  }

  lemma RepeatMeansFailing<T>(shrink: Shrinker<T>, test: Property<T>, v: T)
    requires FirstFailing(shrink, test, v, v)
    ensures !NoneFails(shrink, test, v)
  {
  }

  /** Without a stuck vector the loop ends by itself after at most `|original| + 1` steps. */
  lemma UnstuckEndsEarly(gen: Shrinker<seq<Byte>>, minLen: nat, test: Property<seq<Byte>>, attempts: nat,
                         path: seq<seq<Byte>>)
    requires IsBytesShrinker(gen, minLen) && ShrinkResult(gen, test, attempts, path)
    requires forall i :: 0 <= i < |path| ==> !Stuck(minLen, test, path[i])
    ensures |path| - 1 <= Weight(path[0]) <= |path[0]| + 1
  {
    forall i | 0 <= i < |path| - 1
      ensures path[i] != path[i + 1]
    {
      assert FirstFailing(gen, test, path[i], path[i + 1]);
      RepeatsIffStuck(gen, minLen, test, path[i]);
    }
    MovingPathIsShort(gen, minLen, test, path, |path| - 1);
  }

  /**
   With more attempts than the length of the original and one, the byte-vector shrinker spends its whole
   budget if and only if it reaches a stuck vector.
   */
  lemma BudgetSpentIffStuck(gen: Shrinker<seq<Byte>>, minLen: nat, test: Property<seq<Byte>>, attempts: nat,
                            path: seq<seq<Byte>>)
    requires IsBytesShrinker(gen, minLen) && ShrinkResult(gen, test, attempts, path)
    requires attempts > |path[0]| + 1
    ensures |path| == attempts + 1 <==> exists i :: 0 <= i < |path| && Stuck(minLen, test, path[i])
  {
    if i :| 0 <= i < |path| && Stuck(minLen, test, path[i]) {
      StuckSpendsBudget(gen, minLen, test, attempts, path, i);
    } else {
      UnstuckEndsEarly(gen, minLen, test, attempts, path);
    }
  }

  // ---------- Shrinking to a length ----------

  /** The property that fails exactly on the vectors of at least `t` bytes. */
  ghost predicate IsLengthThreshold(test: Property<seq<Byte>>, t: nat)
  {
    forall v :: test(v) == Failed <==> |v| >= t
  }

  /** Under that property the shrinker halves while it can, then drops single bytes, then zeroes the first one. */
  function LengthNext(t: nat, v: seq<Byte>): seq<Byte>
    requires 1 <= t <= |v|
  {
    if |v| == t then v[0 := 0] else if |v| / 2 >= t then v[..|v| / 2] else v[..|v| - 1]
  }

  lemma LengthStep(minLen: nat, t: nat, test: Property<seq<Byte>>, v: seq<Byte>)
    requires 1 <= t <= |v| && IsLengthThreshold(test, t)
    ensures FirstFailure(ShrinkBytes(minLen, v), test) == Some(LengthNext(t, v))
  {
    var s, to := ShrinkBytes(minLen, v), LengthNext(t, v);
    var i := |s| - (if |v| == t then 1 else if |v| / 2 >= t then 3 else 2);
    assert s[i] == to && test(to) == Failed;
    assert forall j :: 0 <= j < i ==> |s[j]| < t;
    SameFirst(s, test, to);
  }

  function NextLength(t: nat, n: nat): int
    requires 1 <= t <= n
  {
    if n == t then t else NextThreshold(0, t, n)
  }

  ghost function SizeAfter(gen: Shrinker<seq<Byte>>, test: Property<seq<Byte>>): (seq<Byte>, nat) -> int
  {
    (v, attempts: nat) => |Shrunk(gen, test, v, attempts)|
  }

  lemma SizeMoves(gen: Shrinker<seq<Byte>>, test: Property<seq<Byte>>, v: seq<Byte>, w: seq<Byte>, attempts: nat)
    requires attempts > 0 && FirstFailure(gen(v), test) == Some(w)
    ensures SizeAfter(gen, test)(v, attempts) == SizeAfter(gen, test)(w, attempts - 1)
  {
    assert Shrunk(gen, test, v, attempts) == Shrunk(gen, test, w, attempts - 1);
  }

  lemma LengthMove(gen: Shrinker<seq<Byte>>, minLen: nat, t: nat, test: Property<seq<Byte>>, v: seq<Byte>,
                   attempts: nat) returns (w: seq<Byte>)
    requires 1 <= t <= |v| && IsBytesShrinker(gen, minLen) && IsLengthThreshold(test, t) && attempts > 0
    ensures |w| == NextLength(t, |v|)
    ensures SizeAfter(gen, test)(v, attempts) == SizeAfter(gen, test)(w, attempts - 1)
  {
    assert gen(v) == ShrinkBytes(minLen, v);
    LengthStep(minLen, t, test, v);
    w := LengthNext(t, v);
    SizeMoves(gen, test, v, w, attempts);
  }

  lemma DescendStep(t: nat, n: nat, attempts: nat)
    requires 1 <= t <= n && attempts > 0
    ensures Descend(0, t, n, attempts) == Descend(0, t, NextLength(t, n), attempts - 1)
  {
  }

  ghost predicate Steps(size: (seq<Byte>, nat) -> int, t: nat, v: seq<Byte>, attempts: nat)
    requires 1 <= t <= |v| && attempts > 0
  {
    exists w: seq<Byte> :: |w| == NextLength(t, |v|) && size(v, attempts) == size(w, attempts - 1)
  }

  /** Any count of bytes that starts at the length and follows the steps descends to `t`. */
  lemma {:induction false} LengthDescends(size: (seq<Byte>, nat) -> int, t: nat, v: seq<Byte>, attempts: nat)
    requires 1 <= t <= |v|
    requires forall u: seq<Byte> :: size(u, 0) == |u|
    requires forall u: seq<Byte>, k: nat :: |u| >= t && k > 0 ==> Steps(size, t, u, k)
    ensures size(v, attempts) == Descend(0, t, |v|, attempts)
    decreases attempts
  {
    if attempts > 0 {
      assert Steps(size, t, v, attempts);
      var w: seq<Byte> :| |w| == NextLength(t, |v|) && size(v, attempts) == size(w, attempts - 1);
      LengthDescends(size, t, w, attempts - 1);
      DescendStep(t, |v|, attempts);
    }
  }

  lemma SizeSteps(gen: Shrinker<seq<Byte>>, minLen: nat, t: nat, test: Property<seq<Byte>>, v: seq<Byte>, attempts: nat)
    requires 1 <= t <= |v| && IsBytesShrinker(gen, minLen) && IsLengthThreshold(test, t) && attempts > 0
    ensures Steps(SizeAfter(gen, test), t, v, attempts)
  {
    var w := LengthMove(gen, minLen, t, test, v, attempts);
  }

  lemma SizeDescends(gen: Shrinker<seq<Byte>>, minLen: nat, t: nat, test: Property<seq<Byte>>, v: seq<Byte>,
                     attempts: nat)
    requires 1 <= t <= |v| && IsBytesShrinker(gen, minLen) && IsLengthThreshold(test, t)
    ensures SizeAfter(gen, test)(v, attempts) == Descend(0, t, |v|, attempts)
  {
    var size := SizeAfter(gen, test);
    forall u: seq<Byte>, k: nat | |u| >= t && k > 0
      ensures Steps(size, t, u, k)
    {
      SizeSteps(gen, minLen, t, test, u, k);
    }
    LengthDescends(size, t, v, attempts);
  }

  /**
   For a property that fails exactly from length `t >= 1` on, the byte-vector shrinker reaches length `t`
   exactly when the budget covers the halvings and single steps needed.
   */
  lemma LengthThresholdShrink(gen: Shrinker<seq<Byte>>, minLen: nat, t: nat, test: Property<seq<Byte>>, v: seq<Byte>,
                              attempts: nat)
    requires 1 <= t <= |v| && IsBytesShrinker(gen, minLen) && IsLengthThreshold(test, t)
    ensures |Shrunk(gen, test, v, attempts)| == t <==> attempts >= StepsNeeded(0, t, |v|)
  {
    SizeDescends(gen, minLen, t, test, v, attempts);
    DescendReaches(0, t, |v|, attempts);
  }

  // ---------- Random runs ----------

  datatype Results<T> = Results(total: nat, passed: nat, failed: nat, discarded: nat,
                                counterexample: Option<(T, seq<T>)>, successRate: real)

  datatype Execution = Execution(verdict: Verdict, size: nat)

  function CountVerdict(es: seq<Execution>, v: Verdict): nat
  {
    if es == [] then 0 else CountVerdict(es[..|es| - 1], v) + (if es[|es| - 1].verdict == v then 1 else 0)
  }

  function SizeOf(i: nat, maxSize: nat): nat
  {
    if i / 10 < maxSize then i / 10 else maxSize
  }

  /** What running the cases before `n` records. */
  function HistoryOf<T>(test: Property<T>, draws: nat -> T, maxSize: nat, n: nat): (h: seq<Execution>)
    ensures |h| == n
  {
    if n == 0 then []
    else HistoryOf(test, draws, maxSize, n - 1) + [Execution(test(draws(n - 1)), SizeOf(n - 1, maxSize))]
  }

  /** Entry `i`: the verdict on draw `i`, at a size that grows by one every ten cases up to the maximum. */
  lemma {:induction false} HistoryAt<T>(test: Property<T>, draws: nat -> T, maxSize: nat, n: nat, i: nat)
    requires i < n
    ensures var e := HistoryOf(test, draws, maxSize, n)[i];
            && e.verdict == test(draws(i))
            && e.size <= maxSize && 10 * e.size <= i
            && (e.size < maxSize ==> i < 10 * e.size + 10)
  {
    if i < n - 1 {
      HistoryAt(test, draws, maxSize, n - 1, i);
    }
  }

  lemma CountSnoc(es: seq<Execution>, e: Execution, v: Verdict)
    ensures CountVerdict(es + [e], v) == CountVerdict(es, v) + (if e.verdict == v then 1 else 0)
  {
    assert (es + [e])[..|es|] == es;
  }

  ghost predicate Counted(es: seq<Execution>, passed: nat, failed: nat, discarded: nat)
  {
    && passed == CountVerdict(es, Passed)
    && failed == CountVerdict(es, Failed)
    && discarded == CountVerdict(es, Discarded)
  }

  lemma CountStep(es: seq<Execution>, e: Execution, passed: nat, failed: nat, discarded: nat)
    requires Counted(es, passed, failed, discarded)
    ensures match e.verdict
            case Passed => Counted(es + [e], passed + 1, failed, discarded)
            case Failed => Counted(es + [e], passed, failed + 1, discarded)
            case Discarded => Counted(es + [e], passed, failed, discarded + 1)
  {
    CountSnoc(es, e, Passed);
    CountSnoc(es, e, Failed);
    CountSnoc(es, e, Discarded);
  }

  lemma {:induction false} CountsAddUp(es: seq<Execution>)
    ensures CountVerdict(es, Passed) + CountVerdict(es, Failed) + CountVerdict(es, Discarded) == |es|
  {
    if es == [] {
    } else {
      CountsAddUp(es[..|es| - 1]);
    }
  }

  function SuccessRate(passed: nat, total: nat): real
  {
    if total > 0 then passed as real / total as real else 0.0
  }

  predicate IsRate(rate: real, part: nat, total: nat)
  {
    if total == 0 then rate == 0.0 else rate * total as real == part as real
  }

  lemma RateTimesTotal(passed: nat, total: nat)
    requires passed <= total
    ensures IsRate(SuccessRate(passed, total), passed, total)
  {
  }

  /** The reported counterexample and the steps before it form a shrink chain from the original. */
  ghost predicate IsChainFrom<T>(shrink: Shrinker<T>, test: Property<T>, attempts: nat, original: T, found: (T, seq<T>))
  {
    var chain := found.1 + [found.0];
    chain[0] == original && ShrinkResult(shrink, test, attempts, chain)
  }

  /** The run stops right after the first failing draw, or runs all iterations. */
  ghost predicate StopsAt<T>(test: Property<T>, draws: nat -> T, iterations: nat, n: nat)
  {
    && n <= iterations
    && (forall i: nat :: i + 1 < n ==> test(draws(i)) != Failed)
    && (n < iterations ==> n > 0 && test(draws(n - 1)) == Failed)
  }

  /**
   The loop of the test runner: it executes up to and including the first failing case, and the counters
   are exact over the cases that ran.
   */
  method RunCases<T>(test: Property<T>, draws: nat -> T, iterations: nat, maxSize: nat)
    returns (passed: nat, failed: nat, discarded: nat, history: seq<Execution>)
    ensures StopsAt(test, draws, iterations, |history|)
    ensures history == HistoryOf(test, draws, maxSize, |history|)
    ensures Counted(history, passed, failed, discarded)
    ensures failed == (if |history| > 0 && test(draws(|history| - 1)) == Failed then 1 else 0)
  {
    passed, failed, discarded, history := 0, 0, 0, [];
    for n := 0 to iterations
      invariant history == HistoryOf(test, draws, maxSize, n)
      invariant forall i: nat :: i < n ==> test(draws(i)) != Failed
      invariant Counted(history, passed, failed, discarded) && failed == 0
    {
      var verdict := test(draws(n));
      var execution := Execution(verdict, SizeOf(n, maxSize));
      CountStep(history, execution, passed, failed, discarded);
      history := history + [execution];
      match verdict
      case Passed => passed := passed + 1;
      case Discarded => discarded := discarded + 1;
      case Failed =>
        failed := failed + 1;
        return;
    }
  }

  /**
   The test runner. At most one case fails; a counterexample is reported exactly if some draw within the
   iterations fails, and it is the shrunk form of the first such draw.
   */
  method RunPropertyTest<T(==)>(test: Property<T>, shrink: Shrinker<T>, draws: nat -> T,
                                iterations: nat, maxSize: nat, attempts: nat)
    returns (r: Results<T>, history: seq<Execution>)
    ensures StopsAt(test, draws, iterations, r.total)
    ensures history == HistoryOf(test, draws, maxSize, r.total)
    ensures r.total == r.passed + r.failed + r.discarded
    ensures r.passed == CountVerdict(history, Passed) && r.failed == CountVerdict(history, Failed) <= 1
    ensures r.counterexample.Some? <==> exists i: nat :: i < iterations && test(draws(i)) == Failed
    ensures r.counterexample.Some? ==>
              && r.total > 0
              && IsChainFrom(shrink, test, attempts, draws(r.total - 1), r.counterexample.value)
              && r.counterexample.value.0 == Shrunk(shrink, test, draws(r.total - 1), attempts)
              && test(r.counterexample.value.0) == Failed
    ensures IsRate(r.successRate, r.passed, r.total)
  {
    var passed, failed, discarded;
    passed, failed, discarded, history := RunCases(test, draws, iterations, maxSize);
    var counterexample: Option<(T, seq<T>)> := None;
    if failed > 0 {
      var minimal, steps := ShrinkCounterexample(shrink, test, draws(|history| - 1), attempts);
      counterexample := Some((minimal, steps));
    }
    CountsAddUp(history);
    var total := passed + failed + discarded;
    r := Results(total, passed, failed, discarded, counterexample, SuccessRate(passed, total));
    RateTimesTotal(passed, total);
  }
}
