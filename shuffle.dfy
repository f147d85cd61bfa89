/**
 * The in-place Fisher–Yates shuffle `shuffleArray` (script.js:99-105).
 *
 * The loop runs `i` from `length - 1` down to 1 and swaps `array[i]` with
 * `array[j]`.  The source draws `j` as `Math.floor(Math.random() * (i + 1))`;
 * here the draws are an input sequence `js`, where `js[k]` is the `j` of the
 * k-th iteration, the one with `i == length - 1 - k`.
 */
module Shuffle {

  /** How many times the loop body runs on an array of length `n`. */
  function StepCount(n: nat): (c: nat)
    ensures n > 0 ==> c + 1 == n
    ensures n == 0 ==> c == 0
  {
    if n == 0 then 0 else n - 1
  }

  /**
   * One draw per iteration, and each draw lies in `[0, i]` for the `i` of its
   * iteration: what `Math.floor(Math.random() * (i + 1))` yields.
   */
  predicate ValidDraws(js: seq<int>, n: nat)
  {
    |js| == StepCount(n) && forall k :: 0 <= k < |js| ==> 0 <= js[k] <= n - 1 - k
  }

  /** The destructuring swap `[array[i], array[j]] = [array[j], array[i]]`. */
  function Swap<T>(s: seq<T>, i: nat, j: nat): (r: seq<T>)
    requires i < |s| && j < |s|
    ensures |r| == |s| && r[i] == s[j] && r[j] == s[i]
    ensures forall k :: 0 <= k < |s| && k != i && k != j ==> r[k] == s[k]
  {
    seq(|s|, k requires 0 <= k < |s| => if k == j then s[i] else if k == i then s[j] else s[k])
  }

  /**
   * The contents after the first `m` iterations.  Iteration `m` (counting
   * from 1) has `i == |s| - m` and `j == js[m - 1]`.
   */
  function ShuffleSteps<T>(s: seq<T>, js: seq<int>, m: nat): (r: seq<T>)
    requires ValidDraws(js, |s|) && m <= |js|
    ensures |r| == |s|
    decreases m
  {
    if m == 0 then s
    else Swap(ShuffleSteps(s, js, m - 1), |s| - m, js[m - 1])
  }

  /**
   * The contents once the loop has finished: the same length and exactly the
   * same elements (a permutation of the input).
   */
  function Shuffled<T>(s: seq<T>, js: seq<int>): (r: seq<T>)
    requires ValidDraws(js, |s|)
    ensures |r| == |s| && multiset(r) == multiset(s)
  {
    ShuffleStepsPermutes(s, js, |js|);
    ShuffleSteps(s, js, |js|)
  }

  /** A swap keeps the elements: it takes `s[i]` out and puts `s[j]` in, then the reverse. */
  lemma SwapPermutes<T>(s: seq<T>, i: nat, j: nat)
    requires i < |s| && j < |s|
    ensures multiset(Swap(s, i, j)) == multiset(s)
  {
    assert Swap(s, i, j) == s[i := s[j]][j := s[i]];
    var t := s[i := s[j]];
    assert multiset(t) == multiset(s) - multiset{s[i]} + multiset{s[j]};
    assert multiset(t[j := s[i]]) == multiset(t) - multiset{t[j]} + multiset{s[i]};
  }

  /** Each iteration only exchanges two elements, so every prefix of the loop permutes its input. */
  lemma {:induction false} ShuffleStepsPermutes<T>(s: seq<T>, js: seq<int>, m: nat)
    requires ValidDraws(js, |s|) && m <= |js|
    ensures multiset(ShuffleSteps(s, js, m)) == multiset(s)
    decreases m
  {
    if m == 0 {
      assert ShuffleSteps(s, js, m) == s;
    } else {
      ShuffleStepsPermutes(s, js, m - 1);
      StepPermutes(s, js, m);
    }
  }

  /** Iteration `m` keeps the elements of the contents it starts from. */
  lemma StepPermutes<T>(s: seq<T>, js: seq<int>, m: nat)
    requires ValidDraws(js, |s|) && 0 < m <= |js|
    ensures multiset(ShuffleSteps(s, js, m)) == multiset(ShuffleSteps(s, js, m - 1))
  {
    var prev := ShuffleSteps(s, js, m - 1);
    assert ShuffleSteps(s, js, m) == Swap(prev, |s| - m, js[m - 1]);
    SwapPermutes(prev, |s| - m, js[m - 1]);
  }

  /** One swap on the array, `[array[i], array[j]] = [array[j], array[i]]`. */
  method SwapAt<T>(a: array<T>, i: nat, j: nat)
    requires i < a.Length && j < a.Length
    modifies a
    ensures a[..] == Swap(old(a[..]), i, j)
  {
    a[i], a[j] := a[j], a[i];
  }

  /**
   * The shuffle itself, in place.  `j` is read from `js` instead of
   * `Math.random`; every access `a[i]`, `a[j]` is in bounds because the loop
   * keeps `1 <= i < a.Length` and the draws keep `0 <= j <= i`.  The same
   * array is returned.
   */
  method ShuffleArray<T>(a: array<T>, js: seq<int>) returns (r: array<T>)
    requires ValidDraws(js, a.Length)
    modifies a
    ensures r == a
    ensures a[..] == Shuffled(old(a[..]), js)
    ensures multiset(a[..]) == multiset(old(a[..]))
  {
    ghost var s := a[..];
    var i := a.Length - 1;
    while i > 0
      invariant if a.Length == 0 then i == -1 else 0 <= i < a.Length
      invariant a[..] == ShuffleSteps(s, js, a.Length - 1 - i)
    {
      var j := js[a.Length - 1 - i];
      SwapAt(a, i, j);
      i := i - 1;
    }
    assert a[..] == Shuffled(s, js);
    r := a;
  }

  /**
   * Once the loop has passed index `i`, `array[i]` never changes again: the
   * element put there by iteration `k + 1` is the one the finished shuffle
   * leaves there.
   */
  lemma {:induction false} PositionFinal<T>(s: seq<T>, js: seq<int>, k: nat, m: nat)
    requires ValidDraws(js, |s|) && k < m <= |js|
    ensures ShuffleSteps(s, js, m)[|s| - 1 - k] == ShuffleSteps(s, js, k + 1)[|s| - 1 - k]
    decreases m
  {
    if m > k + 1 {
      PositionFinal(s, js, k, m - 1);
      var prev := ShuffleSteps(s, js, m - 1);
      assert ShuffleSteps(s, js, m) == Swap(prev, |s| - m, js[m - 1]);
      assert js[m - 1] <= |s| - m < |s| - 1 - k;
    }
  }

  /**
   * When every draw picks `j == i`, each swap is a no-op and the shuffle
   * returns its input unchanged.
   */
  lemma {:induction false} IdentityDraws<T>(s: seq<T>, js: seq<int>, m: nat)
    requires ValidDraws(js, |s|) && m <= |js|
    requires forall k :: 0 <= k < |js| ==> js[k] == |s| - 1 - k
    ensures ShuffleSteps(s, js, m) == s
    decreases m
  {
    if m > 0 {
      IdentityDraws(s, js, m - 1);
    }
  }

  /**
   * The shuffle can move the first element to any of four positions: for each
   * position `p` some valid draws leave `s[0]` there.  For the options of a
   * question, whose first element is the correct answer, no position is fixed.
   */
  lemma FirstElementAnyPosition<T>(s: seq<T>, p: nat)
    requires |s| == 4 && p < 4
    ensures exists js :: ValidDraws(js, 4) && Shuffled(s, js)[p] == s[0]
  {
    var js := if p == 3 then [0, 2, 1] else if p == 2 then [3, 0, 1] else if p == 1 then [3, 2, 0] else [3, 2, 1];
    assert ValidDraws(js, 4);
    var s1 := Swap(s, 3, js[0]);
    var s2 := Swap(s1, 2, js[1]);
    var s3 := Swap(s2, 1, js[2]);
    assert ShuffleSteps(s, js, 1) == s1;
    assert ShuffleSteps(s, js, 2) == s2;
    assert Shuffled(s, js) == s3;
    assert s3[p] == s[0];
  }
}
