/**
 * Building the four answer options of a question: `getRandomUniquePokemonName`
 * (script.js:81-87) and `generateRandomOptions` (script.js:64-78).
 *
 * Each call of `getRandomPokemonName` (script.js:90-96) is one element of an
 * oracle sequence `draws`: the name the lookup returned, or a failed fetch.
 * The real retry loop is unbounded; over a finite sequence of draws it either
 * ends or is still running when the draws run out.
 */
module Options {
  import Shuffle

  /** What one call of `getRandomPokemonName` produced. */
  datatype Draw = Name(name: string) | FetchError

  /**
   * How the retry loop of `getRandomUniquePokemonName` ends: it returns a
   * name after `used` draws, its promise rejects at draw `used`, or it is
   * still retrying when the draws run out.
   */
  datatype Pick = Picked(name: string, used: nat) | Failed(used: nat) | Exhausted

  /** A draw the loop condition `options.includes(randomName)` sends back for another try. */
  predicate Rejected(options: seq<string>, d: Draw)
  {
    d.Name? && d.name in options
  }

  /**
   * Reference definition of the retry loop: the first draw that is a failure
   * or a name outside `options` ends it.
   */
  function FirstUnique(options: seq<string>, draws: seq<Draw>): (p: Pick)
    ensures p.Picked? ==> 1 <= p.used <= |draws| && draws[p.used - 1] == Name(p.name) && p.name !in options
    ensures p.Failed? ==> 1 <= p.used <= |draws| && draws[p.used - 1] == FetchError
    decreases |draws|
  {
    if draws == [] then Exhausted
    else match draws[0]
      case FetchError => Failed(1)
      case Name(n) =>
        if n !in options then Picked(n, 1)
        else match FirstUnique(options, draws[1..])
          case Picked(m, u) => Picked(m, u + 1)
          case Failed(u) => Failed(u + 1)
          case Exhausted => Exhausted
  }

  /** Every draw before the one that ends the loop was a name already in `options`. */
  lemma {:induction false} FirstUniqueRejectsBefore(options: seq<string>, draws: seq<Draw>)
    ensures var p := FirstUnique(options, draws);
      && (!p.Exhausted? ==> forall i :: 0 <= i < p.used - 1 ==> Rejected(options, draws[i]))
      && (p.Exhausted? ==> forall i :: 0 <= i < |draws| ==> Rejected(options, draws[i]))
    decreases |draws|
  {
    if draws != [] && Rejected(options, draws[0]) {
      FirstUniqueRejectsBefore(options, draws[1..]);
      var p := FirstUnique(options, draws);
      forall i | 0 <= i < (if p.Exhausted? then |draws| else p.used - 1)
        ensures Rejected(options, draws[i])
      {
        if i > 0 {
          assert draws[i] == draws[1..][i - 1];
        }
      }
    }
  }

  /** Conversely, the way the loop ends determines `FirstUnique` completely. */
  lemma {:induction false} FirstUniqueAt(options: seq<string>, draws: seq<Draw>, k: nat)
    requires k <= |draws|
    requires forall i :: 0 <= i < k ==> Rejected(options, draws[i])
    ensures k == |draws| ==> FirstUnique(options, draws) == Exhausted
    ensures k < |draws| && draws[k] == FetchError ==> FirstUnique(options, draws) == Failed(k + 1)
    ensures k < |draws| && draws[k].Name? && draws[k].name !in options ==>
              FirstUnique(options, draws) == Picked(draws[k].name, k + 1)
    decreases k
  {
    if k > 0 {
      assert Rejected(options, draws[0]);
      FirstUniqueAt(options, draws[1..], k - 1);
    }
  }

  /**
   * `getRandomUniquePokemonName`: the `do … while` loop draws until a name
   * not in `options` comes up.  `options` is a value here, so the loop
   * cannot modify it; it only reads it.
   */
  method GetRandomUniqueName(options: seq<string>, draws: seq<Draw>) returns (p: Pick)
    ensures p == FirstUnique(options, draws)
    ensures p.Picked? ==> p.name !in options
  {
    var k := 0;
    while k < |draws|
      invariant 0 <= k <= |draws|
      invariant forall i :: 0 <= i < k ==> Rejected(options, draws[i])
    {
      var d := draws[k];
      FirstUniqueAt(options, draws, k);
      k := k + 1;
      match d {
        case FetchError =>
          return Failed(k);
        case Name(n) =>
          if n !in options {
            return Picked(n, k);
          }
      }
    }
    FirstUniqueAt(options, draws, k);
    p := Exhausted;
  }

  /** How drawing `count` distractors ends. */
  datatype Drawn = Drawn(names: seq<string>, used: nat) | DrawFailed | OutOfDraws

  /**
   * `count` successive runs of the retry loop over one stream of draws, each
   * comparing against the same `options`.  In the source the three runs are
   * started together by `Promise.all` while `options` is still
   * `[correctAnswer]`, so nothing one run finds is seen by another.
   */
  function Distractors(options: seq<string>, draws: seq<Draw>, count: nat): (r: Drawn)
    ensures r.Drawn? ==> |r.names| == count && r.used <= |draws|
    decreases count
  {
    if count == 0 then Drawn([], 0)
    else match Distractors(options, draws, count - 1)
      case Drawn(ns, u) =>
        (match FirstUnique(options, draws[u..])
          case Picked(n, v) => Drawn(ns + [n], u + v)
          case Failed(_) => DrawFailed
          case Exhausted => OutOfDraws)
      case DrawFailed => DrawFailed
      case OutOfDraws => OutOfDraws
  }

  /** No distractor occurs in the `options` the retry loops compared against. */
  lemma {:induction false} DistractorsAvoid(options: seq<string>, draws: seq<Draw>, count: nat)
    ensures var r := Distractors(options, draws, count);
      r.Drawn? ==> forall x :: x in r.names ==> x !in options
    decreases count
  {
    if count > 0 {
      DistractorsAvoid(options, draws, count - 1);
    }
  }

  /**
   * What `generateRandomOptions` resolves to: the shuffled options, or
   * `undefined` when a draw failed (the `catch` at script.js:74-77), or
   * nothing yet because a retry loop is still running.
   */
  datatype Generated = Generated(options: seq<string>) | Undefined | Pending

  /** Reference definition of `generateRandomOptions`; `js` are the shuffle's draws. */
  function BuildOptions(correct: string, draws: seq<Draw>, js: seq<int>): (r: Generated)
    requires Shuffle.ValidDraws(js, 4)
    ensures r.Generated? <==> Distractors([correct], draws, 3).Drawn?
    ensures r.Generated? ==> |r.options| == 4
  {
    match Distractors([correct], draws, 3)
      case Drawn(ns, _) => Generated(Shuffle.Shuffled([correct] + ns, js))
      case DrawFailed => Undefined
      case OutOfDraws => Pending
  }

  /**
   * The options always hold four names, the correct answer exactly once, and
   * otherwise just the drawn distractors, each different from the correct
   * answer; the options are ready exactly when all three distractors were
   * drawn, and `undefined` exactly when a draw failed.
   */
  lemma BuildOptionsSound(correct: string, draws: seq<Draw>, js: seq<int>)
    requires Shuffle.ValidDraws(js, 4)
    ensures var r := BuildOptions(correct, draws, js);
      var d := Distractors([correct], draws, 3);
      && (r.Generated? <==> d.Drawn?)
      && (r.Undefined? <==> d.DrawFailed?)
      && (r.Generated? ==>
            && |r.options| == 4
            && multiset(r.options)[correct] == 1
            && multiset(r.options) == multiset([correct] + d.names)
            && forall x :: x in r.options && x != correct ==> x in d.names)
  {
    var d := Distractors([correct], draws, 3);
    DistractorsAvoid([correct], draws, 3);
    if d.Drawn? {
      var s := [correct] + d.names;
      assert correct !in d.names;
      assert multiset(s)[correct] == 1 + multiset(d.names)[correct];
      var r := Shuffle.Shuffled(s, js);
      forall x | x in r && x != correct ensures x in d.names {
        assert x in multiset(s);
      }
    }
  }

  /**
   * `Array.from({ length: 3 }, () => getRandomUniquePokemonName(options))`
   * awaited with `Promise.all`: three runs of the retry loop against the same
   * `options`, the first failure rejecting the whole batch.
   */
  method DrawDistractors(options: seq<string>, draws: seq<Draw>) returns (d: Drawn)
    ensures d == Distractors(options, draws, 3)
  {
    var names: seq<string> := [];
    var used := 0;
    for k := 0 to 3
      invariant Distractors(options, draws, k) == Drawn(names, used)
    {
      var p := GetRandomUniqueName(options, draws[used..]);
      DistractorsNext(options, draws, k, names, used);
      match p {
        case Picked(n, v) =>
          names, used := names + [n], used + v;
        case Failed(_) =>
          DistractorsStay(options, draws, k + 1, 3);
          return DrawFailed;
        case Exhausted =>
          DistractorsStay(options, draws, k + 1, 3);
          return OutOfDraws;
      }
    }
    d := Drawn(names, used);
  }

  /**
   * `generateRandomOptions`: seed the options with the correct answer, draw
   * three distractors against that one-element array, push them and shuffle
   * the array in place.
   */
  method GenerateRandomOptions(correct: string, draws: seq<Draw>, js: seq<int>) returns (r: Generated)
    requires Shuffle.ValidDraws(js, 4)
    ensures r == BuildOptions(correct, draws, js)
    ensures r.Generated? ==> |r.options| == 4 && multiset(r.options)[correct] == 1
  {
    var options := [correct];
    var d := DrawDistractors(options, draws);
    match d {
      case DrawFailed =>
        r := Undefined;
      case OutOfDraws =>
        r := Pending;
      case Drawn(names, _) =>
        options := options + names;
        var a := new string[|options|](i requires 0 <= i < |options| => options[i]);
        assert a[..] == options;
        var shuffled := Shuffle.ShuffleArray(a, js);
        r := Generated(shuffled[..]);
    }
    assert r.Generated? ==> |r.options| == 4 && multiset(r.options)[correct] == 1 by {
      BuildOptionsSound(correct, draws, js);
    }
  }

  /** One more run of the retry loop, over the draws the earlier runs left. */
  lemma DistractorsNext(options: seq<string>, draws: seq<Draw>, k: nat, names: seq<string>, used: nat)
    requires Distractors(options, draws, k) == Drawn(names, used)
    ensures used <= |draws|
    ensures var p := FirstUnique(options, draws[used..]);
      Distractors(options, draws, k + 1) ==
        match p
          case Picked(n, v) => Drawn(names + [n], used + v)
          case Failed(_) => DrawFailed
          case Exhausted => OutOfDraws
  {
  }

  /** Once one run of the retry loop has failed or run out of draws, so have all later counts. */
  lemma {:induction false} DistractorsStay(options: seq<string>, draws: seq<Draw>, k: nat, count: nat)
    requires k <= count
    requires !Distractors(options, draws, k).Drawn?
    ensures Distractors(options, draws, count) == Distractors(options, draws, k)
    decreases count
  {
    if count > k {
      DistractorsStay(options, draws, k, count - 1);
    }
  }

  /**
   * A deterministic draw sequence whose third draw repeats the correct
   * answer (say `"bulbasaur"`, `"charmander"`, `"pikachu"`, `"squirtle"` for
   * `"pikachu"`): that draw is rejected and redrawn, and the fourth takes its
   * place.
   */
  lemma RetriesDuplicateOfCorrectAnswer(c: string, n1: string, n2: string, n3: string)
    requires n1 != c && n2 != c && n3 != c
    ensures Distractors([c], [Name(n1), Name(n2), Name(c), Name(n3)], 3) == Drawn([n1, n2, n3], 4)
  {
    var o := [c];
    var ds := [Name(n1), Name(n2), Name(c), Name(n3)];
    assert Distractors(o, ds, 1) == Drawn([n1], 1) by {
      assert ds[0..] == ds;
    }
    assert Distractors(o, ds, 2) == Drawn([n1, n2], 2) by {
      assert ds[1..] == [Name(n2), Name(c), Name(n3)];
    }
    assert FirstUnique(o, ds[2..]) == Picked(n3, 2) by {
      assert ds[2..] == [Name(c), Name(n3)];
      assert ds[2..][1..] == [Name(n3)];
    }
  }

  /**
   * The distractors are not distinct from one another: each run of the
   * retry loop compares only against `[correctAnswer]`, so a name drawn three
   * times is accepted three times.
   */
  lemma DistractorsMayRepeat(c: string, n: string)
    requires n != c
    ensures Distractors([c], [Name(n), Name(n), Name(n)], 3) == Drawn([n, n, n], 3)
  {
    // the third run starts at the last draw
    assert [Name(n), Name(n), Name(n)][2..] == [Name(n)];
  }

  /**
   * Whenever the three distractors were drawn, the correct answer can end up
   * in any of the four positions, depending on the shuffle's draws.
   */
  lemma CorrectAnswerAnyPosition(correct: string, draws: seq<Draw>, p: nat)
    requires Distractors([correct], draws, 3).Drawn? && p < 4
    ensures exists js ::
              && Shuffle.ValidDraws(js, 4)
              && BuildOptions(correct, draws, js).Generated?
              && BuildOptions(correct, draws, js).options[p] == correct
  {
    var s := [correct] + Distractors([correct], draws, 3).names;
    Shuffle.FirstElementAnyPosition(s, p);
    var js :| Shuffle.ValidDraws(js, 4) && Shuffle.Shuffled(s, js)[p] == s[0];
    assert BuildOptions(correct, draws, js) == Generated(Shuffle.Shuffled(s, js));
  }

  /** So the same name can fill three of the four options. */
  lemma OptionsMayRepeat(c: string, n: string, js: seq<int>)
    requires n != c && Shuffle.ValidDraws(js, 4)
    ensures var r := BuildOptions(c, [Name(n), Name(n), Name(n)], js);
      r.Generated? && multiset(r.options)[n] == 3
  {
    DistractorsMayRepeat(c, n);
    BuildOptionsSound(c, [Name(n), Name(n), Name(n)], js);
    assert multiset([c] + [n, n, n])[n] == 3;
  }
}
