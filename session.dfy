/**
 * The game session: the four globals `currentQuestion`, `score`,
 * `totalQuestions` and `clickable` (script.js:9-16) and the handlers that
 * update them: `startGame`, the counter update of `fetchPokemon`,
 * `checkAnswer`, its `setTimeout` continuation, `endGame` and `resetGame`.
 *
 * There is no DOM, network or timer: each handler is a transition that
 * reports the effects it requests (an alert, a fetch, feedback shown).
 * The transitions are first given as functions on a state value, and then
 * as the methods of a class whose fields are the four globals.
 */
module Session {

  /** `parseInt` of the settings field: `NaN`, or an integer. */
  datatype Count = NaN | Int(value: int)

  /** JavaScript's `x < t` for a number `t` that may be `NaN` (always false then). */
  predicate Below(x: int, t: Count)
  {
    t.Int? && x < t.value
  }

  /** The check `!(isNaN(n) || n < 1 || n > 150)` of script.js:24. */
  predicate InRange(n: Count)
  {
    n.Int? && 1 <= n.value <= 150
  }

  datatype SessionState = SessionState(currentQuestion: int, score: int, totalQuestions: Count, clickable: bool)

  /** What a handler asks the page to do. */
  datatype Effect =
    | InvalidCountAlert                            // alert at script.js:25
    | SettingsHidden                               // script.js:30
    | QuestionShown                                // showQuestion, script.js:54
    | NotStartedAlert                              // alert at script.js:136
    | IgnoredWhileLocked                           // console.log at script.js:142
    | Feedback(correct: bool)                      // script.js:150-164
    | FetchRequested                               // fetchPokemon(), script.js:173 and 200
    | GameOverAlert(finalScore: int, outOf: Count) // alert at script.js:189
    | SettingsShown                                // script.js:198

  datatype Step = Step(next: SessionState, effects: seq<Effect>)

  /** The values the globals have when the page loads (script.js:9-16). */
  const Initial: SessionState := SessionState(-1, 0, Int(10), true)

  /**
   * `startGame`.  `totalQuestions` is assigned before it is validated, so an
   * invalid count still replaces it; nothing else changes then.  A valid
   * count advances `currentQuestion` and unlocks the answers.
   */
  function StartStep(s: SessionState, parsed: Count): (r: Step)
    ensures r.next.totalQuestions == parsed && r.next.score == s.score
    ensures !InRange(parsed) ==> r.next == s.(totalQuestions := parsed) && r.effects == [InvalidCountAlert]
    ensures InRange(parsed) ==>
              && r.next.currentQuestion == s.currentQuestion + 1
              && r.next.clickable
              && r.effects == [SettingsHidden]
  {
    var t := s.(totalQuestions := parsed);
    if !InRange(parsed) then Step(t, [InvalidCountAlert])
    else Step(t.(currentQuestion := s.currentQuestion + 1, clickable := true), [SettingsHidden])
  }

  /** A `fetchPokemon` whose lookup succeeded: the question is shown and counted. */
  function FetchStep(s: SessionState): (r: Step)
    ensures r.next.currentQuestion == s.currentQuestion + 1
    ensures r.next.score == s.score && r.next.totalQuestions == s.totalQuestions
    ensures r.next.clickable == s.clickable
    ensures r.effects == [QuestionShown]
  {
    Step(s.(currentQuestion := s.currentQuestion + 1), [QuestionShown])
  }

  /** `checkAnswer` accepts a click only once the game has started and while unlocked. */
  predicate Accepts(s: SessionState)
  {
    s.currentQuestion > 0 && s.clickable
  }

  /**
   * `checkAnswer`.  A rejected click changes nothing.  An accepted one locks
   * the answers and scores one point exactly when the selected option is the
   * correct answer.
   */
  function AnswerStep(s: SessionState, selected: string, correct: string): (r: Step)
    ensures !Accepts(s) ==> r.next == s
    ensures s.currentQuestion <= 0 ==> r.effects == [NotStartedAlert]
    ensures s.currentQuestion > 0 && !s.clickable ==> r.effects == [IgnoredWhileLocked]
    ensures Accepts(s) ==>
              && !r.next.clickable
              && r.next.score == (if selected == correct then s.score + 1 else s.score)
              && r.next.currentQuestion == s.currentQuestion
              && r.next.totalQuestions == s.totalQuestions
              && r.effects == [Feedback(selected == correct)]
  {
    if s.currentQuestion <= 0 then Step(s, [NotStartedAlert])
    else if !s.clickable then Step(s, [IgnoredWhileLocked])
    else
      var points := if selected == correct then s.score + 1 else s.score;
      Step(s.(clickable := false, score := points), [Feedback(selected == correct)])
  }

  /** `resetGame`: back to the first question with no points, and a new fetch. */
  function ResetStep(s: SessionState): (r: Step)
    ensures r.next.currentQuestion == -1 && r.next.score == 0
    ensures r.next.clickable == s.clickable && r.next.totalQuestions == s.totalQuestions
    ensures r.effects == [SettingsShown, FetchRequested]
  {
    Step(s.(currentQuestion := -1, score := 0), [SettingsShown, FetchRequested])
  }

  /** `endGame`: report the final score, then reset. */
  function EndStep(s: SessionState): (r: Step)
    ensures r.next.currentQuestion == -1 && r.next.score == 0
    ensures r.next.clickable == s.clickable && r.next.totalQuestions == s.totalQuestions
    ensures r.effects == [GameOverAlert(s.score, s.totalQuestions), SettingsShown, FetchRequested]
  {
    var reset := ResetStep(s);
    Step(reset.next, [GameOverAlert(s.score, s.totalQuestions)] + reset.effects)
  }

  /**
   * The `setTimeout` continuation of `checkAnswer`: while questions remain it
   * requests the next one and unlocks the answers, otherwise it ends the
   * game, which leaves the answers locked.
   */
  function ElapsedStep(s: SessionState): (r: Step)
    ensures Below(s.currentQuestion, s.totalQuestions) ==>
              r.next == s.(clickable := true) && r.effects == [FetchRequested]
    ensures !Below(s.currentQuestion, s.totalQuestions) ==>
              && r.next == SessionState(-1, 0, s.totalQuestions, s.clickable)
              && r.effects == [GameOverAlert(s.score, s.totalQuestions), SettingsShown, FetchRequested]
  {
    if Below(s.currentQuestion, s.totalQuestions) then Step(s.(clickable := true), [FetchRequested])
    else EndStep(s)
  }

  /** The inputs that drive the session. */
  datatype Event =
    | Start(parsed: Count)
    | FetchOk
    | Answer(selected: string, correct: string)
    | Elapsed

  /**
   * What holds in every state the handlers can reach: the score is never
   * negative, `currentQuestion` never drops below -1, and no point is scored
   * before the game has started.
   */
  predicate Inv(s: SessionState)
  {
    s.score >= 0 && s.currentQuestion >= -1 && (s.currentQuestion <= 0 ==> s.score == 0)
  }

  /**
   * One event.  Every transition keeps `Inv`, and the score only goes down
   * when the game ends.
   */
  function Apply(s: SessionState, e: Event): (r: Step)
    ensures Inv(s) ==> Inv(r.next)
    ensures r.next.score < s.score ==> e.Elapsed? && r.next.score == 0 && GameOverAlert(s.score, s.totalQuestions) in r.effects
  {
    match e
      case Start(n) => StartStep(s, n)
      case FetchOk => FetchStep(s)
      case Answer(selected, correct) => AnswerStep(s, selected, correct)
      case Elapsed => ElapsedStep(s)
  }

  /**
   * A sequence of events, one after the other, collecting their effects.
   * No event passes silently: each one requests at least one effect.
   */
  function Run(s: SessionState, events: seq<Event>): (r: Step)
    ensures |r.effects| >= |events|
    decreases |events|
  {
    if events == [] then Step(s, [])
    else
      var first := Apply(s, events[0]);
      var rest := Run(first.next, events[1..]);
      Step(rest.next, first.effects + rest.effects)
  }

  /** Running two event sequences in a row is running their concatenation. */
  lemma {:induction false} RunAppend(s: SessionState, a: seq<Event>, b: seq<Event>)
    ensures var x := Run(s, a);
      var y := Run(x.next, b);
      Run(s, a + b) == Step(y.next, x.effects + y.effects)
    decreases |a|
  {
    if a == [] {
      assert a + b == b;
    } else {
      var first := Apply(s, a[0]);
      assert (a + b)[0] == a[0];
      assert (a + b)[1..] == a[1..] + b;
      RunAppend(first.next, a[1..], b);
      var x := Run(first.next, a[1..]);
      var y := Run(x.next, b);
      assert first.effects + (x.effects + y.effects) == (first.effects + x.effects) + y.effects;
    }
  }

  /** `Inv` holds after any sequence of events that starts where it holds. */
  lemma {:induction false} RunKeepsInv(s: SessionState, events: seq<Event>)
    requires Inv(s)
    ensures Inv(Run(s, events).next)
    decreases |events|
  {
    if events != [] {
      RunKeepsInv(Apply(s, events[0]).next, events[1..]);
    }
  }

  /** Hence in every state reachable from the page's initial values. */
  lemma Reachable(events: seq<Event>)
    ensures Inv(Run(Initial, events).next)
  {
    RunKeepsInv(Initial, events);
  }

  /**
   * While the answers are locked, clicks and completed fetches do nothing to
   * the score or the lock, and no click produces feedback: only `startGame`
   * or the feedback timer can unlock them.
   */
  lemma {:induction false} LockedIgnoresClicks(s: SessionState, events: seq<Event>)
    requires !s.clickable
    requires forall i :: 0 <= i < |events| ==> events[i].Answer? || events[i].FetchOk?
    ensures var r := Run(s, events);
      && !r.next.clickable
      && r.next.score == s.score
      && r.next.totalQuestions == s.totalQuestions
      && forall i :: 0 <= i < |r.effects| ==> !r.effects[i].Feedback?
    decreases |events|
  {
    if events != [] {
      LockedIgnoresClicks(Apply(s, events[0]).next, events[1..]);
    }
  }

  /**
   * After one accepted click, any further clicks before the timer fires are
   * ignored: the score rises by at most one.
   */
  lemma AtMostOnePointPerLock(s: SessionState, selected: string, correct: string, more: seq<Event>)
    requires forall i :: 0 <= i < |more| ==> more[i].Answer?
    ensures var r := Run(s, [Answer(selected, correct)] + more);
      s.score <= r.next.score <= s.score + 1
  {
    var first := AnswerStep(s, selected, correct);
    RunAppend(s, [Answer(selected, correct)], more);
    if first.next.clickable {
      // the click was rejected and the lock was already open: every click is rejected too
      assert !Accepts(s) && first.next == s;
      assert s.currentQuestion <= 0;
      UnstartedIgnoresClicks(s, more);
    } else {
      LockedIgnoresClicks(first.next, more);
    }
  }

  /** Before the game has started, every click is rejected. */
  lemma {:induction false} UnstartedIgnoresClicks(s: SessionState, events: seq<Event>)
    requires s.currentQuestion <= 0
    requires forall i :: 0 <= i < |events| ==> events[i].Answer?
    ensures Run(s, events).next == s
    decreases |events|
  {
    if events != [] {
      UnstartedIgnoresClicks(s, events[1..]);
    }
  }

  /** One question answered once: the click, the feedback delay, the next question. */
  datatype Click = Click(selected: string, correct: string)

  function Round(c: Click): seq<Event>
  {
    [Answer(c.selected, c.correct), Elapsed, FetchOk]
  }

  function Rounds(cs: seq<Click>): seq<Event>
    decreases |cs|
  {
    if cs == [] then [] else Round(cs[0]) + Rounds(cs[1..])
  }

  /** How many of the clicks chose the correct answer. */
  function Hits(cs: seq<Click>): nat
    decreases |cs|
  {
    if cs == [] then 0 else (if cs[0].selected == cs[0].correct then 1 else 0) + Hits(cs[1..])
  }

  /** Three events in a row, one transition after another. */
  lemma RunThree(s: SessionState, e1: Event, e2: Event, e3: Event)
    ensures var a := Apply(s, e1);
      var b := Apply(a.next, e2);
      var f := Apply(b.next, e3);
      Run(s, [e1, e2, e3]) == Step(f.next, a.effects + b.effects + f.effects)
  {
    var a := Apply(s, e1);
    var b := Apply(a.next, e2);
    var f := Apply(b.next, e3);
    assert Run(b.next, [e3]) == Step(f.next, f.effects) by {
      assert [e3][1..] == [];
      assert f.effects + [] == f.effects;
    }
    assert Run(a.next, [e2, e3]) == Step(f.next, b.effects + f.effects) by {
      assert [e2, e3][1..] == [e3];
    }
    assert [e1, e2, e3][1..] == [e2, e3];
    assert a.effects + (b.effects + f.effects) == a.effects + b.effects + f.effects;
  }

  /**
   * One round from an unlocked, started state: either the game goes on with
   * the next question unlocked, or it ends, reporting the score.
   */
  lemma RoundStep(s: SessionState, c: Click)
    requires Accepts(s)
    ensures var hit := if c.selected == c.correct then 1 else 0;
      var r := Run(s, Round(c));
      if Below(s.currentQuestion, s.totalQuestions) then
        r == Step(SessionState(s.currentQuestion + 1, s.score + hit, s.totalQuestions, true),
                  [Feedback(hit == 1), FetchRequested, QuestionShown])
      else
        r == Step(SessionState(0, 0, s.totalQuestions, false),
                  [Feedback(hit == 1), GameOverAlert(s.score + hit, s.totalQuestions), SettingsShown,
                   FetchRequested, QuestionShown])
  {
    RunThree(s, Answer(c.selected, c.correct), Elapsed, FetchOk);
    var a := AnswerStep(s, c.selected, c.correct);
    var b := ElapsedStep(a.next);
    var f := FetchStep(b.next);
    assert Run(s, Round(c)) == Step(f.next, a.effects + b.effects + f.effects);
  }

  /**
   * A game played from question `k` of `n`, each question answered once and
   * each fetch succeeding: after `n - k + 1` answers the game is over, the
   * final score reported is the points held plus one per correct answer, no
   * earlier round ends the game, and the session is back at question 0,
   * locked, waiting for `startGame`.
   */
  lemma {:induction false} FullGame(s: SessionState, cs: seq<Click>)
    requires Accepts(s) && s.totalQuestions.Int? && s.currentQuestion <= s.totalQuestions.value
    requires |cs| == s.totalQuestions.value - s.currentQuestion + 1
    ensures var r := Run(s, Rounds(cs));
      && r.next == SessionState(0, 0, s.totalQuestions, false)
      && |r.effects| >= 4
      && r.effects[|r.effects| - 4] == GameOverAlert(s.score + Hits(cs), s.totalQuestions)
      && forall i :: 0 <= i < |r.effects| - 4 ==> !r.effects[i].GameOverAlert?
    decreases |cs|
  {
    var c := cs[0];
    RunAppend(s, Round(c), Rounds(cs[1..]));
    RoundStep(s, c);
    var hit := if c.selected == c.correct then 1 else 0;
    if Below(s.currentQuestion, s.totalQuestions) {
      var next := SessionState(s.currentQuestion + 1, s.score + hit, s.totalQuestions, true);
      FullGame(next, cs[1..]);
    } else {
      assert cs[1..] == [];
    }
  }

  /**
   * Starting a game of `n` questions from the page's first question
   * (`currentQuestion == 0`): the player answers exactly `n` questions, and
   * the game-over alert reports the number of correct answers out of `n`.
   */
  lemma StartedGameAsksTotalQuestions(s: SessionState, n: int, cs: seq<Click>)
    requires Inv(s) && s.currentQuestion == 0 && 1 <= n <= 150 && |cs| == n
    ensures var r := Run(s, [Start(Int(n))] + Rounds(cs));
      && r.next == SessionState(0, 0, Int(n), false)
      && |r.effects| >= 4
      && r.effects[|r.effects| - 4] == GameOverAlert(Hits(cs), Int(n))
      && forall i :: 0 <= i < |r.effects| - 4 ==> !r.effects[i].GameOverAlert?
  {
    var started := StartStep(s, Int(n));
    RunAppend(s, [Start(Int(n))], Rounds(cs));
    assert Run(s, [Start(Int(n))]) == Step(started.next, [SettingsHidden]);
    FullGame(started.next, cs);
  }

  /**
   * The timer unlocks the answers when it requests the next question, not
   * when that question arrives.  A click on the old options in between is
   * accepted and scored again against the same question.
   */
  lemma ClickBeforeNextQuestionScoresAgain(s: SessionState, name: string)
    requires Accepts(s) && Below(s.currentQuestion, s.totalQuestions)
    ensures var r := Run(s, [Answer(name, name), Elapsed, Answer(name, name)]);
      r.next.score == s.score + 2 && r.next.currentQuestion == s.currentQuestion
  {
    RunThree(s, Answer(name, name), Elapsed, Answer(name, name));
  }

  /** How many feedback timers are pending, or `None` after a timer fired that nobody scheduled. */
  datatype Timers = None | Some(pending: nat)

  /**
   * The feedback timers along a run of events.  Only an accepted click
   * schedules one (script.js:147, 166) and each `Elapsed` fires one, so a run
   * the page can produce never fires more timers than it scheduled.  `None`
   * marks a run in which some `Elapsed` had no pending timer.
   */
  function PendingAfter(s: SessionState, pending: nat, events: seq<Event>): (r: Timers)
    ensures r.Some? ==> r.pending <= pending + |events|
    decreases |events|
  {
    if events == [] then Some(pending)
    else
      var e := events[0];
      if e.Elapsed? && pending == 0 then None
      else
        var p := if e.Answer? && Accepts(s) then pending + 1 else if e.Elapsed? then pending - 1 else pending;
        PendingAfter(Apply(s, e).next, p, events[1..])
  }

  /** Counting the timers over two runs in a row is counting them over the concatenation. */
  lemma {:induction false} PendingAppend(s: SessionState, pending: nat, a: seq<Event>, b: seq<Event>)
    ensures PendingAfter(s, pending, a + b) ==
      match PendingAfter(s, pending, a)
        case None => None
        case Some(q) => PendingAfter(Run(s, a).next, q, b)
    decreases |a|
  {
    if a == [] {
      assert a + b == b;
    } else {
      assert (a + b)[0] == a[0];
      assert (a + b)[1..] == a[1..] + b;
      var e := a[0];
      if !(e.Elapsed? && pending == 0) {
        var p := if e.Answer? && Accepts(s) then pending + 1 else if e.Elapsed? then pending - 1 else pending;
        PendingAppend(Apply(s, e).next, p, a[1..], b);
      }
    }
  }

  /**
   * Locked, with no feedback timer pending, the answers stay locked and the
   * score stays put whatever clicks and fetches arrive: only `startGame`
   * (script.js:34) can unlock them.
   */
  lemma {:induction false} LockedWithoutTimerStaysLocked(s: SessionState, events: seq<Event>)
    requires !s.clickable
    requires forall i :: 0 <= i < |events| ==> !events[i].Start?
    requires PendingAfter(s, 0, events).Some?
    ensures !Run(s, events).next.clickable && Run(s, events).next.score == s.score
    decreases |events|
  {
    if events != [] {
      assert !events[0].Start? && !events[0].Elapsed?;
      LockedWithoutTimerStaysLocked(Apply(s, events[0]).next, events[1..]);
    }
  }

  /** Each round schedules the one timer it then fires, so a whole game leaves no timer pending. */
  lemma {:induction false} RoundsLeaveNoTimer(s: SessionState, cs: seq<Click>)
    requires Accepts(s) && s.totalQuestions.Int? && s.currentQuestion <= s.totalQuestions.value
    requires |cs| == s.totalQuestions.value - s.currentQuestion + 1
    ensures PendingAfter(s, 0, Rounds(cs)) == Some(0)
    decreases |cs|
  {
    var c := cs[0];
    assert PendingAfter(s, 0, Round(c)) == Some(0) by {
      assert Round(c)[1..] == [Elapsed, FetchOk];
      assert [Elapsed, FetchOk][1..] == [FetchOk];
      assert [FetchOk][1..] == [];
    }
    PendingAppend(s, 0, Round(c), Rounds(cs[1..]));
    RoundStep(s, c);
    if Below(s.currentQuestion, s.totalQuestions) {
      RoundsLeaveNoTimer(Run(s, Round(c)).next, cs[1..]);
    } else {
      assert cs[1..] == [];
    }
  }

  /**
   * After a whole game, whatever clicks, fetches and timers the page can
   * still deliver, the answers stay locked and the score stays 0 until
   * `startGame` runs again (script.js:34, 176-178, 194-196).
   */
  lemma AfterGameOverOnlyStartUnlocks(s: SessionState, cs: seq<Click>, more: seq<Event>)
    requires Accepts(s) && s.totalQuestions.Int? && s.currentQuestion <= s.totalQuestions.value
    requires |cs| == s.totalQuestions.value - s.currentQuestion + 1
    requires forall i :: 0 <= i < |more| ==> !more[i].Start?
    requires PendingAfter(s, 0, Rounds(cs) + more).Some?
    ensures var r := Run(s, Rounds(cs) + more).next;
      !r.clickable && r.score == 0
  {
    FullGame(s, cs);
    RoundsLeaveNoTimer(s, cs);
    PendingAppend(s, 0, Rounds(cs), more);
    RunAppend(s, Rounds(cs), more);
    LockedWithoutTimerStaysLocked(Run(s, Rounds(cs)).next, more);
  }

  /**
   * The four globals of script.js:9-16 and the handlers that update them.
   * Each method does what its source handler does to the fields, returns the
   * effects it requests, and is proved to agree with the transition function
   * of the same name above.
   */
  class GameSession {
    var currentQuestion: int
    var score: int
    var totalQuestions: Count
    var clickable: bool

    function Snapshot(): SessionState
      reads this
    {
      SessionState(currentQuestion, score, totalQuestions, clickable)
    }

    /** The values at page load. */
    constructor ()
      ensures Snapshot() == Initial
    {
      currentQuestion := -1;
      score := 0;
      totalQuestions := Int(10);
      clickable := true;
    }

    method StartGame(parsed: Count) returns (effects: seq<Effect>)
      modifies this
      ensures Step(Snapshot(), effects) == StartStep(old(Snapshot()), parsed)
    {
      totalQuestions := parsed;
      if totalQuestions.NaN? || totalQuestions.value < 1 || totalQuestions.value > 150 {
        return [InvalidCountAlert];
      }
      currentQuestion := currentQuestion + 1;
      clickable := true;
      effects := [SettingsHidden];
    }

    /** The part of `fetchPokemon` after a successful lookup. */
    method FetchSucceeded() returns (effects: seq<Effect>)
      modifies this
      ensures Step(Snapshot(), effects) == FetchStep(old(Snapshot()))
    {
      currentQuestion := currentQuestion + 1;
      effects := [QuestionShown];
    }

    method CheckAnswer(selected: string, correct: string) returns (effects: seq<Effect>)
      modifies this
      ensures Step(Snapshot(), effects) == AnswerStep(old(Snapshot()), selected, correct)
    {
      if currentQuestion <= 0 {
        return [NotStartedAlert];
      }
      if !clickable {
        return [IgnoredWhileLocked];
      }
      clickable := false;
      if selected == correct {
        score := score + 1;
      }
      effects := [Feedback(selected == correct)];
    }

    /** The callback `checkAnswer` hands to `setTimeout`. */
    method FeedbackElapsed() returns (effects: seq<Effect>)
      modifies this
      ensures Step(Snapshot(), effects) == ElapsedStep(old(Snapshot()))
    {
      if totalQuestions.Int? && currentQuestion < totalQuestions.value {
        effects := [FetchRequested];
        clickable := true;
      } else {
        effects := EndGame();
      }
    }

    method EndGame() returns (effects: seq<Effect>)
      modifies this
      ensures Step(Snapshot(), effects) == EndStep(old(Snapshot()))
    {
      var alert := GameOverAlert(score, totalQuestions);
      var reset := ResetGame();
      effects := [alert] + reset;
    }

    method ResetGame() returns (effects: seq<Effect>)
      modifies this
      ensures Step(Snapshot(), effects) == ResetStep(old(Snapshot()))
    {
      currentQuestion := -1;
      score := 0;
      effects := [SettingsShown, FetchRequested];
    }
  }
}
