# Pokémon quiz: a Dafny model of the game logic

The quiz (`script.js`) shows the picture of a random Pokémon with four
names, one of them correct. The player picks a number of questions from
1 to 150 and is meant to answer each question once. Each correct click scores a
point. After the last question an alert reports the final score, and the
game resets.

This project models three parts of that logic and proves properties about
each of them.

- `shuffle.dfy`, module `Shuffle`: the in-place Fisher–Yates shuffle
  `shuffleArray`. The method works on an `array` with a loop. It is proved
  to equal a reference definition, `Shuffled`, and to keep its elements
  (a permutation).
- `options.dfy`, module `Options`: `getRandomUniquePokemonName` and
  `generateRandomOptions`. Every lookup of a random name is one element of
  an input sequence of draws. A draw is either a name or a failed fetch.
  The retry loop and the three-distractor loop are methods. Each is proved
  equal to a recursive reference function (`FirstUnique`, `Distractors`),
  and the properties are lemmas about those functions.
- `session.dfy`, module `Session`: the four globals `currentQuestion`,
  `score`, `totalQuestions`, `clickable`, and the handlers that change
  them:
  - `startGame`;
  - the counter step of `fetchPokemon`;
  - `checkAnswer` and its `setTimeout` continuation;
  - `endGame` and `resetGame`.

  Each handler is a transition function on a state value. It returns the
  next state and the effects it asks the page for (alerts, a fetch,
  feedback). A class `GameSession` holds the four globals as fields. Its
  methods update those fields the way the handlers do, and each method is
  proved to agree with its transition function. Sequences of events
  (`Run`) carry the multi-step properties: the invariant, the lock, and a
  whole game.

Four behaviours of the code are easy to miss; the model follows the code:

- `startGame` assigns `totalQuestions` before it validates it
  (script.js:21-27). An invalid count (NaN or outside 1..150) therefore
  replaces `totalQuestions`, though nothing else changes.
  `Session.StartStep` states this.
- Each distractor is checked only against `[correctAnswer]`
  (script.js:66-67). The three distractors can therefore repeat one
  another, and the same name can fill three of the four options.
  `Options.DistractorsMayRepeat` and `Options.OptionsMayRepeat` exhibit
  this.
- The timer unlocks the answers when it requests the next question, not
  when that question arrives (script.js:172-175). A click on the old
  buttons in that window is accepted and scored again.
  `Session.ClickBeforeNextQuestionScoresAgain` exhibits this.
- The page-load fetch (script.js:204) takes `currentQuestion` from -1 to 0.
  Starting from 0, a game of `n` questions asks exactly `n` questions
  (`Session.StartedGameAsksTotalQuestions`).

## Model

| member | source | states |
|---|---|---|
| Shuffle.ShuffleArray | script.js:99-105 | shuffles the array in place with draws `js`, each in `[0, i]`; returns the same array; its contents equal `Shuffled` of the old contents and are a permutation of them |
| Shuffle.Swap | script.js:102 | the destructuring swap: `array[i]` and `array[j]` trade places and every other element stays |
| Shuffle.Shuffled | script.js:99-105 | the contents after the whole loop: the input's length and exactly its elements (same multiset) |
| Shuffle.FirstElementAnyPosition | script.js:99-105 | on four elements, for every position some valid draws move the first element there |
| Shuffle.ShuffleSteps | script.js:100-103 | the contents after the first `m` iterations of the loop, each swapping `array[i]` with `array[j]` for `i = length - m`; the length never changes |
| Shuffle.ShuffleStepsPermutes | script.js:100-103 | after any number of loop iterations the contents are a permutation of the input |
| Shuffle.SwapPermutes | script.js:102 | the destructuring swap keeps the elements |
| Shuffle.StepPermutes | script.js:100-103 | one iteration keeps the multiset of the contents it starts from |
| Shuffle.SwapAt | script.js:102 | swaps `a[i]` and `a[j]` in place; the new contents are `Swap` of the old ones |
| Shuffle.PositionFinal | script.js:100-102 | once the loop has moved below index `i`, `array[i]` never changes again: the element placed there stays there |
| Shuffle.IdentityDraws | script.js:100-102 | when every draw picks `j == i`, the shuffle returns its input unchanged |
| Options.FirstUnique | script.js:83-85 | the retry loop ends either with a name that is not in `options` (the draw it used) or with a failed draw; if the draws run out first, it is still running |
| Options.FirstUniqueRejectsBefore | script.js:85 | every draw before the one that ends the loop was a name already in `options`; when the draws run out, every draw was such a name |
| Options.FirstUniqueAt | script.js:83-85 | the loop ends at draw `k` exactly when draw `k` is a failure or a new name and all earlier draws were rejected |
| Options.GetRandomUniqueName | script.js:81-87 | the do-while loop returns the first draw not in `options`, as `FirstUnique` defines it; the name returned is never in `options` |
| Options.Distractors | script.js:66-70 | three runs of the retry loop against `[correctAnswer]` over one stream of draws; on success, exactly `count` names using at most the available draws |
| Options.DistractorsAvoid | script.js:67 | no distractor is in the options it was compared against, so none equals the correct answer |
| Options.DrawDistractors | script.js:67-70 | the three calls of the retry loop give exactly `Distractors(options, draws, 3)` |
| Options.BuildOptions | script.js:64-78 | reference definition of `generateRandomOptions`: shuffled options exactly when all three distractors were drawn, and then four of them |
| Options.BuildOptionsSound | script.js:64-78 | the options are four names holding the correct answer exactly once, plus the drawn distractors; they are ready exactly when all three were drawn, and `undefined` exactly when a draw failed |
| Options.GenerateRandomOptions | script.js:64-78 | builds `[correct]` plus three distractors in an array and shuffles it in place; the result equals `BuildOptions`, and on success has four names with the correct one exactly once |
| Options.CorrectAnswerAnyPosition | script.js:73 | once the distractors are drawn, the correct answer can land in any of the four positions, depending on the shuffle's draws |
| Options.DistractorsStay | script.js:67-77 | once a run fails or runs out of draws, so does every longer sequence of runs |
| Options.RetriesDuplicateOfCorrectAnswer | script.js:83-85 | a draw equal to the correct answer is rejected and redrawn, and the following draw takes its place |
| Options.DistractorsMayRepeat | script.js:66-72 | three equal draws different from the correct answer give three equal distractors |
| Options.OptionsMayRepeat | script.js:66-73 | so one name can fill three of the four options |
| Session.StartStep | script.js:19-35 | `totalQuestions` always becomes the parsed count; an invalid count alerts and changes nothing else; a valid one hides the settings, advances `currentQuestion` and unlocks the answers |
| Session.FetchStep | script.js:54-57 | a successful fetch shows the question and advances `currentQuestion` by one, touching nothing else |
| Session.AnswerStep | script.js:132-164 | before the game starts, a click alerts and changes nothing; while locked it is ignored; otherwise it locks the answers and scores a point exactly when the selected option is the correct answer |
| Session.ElapsedStep | script.js:166-179 | while questions remain, the timer requests the next question and unlocks; otherwise it reports the score out of `totalQuestions` and resets, leaving the lock as it was |
| Session.EndStep | script.js:188-191 | alerts the final score out of `totalQuestions`, then resets |
| Session.ResetStep | script.js:194-201 | back to `currentQuestion` -1 and score 0, settings shown, a new fetch requested; the count and the lock are unchanged |
| Session.Apply | script.js:19-201 | every handler keeps the invariant (score never negative, `currentQuestion` at least -1, no points before the game starts); the score drops only when the timer ends the game, to 0, with a game-over alert for the old score |
| Session.Run | script.js:19-201 | handlers run one after another on the globals; every event requests at least one effect |
| Session.RunAppend | script.js:19-201 | running two event sequences in a row equals running their concatenation |
| Session.RunKeepsInv | script.js:19-201 | the invariant holds after any sequence of events from a state where it holds |
| Session.Reachable | script.js:9-16 | the invariant holds in every state reachable from the initial values |
| Session.LockedIgnoresClicks | script.js:141-147 | while the answers are locked, clicks and fetches change neither the score, the count nor the lock, and no click gives feedback |
| Session.UnstartedIgnoresClicks | script.js:135-138 | before the game has started, every click leaves the state unchanged |
| Session.AtMostOnePointPerLock | script.js:141-156 | a burst of clicks before the timer fires raises the score by at most one |
| Session.RoundStep | script.js:132-179 | one accepted click, then the timer, then the fetch: the next question is unlocked and counted with the point added, or, on the last question, the game-over alert reports the score and the session waits at question 0, locked |
| Session.FullGame | script.js:132-201 | answering every question once, from question `k` of `n`, ends the game after `n - k + 1` answers; the one game-over alert reports the points held plus one per correct answer, and the session ends at question 0, locked |
| Session.StartedGameAsksTotalQuestions | script.js:19-35 | from question 0, starting a game of `n` questions asks exactly `n` questions, and the alert reports the correct answers out of `n` |
| Session.ClickBeforeNextQuestionScoresAgain | script.js:166-175 | the timer unlocks before the next question arrives, so a second correct click on the old options scores again on the same question |
| Session.PendingAfter | script.js:141-166 | counts the pending feedback timers along a run: only an accepted click schedules one and each timer fires once; a run never holds more timers than it had plus its events |
| Session.PendingAppend | script.js:166-179 | counting the timers over two runs in a row equals counting them over their concatenation |
| Session.LockedWithoutTimerStaysLocked | script.js:141-175 | locked with no timer pending, any clicks and fetches, and only the timers the page can deliver, leave the answers locked and the score unchanged |
| Session.RoundsLeaveNoTimer | script.js:132-179 | each round fires the one timer its click scheduled, so a whole game ends with no timer pending |
| Session.AfterGameOverOnlyStartUnlocks | script.js:172-196 | after the last question, whatever the page can still deliver short of `startGame`, the answers stay locked and the score stays 0 |
| Session.GameSession.constructor | script.js:9-16 | the globals start at `currentQuestion` -1, score 0, 10 questions, unlocked |
| Session.GameSession.StartGame | script.js:19-35 | updates the fields as `StartStep` says |
| Session.GameSession.FetchSucceeded | script.js:54-57 | updates the fields as `FetchStep` says |
| Session.GameSession.CheckAnswer | script.js:132-164 | updates the fields as `AnswerStep` says |
| Session.GameSession.FeedbackElapsed | script.js:166-179 | updates the fields as `ElapsedStep` says |
| Session.GameSession.EndGame | script.js:188-191 | updates the fields as `EndStep` says |
| Session.GameSession.ResetGame | script.js:194-201 | updates the fields as `ResetStep` says |

## Left out

- Network and JSON: `fetch`, `response.json()` and the sprite URL of the question object (script.js:39-51, 90-96) are not modelled. Each lookup of a random name is one element of the input sequence of draws. A successful question fetch is the event `FetchOk`. A failed question fetch only logs (script.js:58-60), so it has no transition.
- `Math.random`: it is replaced by input sequences. The shuffle's draws must lie in `[0, i]`, which is what `Math.floor(Math.random() * (i + 1))` yields. The random id in 1..151 is part of the draw oracle.
- `Promise.all` concurrency: the three retry loops run as successive consumers of one stream of draws. They all compare against `[correctAnswer]`, as the concurrent loops do, so the outcome does not depend on interleaving, except that a run still retrying when the draws run out hides a failure in a later run, which `Promise.all` would report at once.
- Timers: the 2-second `setTimeout` is the event `Elapsed`, and its delay is not modelled. `Run` accepts `Elapsed` and `FetchOk` in any order. The lemmas about the lock limit `Elapsed` to runs in which `Session.PendingAfter` finds a scheduled timer for each one. `FetchOk` may still come in orders the page cannot produce.
- The DOM, `alert`, `console.log`, `updateScore` and `showQuestion` (script.js:107-129, 182-185) are reported as effects or left out. This includes the second `generateRandomOptions` call that `showQuestion` makes to build the buttons.
- `parseInt` is an input of type `Count` (NaN or an integer). Double-precision numbers and `Infinity` are not modelled.
- Options.GetRandomUniqueName: the source loop never gives up. Over finite draws, "still retrying" is reported as `Exhausted`, and `generateRandomOptions` is then `Pending`.
- Shuffle.ShuffleArray: probabilities are not modelled. The model proves that the correct answer can reach every position (`Shuffle.FirstElementAnyPosition`), not that all arrangements are equally likely.
