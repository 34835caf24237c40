# N-back game: a Dafny model

This project models the core of an Android N-back memory game. The game shows
a sequence of events, either as a lit grid cell (Visual) or as a spoken letter
(Audio). The player presses a match button whenever the current event equals
the one `n` positions earlier. The model covers three parts:

* The game view-model (`view_model.dfy`, module `ViewModel`):
  * the game types, the grid types and the pushed game state;
  * starting and stopping a game, and the stimulus loop, one delay at a time;
  * scoring a press (`checkMatch`) and the feedback answer (`checkGuess`);
  * the success rate (`getScore`) and the highscore rules;
  * the setters.
* The settings screen (`settings_screen.dfy`, module `SettingsScreen`):
  * the value offered by each option box;
  * the guards that accept or refuse a clicked value;
  * the Default and Save buttons, and the `isSettingsChanged` flag.
* The game screen (`game_screen.dfy`, module `GameScreen`):
  * how grid cells are numbered and which are lit;
  * the start/reset button and its call order;
  * which buttons are enabled, and the feedback colours;
  * a whole game of presses and the score it earns.

The view-model is a class, `ViewModel.GameVM`, shaped as follows:

* its fields are those of the Kotlin view-model;
* `Snapshot()` reads them into the value `Vm`;
* each setter states its new snapshot as the old one with that one field
  updated;
* every other state-changing method is specified as
  `Snapshot() == XSpec(old(Snapshot()))`, where `XSpec` is a pure transition;
* `GetScore` and `CheckGuess` change nothing and return `SuccessRate` and
  `Guess` of the snapshot;
* the properties of a session are lemmas about those transitions.

The launched coroutine is modelled by the field `job`, which records where the
loop is suspended: `NoJob`, `Shown` (inside the blink delay) or `Blanked` (inside
the rest of the interval). The view-model scope dispatches immediately, so the
job's first segment runs inside `startGame`. That segment resets the index and
shows the first event, or finishes the game at once.

`Inv` is the session invariant:

* n-back is not negative;
* the game is running exactly when a loop is suspended;
* while a loop is suspended, the index is a position of the event array;
* the displayed value is the current event while it is shown, and -1 while
  it is blanked.

Every array access of `checkMatch` and `checkGuess` stays in bounds under `Inv`.
Every operation keeps it.

The success rate is `(score / matches) * 100`, where `matches` is
`numberOfEvents * 0.3`. Both are computed in floating point and then truncated
to `Int`. The model writes this out in integers:

* `TruncDiv` divides, truncating toward zero;
* `ClampToInt` saturates at the 32-bit range, as `Double.toInt` does;
* a nonzero score with zero expected matches gives `Int.MAX_VALUE` or
  `Int.MIN_VALUE`. The quotient is an infinity, which `toInt` saturates, so
  this is not a division error.

## Model

All source paths are under `app/src/main/java/mobappdev/example/nback_cimpl/ui/`.

| member | source | states |
|---|---|---|
| ViewModel.GridType.Size | app/src/main/java/mobappdev/example/nback_cimpl/ui/viewmodels/GameVM.kt:416-421 | every grid has a side of 2 to 5 cells |
| ViewModel.GridTypeOf | app/src/main/java/mobappdev/example/nback_cimpl/ui/viewmodels/GameVM.kt:354-362 | a side of 2..5 gives the grid of that size; any other value gives the 3x3 grid |
| ViewModel.GridTypeOfSize | app/src/main/java/mobappdev/example/nback_cimpl/ui/viewmodels/GameVM.kt:354-362 | getGridType inverts the size of every grid |
| ViewModel.InitialVmInv | app/src/main/java/mobappdev/example/nback_cimpl/ui/viewmodels/GameVM.kt:87-135 | the freshly constructed view-model satisfies the session invariant and no game runs |
| ViewModel.IsMatch | app/src/main/java/mobappdev/example/nback_cimpl/ui/viewmodels/GameVM.kt:237-239 | definition of the match test (the same in checkGuess, 258-260): the index at least nBack and the event equal to the one nBack earlier; its partners are MatchDelta and GuessPredictsCheckMatch |
| ViewModel.MatchDelta | app/src/main/java/mobappdev/example/nback_cimpl/ui/viewmodels/GameVM.kt:237-246 | a counted press moves the score by +1 or -1, and by +1 exactly when the event repeats the one nBack earlier |
| ViewModel.CheckMatchSpec | app/src/main/java/mobappdev/example/nback_cimpl/ui/viewmodels/GameVM.kt:230-249 | checkMatch changes only the score and keeps the session invariant |
| ViewModel.CheckMatchEffect | app/src/main/java/mobappdev/example/nback_cimpl/ui/viewmodels/GameVM.kt:235-248 | no effect unless running with the visual flag clear; otherwise +1 iff index >= nBack and the two events agree, else -1 (an index below nBack included) |
| ViewModel.GuessPredictsCheckMatch | app/src/main/java/mobappdev/example/nback_cimpl/ui/viewmodels/GameVM.kt:251-266 | checkGuess is true exactly when a counted checkMatch would add one, and false during a game exactly when it would subtract one |
| ViewModel.Guess | app/src/main/java/mobappdev/example/nback_cimpl/ui/viewmodels/GameVM.kt:251-266 | definition of checkGuess: running, the index at least nBack and the two events equal; its partner is GuessPredictsCheckMatch |
| ViewModel.Matches | app/src/main/java/mobappdev/example/nback_cimpl/ui/viewmodels/GameVM.kt:298-299 | definition: numberOfEvents * 0.3 truncated; its properties are in MatchesOfEventCount |
| ViewModel.SuccessRate | app/src/main/java/mobappdev/example/nback_cimpl/ui/viewmodels/GameVM.kt:297-307 | definition of getScore's value: 0 for a zero score, saturation with no expected match, the truncated percentage otherwise; its properties are in SuccessRateSign, SuccessRateMonotone and SuccessRateBounds |
| ViewModel.SuccessRateSign | app/src/main/java/mobappdev/example/nback_cimpl/ui/viewmodels/GameVM.kt:301-306 | a zero score rates 0 for every event count; a nonzero score with no expected match never rates 0; a positive (negative) rate comes only from a positive (negative) score |
| ViewModel.TruncDiv | app/src/main/java/mobappdev/example/nback_cimpl/ui/viewmodels/GameVM.kt:297-307 | truncation toward zero: the magnitude is the largest whole number of divisors inside the dividend, and the sign is that of the quotient |
| ViewModel.ClampToInt | app/src/main/java/mobappdev/example/nback_cimpl/ui/viewmodels/GameVM.kt:306 | toInt keeps values in the Int range and saturates the rest at Int.MIN_VALUE or Int.MAX_VALUE |
| ViewModel.MatchesOfEventCount | app/src/main/java/mobappdev/example/nback_cimpl/ui/viewmodels/GameVM.kt:298-305 | the expected matches lie in 0..numberOfEvents and are zero exactly for at most 3 events; then a score of +1/-1 saturates to Int.MAX_VALUE/Int.MIN_VALUE |
| ViewModel.SuccessRateMonotone | app/src/main/java/mobappdev/example/nback_cimpl/ui/viewmodels/GameVM.kt:297-307 | a higher score never gives a lower success rate |
| ViewModel.SuccessRateBounds | app/src/main/java/mobappdev/example/nback_cimpl/ui/viewmodels/GameVM.kt:297-307 | a score between 0 and the expected matches rates 0..100 %, and a score equal to a positive number of expected matches rates exactly 100 % |
| ViewModel.UpdateHighscoreSpec | app/src/main/java/mobappdev/example/nback_cimpl/ui/viewmodels/GameVM.kt:276-295 | only the highscore changes; it becomes the game's rate when that is strictly greater, else stays; never decreases |
| ViewModel.HighscoreAfterReset | app/src/main/java/mobappdev/example/nback_cimpl/ui/viewmodels/GameVM.kt:309-314 | after resetHighscore the next updateHighscore leaves the game's rate when it is positive and 0 otherwise, changing nothing else |
| ViewModel.FinishSpec | app/src/main/java/mobappdev/example/nback_cimpl/ui/viewmodels/GameVM.kt:213-215 | after the loop the game is not running, no job is left, score, events and settings stay, and the highscore does not decrease |
| ViewModel.LaunchSpec | app/src/main/java/mobappdev/example/nback_cimpl/ui/viewmodels/GameVM.kt:207-217 | the launched job's first segment (dispatch on the game type, index reset, first event shown or the game finished) restores the session invariant |
| ViewModel.StartSpec | app/src/main/java/mobappdev/example/nback_cimpl/ui/viewmodels/GameVM.kt:195-218 | score 0, both flags clear, the generated events taken, settings and game type kept, highscore not lower; running iff Audio/Visual with at least one event, then the first event is shown at index 0 |
| ViewModel.StopSpec | app/src/main/java/mobappdev/example/nback_cimpl/ui/viewmodels/GameVM.kt:220-228 | not running, no job, score 0, eventValue -1, index 0, flags clear; game type, settings, highscore and events kept |
| ViewModel.BlinkSpec | app/src/main/java/mobappdev/example/nback_cimpl/ui/viewmodels/GameVM.kt:337-340 | after the blink delay the display is blank (-1) and nothing else changes |
| ViewModel.IntervalSpec | app/src/main/java/mobappdev/example/nback_cimpl/ui/viewmodels/GameVM.kt:341-346 | after the interval the flags are clear, the index moves on by one, and the next event is shown iff one is left, else the game finishes |
| ViewModel.IterationSpec | app/src/main/java/mobappdev/example/nback_cimpl/ui/viewmodels/GameVM.kt:337-346 | one loop iteration keeps the invariant and ends at a shown event or a finished game |
| ViewModel.RunSpec | app/src/main/java/mobappdev/example/nback_cimpl/ui/viewmodels/GameVM.kt:333-348 | an uncancelled loop always terminates with no job left |
| ViewModel.IterationEffect | app/src/main/java/mobappdev/example/nback_cimpl/ui/viewmodels/GameVM.kt:337-346 | one iteration blanks the display, clears both flags, advances the index by exactly one, keeps score and settings, and keeps running iff events remain |
| ViewModel.RunEnds | app/src/main/java/mobappdev/example/nback_cimpl/ui/viewmodels/GameVM.kt:316-348 | a loop run to its end leaves index == number of events, not running, eventValue -1, the score kept and the highscore equal to the max rule applied to the final score |
| ViewModel.InitialVmBounded | app/src/main/java/mobappdev/example/nback_cimpl/ui/viewmodels/GameVM.kt:87-135 | the fresh view-model is Bounded: Inv, a game type other than AudioVisual, and an index not past the end of the events |
| ViewModel.BoundedPreserved | app/src/main/java/mobappdev/example/nback_cimpl/ui/viewmodels/GameVM.kt:137-346 | start, stop, checkMatch, both highscore updates, both loop steps, the setters (for Audio/Visual and n-back >= 0) and the flag setters keep Bounded, so 0 <= index <= number of events throughout |
| ViewModel.AudioVisualKeepsStaleIndex | app/src/main/java/mobappdev/example/nback_cimpl/ui/viewmodels/GameVM.kt:208-210 | an AudioVisual start keeps the old index, which can lie past the new events, so Bounded needs the game type |
| ViewModel.GameVM.constructor | app/src/main/java/mobappdev/example/nback_cimpl/ui/viewmodels/GameVM.kt:87-135 | initial fields: Visual, not running, -1, index 0, score and highscore 0, nBack 1, 3x3, 1000/2000 ms, 10 events |
| ViewModel.GameVM.SetGameType | app/src/main/java/mobappdev/example/nback_cimpl/ui/viewmodels/GameVM.kt:137-141 | only the game type in the game state changes |
| ViewModel.GameVM.SetNBackValue | app/src/main/java/mobappdev/example/nback_cimpl/ui/viewmodels/GameVM.kt:143-146 | only nBack changes |
| ViewModel.GameVM.SetBlinkDuration | app/src/main/java/mobappdev/example/nback_cimpl/ui/viewmodels/GameVM.kt:148-151 | only the blink duration changes |
| ViewModel.GameVM.SetEventInterval | app/src/main/java/mobappdev/example/nback_cimpl/ui/viewmodels/GameVM.kt:153-156 | only the event interval changes |
| ViewModel.GameVM.SetGridType | app/src/main/java/mobappdev/example/nback_cimpl/ui/viewmodels/GameVM.kt:158-161 | only the grid changes, to getGridType of the value |
| ViewModel.GameVM.SetNumOfEvents | app/src/main/java/mobappdev/example/nback_cimpl/ui/viewmodels/GameVM.kt:163-166 | only the number of events changes |
| ViewModel.GameVM.SetVisualClicked | app/src/main/java/mobappdev/example/nback_cimpl/ui/viewmodels/GameVM.kt:187-189 | only the visual flag changes |
| ViewModel.GameVM.SetAudioClicked | app/src/main/java/mobappdev/example/nback_cimpl/ui/viewmodels/GameVM.kt:191-193 | only the audio flag changes |
| ViewModel.GameVM.SetSmallBoxes | app/src/main/java/mobappdev/example/nback_cimpl/ui/viewmodels/GameVM.kt:272-274 | only the small-boxes flag changes |
| ViewModel.GameVM.Finish | app/src/main/java/mobappdev/example/nback_cimpl/ui/viewmodels/GameVM.kt:213-215 | the new state is FinishSpec of the old one |
| ViewModel.GameVM.StartGame | app/src/main/java/mobappdev/example/nback_cimpl/ui/viewmodels/GameVM.kt:195-218 | the new state is StartSpec of the old one and the generated events |
| ViewModel.GameVM.StopGame | app/src/main/java/mobappdev/example/nback_cimpl/ui/viewmodels/GameVM.kt:220-228 | the new state is StopSpec of the old one |
| ViewModel.GameVM.CheckMatch | app/src/main/java/mobappdev/example/nback_cimpl/ui/viewmodels/GameVM.kt:230-249 | the new state is CheckMatchSpec of the old one; only the score may change |
| ViewModel.GameVM.CheckGuess | app/src/main/java/mobappdev/example/nback_cimpl/ui/viewmodels/GameVM.kt:251-266 | the answer is Guess of the state, and nothing changes |
| ViewModel.GameVM.UpdateHighscore | app/src/main/java/mobappdev/example/nback_cimpl/ui/viewmodels/GameVM.kt:276-295 | the new state is UpdateHighscoreSpec of the old one |
| ViewModel.GameVM.GetScore | app/src/main/java/mobappdev/example/nback_cimpl/ui/viewmodels/GameVM.kt:297-307 | returns SuccessRate of the score and number of events, and changes nothing |
| ViewModel.GameVM.ResetHighscore | app/src/main/java/mobappdev/example/nback_cimpl/ui/viewmodels/GameVM.kt:309-314 | the new state is ResetHighscoreSpec of the old one |
| ViewModel.GameVM.BlinkElapsed | app/src/main/java/mobappdev/example/nback_cimpl/ui/viewmodels/GameVM.kt:337-340 | the new state is BlinkSpec of the old one |
| ViewModel.GameVM.IntervalElapsed | app/src/main/java/mobappdev/example/nback_cimpl/ui/viewmodels/GameVM.kt:341-346 | the new state is IntervalSpec of the old one |
| ViewModel.GameVM.RunToEnd | app/src/main/java/mobappdev/example/nback_cimpl/ui/viewmodels/GameVM.kt:333-348 | the loop, step by step, reaches RunSpec of the start: not running, index == number of events |
| SettingsScreen.NBackOption | app/src/main/java/mobappdev/example/nback_cimpl/ui/screens/SettingsScreen.kt:87-91 | the 50 n-back boxes offer 1..50, box i offering i + 1 |
| SettingsScreen.GridOption | app/src/main/java/mobappdev/example/nback_cimpl/ui/screens/SettingsScreen.kt:132-136 | the 4 grid boxes offer sides 2..5, each mapping to the grid of that size |
| SettingsScreen.EventCountOption | app/src/main/java/mobappdev/example/nback_cimpl/ui/screens/SettingsScreen.kt:168-172 | the 99 event-count boxes offer 2..100, box i offering i + 2 |
| SettingsScreen.EventIntervalOption | app/src/main/java/mobappdev/example/nback_cimpl/ui/screens/SettingsScreen.kt:213-217 | the 17 interval boxes offer 1000 + 250 i ms, i.e. 1000..5000 in 250 ms steps |
| SettingsScreen.BlinkOption | app/src/main/java/mobappdev/example/nback_cimpl/ui/screens/SettingsScreen.kt:258-262 | the 10 blink boxes offer 250 + 250 i ms, i.e. 250..2500 in 250 ms steps |
| SettingsScreen.IntToBoolean | app/src/main/java/mobappdev/example/nback_cimpl/ui/screens/SettingsScreen.kt:380-382 | definition: a nonzero value is true; its partner is SmallBoxOptionsAreBothBooleans |
| SettingsScreen.SmallBoxOption | app/src/main/java/mobappdev/example/nback_cimpl/ui/screens/SettingsScreen.kt:303-307 | definition: startIndex 0 plus the item index; its partner is SmallBoxOptionsAreBothBooleans |
| SettingsScreen.SmallBoxOptionsAreBothBooleans | app/src/main/java/mobappdev/example/nback_cimpl/ui/screens/SettingsScreen.kt:303-318 | the two small-box options are false and true, in that order |
| SettingsScreen.OptionsIncrease | app/src/main/java/mobappdev/example/nback_cimpl/ui/screens/SettingsScreen.kt:87-262 | every row lists strictly increasing values, so no value is offered twice |
| SettingsScreen.InitialSettingsConsistent | app/src/main/java/mobappdev/example/nback_cimpl/ui/viewmodels/GameVM.kt:99-123 | the view-model's initial settings satisfy n-back < events (1 < 10) and blink <= interval (1000 <= 2000) |
| SettingsScreen.Accepts | app/src/main/java/mobappdev/example/nback_cimpl/ui/screens/SettingsScreen.kt:102-282 | definition of the four guards (grid, small boxes and Default have none); its partner is GuardsAreExact |
| SettingsScreen.Marks | app/src/main/java/mobappdev/example/nback_cimpl/ui/screens/SettingsScreen.kt:100-319 | definition of which handled clicks set isSettingsChanged (accepted values at 111, 192, 237, 282, the grid at 148; not small boxes, 316-319); its partner is MarksAnyExactly |
| SettingsScreen.DefaultSettings | app/src/main/java/mobappdev/example/nback_cimpl/ui/screens/SettingsScreen.kt:355-362 | Default gives n-back 2, a 3x3 grid, 10 events, 2000 ms interval and 1000 ms blink, which satisfy both relations; small boxes untouched |
| SettingsScreen.Apply | app/src/main/java/mobappdev/example/nback_cimpl/ui/screens/SettingsScreen.kt:100-318 | a click keeps n-back < events and blink <= interval when they held; a refused click changes nothing; a small-box click sets only that flag |
| SettingsScreen.GuardsAreExact | app/src/main/java/mobappdev/example/nback_cimpl/ui/screens/SettingsScreen.kt:102-282 | each guard accepts a value iff it keeps its relation against the current setting, and an accepted value is stored |
| SettingsScreen.RejectedChoiceIsInert | app/src/main/java/mobappdev/example/nback_cimpl/ui/screens/SettingsScreen.kt:102-318 | a refused click neither changes settings nor marks them changed; a small-box click never marks them |
| SettingsScreen.ApplyAllAppend | app/src/main/java/mobappdev/example/nback_cimpl/ui/screens/SettingsScreen.kt:100-362 | a visit extended by one click is that click applied after the visit, and its flag is the visit's flag or that click's mark |
| SettingsScreen.ApplyAllConsistent | app/src/main/java/mobappdev/example/nback_cimpl/ui/screens/SettingsScreen.kt:100-362 | no sequence of clicks breaks n-back < events or blink <= interval |
| SettingsScreen.MarkedClickSetsFlag | app/src/main/java/mobappdev/example/nback_cimpl/ui/screens/SettingsScreen.kt:100-362 | once a click marks the settings changed, the flag stays set for the rest of the visit |
| SettingsScreen.FlagHasMarkedClick | app/src/main/java/mobappdev/example/nback_cimpl/ui/screens/SettingsScreen.kt:100-362 | a set flag has a witness: some accepted value, grid or Default click |
| SettingsScreen.MarksAnyExactly | app/src/main/java/mobappdev/example/nback_cimpl/ui/screens/SettingsScreen.kt:100-362 | isSettingsChanged is set iff some click of the visit was an accepted value, a grid click or Default |
| SettingsScreen.SavedHighscore | app/src/main/java/mobappdev/example/nback_cimpl/ui/screens/SettingsScreen.kt:337-343 | Save leaves highscore 0 exactly when some click of the visit was an accepted value, a grid click or Default, and the old highscore otherwise |
| SettingsScreen.Editor.constructor | app/src/main/java/mobappdev/example/nback_cimpl/ui/screens/SettingsScreen.kt:56 | a visit starts with isSettingsChanged false |
| SettingsScreen.Editor.OnNBackClick | app/src/main/java/mobappdev/example/nback_cimpl/ui/screens/SettingsScreen.kt:100-113 | stores the value and marks a change iff it is below the number of events; reports acceptance |
| SettingsScreen.Editor.OnGridTypeClick | app/src/main/java/mobappdev/example/nback_cimpl/ui/screens/SettingsScreen.kt:145-149 | stores the grid and marks a change |
| SettingsScreen.Editor.OnNumberOfEventsClick | app/src/main/java/mobappdev/example/nback_cimpl/ui/screens/SettingsScreen.kt:181-194 | stores the value and marks a change iff it exceeds n-back; reports acceptance |
| SettingsScreen.Editor.OnEventIntervalClick | app/src/main/java/mobappdev/example/nback_cimpl/ui/screens/SettingsScreen.kt:226-238 | stores the value and marks a change iff it is not below the blink duration; reports acceptance |
| SettingsScreen.Editor.OnBlinkDurationClick | app/src/main/java/mobappdev/example/nback_cimpl/ui/screens/SettingsScreen.kt:271-283 | stores the value and marks a change iff it does not exceed the interval; reports acceptance |
| SettingsScreen.Editor.OnSmallBoxesClick | app/src/main/java/mobappdev/example/nback_cimpl/ui/screens/SettingsScreen.kt:316-319 | stores intToBoolean of the value and does not mark a change |
| SettingsScreen.Editor.OnDefaultClick | app/src/main/java/mobappdev/example/nback_cimpl/ui/screens/SettingsScreen.kt:355-362 | stores the defaults and marks a change |
| SettingsScreen.Editor.OnSaveClick | app/src/main/java/mobappdev/example/nback_cimpl/ui/screens/SettingsScreen.kt:337-343 | the highscore becomes SavedHighscore of the visit's clicks; nothing else of the view-model changes |
| GameScreen.CellNumber | app/src/main/java/mobappdev/example/nback_cimpl/ui/screens/GameScreen.kt:168 | definition of the numbering col * size + row (the same at 324); its partners are CellNumberRoundTrip, CellNumberInjective and GridNumbersInOrder |
| GameScreen.RowNumbers | app/src/main/java/mobappdev/example/nback_cimpl/ui/screens/GameScreen.kt:163-169 | definition: the numbers col*size + row of one pass of the inner loop, row in 1..size |
| GameScreen.GridNumbers | app/src/main/java/mobappdev/example/nback_cimpl/ui/screens/GameScreen.kt:155-169 | the numbers of the nested loops' first cols passes, cols*size of them; their order is GridNumbersInOrder |
| GameScreen.CellOf | app/src/main/java/mobappdev/example/nback_cimpl/ui/screens/GameScreen.kt:155-169 | every value 1..size*size is carried by a cell of the grid |
| GameScreen.CellNumberRoundTrip | app/src/main/java/mobappdev/example/nback_cimpl/ui/screens/GameScreen.kt:155-169 | every cell carries a number in 1..size*size, and CellOf finds it back |
| GameScreen.CellNumberInjective | app/src/main/java/mobappdev/example/nback_cimpl/ui/screens/GameScreen.kt:155-169 | no two cells carry the same number |
| GameScreen.GridNumbersInOrder | app/src/main/java/mobappdev/example/nback_cimpl/ui/screens/GameScreen.kt:155-163 | the nested loops draw the cells numbered 1, 2, ..., size*size, in order |
| GameScreen.IsLit | app/src/main/java/mobappdev/example/nback_cimpl/ui/screens/GameScreen.kt:168-169 | definition of the lit test, the same in the portrait layout (324-325); its partners are LitCellsOutsideAudio and LitCellsInAudio |
| GameScreen.LitCellsOutsideAudio | app/src/main/java/mobappdev/example/nback_cimpl/ui/screens/GameScreen.kt:168-169 | outside Audio mode a value in 1..size*size lights exactly its own cell and any other value lights none |
| GameScreen.LitCellsInAudio | app/src/main/java/mobappdev/example/nback_cimpl/ui/screens/GameScreen.kt:324-325 | in Audio mode every cell is lit while an event is on display and none at -1 |
| GameScreen.LightingDuringGame | app/src/main/java/mobappdev/example/nback_cimpl/ui/screens/GameScreen.kt:168-169 | during a blank nothing is lit; a shown Visual event in range lights only its cell |
| GameScreen.BackEnabled | app/src/main/java/mobappdev/example/nback_cimpl/ui/screens/GameScreen.kt:111 | definition: the back button (and the portrait menu button, 284) is enabled on "Start Game"; Screen.BackButtonEnabled proves no game runs then |
| GameScreen.ButtonEnabled | app/src/main/java/mobappdev/example/nback_cimpl/ui/screens/GameScreen.kt:134 | definition of the match-button guards (audio 134, 393; visual 244, 411); its partner is ButtonsEnabledExactly |
| GameScreen.ButtonsEnabledExactly | app/src/main/java/mobappdev/example/nback_cimpl/ui/screens/GameScreen.kt:244 | the audio button is enabled exactly outside Visual, the visual one exactly outside Audio, and every mode enables at least one |
| GameScreen.FeedbackColour | app/src/main/java/mobappdev/example/nback_cimpl/ui/screens/GameScreen.kt:136 | green iff clicked and the guess holds, white iff not clicked, red otherwise |
| GameScreen.PressSpec | app/src/main/java/mobappdev/example/nback_cimpl/ui/screens/GameScreen.kt:128-133 | a press is checkMatch then its own flag set; only the score and flags change; Inv and Bounded are kept |
| GameScreen.PressBlinkCommute | app/src/main/java/mobappdev/example/nback_cimpl/ui/screens/GameScreen.kt:387-413 | a press during the blank rest of an event has the same effect as one while it is shown: pressing commutes with the blink step |
| GameScreen.VisualFeedbackAfterPress | app/src/main/java/mobappdev/example/nback_cimpl/ui/screens/GameScreen.kt:238-246 | after a visual press in a running game the button is green iff the event is a match, otherwise red |
| GameScreen.PressesSpec | app/src/main/java/mobappdev/example/nback_cimpl/ui/screens/GameScreen.kt:387-413 | presses during one event change only the score and flags |
| GameScreen.PressesEffect | app/src/main/java/mobappdev/example/nback_cimpl/ui/screens/GameScreen.kt:387-413 | presses move the score by counted presses times the event's delta (none when not running); the visual flag stays clear iff no press was visual |
| GameScreen.AudioPressesAllCount | app/src/main/java/mobappdev/example/nback_cimpl/ui/screens/GameScreen.kt:387-392 | every audio press is counted, so repeated audio presses keep moving the score |
| GameScreen.VisualPressesCountOnce | app/src/main/java/mobappdev/example/nback_cimpl/ui/screens/GameScreen.kt:405-410 | of any number of visual presses on one event, only the first is counted |
| GameScreen.PlaySpec | app/src/main/java/mobappdev/example/nback_cimpl/ui/screens/GameScreen.kt:387-413 | alternating presses and loop iterations keep the session invariant |
| GameScreen.PlayScore | app/src/main/java/mobappdev/example/nback_cimpl/ui/screens/GameScreen.kt:387-413 | a game's score is the sum over its events of counted presses times each event's delta; when all events are played the game is over and the highscore is at least the final rate |
| GameScreen.GameFromStartScore | app/src/main/java/mobappdev/example/nback_cimpl/ui/screens/GameScreen.kt:352-413 | an Audio or Visual game from Start, with presses during each event, ends with that sum as its score, not running, and the highscore at least its rate |
| GameScreen.Screen.constructor | app/src/main/java/mobappdev/example/nback_cimpl/ui/screens/GameScreen.kt:71-73 | the button reads "Stop Game" when a game runs and "Start Game" otherwise |
| GameScreen.Screen.BackButtonEnabled | app/src/main/java/mobappdev/example/nback_cimpl/ui/screens/GameScreen.kt:284 | back is enabled iff the label is "Start Game", and then no game runs |
| GameScreen.Screen.OnMainButtonClick | app/src/main/java/mobappdev/example/nback_cimpl/ui/screens/GameScreen.kt:352-369 | on "Start Game": startGame, label "Reset Game"; otherwise the old rate is shown only if the game was over, then stopGame, label "Start Game" |
| GameScreen.Screen.OnMatchButtonClick | app/src/main/java/mobappdev/example/nback_cimpl/ui/screens/GameScreen.kt:387-410 | an enabled press leaves the state PressSpec of the old one |
| GameScreen.Screen.MatchButtonColour | app/src/main/java/mobappdev/example/nback_cimpl/ui/screens/GameScreen.kt:395 | the colour is FeedbackColour of the button's flag and checkGuess |

## Left out

- Timing and cancellation:
  - The coroutine delays are not timed. A delay becomes a step method: `BlinkElapsed`, then `IntervalElapsed`.
  - Cancelling a job means that its steps are no longer taken.
  - Concurrency between the loop and button presses is modelled as interleaved steps on one thread.
- The native sequence generator (`NBackHelper.generateNBackString`) is not part of this model. Its result is the `generated` parameter of `StartGame` and `OnMainButtonClick`.
- The events array is a `seq<int>`. Its elements are never written after `startGame`, so nothing of the array's mutability is lost.
- Storage and logging:
  - `savePreferences`, the storage writes in `updateHighscore`/`resetHighscore`, and the `init` collectors of stored preferences are left out. Storage is not part of this model.
  - `Log.d` calls are left out.
- Text-to-speech (`speak`, `num2Char`) in the Audio loop is output only and is left out.
- Navigation, layout, sizes, icons, snackbars and the `Float` progress indicators are presentation and are left out. The rate the snackbar would show is returned by `OnMainButtonClick`.
- The home screen is not part of this model.
- The landscape and portrait layouts repeat the same expressions: the lit test, the button guards and the click handlers. Each is modelled once, and the table cites one layout's lines.
- `SuccessRate`: the model divides exactly and truncates. The app divides in `Double` and multiplies by 100.0 before truncating.
  - These agree for every score of magnitude at most the expected matches (for the event counts the settings offer).
  - Above that they can differ by one. For example, `(23 / 10.0) * 100.0` is 229.99999999999997 in double arithmetic, so the app gives 229 where the model gives 230.
- `numberOfEvents * 0.3` is modelled as an exact `3n/10` truncated toward zero. This agrees with the double product for the event counts the settings offer.
- The score is an unbounded integer. The app's 32-bit `Int` could wrap only after about 2^31 presses.
- `SetNBackValue` requires a value of at least 0. Every caller passes 1..50 or 2, and a negative n-back would make `checkMatch` read before the array.
- `StartSpec` does not make the game running in every case. The first job segment runs before `startGame` returns. In AudioVisual mode, or with no events, it has already set `isRunning` back to false.
- In AudioVisual mode `startGame` does not reset the index, so a stale index can exceed the new array (`AudioVisualKeepsStaleIndex`). This does not break `Inv`, as nothing indexes the array while no game runs. The home screen only ever selects Audio or Visual (`HomeScreen.kt` lines 142 and 175; that file is not part of this model), and for those `Bounded` states 0 <= index <= number of events and `BoundedPreserved` shows every operation keeps it. `SetGameType` itself does not require a non-AudioVisual type, so `GameVM` does not carry `Bounded` as its class invariant.
- A value box that is clicked again with its current value still marks the settings changed, as the handlers do not compare with the old value.
- The settings guards and the game screen read the view-model's current values. The screens read `collectAsState()` copies of them, which catch up only at the next recomposition. A click between a change and that recomposition would be guarded against the older value; the model does not capture that lag.
- `PlaySpec` takes all presses of an event before its blink step. Presses during the blank rest of the interval are covered by `PressBlinkCommute`: a press has the same effect on either side of the blink.
