/** The game view-model of the N-back app: the session state machine, the
    match scoring, the success rate and the highscore rules.

    The view-model's fields live in the class GameVM. Every state-changing
    method is specified by a pure transition on a value snapshot (Vm) of those
    fields, and the properties of a game session are proved about the pure
    transitions. */
module ViewModel {

  /** The game modes. Only Audio and Visual have a stimulus loop. */
  datatype GameType = Audio | Visual | AudioVisual

  /** The grid sizes the app offers. */
  datatype GridType = Grid2x2 | Grid3x3 | Grid4x4 | Grid5x5 {
    /** The number of cells along one side. */
    function Size(): (n: int)
      ensures 2 <= n <= 5
    {
      match this
      case Grid2x2 => 2
      case Grid3x3 => 3
      case Grid4x4 => 4
      case Grid5x5 => 5
    }
  }

  /** getGridType: a chosen side length to a grid, with 3x3 as the fallback. */
  function GridTypeOf(value: int): (g: GridType)
    ensures 2 <= value <= 5 ==> g.Size() == value
    ensures !(2 <= value <= 5) ==> g == Grid3x3
  {
    if value == 2 then Grid2x2
    else if value == 3 then Grid3x3
    else if value == 4 then Grid4x4
    else if value == 5 then Grid5x5
    else Grid3x3
  }

  /** Every grid is the image of its own size. */
  lemma GridTypeOfSize(g: GridType)
    ensures GridTypeOf(g.Size()) == g
  {
  }

  /** The record the view-model pushes to the screens. */
  datatype GameState = GameState(
    gameType: GameType,
    isRunning: bool,
    eventValue: int,        // the event on display, or -1 for none
    eventValueIndex: int)   // the position of the current event

  const InitialGameState := GameState(Visual, false, -1, 0)

  /** Where the launched stimulus loop is suspended: NoJob when no loop is
      active (never launched, cancelled or finished), Shown while the event is
      displayed for the blink duration, Blanked for the rest of the interval. */
  datatype Job = NoJob | Shown | Blanked

  /** The user-editable settings. */
  datatype Settings = Settings(
    nBack: int,
    gridType: GridType,
    numberOfEvents: int,
    eventInterval: int,    // milliseconds
    blinkDuration: int,    // milliseconds
    smallBoxes: bool)

  /** A snapshot of every field of the view-model. */
  datatype Vm = Vm(
    state: GameState,
    score: int,
    highscore: int,
    nBack: int,
    gridType: GridType,
    blinkDuration: int,
    eventInterval: int,
    numberOfEvents: int,
    isVisualClicked: bool,
    isAudioClicked: bool,
    smallBoxes: bool,
    events: seq<int>,
    job: Job)

  /** The view-model as the constructor leaves it (before the stored
      preferences arrive). */
  const InitialVm := Vm(InitialGameState, 0, 0, 1, Grid3x3, 1000, 2000, 10,
                        false, false, false, [], NoJob)

  function SettingsOf(v: Vm): Settings {
    Settings(v.nBack, v.gridType, v.numberOfEvents, v.eventInterval, v.blinkDuration, v.smallBoxes)
  }

  /** v with its settings replaced by s and nothing else changed. */
  function WithSettings(v: Vm, s: Settings): (r: Vm)
    ensures SettingsOf(r) == s
    ensures r.state == v.state && r.score == v.score && r.highscore == v.highscore
    ensures r.events == v.events && r.job == v.job
    ensures r.isVisualClicked == v.isVisualClicked && r.isAudioClicked == v.isAudioClicked
  {
    v.(nBack := s.nBack, gridType := s.gridType, numberOfEvents := s.numberOfEvents,
       eventInterval := s.eventInterval, blinkDuration := s.blinkDuration,
       smallBoxes := s.smallBoxes)
  }

  /** The part of the invariant that also holds half-way through startGame,
      after it marks the game running and before the new loop is launched. */
  predicate Safe(v: Vm) {
    0 <= v.nBack && 0 <= v.state.eventValueIndex
  }

  /** The session invariant. It keeps every array access of checkMatch and
      checkGuess in bounds: while a game runs the index is a position of
      events, and n-back is never negative, so index - nBack <= index. */
  predicate Inv(v: Vm) {
    && Safe(v)
    && (v.state.isRunning <==> v.job != NoJob)
    && (v.job != NoJob ==> v.state.eventValueIndex < |v.events|)
    && (v.job == Shown ==> v.state.eventValue == v.events[v.state.eventValueIndex])
    && (v.job == Blanked ==> v.state.eventValue == -1)
  }

  lemma InitialVmInv()
    ensures Inv(InitialVm) && !InitialVm.state.isRunning
  {
  }

  // ---------------------------------------------------------------------------
  // Scoring

  /** Whether the event at index repeats the one nBack positions earlier. */
  predicate IsMatch(events: seq<int>, nBack: int, index: int)
    requires 0 <= nBack && 0 <= index < |events|
  {
    index >= nBack && events[index - nBack] == events[index]
  }

  /** The score change a counted press makes at index. */
  function MatchDelta(events: seq<int>, nBack: int, index: int): (d: int)
    requires 0 <= nBack && 0 <= index < |events|
    ensures d == 1 || d == -1
    ensures d == 1 <==> IsMatch(events, nBack, index)
  {
    if IsMatch(events, nBack, index) then 1 else -1
  }

  /** checkMatch: while a game runs and the visual button has not been
      pressed for this event, the score moves by +1 on a match and by -1
      otherwise (including an index below nBack). */
  function CheckMatchSpec(v: Vm): (r: Vm)
    requires Inv(v)
    ensures Inv(r)
    ensures r == v.(score := r.score)
  {
    if !v.isVisualClicked && v.state.isRunning then
      v.(score := v.score + MatchDelta(v.events, v.nBack, v.state.eventValueIndex))
    else
      v
  }

  /** checkGuess: the answer the feedback colour shows. */
  predicate Guess(v: Vm)
    requires Inv(v)
  {
    v.state.isRunning && IsMatch(v.events, v.nBack, v.state.eventValueIndex)
  }

  /** checkMatch changes nothing unless a game runs and the visual button is
      still unpressed; when it acts, it moves the score by exactly one. */
  lemma CheckMatchEffect(v: Vm)
    requires Inv(v)
    ensures !v.state.isRunning || v.isVisualClicked ==> CheckMatchSpec(v) == v
    ensures v.state.isRunning && !v.isVisualClicked ==>
              (CheckMatchSpec(v).score == v.score + 1 <==>
                 v.state.eventValueIndex >= v.nBack &&
                 v.events[v.state.eventValueIndex - v.nBack] == v.events[v.state.eventValueIndex])
    ensures v.state.isRunning && !v.isVisualClicked ==>
              (CheckMatchSpec(v).score == v.score - 1 <==> !IsMatch(v.events, v.nBack, v.state.eventValueIndex))
  {
  }

  /** checkGuess is true exactly when a checkMatch with the visual flag clear
      would add one to the score. */
  lemma GuessPredictsCheckMatch(v: Vm)
    requires Inv(v)
    ensures Guess(v) <==> v.state.isRunning && CheckMatchSpec(v.(isVisualClicked := false)).score == v.score + 1
    ensures !Guess(v) && v.state.isRunning ==> CheckMatchSpec(v.(isVisualClicked := false)).score == v.score - 1
  {
  }

  // ---------------------------------------------------------------------------
  // Success rate and highscore

  const IntMax := 0x7fff_ffff
  const IntMin := -0x8000_0000

  function Abs(x: int): nat { if x < 0 then -x else x }

  lemma MulMonotone(a: int, b: int, c: nat)
    requires a <= b
    ensures a * c <= b * c
  {
    assert b * c - a * c == (b - a) * c;
  }

  /** The quotient of natural numbers is the largest multiple not above. */
  lemma DivBounds(x: nat, d: nat)
    requires 0 < d
    ensures 0 <= x / d
    ensures (x / d) * d <= x < (x / d + 1) * d
  {
    assert x == (x / d) * d + x % d;
    assert (x / d + 1) * d == (x / d) * d + d;
  }

  lemma DivMonotone(x: nat, y: nat, d: nat)
    requires 0 < d && x <= y
    ensures x / d <= y / d
  {
    DivBounds(x, d);
    DivBounds(y, d);
    if x / d > y / d {
      MulMonotone(y / d + 1, x / d, d);
    }
  }

  lemma DivOfMultiple(k: nat, d: nat)
    requires 0 < d
    ensures (k * d) / d == k
  {
    var q := (k * d) / d;
    DivBounds(k * d, d);
    if q < k {
      MulMonotone(q + 1, k, d);
    } else if q > k {
      MulMonotone(k + 1, q, d);
    }
  }

  /** Division truncating toward zero, as Kotlin's toInt of a quotient does
      (Dafny's own / is Euclidean): the magnitude is the largest whole number
      of divisors that fits into the dividend, the sign that of a / d. */
  function TruncDiv(a: int, d: int): (q: int)
    requires d != 0
    ensures Abs(q) * Abs(d) <= Abs(a) < (Abs(q) + 1) * Abs(d)
    ensures q > 0 ==> (a > 0) == (d > 0)
    ensures q < 0 ==> (a > 0) != (d > 0)
  {
    var x, y := Abs(a), Abs(d);
    DivBounds(x, y);
    var q0 := x / y;
    var q := if (a < 0) == (d < 0) then q0 else -q0;
    assert Abs(q) == q0;
    assert Abs(q) * y <= x < (Abs(q) + 1) * y;
    q
  }

  /** Double.toInt on a value already truncated: saturation at the Int range. */
  function ClampToInt(x: int): (r: int)
    ensures IntMin <= r <= IntMax
    ensures IntMin <= x <= IntMax ==> r == x
    ensures x > IntMax ==> r == IntMax
    ensures x < IntMin ==> r == IntMin
  {
    if x > IntMax then IntMax else if x < IntMin then IntMin else x
  }

  /** The expected number of matches of a game: numberOfEvents * 0.3,
      truncated. */
  function Matches(numberOfEvents: int): int {
    TruncDiv(3 * numberOfEvents, 10)
  }

  /** getScore: (score / matches) * 100 truncated to Int. With no expected
      matches the Double quotient is an infinity of the score's sign, which
      toInt saturates. */
  function SuccessRate(score: int, numberOfEvents: int): int {
    var matches := Matches(numberOfEvents);
    if score == 0 then 0
    else if matches == 0 then (if score > 0 then IntMax else IntMin)
    else ClampToInt(TruncDiv(100 * score, matches))
  }

  /** The event counts below four expect no match at all, so any nonzero
      score of such a game saturates its rate. */
  lemma {:induction false} MatchesOfEventCount(n: int)
    requires 0 <= n
    ensures 0 <= Matches(n) <= n
    ensures Matches(n) == 0 <==> n <= 3
    ensures n <= 3 ==> SuccessRate(1, n) == IntMax && SuccessRate(-1, n) == IntMin
  {
    var m := Matches(n);
    assert Abs(m) * 10 <= 3 * n < (Abs(m) + 1) * 10;
  }

  lemma {:induction false} TruncDivMonotone(a: int, b: int, d: int)
    requires d > 0 && a <= b
    ensures TruncDiv(a, d) <= TruncDiv(b, d)
  {
    if a >= 0 {
      DivMonotone(a, b, d);
    } else if b < 0 {
      DivMonotone(-b, -a, d);
    }
  }

  /** A better score never gives a lower success rate. */
  lemma {:induction false} SuccessRateMonotone(s1: int, s2: int, n: int)
    requires 0 <= n && s1 <= s2
    ensures SuccessRate(s1, n) <= SuccessRate(s2, n)
  {
    MatchesOfEventCount(n);
    var m := Matches(n);
    if m > 0 {
      TruncDivMonotone(100 * s1, 100 * s2, m);
    }
  }

  /** A score between zero and the expected matches is a rate of 0..100 %,
      and hitting every expected match is exactly 100 %. */
  lemma {:induction false} SuccessRateBounds(score: int, n: int)
    requires 0 <= score <= Matches(n)
    ensures 0 <= SuccessRate(score, n) <= 100
    ensures score > 0 && score == Matches(n) ==> SuccessRate(score, n) == 100
  {
    var m := Matches(n);
    if score > 0 {
      DivMonotone(100 * score, 100 * m, m);
      DivOfMultiple(100, m);
    }
  }

  /** updateHighscore: the rate of the finished game replaces the highscore
      only when it is strictly greater. */
  function UpdateHighscoreSpec(v: Vm): (r: Vm)
    ensures r == v.(highscore := r.highscore)
    ensures r.highscore >= v.highscore && r.highscore >= SuccessRate(v.score, v.numberOfEvents)
    ensures r.highscore == v.highscore || r.highscore == SuccessRate(v.score, v.numberOfEvents)
  {
    var rate := SuccessRate(v.score, v.numberOfEvents);
    if rate > v.highscore then v.(highscore := rate) else v
  }

  /** resetHighscore. */
  function ResetHighscoreSpec(v: Vm): (r: Vm)
    ensures r == v.(highscore := 0)
  {
    v.(highscore := 0)
  }

  /** After a reset the next finished game sets the highscore to its own
      rate, or to 0 when that rate is negative. */
  lemma HighscoreAfterReset(v: Vm)
    ensures var r := UpdateHighscoreSpec(ResetHighscoreSpec(v));
      var rate := SuccessRate(v.score, v.numberOfEvents);
      r.highscore == (if rate > 0 then rate else 0) && r == v.(highscore := r.highscore)
  {
  }

  /** getScore is 0 for a zero score, whatever the event count; a nonzero
      score with no expected match never rates 0; and for a non-negative
      event count the rate has the sign of the score. */
  lemma {:induction false} SuccessRateSign(score: int, n: int)
    requires 0 <= n
    ensures score == 0 ==> SuccessRate(score, n) == 0
    ensures score != 0 && Matches(n) == 0 ==> SuccessRate(score, n) != 0
    ensures SuccessRate(score, n) > 0 ==> score > 0
    ensures SuccessRate(score, n) < 0 ==> score < 0
  {
    MatchesOfEventCount(n);
  }

  // ---------------------------------------------------------------------------
  // Starting, stopping and the stimulus loop

  /** The code after the loop in the job that startGame launches: the game
      stops and the highscore is updated with the final score. */
  function FinishSpec(v: Vm): (r: Vm)
    requires Safe(v)
    ensures Inv(r) && !r.state.isRunning && r.job == NoJob
    ensures r.score == v.score && r.events == v.events && SettingsOf(r) == SettingsOf(v)
    ensures r.state == v.state.(isRunning := false)
    ensures r.highscore >= v.highscore
  {
    UpdateHighscoreSpec(v.(state := v.state.(isRunning := false), job := NoJob))
  }

  /** The launched job's first segment, before its first delay. AudioVisual
      has no loop and finishes at once; Audio and Visual reset the index and
      show the first event, or finish at once when there is none. */
  function LaunchSpec(v: Vm): (r: Vm)
    requires Safe(v) && v.state.isRunning
    ensures Inv(r)
  {
    if v.state.gameType == AudioVisual then FinishSpec(v)
    else
      var w := v.(state := v.state.(eventValueIndex := 0));
      if |w.events| > 0 then w.(state := w.state.(eventValue := w.events[0]), job := Shown)
      else FinishSpec(w)
  }

  /** startGame: the old loop is cancelled, the game is marked running with a
      zero score and clear flags, the generated events are taken, and the new
      loop is launched. */
  function StartSpec(v: Vm, generated: seq<int>): (r: Vm)
    requires Inv(v)
    ensures Inv(r)
    ensures r.events == generated && r.score == 0 && SettingsOf(r) == SettingsOf(v)
    ensures !r.isVisualClicked && !r.isAudioClicked
    ensures r.state.gameType == v.state.gameType
    ensures r.highscore >= v.highscore
    ensures r.state.gameType != AudioVisual ==> r.state.eventValueIndex == 0
    ensures r.state.isRunning <==> r.state.gameType != AudioVisual && |generated| > 0
    ensures r.state.isRunning ==> r.job == Shown && r.state.eventValue == generated[0]
  {
    var w := v.(state := v.state.(isRunning := true), isVisualClicked := false,
                isAudioClicked := false, score := 0, events := generated, job := NoJob);
    LaunchSpec(w)
  }

  /** stopGame: cancels the loop and clears the session; the game type, the
      settings, the highscore and the events stay. */
  function StopSpec(v: Vm): (r: Vm)
    requires Inv(v)
    ensures Inv(r)
    ensures !r.state.isRunning && r.job == NoJob && r.score == 0
    ensures r.state.eventValue == -1 && r.state.eventValueIndex == 0
    ensures !r.isVisualClicked && !r.isAudioClicked
    ensures r.state.gameType == v.state.gameType && SettingsOf(r) == SettingsOf(v)
    ensures r.highscore == v.highscore && r.events == v.events
  {
    v.(state := v.state.(isRunning := false, eventValue := -1, eventValueIndex := 0),
       score := 0, isVisualClicked := false, isAudioClicked := false, job := NoJob)
  }

  /** After the blink duration the event is taken off the display. */
  function BlinkSpec(v: Vm): (r: Vm)
    requires Inv(v) && v.job == Shown
    ensures Inv(r) && r.job == Blanked
    ensures r == v.(state := v.state.(eventValue := -1), job := Blanked)
  {
    v.(state := v.state.(eventValue := -1), job := Blanked)
  }

  /** After the rest of the interval the flags are cleared and the index
      moves on; the next event is shown at once, or the loop is over. */
  function IntervalSpec(v: Vm): (r: Vm)
    requires Inv(v) && v.job == Blanked
    ensures Inv(r) && r.job != Blanked
    ensures r.state.eventValueIndex == v.state.eventValueIndex + 1
    ensures !r.isVisualClicked && !r.isAudioClicked
    ensures r.score == v.score && r.events == v.events && SettingsOf(r) == SettingsOf(v)
    ensures r.state.gameType == v.state.gameType
    ensures r.job == Shown <==> r.state.eventValueIndex < |r.events|
    ensures r.job == NoJob ==> r.state.eventValue == -1
  {
    var index := v.state.eventValueIndex + 1;
    var w := v.(isVisualClicked := false, isAudioClicked := false,
                state := v.state.(eventValueIndex := index));
    if index < |w.events| then w.(state := w.state.(eventValue := w.events[index]), job := Shown)
    else FinishSpec(w)
  }

  /** One iteration of the loop of runVisualGame / runAudioGame: show,
      blank, clear the flags, bump the index. */
  function IterationSpec(v: Vm): (r: Vm)
    requires Inv(v) && v.job == Shown
    ensures Inv(r) && r.job != Blanked
  {
    IntervalSpec(BlinkSpec(v))
  }

  /** The rest of an uncancelled loop, with no press in between, and the code
      after it. */
  function RunSpec(v: Vm): (r: Vm)
    requires Inv(v) && v.job != Blanked
    ensures Inv(r) && r.job == NoJob
    decreases |v.events| - v.state.eventValueIndex
  {
    if v.job == NoJob then v else RunSpec(IterationSpec(v))
  }

  /** One iteration shows the current event, then blanks it, clears both
      flags and advances the index by exactly one. */
  lemma IterationEffect(v: Vm)
    requires Inv(v) && v.job == Shown
    ensures BlinkSpec(v).state.eventValue == -1
    ensures var r := IterationSpec(v);
      && r.state.eventValueIndex == v.state.eventValueIndex + 1
      && !r.isVisualClicked && !r.isAudioClicked
      && r.score == v.score && r.events == v.events && SettingsOf(r) == SettingsOf(v)
      && (r.state.isRunning <==> r.state.eventValueIndex < |v.events|)
      && (!r.state.isRunning ==> r.state.eventValue == -1)
  {
  }

  /** When the loop runs to the end, the index equals the number of events,
      the game is no longer running, nothing is displayed, the score is kept
      and the highscore has taken it into account. */
  lemma {:induction false} RunEnds(v: Vm)
    requires Inv(v) && v.job == Shown
    ensures var r := RunSpec(v);
      && !r.state.isRunning && r.job == NoJob
      && r.state.eventValueIndex == |v.events| && r.events == v.events
      && r.state.eventValue == -1
      && !r.isVisualClicked && !r.isAudioClicked
      && r.score == v.score && SettingsOf(r) == SettingsOf(v)
      && r.state.gameType == v.state.gameType
      && r.highscore == (var rate := SuccessRate(v.score, v.numberOfEvents);
                         if rate > v.highscore then rate else v.highscore)
    decreases |v.events| - v.state.eventValueIndex
  {
    var w := IterationSpec(v);
    if w.job == Shown {
      RunEnds(w);
    }
  }

  /** The invariant of every session that can be started from the home
      screen, which only ever selects Audio or Visual: on top of Inv, the
      index never passes the end of the events. */
  predicate Bounded(v: Vm) {
    Inv(v) && v.state.gameType != AudioVisual && v.state.eventValueIndex <= |v.events|
  }

  lemma InitialVmBounded()
    ensures Bounded(InitialVm)
  {
  }

  /** Every operation of the view-model keeps Bounded: starting, stopping,
      scoring, the highscore updates, both loop steps, the setters (for a
      game type other than AudioVisual and a non-negative n-back) and the
      flag setters. */
  lemma BoundedPreserved(v: Vm, generated: seq<int>, t: GameType, s: Settings, vc: bool, ac: bool)
    requires Bounded(v)
    ensures Bounded(StartSpec(v, generated)) && Bounded(StopSpec(v))
    ensures Bounded(CheckMatchSpec(v))
    ensures Bounded(UpdateHighscoreSpec(v)) && Bounded(ResetHighscoreSpec(v))
    ensures v.job == Shown ==> Bounded(BlinkSpec(v))
    ensures v.job == Blanked ==> Bounded(IntervalSpec(v))
    ensures t != AudioVisual ==> Bounded(v.(state := v.state.(gameType := t)))
    ensures 0 <= s.nBack ==> Bounded(WithSettings(v, s))
    ensures Bounded(v.(isVisualClicked := vc, isAudioClicked := ac))
  {
  }

  /** Bounded needs the game type: an AudioVisual start keeps the index of
      the previous session, which can lie beyond the new events. */
  lemma AudioVisualKeepsStaleIndex()
    ensures var v := InitialVm.(state := GameState(AudioVisual, false, -1, 5), events := [1, 2, 3, 4, 5, 6]);
      Inv(v) && StartSpec(v, [1]).state.eventValueIndex == 5 > |StartSpec(v, [1]).events|
  {
  }

  // ---------------------------------------------------------------------------
  // The view-model object

  class GameVM {
    var state: GameState
    var score: int
    var highscore: int
    var nBack: int
    var gridType: GridType
    var blinkDuration: int
    var eventInterval: int
    var numberOfEvents: int
    var isVisualClicked: bool
    var isAudioClicked: bool
    var smallBoxes: bool
    var events: seq<int>
    var job: Job

    function Snapshot(): Vm
      reads this
    {
      Vm(state, score, highscore, nBack, gridType, blinkDuration, eventInterval,
         numberOfEvents, isVisualClicked, isAudioClicked, smallBoxes, events, job)
    }

    ghost predicate Valid()
      reads this
    {
      Inv(Snapshot())
    }

    constructor ()
      ensures Valid() && Snapshot() == InitialVm
    {
      state := InitialGameState;
      score, highscore := 0, 0;
      nBack := 1;
      gridType := Grid3x3;
      isVisualClicked, isAudioClicked := false, false;
      blinkDuration, eventInterval := 1000, 2000;
      numberOfEvents := 10;
      smallBoxes := false;
      events := [];
      job := NoJob;
    }

    method SetGameType(gameType: GameType)
      requires Valid()
      modifies this`state
      ensures Valid() && Snapshot() == old(Snapshot()).(state := old(state).(gameType := gameType))
    {
      state := state.(gameType := gameType);
    }

    method SetNBackValue(value: int)
      requires Valid() && 0 <= value
      modifies this`nBack
      ensures Valid() && Snapshot() == old(Snapshot()).(nBack := value)
    {
      nBack := value;
    }

    method SetBlinkDuration(value: int)
      requires Valid()
      modifies this`blinkDuration
      ensures Valid() && Snapshot() == old(Snapshot()).(blinkDuration := value)
    {
      blinkDuration := value;
    }

    method SetEventInterval(value: int)
      requires Valid()
      modifies this`eventInterval
      ensures Valid() && Snapshot() == old(Snapshot()).(eventInterval := value)
    {
      eventInterval := value;
    }

    method SetGridType(value: int)
      requires Valid()
      modifies this`gridType
      ensures Valid() && Snapshot() == old(Snapshot()).(gridType := GridTypeOf(value))
    {
      gridType := GridTypeOf(value);
    }

    method SetNumOfEvents(value: int)
      requires Valid()
      modifies this`numberOfEvents
      ensures Valid() && Snapshot() == old(Snapshot()).(numberOfEvents := value)
    {
      numberOfEvents := value;
    }

    method SetSmallBoxes(b: bool)
      requires Valid()
      modifies this`smallBoxes
      ensures Valid() && Snapshot() == old(Snapshot()).(smallBoxes := b)
    {
      smallBoxes := b;
    }

    method SetVisualClicked(b: bool)
      requires Valid()
      modifies this`isVisualClicked
      ensures Valid() && Snapshot() == old(Snapshot()).(isVisualClicked := b)
    {
      isVisualClicked := b;
    }

    method SetAudioClicked(b: bool)
      requires Valid()
      modifies this`isAudioClicked
      ensures Valid() && Snapshot() == old(Snapshot()).(isAudioClicked := b)
    {
      isAudioClicked := b;
    }

    /** The code after the loop in the job that startGame launches. */
    method Finish()
      requires Safe(Snapshot())
      modifies this
      ensures Valid() && Snapshot() == FinishSpec(old(Snapshot()))
    {
      state := state.(isRunning := false);
      job := NoJob;
      UpdateHighscore();
    }

    /** startGame, with `generated` standing for the native sequence
        generator's result. The launched job's first segment runs before
        startGame returns, as the view-model scope dispatches immediately. */
    method StartGame(generated: seq<int>)
      requires Valid()
      modifies this
      ensures Valid() && Snapshot() == StartSpec(old(Snapshot()), generated)
    {
      job := NoJob;
      state := state.(isRunning := true);
      isVisualClicked := false;
      isAudioClicked := false;
      score := 0;
      events := generated;
      if state.gameType == AudioVisual {
        Finish();
      } else {
        state := state.(eventValueIndex := 0);
        if |events| > 0 {
          state := state.(eventValue := events[0]);
          job := Shown;
        } else {
          Finish();
        }
      }
    }

    method StopGame()
      requires Valid()
      modifies this
      ensures Valid() && Snapshot() == StopSpec(old(Snapshot()))
    {
      job := NoJob;
      state := state.(isRunning := false);
      score := 0;
      state := state.(eventValue := -1);
      state := state.(eventValueIndex := 0);
      isVisualClicked := false;
      isAudioClicked := false;
    }

    method CheckMatch()
      requires Valid()
      modifies this`score
      ensures Valid() && Snapshot() == CheckMatchSpec(old(Snapshot()))
    {
      if !isVisualClicked && state.isRunning {
        if state.eventValueIndex >= nBack {
          if events[state.eventValueIndex - nBack] == events[state.eventValueIndex] {
            score := score + 1;
          } else {
            score := score - 1;
          }
        } else {
          score := score - 1;
        }
      }
    }

    method CheckGuess() returns (b: bool)
      requires Valid()
      ensures b == Guess(Snapshot())
    {
      if state.isRunning {
        if state.eventValueIndex >= nBack {
          return events[state.eventValueIndex - nBack] == events[state.eventValueIndex];
        } else {
          return false;
        }
      }
      return false;
    }

    method UpdateHighscore()
      modifies this`highscore
      ensures Snapshot() == UpdateHighscoreSpec(old(Snapshot()))
    {
      var rate := GetScore();
      if rate > highscore {
        highscore := rate;
      }
    }

    method GetScore() returns (rate: int)
      ensures rate == SuccessRate(score, numberOfEvents)
    {
      var matches := Matches(numberOfEvents);
      if score == 0 {
        rate := 0;
      } else if matches == 0 {
        rate := if score > 0 then IntMax else IntMin;
      } else {
        rate := ClampToInt(TruncDiv(100 * score, matches));
      }
    }

    method ResetHighscore()
      requires Valid()
      modifies this`highscore
      ensures Valid() && Snapshot() == ResetHighscoreSpec(old(Snapshot()))
    {
      highscore := 0;
    }

    /** The delay of the blink duration has passed. */
    method BlinkElapsed()
      requires Valid() && job == Shown
      modifies this
      ensures Valid() && Snapshot() == BlinkSpec(old(Snapshot()))
    {
      state := state.(eventValue := -1);
      job := Blanked;
    }

    /** The rest of the event interval has passed. */
    method IntervalElapsed()
      requires Valid() && job == Blanked
      modifies this
      ensures Valid() && Snapshot() == IntervalSpec(old(Snapshot()))
    {
      isVisualClicked := false;
      isAudioClicked := false;
      var index := state.eventValueIndex + 1;
      state := state.(eventValueIndex := index);
      if index < |events| {
        state := state.(eventValue := events[index]);
        job := Shown;
      } else {
        Finish();
      }
    }

    /** The rest of the stimulus loop, when nothing cancels it. */
    method RunToEnd()
      requires Valid() && job == Shown
      modifies this
      ensures Valid() && Snapshot() == RunSpec(old(Snapshot()))
      ensures !state.isRunning && state.eventValueIndex == |events|
    {
      ghost var start := Snapshot();
      RunEnds(start);
      while job != NoJob
        invariant Valid() && job != Blanked
        invariant RunSpec(Snapshot()) == RunSpec(start)
        decreases |events| - state.eventValueIndex
      {
        BlinkElapsed();
        IntervalElapsed();
      }
    }
  }
}
