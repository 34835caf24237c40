/** The game screen: how grid cells are numbered and lit, the start/reset
    button, which buttons are enabled, what a match-button press does, and
    the score a whole game of presses earns. */
module GameScreen {
  import opened ViewModel

  datatype Option<T> = None | Some(value: T)

  // ---------------------------------------------------------------------------
  // Cell numbering

  /** The grid is drawn as `size` rows of `size` boxes; the box at outer
      position col (0-based) and inner position row (1-based) carries this
      number, which eventValue is compared to. */
  function CellNumber(size: int, col: int, row: int): int {
    col * size + row
  }

  predicate IsCell(size: int, col: int, row: int) {
    0 <= col < size && 1 <= row <= size
  }

  lemma DivUnique(x: nat, d: nat, q: nat, r: nat)
    requires 0 <= r < d && x == q * d + r
    ensures x / d == q && x % d == r
  {
    DivBounds(x, d);
    if x / d < q {
      MulMonotone(x / d + 1, q, d);
    } else if x / d > q {
      MulMonotone(q + 1, x / d, d);
    }
  }

  /** The cell that carries number v. */
  function CellOf(size: int, v: int): (cell: (int, int))
    requires 1 <= size && 1 <= v <= size * size
    ensures IsCell(size, cell.0, cell.1) && CellNumber(size, cell.0, cell.1) == v
  {
    DivBounds(v - 1, size);
    var col, row := (v - 1) / size, (v - 1) % size + 1;
    assert col < size by {
      if col >= size {
        MulMonotone(size, col, size);
      }
    }
    (col, row)
  }

  /** Every cell carries a number in 1..size*size, and CellOf finds the cell
      back from it. */
  lemma {:induction false} CellNumberRoundTrip(size: int, col: int, row: int)
    requires IsCell(size, col, row)
    ensures 1 <= CellNumber(size, col, row) <= size * size
    ensures CellOf(size, CellNumber(size, col, row)) == (col, row)
  {
    MulMonotone(col, size - 1, size);
    assert (size - 1) * size + size == size * size;
    DivUnique(CellNumber(size, col, row) - 1, size, col, row - 1);
  }

  /** No two cells carry the same number. */
  lemma CellNumberInjective(size: int, c1: int, r1: int, c2: int, r2: int)
    requires IsCell(size, c1, r1) && IsCell(size, c2, r2)
    requires CellNumber(size, c1, r1) == CellNumber(size, c2, r2)
    ensures c1 == c2 && r1 == r2
  {
    CellNumberRoundTrip(size, c1, r1);
    CellNumberRoundTrip(size, c2, r2);
  }

  /** The numbers of one pass of the inner loop (row in 1..size). */
  function RowNumbers(size: nat, col: int): (ns: seq<int>)
    ensures |ns| == size
  {
    seq(size, k => CellNumber(size, col, k + 1))
  }

  /** The numbers in the order the nested loops draw the first `cols`
      passes of the outer loop. */
  function GridNumbers(size: nat, cols: nat): (ns: seq<int>)
    ensures |ns| == cols * size
  {
    if cols == 0 then [] else GridNumbers(size, cols - 1) + RowNumbers(size, cols - 1)
  }

  /** The nested loops draw the cells numbered 1, 2, ..., size*size, in that
      order: each number exactly once. */
  lemma {:induction false} GridNumbersInOrder(size: nat, cols: nat)
    ensures GridNumbers(size, cols) == seq(cols * size, i => i + 1)
  {
    if cols > 0 {
      GridNumbersInOrder(size, cols - 1);
      var before := (cols - 1) * size;
      assert before + size == cols * size;
      var ns := GridNumbers(size, cols);
      forall i | 0 <= i < cols * size
        ensures ns[i] == i + 1
      {
        if i >= before {
          assert ns[i] == RowNumbers(size, cols - 1)[i - before];
        }
      }
    }
  }

  // ---------------------------------------------------------------------------
  // Lighting

  /** The background test of each grid box; it is written out identically
      for the landscape and the portrait layout. */
  predicate IsLit(gs: GameState, size: int, col: int, row: int) {
    gs.eventValue == CellNumber(size, col, row) || (gs.gameType == Audio && gs.eventValue > -1)
  }

  /** Outside Audio mode a value in 1..size*size lights exactly its own cell,
      and any other value, -1 included, lights none. */
  lemma LitCellsOutsideAudio(gs: GameState, size: int, col: int, row: int)
    requires gs.gameType != Audio && IsCell(size, col, row)
    ensures 1 <= gs.eventValue <= size * size ==>
              (IsLit(gs, size, col, row) <==> (col, row) == CellOf(size, gs.eventValue))
    ensures !(1 <= gs.eventValue <= size * size) ==> !IsLit(gs, size, col, row)
  {
    CellNumberRoundTrip(size, col, row);
  }

  /** In Audio mode every cell is lit while an event is on display, and none
      otherwise (eventValue -1). */
  lemma LitCellsInAudio(gs: GameState, size: int, col: int, row: int)
    requires gs.gameType == Audio && IsCell(size, col, row)
    ensures gs.eventValue > -1 ==> IsLit(gs, size, col, row)
    ensures gs.eventValue == -1 ==> !IsLit(gs, size, col, row)
  {
    CellNumberRoundTrip(size, col, row);
  }

  /** During the blank part of an event no cell is lit; while a Visual event
      in 1..size*size is shown only its cell is lit. */
  lemma LightingDuringGame(v: Vm, col: int, row: int)
    requires Inv(v) && IsCell(v.gridType.Size(), col, row)
    ensures v.job == Blanked ==> !IsLit(v.state, v.gridType.Size(), col, row)
    ensures v.job == Shown && v.state.gameType != Audio &&
            1 <= v.events[v.state.eventValueIndex] <= v.gridType.Size() * v.gridType.Size() ==>
              (IsLit(v.state, v.gridType.Size(), col, row) <==>
                 (col, row) == CellOf(v.gridType.Size(), v.events[v.state.eventValueIndex]))
  {
    var size := v.gridType.Size();
    if v.state.gameType == Audio {
      LitCellsInAudio(v.state, size, col, row);
    } else {
      LitCellsOutsideAudio(v.state, size, col, row);
    }
  }

  // ---------------------------------------------------------------------------
  // Buttons

  const StartLabel := "Start Game"
  const ResetLabel := "Reset Game"
  const StopLabel := "Stop Game"

  /** The back and menu buttons. */
  predicate BackEnabled(gameStr: string) {
    gameStr == StartLabel
  }

  datatype Button = AudioButton | VisualButton

  predicate ButtonEnabled(gameType: GameType, b: Button) {
    match b
    case AudioButton => gameType == Audio || gameType == AudioVisual
    case VisualButton => gameType == Visual || gameType == AudioVisual
  }

  /** Audio enables only the audio button, Visual only the visual one and
      AudioVisual both, so every mode has exactly the buttons of its senses
      and at least one. */
  lemma ButtonsEnabledExactly(gameType: GameType)
    ensures ButtonEnabled(gameType, AudioButton) <==> gameType != Visual
    ensures ButtonEnabled(gameType, VisualButton) <==> gameType != Audio
    ensures ButtonEnabled(gameType, AudioButton) || ButtonEnabled(gameType, VisualButton)
  {
  }

  datatype Colour = Green | Red | White

  /** The content colour of a match button. */
  function FeedbackColour(clicked: bool, guess: bool): (c: Colour)
    ensures c == Green <==> clicked && guess
    ensures c == White <==> !clicked
  {
    if clicked && guess then Green else if clicked && !guess then Red else White
  }

  /** A press of a match button: checkMatch first, then the button's own
      clicked flag is set. */
  function PressSpec(v: Vm, b: Button): (r: Vm)
    requires Inv(v)
    ensures Inv(r)
    ensures r.isVisualClicked == (v.isVisualClicked || b == VisualButton)
    ensures r.isAudioClicked == (v.isAudioClicked || b == AudioButton)
    ensures r == v.(score := r.score, isVisualClicked := r.isVisualClicked, isAudioClicked := r.isAudioClicked)
    ensures Bounded(v) ==> Bounded(r)
  {
    var w := CheckMatchSpec(v);
    match b
    case AudioButton => w.(isAudioClicked := true)
    case VisualButton => w.(isVisualClicked := true)
  }

  /** A press during the shown part of an event has the same effect as one
      during the blank rest of its interval, when the buttons stay enabled:
      pressing commutes with blanking the display. */
  lemma PressBlinkCommute(v: Vm, b: Button)
    requires Inv(v) && v.job == Shown
    ensures PressSpec(BlinkSpec(v), b) == BlinkSpec(PressSpec(v, b))
  {
  }

  /** After a visual press in a running game the visual button is green
      exactly when the current event is a match. */
  lemma VisualFeedbackAfterPress(v: Vm)
    requires Inv(v) && v.state.isRunning
    ensures var r := PressSpec(v, VisualButton);
      FeedbackColour(r.isVisualClicked, Guess(r)) == (if IsMatch(v.events, v.nBack, v.state.eventValueIndex) then Green else Red)
  {
  }

  /** Presses made while one event is current. */
  function PressesSpec(v: Vm, bs: seq<Button>): (r: Vm)
    requires Inv(v)
    ensures Inv(r)
    ensures r == v.(score := r.score, isVisualClicked := r.isVisualClicked, isAudioClicked := r.isAudioClicked)
    decreases |bs|
  {
    if bs == [] then v else PressesSpec(PressSpec(v, bs[0]), bs[1..])
  }

  /** How many of the presses reach the score: every press up to and
      including the first visual one, none once the visual flag is set. */
  function CountedPresses(bs: seq<Button>, visualClicked: bool): nat
    decreases |bs|
  {
    if bs == [] || visualClicked then 0
    else 1 + CountedPresses(bs[1..], bs[0] == VisualButton)
  }

  /** Presses change the score by the counted presses times the event's
      delta, and leave the visual flag clear only if none of them is
      visual. */
  lemma {:induction false} PressesEffect(v: Vm, bs: seq<Button>)
    requires Inv(v)
    ensures var r := PressesSpec(v, bs);
      && r.score == v.score + (if v.state.isRunning
                                 then CountedPresses(bs, v.isVisualClicked) * MatchDelta(v.events, v.nBack, v.state.eventValueIndex)
                                 else 0)
      && (!r.isVisualClicked <==> !v.isVisualClicked && VisualButton !in bs)
    decreases |bs|
  {
    if bs != [] {
      var w := PressSpec(v, bs[0]);
      PressesEffect(w, bs[1..]);
      assert bs == [bs[0]] + bs[1..];
      if v.isVisualClicked {
        assert CountedPresses(bs[1..], true) == 0;
      }
    }
  }

  /** Every audio press is counted: repeated audio presses each move the
      score. */
  lemma {:induction false} AudioPressesAllCount(bs: seq<Button>)
    requires forall i :: 0 <= i < |bs| ==> bs[i] == AudioButton
    ensures CountedPresses(bs, false) == |bs|
    decreases |bs|
  {
    if bs != [] {
      AudioPressesAllCount(bs[1..]);
    }
  }

  /** Of any number of visual presses only the first is counted. */
  lemma {:induction false} VisualPressesCountOnce(bs: seq<Button>)
    requires forall i :: 0 <= i < |bs| ==> bs[i] == VisualButton
    ensures CountedPresses(bs, false) == if bs == [] then 0 else 1
  {
    if bs != [] {
      assert CountedPresses(bs[1..], true) == 0;
    }
  }

  // ---------------------------------------------------------------------------
  // A whole game of presses

  /** The sum over the events from `from` on of the counted presses times
      each event's delta. */
  function EventsScore(events: seq<int>, nBack: int, from: int, presses: seq<seq<Button>>): int
    requires 0 <= nBack && 0 <= from && from + |presses| <= |events|
    decreases |presses|
  {
    if presses == [] then 0
    else CountedPresses(presses[0], false) * MatchDelta(events, nBack, from)
         + EventsScore(events, nBack, from + 1, presses[1..])
  }

  /** presses[k] are made while the k-th remaining event is current; then
      the loop moves on. */
  function PlaySpec(v: Vm, presses: seq<seq<Button>>): (r: Vm)
    requires Inv(v) && v.job != Blanked
    ensures Inv(r)
    decreases |presses|
  {
    if presses == [] || v.job == NoJob then v
    else PlaySpec(IterationSpec(PressesSpec(v, presses[0])), presses[1..])
  }

  /** The score of a game is the sum, over its events, of the counted presses
      of each event times that event's delta: as the flags are cleared after
      every event, each event counts its presses afresh. When presses cover
      every remaining event, the game is over and the highscore has seen
      the final score. */
  lemma {:induction false} PlayScore(v: Vm, presses: seq<seq<Button>>)
    requires Inv(v) && v.job == Shown && !v.isVisualClicked
    requires v.state.eventValueIndex + |presses| <= |v.events|
    ensures var r := PlaySpec(v, presses);
      && r.score == v.score + EventsScore(v.events, v.nBack, v.state.eventValueIndex, presses)
      && r.events == v.events && SettingsOf(r) == SettingsOf(v)
      && (v.state.eventValueIndex + |presses| == |v.events| ==>
            !r.state.isRunning && r.state.eventValueIndex == |v.events| &&
            r.highscore >= SuccessRate(r.score, r.numberOfEvents))
    decreases |presses|
  {
    if presses != [] {
      var w := PressesSpec(v, presses[0]);
      PressesEffect(v, presses[0]);
      var u := IterationSpec(w);
      if u.job == NoJob {
        assert presses[1..] == [];
        assert u.highscore >= SuccessRate(w.score, w.numberOfEvents);
      } else {
        PlayScore(u, presses[1..]);
      }
    }
  }

  /** An Audio or Visual game from Start, with presses during every event:
      its score is the sum of each event's counted presses times its delta.
      How many presses of one event count is stated by AudioPressesAllCount
      and VisualPressesCountOnce. */
  lemma GameFromStartScore(v: Vm, generated: seq<int>, presses: seq<seq<Button>>)
    requires Inv(v) && v.state.gameType != AudioVisual && |generated| > 0
    requires |presses| == |generated|
    ensures var s := StartSpec(v, generated);
      var r := PlaySpec(s, presses);
      && r.score == EventsScore(generated, v.nBack, 0, presses)
      && !r.state.isRunning
      && r.highscore >= SuccessRate(r.score, v.numberOfEvents)
  {
    PlayScore(StartSpec(v, generated), presses);
  }

  // ---------------------------------------------------------------------------
  // The screen's remembered state

  class Screen {
    var gameStr: string

    ghost predicate Valid(vm: GameVM)
      reads this, vm
    {
      && vm.Valid()
      && (gameStr == StartLabel || gameStr == ResetLabel || gameStr == StopLabel)
      && (gameStr == StartLabel ==> !vm.state.isRunning)
    }

    constructor (vm: GameVM)
      requires vm.Valid()
      ensures Valid(vm)
      ensures gameStr == if vm.state.isRunning then StopLabel else StartLabel
    {
      gameStr := if vm.state.isRunning then StopLabel else StartLabel;
    }

    /** The back / menu button is enabled only while no game runs. */
    method BackButtonEnabled(vm: GameVM) returns (enabled: bool)
      requires Valid(vm)
      ensures enabled == BackEnabled(gameStr)
      ensures enabled ==> !vm.state.isRunning
    {
      enabled := gameStr == StartLabel;
    }

    /** The start/reset button. On "Start Game" it starts a game; otherwise
        it reads the success rate (only if the game is over, and before
        stopGame zeroes the score), stops the game and shows "Start Game". */
    method OnMainButtonClick(vm: GameVM, generated: seq<int>) returns (shownRate: Option<int>)
      requires Valid(vm)
      modifies this, vm
      ensures Valid(vm)
      ensures old(gameStr) == StartLabel ==>
                vm.Snapshot() == StartSpec(old(vm.Snapshot()), generated) &&
                gameStr == ResetLabel && shownRate == None
      ensures old(gameStr) != StartLabel ==>
                vm.Snapshot() == StopSpec(old(vm.Snapshot())) && gameStr == StartLabel &&
                shownRate == (if old(vm.state.isRunning) then None
                              else Some(SuccessRate(old(vm.score), old(vm.numberOfEvents))))
    {
      if gameStr == StartLabel {
        vm.StartGame(generated);
        gameStr := ResetLabel;
        shownRate := None;
      } else {
        shownRate := None;
        if !vm.state.isRunning {
          var rate := vm.GetScore();
          shownRate := Some(rate);
        }
        vm.StopGame();
        gameStr := StartLabel;
      }
    }

    method OnMatchButtonClick(vm: GameVM, b: Button)
      requires Valid(vm) && ButtonEnabled(vm.state.gameType, b)
      modifies vm
      ensures Valid(vm)
      ensures vm.Snapshot() == PressSpec(old(vm.Snapshot()), b)
    {
      vm.CheckMatch();
      match b
      case AudioButton => vm.SetAudioClicked(true);
      case VisualButton => vm.SetVisualClicked(true);
    }

    /** The content colour of a match button, from its flag and checkGuess. */
    method MatchButtonColour(vm: GameVM, b: Button) returns (c: Colour)
      requires vm.Valid()
      ensures c == FeedbackColour(if b == AudioButton then vm.isAudioClicked else vm.isVisualClicked,
                                  Guess(vm.Snapshot()))
    {
      var guess := vm.CheckGuess();
      var clicked := if b == AudioButton then vm.isAudioClicked else vm.isVisualClicked;
      c := if clicked && guess then Green else if clicked && !guess then Red else White;
    }
  }
}
