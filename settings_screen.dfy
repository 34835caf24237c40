/** The settings editor: the option values each row offers, the guard that
    decides whether a clicked option reaches the view-model, and when Save
    resets the highscore.

    The guards keep two relations between the settings: n-back stays below
    the number of events, and the blink duration never exceeds the event
    interval. */
module SettingsScreen {
  import opened ViewModel

  // ---------------------------------------------------------------------------
  // Option values of the rows

  const NBackItemCount := 50
  const GridItemCount := 4
  const EventCountItemCount := 99
  const IntervalItemCount := 17
  const BlinkItemCount := 10
  const SmallBoxItemCount := 2

  /** The n-back row: startIndex 1 plus the item index. */
  function NBackOption(index: int): (value: int)
    requires 0 <= index < NBackItemCount
    ensures 1 <= value <= 50 && value - 1 == index
  {
    1 + index
  }

  /** The grid row: startIndex 2 plus the item index. */
  function GridOption(index: int): (value: int)
    requires 0 <= index < GridItemCount
    ensures 2 <= value <= 5 && GridTypeOf(value).Size() == value
  {
    2 + index
  }

  /** The number-of-events row: startIndex 2 plus the item index. */
  function EventCountOption(index: int): (value: int)
    requires 0 <= index < EventCountItemCount
    ensures 2 <= value <= 100 && value - 2 == index
  {
    2 + index
  }

  /** The event-interval row, (2 + index * 0.5) * 500 ms, counted here in
      half units so that the value is exact. */
  function EventIntervalOption(index: int): (value: int)
    requires 0 <= index < IntervalItemCount
    ensures value == 1000 + 250 * index
    ensures 1000 <= value <= 5000 && value % 250 == 0
  {
    (2 * 2 + index) * 500 / 2
  }

  /** The blink-duration row, (0.5 + index * 0.5) * 500 ms, in half units. */
  function BlinkOption(index: int): (value: int)
    requires 0 <= index < BlinkItemCount
    ensures value == 250 + 250 * index
    ensures 250 <= value <= 2500 && value % 250 == 0
  {
    (1 + index) * 500 / 2
  }

  /** The small-boxes row: the item index itself, shown through IntToBoolean. */
  function SmallBoxOption(index: int): (value: int)
    requires 0 <= index < SmallBoxItemCount
  {
    index
  }

  function IntToBoolean(value: int): bool {
    value != 0
  }

  /** The two small-box options are false and true, in that order. */
  lemma SmallBoxOptionsAreBothBooleans()
    ensures !IntToBoolean(SmallBoxOption(0)) && IntToBoolean(SmallBoxOption(1))
  {
  }

  /** Every row lists its options in strictly increasing order, so no value
      is offered twice. */
  lemma OptionsIncrease(i: int, j: int)
    requires 0 <= i < j
    ensures j < NBackItemCount ==> NBackOption(i) < NBackOption(j)
    ensures j < GridItemCount ==> GridOption(i) < GridOption(j)
    ensures j < EventCountItemCount ==> EventCountOption(i) < EventCountOption(j)
    ensures j < IntervalItemCount ==> EventIntervalOption(i) < EventIntervalOption(j)
    ensures j < BlinkItemCount ==> BlinkOption(i) < BlinkOption(j)
  {
  }

  // ---------------------------------------------------------------------------
  // Choices and their guards

  /** A click on one option box, or on the Default button. */
  datatype Choice =
    | PickNBack(index: int)
    | PickGridType(index: int)
    | PickNumberOfEvents(index: int)
    | PickEventInterval(index: int)
    | PickBlinkDuration(index: int)
    | PickSmallBoxes(index: int)
    | RestoreDefaults

  /** Only boxes that the rows render can be clicked. */
  predicate Offered(c: Choice) {
    match c
    case PickNBack(i) => 0 <= i < NBackItemCount
    case PickGridType(i) => 0 <= i < GridItemCount
    case PickNumberOfEvents(i) => 0 <= i < EventCountItemCount
    case PickEventInterval(i) => 0 <= i < IntervalItemCount
    case PickBlinkDuration(i) => 0 <= i < BlinkItemCount
    case PickSmallBoxes(i) => 0 <= i < SmallBoxItemCount
    case RestoreDefaults => true
  }

  predicate Consistent(s: Settings) {
    s.nBack < s.numberOfEvents && s.blinkDuration <= s.eventInterval
  }

  /** The view-model's initial settings (n-back 1, 10 events, a 1000 ms
      blink in a 2000 ms interval) already satisfy both relations. */
  lemma InitialSettingsConsistent()
    ensures Consistent(SettingsOf(InitialVm))
  {
  }

  /** The guard of each click handler; a rejected choice only shows a
      snackbar. */
  predicate Accepts(s: Settings, c: Choice)
    requires Offered(c)
  {
    match c
    case PickNBack(i) => NBackOption(i) < s.numberOfEvents
    case PickNumberOfEvents(i) => EventCountOption(i) > s.nBack
    case PickEventInterval(i) => EventIntervalOption(i) >= s.blinkDuration
    case PickBlinkDuration(i) => BlinkOption(i) <= s.eventInterval
    case PickGridType(_) => true
    case PickSmallBoxes(_) => true
    case RestoreDefaults => true
  }

  /** Whether handling the choice sets isSettingsChanged. */
  predicate Marks(s: Settings, c: Choice)
    requires Offered(c)
  {
    Accepts(s, c) && !c.PickSmallBoxes?
  }

  /** The Default button: n-back 2, a 3x3 grid, 10 events, a 2000 ms
      interval and a 1000 ms blink. */
  function DefaultSettings(s: Settings): (r: Settings)
    ensures Consistent(r) && r.smallBoxes == s.smallBoxes
    ensures r.gridType.Size() == 3
  {
    s.(nBack := 2, gridType := GridTypeOf(3), numberOfEvents := 10,
       eventInterval := 2000, blinkDuration := 1000)
  }

  /** The settings after a click. */
  function Apply(s: Settings, c: Choice): (r: Settings)
    requires Offered(c)
    ensures Consistent(s) ==> Consistent(r)
    ensures !Accepts(s, c) ==> r == s
    ensures c.PickSmallBoxes? ==> r == s.(smallBoxes := IntToBoolean(c.index))
  {
    if !Accepts(s, c) then s
    else
      match c
      case PickNBack(i) => s.(nBack := NBackOption(i))
      case PickGridType(i) => s.(gridType := GridTypeOf(GridOption(i)))
      case PickNumberOfEvents(i) => s.(numberOfEvents := EventCountOption(i))
      case PickEventInterval(i) => s.(eventInterval := EventIntervalOption(i))
      case PickBlinkDuration(i) => s.(blinkDuration := BlinkOption(i))
      case PickSmallBoxes(i) => s.(smallBoxes := IntToBoolean(SmallBoxOption(i)))
      case RestoreDefaults => DefaultSettings(s)
  }

  /** Each value guard accepts exactly the values that keep the relation it
      guards, measured against the current settings. */
  lemma GuardsAreExact(s: Settings, c: Choice)
    requires Offered(c)
    ensures c.PickNBack? ==> (Accepts(s, c) <==> Apply(s, c).nBack == NBackOption(c.index) < s.numberOfEvents)
    ensures c.PickNumberOfEvents? ==>
              (Accepts(s, c) <==> s.nBack < EventCountOption(c.index) == Apply(s, c).numberOfEvents)
    ensures c.PickEventInterval? ==>
              (Accepts(s, c) <==> s.blinkDuration <= EventIntervalOption(c.index) == Apply(s, c).eventInterval)
    ensures c.PickBlinkDuration? ==>
              (Accepts(s, c) <==> Apply(s, c).blinkDuration == BlinkOption(c.index) <= s.eventInterval)
  {
  }

  /** A rejected choice changes nothing and does not mark the settings as
      changed; a small-box choice never marks them. */
  lemma RejectedChoiceIsInert(s: Settings, c: Choice)
    requires Offered(c)
    ensures !Accepts(s, c) ==> Apply(s, c) == s && !Marks(s, c)
    ensures c.PickSmallBoxes? ==> !Marks(s, c)
  {
  }

  // ---------------------------------------------------------------------------
  // A whole visit of the settings screen

  predicate AllOffered(cs: seq<Choice>) {
    forall i :: 0 <= i < |cs| ==> Offered(cs[i])
  }

  /** The settings after a sequence of clicks. */
  function ApplyAll(s: Settings, cs: seq<Choice>): Settings
    requires AllOffered(cs)
  {
    if cs == [] then s
    else Apply(ApplyAll(s, cs[..|cs| - 1]), cs[|cs| - 1])
  }

  /** Whether some click of the sequence set isSettingsChanged. */
  predicate MarksAny(s: Settings, cs: seq<Choice>)
    requires AllOffered(cs)
  {
    if cs == [] then false
    else MarksAny(s, cs[..|cs| - 1]) || Marks(ApplyAll(s, cs[..|cs| - 1]), cs[|cs| - 1])
  }

  lemma ApplyAllAppend(s: Settings, cs: seq<Choice>, c: Choice)
    requires AllOffered(cs) && Offered(c)
    ensures AllOffered(cs + [c])
    ensures ApplyAll(s, cs + [c]) == Apply(ApplyAll(s, cs), c)
    ensures MarksAny(s, cs + [c]) == (MarksAny(s, cs) || Marks(ApplyAll(s, cs), c))
  {
    assert (cs + [c])[..|cs|] == cs;
  }

  /** No sequence of clicks breaks the two relations. */
  lemma {:induction false} ApplyAllConsistent(s: Settings, cs: seq<Choice>)
    requires AllOffered(cs) && Consistent(s)
    ensures Consistent(ApplyAll(s, cs))
  {
    if cs != [] {
      ApplyAllConsistent(s, cs[..|cs| - 1]);
    }
  }

  /** A click that marks the settings as changed leaves the flag set. */
  lemma {:induction false} MarkedClickSetsFlag(s: Settings, cs: seq<Choice>, i: int)
    requires AllOffered(cs) && 0 <= i < |cs|
    requires Marks(ApplyAll(s, cs[..i]), cs[i])
    ensures MarksAny(s, cs)
  {
    var n := |cs| - 1;
    var init := cs[..n];
    if i < n {
      assert init[..i] == cs[..i];
      assert init[i] == cs[i];
      MarkedClickSetsFlag(s, init, i);
    }
  }

  /** A set flag goes back to some click that marked the settings. */
  lemma {:induction false} FlagHasMarkedClick(s: Settings, cs: seq<Choice>) returns (i: int)
    requires AllOffered(cs) && MarksAny(s, cs)
    ensures 0 <= i < |cs| && Marks(ApplyAll(s, cs[..i]), cs[i])
  {
    var n := |cs| - 1;
    var init := cs[..n];
    if MarksAny(s, init) {
      i := FlagHasMarkedClick(s, init);
      assert init[..i] == cs[..i];
      assert init[i] == cs[i];
    } else {
      i := n;
    }
  }

  /** isSettingsChanged is set after a sequence of clicks exactly when one of
      them was an accepted value, a grid choice or Default. */
  lemma MarksAnyExactly(s: Settings, cs: seq<Choice>)
    requires AllOffered(cs)
    ensures MarksAny(s, cs) <==>
              exists i :: 0 <= i < |cs| && Marks(ApplyAll(s, cs[..i]), cs[i])
  {
    if MarksAny(s, cs) {
      var i := FlagHasMarkedClick(s, cs);
    }
    if exists i :: 0 <= i < |cs| && Marks(ApplyAll(s, cs[..i]), cs[i]) {
      var i :| 0 <= i < |cs| && Marks(ApplyAll(s, cs[..i]), cs[i]);
      MarkedClickSetsFlag(s, cs, i);
    }
  }

  /** The highscore a Save leaves after a visit that started from `start`
      with no change marked and took the clicks `cs`: 0 when some click of
      the visit was an accepted value, a grid click or Default, and the old
      highscore otherwise. */
  function SavedHighscore(v: Vm, start: Settings, cs: seq<Choice>): (h: int)
    requires AllOffered(cs)
    ensures h == if exists i :: 0 <= i < |cs| && Marks(ApplyAll(start, cs[..i]), cs[i]) then 0 else v.highscore
  {
    MarksAnyExactly(start, cs);
    if MarksAny(start, cs) then ResetHighscoreSpec(v).highscore else v.highscore
  }

  // ---------------------------------------------------------------------------
  // The screen's remembered state

  class Editor {
    var isSettingsChanged: bool
    /** The settings when the screen was opened, and the clicks since. */
    ghost var start: Settings
    ghost var choices: seq<Choice>

    ghost predicate Valid(vm: GameVM)
      reads this, vm
    {
      && vm.Valid()
      && AllOffered(choices)
      && SettingsOf(vm.Snapshot()) == ApplyAll(start, choices)
      && isSettingsChanged == MarksAny(start, choices)
      && (Consistent(start) ==> Consistent(SettingsOf(vm.Snapshot())))
    }

    /** The effect of one click: the view-model's settings move to Apply of
        the old ones and nothing else of it changes; the flag picks up Marks. */
    twostate predicate Took(vm: GameVM, c: Choice)
      reads this, vm
      requires Offered(c)
    {
      && vm.Snapshot() == WithSettings(old(vm.Snapshot()), Apply(SettingsOf(old(vm.Snapshot())), c))
      && isSettingsChanged == (old(isSettingsChanged) || Marks(SettingsOf(old(vm.Snapshot())), c))
      && start == old(start) && choices == old(choices) + [c]
    }

    constructor (vm: GameVM)
      requires vm.Valid()
      ensures Valid(vm) && !isSettingsChanged
      ensures start == SettingsOf(vm.Snapshot()) && choices == []
    {
      isSettingsChanged := false;
      start := SettingsOf(vm.Snapshot());
      choices := [];
    }

    /** Records a handled click in the ghost history. */
    ghost method Record(vm: GameVM, c: Choice)
      requires Offered(c) && AllOffered(choices)
      requires SettingsOf(vm.Snapshot()) == Apply(ApplyAll(start, choices), c)
      requires isSettingsChanged == (MarksAny(start, choices) || Marks(ApplyAll(start, choices), c))
      requires vm.Valid()
      modifies this`choices
      ensures Valid(vm) && choices == old(choices) + [c]
    {
      ApplyAllAppend(start, choices, c);
      choices := choices + [c];
      if Consistent(start) {
        ApplyAllConsistent(start, choices);
      }
    }

    method OnNBackClick(vm: GameVM, index: int) returns (accepted: bool)
      requires Valid(vm) && 0 <= index < NBackItemCount
      modifies this, vm
      ensures Valid(vm) && Took(vm, PickNBack(index))
      ensures accepted == Accepts(SettingsOf(old(vm.Snapshot())), PickNBack(index))
    {
      var value := NBackOption(index);
      if value >= vm.numberOfEvents {
        accepted := false;
      } else {
        vm.SetNBackValue(value);
        isSettingsChanged := true;
        accepted := true;
      }
      Record(vm, PickNBack(index));
    }

    method OnGridTypeClick(vm: GameVM, index: int)
      requires Valid(vm) && 0 <= index < GridItemCount
      modifies this, vm
      ensures Valid(vm) && Took(vm, PickGridType(index))
    {
      vm.SetGridType(GridOption(index));
      isSettingsChanged := true;
      Record(vm, PickGridType(index));
    }

    method OnNumberOfEventsClick(vm: GameVM, index: int) returns (accepted: bool)
      requires Valid(vm) && 0 <= index < EventCountItemCount
      modifies this, vm
      ensures Valid(vm) && Took(vm, PickNumberOfEvents(index))
      ensures accepted == Accepts(SettingsOf(old(vm.Snapshot())), PickNumberOfEvents(index))
    {
      var value := EventCountOption(index);
      if value <= vm.nBack {
        accepted := false;
      } else {
        vm.SetNumOfEvents(value);
        isSettingsChanged := true;
        accepted := true;
      }
      Record(vm, PickNumberOfEvents(index));
    }

    method OnEventIntervalClick(vm: GameVM, index: int) returns (accepted: bool)
      requires Valid(vm) && 0 <= index < IntervalItemCount
      modifies this, vm
      ensures Valid(vm) && Took(vm, PickEventInterval(index))
      ensures accepted == Accepts(SettingsOf(old(vm.Snapshot())), PickEventInterval(index))
    {
      var value := EventIntervalOption(index);
      if value < vm.blinkDuration {
        accepted := false;
      } else {
        vm.SetEventInterval(value);
        isSettingsChanged := true;
        accepted := true;
      }
      Record(vm, PickEventInterval(index));
    }

    method OnBlinkDurationClick(vm: GameVM, index: int) returns (accepted: bool)
      requires Valid(vm) && 0 <= index < BlinkItemCount
      modifies this, vm
      ensures Valid(vm) && Took(vm, PickBlinkDuration(index))
      ensures accepted == Accepts(SettingsOf(old(vm.Snapshot())), PickBlinkDuration(index))
    {
      var value := BlinkOption(index);
      if value > vm.eventInterval {
        accepted := false;
      } else {
        vm.SetBlinkDuration(value);
        isSettingsChanged := true;
        accepted := true;
      }
      Record(vm, PickBlinkDuration(index));
    }

    method OnSmallBoxesClick(vm: GameVM, index: int)
      requires Valid(vm) && 0 <= index < SmallBoxItemCount
      modifies this, vm
      ensures Valid(vm) && Took(vm, PickSmallBoxes(index))
    {
      vm.SetSmallBoxes(IntToBoolean(SmallBoxOption(index)));
      Record(vm, PickSmallBoxes(index));
    }

    method OnDefaultClick(vm: GameVM)
      requires Valid(vm)
      modifies this, vm
      ensures Valid(vm) && Took(vm, RestoreDefaults)
    {
      vm.SetNBackValue(2);
      vm.SetGridType(3);
      vm.SetNumOfEvents(10);
      vm.SetEventInterval(2000);
      vm.SetBlinkDuration(1000);
      isSettingsChanged := true;
      Record(vm, RestoreDefaults);
    }

    /** Save: the preferences are handed to storage (not modelled here) and
        the highscore is reset when the visit marked a change. */
    method OnSaveClick(vm: GameVM)
      requires Valid(vm)
      modifies vm
      ensures Valid(vm)
      ensures vm.Snapshot() == old(vm.Snapshot()).(highscore := SavedHighscore(old(vm.Snapshot()), start, choices))
    {
      if isSettingsChanged {
        vm.ResetHighscore();
      }
    }
  }
}
