/**
 * The front-panel buttons of src/buttons.c: five push buttons, each run by its own
 * debounce/fade state machine. A short tap toggles the light. Holding a button starts a
 * fade, which repeats every 25 ticks. Releasing and re-pressing within the repress window
 * reverses the fade direction.
 *
 * Each button is a record held in a five-element array that the firmware updates in place.
 * The one-shot timer a button owns (`app_easy_timer`) is modelled as the delay it was armed
 * with, or `None` when no timer is pending. Its expiry is the callback `TimerExpired`,
 * and a new GPIO byte from the IO expander is the parameter of `ReadButtons`.
 */
module Buttons {
  import opened Options

  datatype State =
    | Released
    | PressedDebouncing
    | Pressed
    | ReleasedDebouncing
    | RepressedDebouncing
    | WaitingForRepress

  datatype Fade = NotActive | Up | Down

  datatype Event = EvtPressed | EvtReleased | EvtTimerExpired

  /** `button_t`: `released` is the last level read for the button (true = released). */
  datatype Button = Button(index: nat, released: bool, state: State, timer: Option<nat>, fade: Fade)

  const BUTTON_COUNT: nat := 5

  // Timings, in 10 ms ticks.
  const DEBOUNCE_TICKS: nat := 1
  const KEY_DIM_START_TICKS: nat := 50
  const KEY_DIM_REPEAT_TICKS: nat := 25
  const REPRESS_TICKS: nat := 25
  /** The longer debounce `ioexp_configure` arms for a button already held at power-on. */
  const POWER_ON_DEBOUNCE_TICKS: nat := 10

  /** The state `buttons[]` starts in: released, no timer, no fade. */
  function Initial(j: nat): Button {
    Button(j, false, Released, None, NotActive)
  }

  /**
   * `change_state`: enter `s`, cancel whatever timer was pending, and arm a fresh one of
   * `delay` ticks when the delay is non-zero and the index has a callback (0..4).
   */
  function Rearm(b: Button, s: State, delay: nat): Button {
    b.(state := s, timer := if delay != 0 && b.index < BUTTON_COUNT then Some(delay) else None)
  }

  /** The fade direction after a re-press: DOWN becomes UP, anything else becomes DOWN. */
  function Reversed(f: Fade): Fade {
    if f == Down then Up else Down
  }

  /** `process_button`: the transition taken on one event. */
  function Step(b: Button, evt: Event): Button {
    match b.state
    case Released =>
      if evt == EvtPressed then Rearm(b, PressedDebouncing, DEBOUNCE_TICKS) else b
    case PressedDebouncing =>
      if evt != EvtTimerExpired then b
      else if b.released then Rearm(b, Released, 0)
      else Rearm(b, Pressed, KEY_DIM_START_TICKS)
    case ReleasedDebouncing =>
      if evt != EvtTimerExpired then b
      else if b.released then
        (if b.fade == NotActive then Rearm(b, Released, 0) else Rearm(b, WaitingForRepress, REPRESS_TICKS))
      else b.(state := Pressed)
    case RepressedDebouncing =>
      if evt != EvtTimerExpired then b
      else if b.released then Rearm(b, Released, 0)
      else Rearm(b.(fade := Reversed(b.fade)), Pressed, KEY_DIM_REPEAT_TICKS)
    case WaitingForRepress =>
      if evt == EvtTimerExpired then b.(state := Released, fade := NotActive)
      else if evt == EvtPressed then Rearm(b, RepressedDebouncing, DEBOUNCE_TICKS)
      else b
    case Pressed =>
      if evt == EvtReleased then Rearm(b, ReleasedDebouncing, DEBOUNCE_TICKS)
      else if evt == EvtTimerExpired then
        Rearm(b.(fade := if b.fade == NotActive then Down else b.fade), Pressed, KEY_DIM_REPEAT_TICKS)
      else b
  }

  /** `button_N_timer_expired`: the timer handle is cleared, then the expiry is processed. */
  function Expire(b: Button): Button {
    Step(b.(timer := None), EvtTimerExpired)
  }

  /** What `read_buttons` does to a button whose bit it dispatches: record the level, then process it. */
  function Level(b: Button, released: bool): Button {
    Step(b.(released := released), if released then EvtReleased else EvtPressed)
  }

  /**
   * What `ioexp_configure` does to a button at power-on: a released one rests, a held one
   * starts debouncing with the longer power-on delay. The recorded level is left alone.
   */
  function Configured(b: Button, released: bool): Button {
    if released then Rearm(b, Released, 0) else Rearm(b, PressedDebouncing, POWER_ON_DEBOUNCE_TICKS)
  }

  /**
   * The per-button invariant: the timer a state depends on is pending with that state's
   * delay, a released button has none, and the states that only exist while fading have
   * a direction.
   */
  predicate Good(b: Button) {
    && b.index < BUTTON_COUNT
    && (b.state == Released ==> b.timer == None)
    && (b.state == PressedDebouncing ==> b.timer in {Some(DEBOUNCE_TICKS), Some(POWER_ON_DEBOUNCE_TICKS)})
    && (b.state in {ReleasedDebouncing, RepressedDebouncing} ==> b.timer == Some(DEBOUNCE_TICKS))
    && (b.state == WaitingForRepress ==> b.timer == Some(REPRESS_TICKS))
    && (b.state == Pressed ==> b.timer in {None, Some(KEY_DIM_START_TICKS), Some(KEY_DIM_REPEAT_TICKS)})
    && (b.state in {RepressedDebouncing, WaitingForRepress} ==> b.fade != NotActive)
    && (b.state == Pressed && b.timer == Some(KEY_DIM_REPEAT_TICKS) ==> b.fade != NotActive)
  }

  // ---------------------------------------------------------------------------
  // read_buttons' bit scan, as written.

  /** The value of `changed` at iteration `i` of the scan: shifted left once per iteration. */
  function Shifted(delta: bv8, i: nat): bv8 {
    if i == 0 then delta else Shifted(delta, i - 1) << 1
  }

  /** Bit `j` of the GPIO byte: `(new_buttons >> j) & 0x01`. */
  predicate LevelBit(gpio: bv8, j: nat)
    requires j < 8
  {
    (gpio >> j) & 0x01 != 0
  }

  /** Button `j` after the scan of `changed = gpio ^ current`. */
  function Scanned(b: Button, j: nat, delta: bv8, gpio: bv8): Button
    requires j < BUTTON_COUNT
  {
    if Shifted(delta, j) & 1 != 0 then Level(b, LevelBit(gpio, j)) else b
  }

  // ---------------------------------------------------------------------------
  // The state of the module: `buttons[5]` and `current_buttons`.

  class Panel {
    const buttons: array<Button>
    var current: bv8

    predicate Valid()
      reads this, buttons
    {
      && buttons.Length == BUTTON_COUNT
      && forall j :: 0 <= j < BUTTON_COUNT ==> buttons[j].index == j && Good(buttons[j])
    }

    constructor ()
      ensures Valid()
      ensures current == 0xFF
      ensures forall j :: 0 <= j < BUTTON_COUNT ==> buttons[j] == Initial(j)
    {
      current := 0xFF;
      buttons := new Button[BUTTON_COUNT](Initial);
    }

    /** `change_state` on `buttons[i]`. */
    method ChangeState(i: nat, s: State, delay: nat)
      requires i < buttons.Length
      modifies buttons
      ensures buttons[i] == Rearm(old(buttons[i]), s, delay)
      ensures forall j :: 0 <= j < buttons.Length && j != i ==> buttons[j] == old(buttons[j])
    {
      buttons[i] := buttons[i].(state := s);
      if buttons[i].timer.Some? {
        // app_easy_timer_cancel, then the handle is invalidated.
        buttons[i] := buttons[i].(timer := None);
      }
      if delay != 0 {
        // Only indices 0..4 have a callback to arm a timer with.
        if buttons[i].index < BUTTON_COUNT {
          buttons[i] := buttons[i].(timer := Some(delay));
        }
      }
    }

    /**
     * The state-machine part of `ioexp_configure`: `current_buttons` becomes the byte read
     * from the IO expander, and each button is configured by its bit of it.
     */
    method Configure(gpio: bv8)
      requires Valid()
      modifies this, buttons
      ensures Valid()
      ensures current == gpio
      ensures forall j :: 0 <= j < BUTTON_COUNT ==> buttons[j] == Configured(old(buttons[j]), LevelBit(gpio, j))
    {
      current := gpio;
      for i := 0 to BUTTON_COUNT
        invariant current == gpio
        invariant Valid()
        invariant forall j :: 0 <= j < BUTTON_COUNT ==>
          buttons[j] == if j < i then Configured(old(buttons[j]), LevelBit(gpio, j)) else old(buttons[j])
      {
        ConfiguredGood(buttons[i], LevelBit(current, i));
        if (current >> i) & 0x01 != 0 {
          ChangeState(i, Released, 0);
        } else {
          // Already pressed.
          ChangeState(i, PressedDebouncing, POWER_ON_DEBOUNCE_TICKS);
        }
      }
    }

    /** `process_button` on `buttons[i]`. */
    method ProcessButton(i: nat, evt: Event)
      requires i < buttons.Length
      modifies buttons
      ensures buttons[i] == Step(old(buttons[i]), evt)
      ensures forall j :: 0 <= j < buttons.Length && j != i ==> buttons[j] == old(buttons[j])
    {
      match buttons[i].state
      case Released =>
        if evt == EvtPressed {
          ChangeState(i, PressedDebouncing, DEBOUNCE_TICKS);
        }
      case PressedDebouncing =>
        if evt == EvtTimerExpired {
          if buttons[i].released {
            ChangeState(i, Released, 0);
          } else {
            ChangeState(i, Pressed, KEY_DIM_START_TICKS);
          }
        }
      case ReleasedDebouncing =>
        if evt == EvtTimerExpired {
          if buttons[i].released {
            if buttons[i].fade == NotActive {
              ChangeState(i, Released, 0);
            } else {
              ChangeState(i, WaitingForRepress, REPRESS_TICKS);
            }
          } else {
            buttons[i] := buttons[i].(state := Pressed);
          }
        }
      case RepressedDebouncing =>
        if evt == EvtTimerExpired {
          if buttons[i].released {
            ChangeState(i, Released, 0);
          } else {
            buttons[i] := buttons[i].(fade := Reversed(buttons[i].fade));
            ChangeState(i, Pressed, KEY_DIM_REPEAT_TICKS);
          }
        }
      case WaitingForRepress =>
        if evt == EvtTimerExpired {
          buttons[i] := buttons[i].(state := Released, fade := NotActive);
        } else if evt == EvtPressed {
          ChangeState(i, RepressedDebouncing, DEBOUNCE_TICKS);
        }
      case Pressed =>
        if evt == EvtReleased {
          ChangeState(i, ReleasedDebouncing, DEBOUNCE_TICKS);
        } else if evt == EvtTimerExpired {
          if buttons[i].fade == NotActive {
            buttons[i] := buttons[i].(fade := Down);
          }
          ChangeState(i, Pressed, KEY_DIM_REPEAT_TICKS);
        }
    }

    /** `button_{i+1}_timer_expired`: the callback of the timer owned by `buttons[i]`. */
    method TimerExpired(i: nat)
      requires Valid() && i < BUTTON_COUNT
      modifies buttons
      ensures Valid()
      ensures buttons[i] == Expire(old(buttons[i]))
      ensures forall j :: 0 <= j < BUTTON_COUNT && j != i ==> buttons[j] == old(buttons[j])
    {
      ExpirePreservesGood(buttons[i]);
      buttons[i] := buttons[i].(timer := None);
      ProcessButton(i, EvtTimerExpired);
    }

    /** The body of `read_buttons`' loop for a dispatched bit: record bit `i` as the level of `buttons[i]` and process it. */
    method Dispatch(i: nat, gpio: bv8)
      requires Valid() && i < BUTTON_COUNT
      modifies buttons
      ensures Valid()
      ensures buttons[i] == Level(old(buttons[i]), LevelBit(gpio, i))
      ensures forall j :: 0 <= j < BUTTON_COUNT && j != i ==> buttons[j] == old(buttons[j])
    {
      var released := (gpio >> i) & 0x01;
      LevelPreservesGood(buttons[i], released != 0);
      buttons[i] := buttons[i].(released := released != 0);
      ProcessButton(i, if released != 0 then EvtReleased else EvtPressed);
    }

    /** `read_buttons`, with the byte read back from the IO expander as the parameter. */
    method ReadButtons(gpio: bv8)
      requires Valid()
      modifies this, buttons
      ensures Valid()
      ensures current == gpio
      ensures forall j :: 0 <= j < BUTTON_COUNT ==>
        buttons[j] == Scanned(old(buttons[j]), j, gpio ^ old(current), gpio)
    {
      var changed := gpio ^ current;
      if changed != 0 {
        ghost var delta := changed;
        var i := 0;
        while i < BUTTON_COUNT
          invariant 0 <= i <= BUTTON_COUNT
          invariant changed == Shifted(delta, i)
          invariant Valid()
          invariant forall j :: 0 <= j < BUTTON_COUNT ==>
            buttons[j] == if j < i then Scanned(old(buttons[j]), j, delta, gpio) else old(buttons[j])
        {
          if changed & 1 != 0 {
            Dispatch(i, gpio);
          }
          i := i + 1;
          changed := changed << 1;
        }
        current := gpio;
      } else {
        forall j | 0 <= j < BUTTON_COUNT
          ensures Scanned(buttons[j], j, changed, gpio) == buttons[j]
        {
          ShiftedZero(j);
        }
      }
    }

    /** `buttons_idle`: true exactly when every button is released; then no timer is pending. */
    method ButtonsIdle() returns (idle: bool)
      requires Valid()
      ensures idle <==> forall j :: 0 <= j < BUTTON_COUNT ==> buttons[j].state == Released
      ensures idle ==> forall j :: 0 <= j < BUTTON_COUNT ==> buttons[j].timer == None
    {
      var i := 0;
      while i < BUTTON_COUNT
        invariant 0 <= i <= BUTTON_COUNT
        invariant forall j :: 0 <= j < i ==> buttons[j].state == Released
      {
        if buttons[i].state != Released {
          return false;
        }
        i := i + 1;
      }
      return true;
    }
  }

  // ---------------------------------------------------------------------------
  // change_state.

  /** Whatever timer was pending is cancelled: the result does not depend on it. */
  lemma RearmCancels(b: Button, s: State, delay: nat, t: Option<nat>)
    ensures Rearm(b.(timer := t), s, delay) == Rearm(b, s, delay)
    ensures Rearm(b, s, delay).state == s
    ensures Rearm(b, s, delay).timer.Some? <==> delay != 0 && b.index < BUTTON_COUNT
    ensures Rearm(b, s, delay).timer.Some? ==> Rearm(b, s, delay).timer.value == delay
    ensures Rearm(b, s, delay).(state := b.state, timer := b.timer) == b
  {
  }

  /** Power-on configuration keeps the invariant and leaves released buttons at rest. */
  lemma ConfiguredGood(b: Button, released: bool)
    requires b.index < BUTTON_COUNT
    ensures Good(Configured(b, released))
    ensures released <==> Configured(b, released).state == Released
    ensures released ==> Configured(b, released).timer == None
    ensures !released ==> Configured(b, released).timer == Some(POWER_ON_DEBOUNCE_TICKS)
  {
  }

  // ---------------------------------------------------------------------------
  // process_button, state by state.

  lemma ReleasedSteps(b: Button)
    requires b.state == Released && b.index < BUTTON_COUNT
    ensures Step(b, EvtPressed) == b.(state := PressedDebouncing, timer := Some(DEBOUNCE_TICKS))
    ensures Step(b, EvtReleased) == b && Step(b, EvtTimerExpired) == b
  {
  }

  lemma PressedDebouncingSteps(b: Button)
    requires b.state == PressedDebouncing && b.index < BUTTON_COUNT
    ensures Step(b, EvtPressed) == b && Step(b, EvtReleased) == b
    ensures b.released ==> Expire(b) == b.(state := Released, timer := None)
    ensures !b.released ==> Expire(b) == b.(state := Pressed, timer := Some(KEY_DIM_START_TICKS))
  {
  }

  lemma PressedSteps(b: Button)
    requires b.state == Pressed && b.index < BUTTON_COUNT
    ensures Step(b, EvtPressed) == b
    ensures Step(b, EvtReleased) == b.(state := ReleasedDebouncing, timer := Some(DEBOUNCE_TICKS))
    ensures Expire(b).state == Pressed && Expire(b).timer == Some(KEY_DIM_REPEAT_TICKS)
    ensures Expire(b).fade == (if b.fade == NotActive then Down else b.fade)
    ensures Expire(b).released == b.released
  {
  }

  lemma ReleasedDebouncingSteps(b: Button)
    requires b.state == ReleasedDebouncing && b.index < BUTTON_COUNT
    ensures Step(b, EvtPressed) == b && Step(b, EvtReleased) == b
    ensures b.released && b.fade == NotActive ==> Expire(b) == b.(state := Released, timer := None)
    ensures b.released && b.fade != NotActive ==>
      Expire(b) == b.(state := WaitingForRepress, timer := Some(REPRESS_TICKS))
    ensures !b.released ==> Expire(b) == b.(state := Pressed, timer := None)
  {
  }

  lemma RepressSteps(b: Button)
    requires b.state in {WaitingForRepress, RepressedDebouncing} && b.index < BUTTON_COUNT
    ensures b.state == WaitingForRepress ==>
      && Expire(b) == b.(state := Released, timer := None, fade := NotActive)
      && Step(b, EvtPressed) == b.(state := RepressedDebouncing, timer := Some(DEBOUNCE_TICKS))
      && Step(b, EvtReleased) == b
    ensures b.state == RepressedDebouncing ==>
      && Step(b, EvtPressed) == b && Step(b, EvtReleased) == b
      && (b.released ==> Expire(b) == b.(state := Released, timer := None))
      && (!b.released ==>
           Expire(b) == b.(state := Pressed, timer := Some(KEY_DIM_REPEAT_TICKS), fade := Reversed(b.fade)))
  {
  }

  /** While fading, a re-press swaps DOWN and UP, and doing it twice restores the direction. */
  lemma ReversedSwaps(f: Fade)
    requires f != NotActive
    ensures Reversed(f) != NotActive && Reversed(f) != f && Reversed(Reversed(f)) == f
  {
  }

  /** Press and release events never change the fade direction; only timer expiries do. */
  lemma FadeOnlyOnExpiry(b: Button, r: bool)
    ensures Level(b, r).fade == b.fade
  {
  }

  // ---------------------------------------------------------------------------
  // The invariant.

  lemma InitialGood(j: nat)
    requires j < BUTTON_COUNT
    ensures Good(Initial(j))
  {
  }

  lemma LevelPreservesGood(b: Button, r: bool)
    requires Good(b)
    ensures Good(b.(released := r))
    ensures Good(Level(b, r))
  {
  }

  lemma ExpirePreservesGood(b: Button)
    requires Good(b)
    ensures Good(Expire(b))
  {
  }

  // ---------------------------------------------------------------------------
  // The scan in read_buttons.

  lemma {:induction false} ShiftedZero(i: nat)
    ensures Shifted(0, i) == 0
  {
    if i > 0 {
      ShiftedZero(i - 1);
    }
  }

  /** After the first iteration bit 0 of `changed` is always clear. */
  lemma ShiftedLowBit(delta: bv8, i: nat)
    requires i >= 1
    ensures Shifted(delta, i) & 1 == 0
  {
    assert Shifted(delta, i) == Shifted(delta, i - 1) << 1;
  }

  /**
   * As written, the scan tests bit 0 of a left-shifted `changed`, so only button 0 is ever
   * dispatched, and only when bit 0 of the byte changed; buttons 1..4 never see an event here.
   */
  lemma ScanReachesOnlyFirst(b: Button, j: nat, delta: bv8, gpio: bv8)
    requires j < BUTTON_COUNT
    ensures j >= 1 ==> Scanned(b, j, delta, gpio) == b
    ensures j == 0 ==> Scanned(b, j, delta, gpio) == if delta & 1 != 0 then Level(b, gpio & 1 != 0) else b
  {
    if j >= 1 {
      ShiftedLowBit(delta, j);
    }
  }

  // ---------------------------------------------------------------------------
  // Gestures: sequences of inputs of one button.

  datatype Input = Gpio(released: bool) | Tick

  function Apply(b: Button, x: Input): Button {
    match x
    case Gpio(r) => Level(b, r)
    case Tick => Expire(b)
  }

  function Run(b: Button, xs: seq<Input>): Button
    decreases |xs|
  {
    if xs == [] then b else Run(Apply(b, xs[0]), xs[1..])
  }

  lemma {:induction false} RunAppend(b: Button, xs: seq<Input>, ys: seq<Input>)
    ensures Run(b, xs + ys) == Run(Run(b, xs), ys)
    decreases |xs|
  {
    if xs != [] {
      assert xs + ys != [];
      assert (xs + ys)[0] == xs[0];
      assert (xs + ys)[1..] == xs[1..] + ys;
      RunAppend(Apply(b, xs[0]), xs[1..], ys);
    } else {
      assert xs + ys == ys;
    }
  }

  lemma {:induction false} RunPreservesGood(b: Button, xs: seq<Input>)
    requires Good(b)
    ensures Good(Run(b, xs))
    decreases |xs|
  {
    if xs != [] {
      match xs[0] {
        case Gpio(r) => LevelPreservesGood(b, r);
        case Tick => ExpirePreservesGood(b);
      }
      RunPreservesGood(Apply(b, xs[0]), xs[1..]);
    }
  }

  const TAP: seq<Input> := [Gpio(false), Tick, Gpio(true), Tick]

  /** A tap from rest toggles the light: the button comes back to rest with no fade. */
  lemma TapToggles(b: Button)
    requires Good(b) && b.state == Released && b.fade == NotActive
    ensures Run(b, TAP) == b.(released := true)
  {
    var b1 := Apply(b, Gpio(false));
    var b2 := Apply(b1, Tick);
    var b3 := Apply(b2, Gpio(true));
    assert b1 == b.(released := false, state := PressedDebouncing, timer := Some(DEBOUNCE_TICKS));
    assert b2 == b1.(state := Pressed, timer := Some(KEY_DIM_START_TICKS));
    assert b3 == b2.(released := true, state := ReleasedDebouncing, timer := Some(DEBOUNCE_TICKS));
    assert TAP[1..][1..][1..][1..] == [];
    assert Run(b, TAP) == Run(b3, [Tick]);
  }

  /** Holding a button from rest past the start delay begins fading down, repeating every 25 ticks. */
  lemma HoldStartsFadingDown(b: Button)
    requires b.state == Released && b.fade == NotActive && b.index < BUTTON_COUNT
    ensures Run(b, [Gpio(false), Tick, Tick]) ==
      b.(released := false, state := Pressed, timer := Some(KEY_DIM_REPEAT_TICKS), fade := Down)
  {
    var b1 := Apply(b, Gpio(false));
    var b2 := Apply(b1, Tick);
    assert b2 == b.(released := false, state := Pressed, timer := Some(KEY_DIM_START_TICKS));
    var xs := [Gpio(false), Tick, Tick];
    assert xs[1..][1..][1..] == [];
    assert Run(b, xs) == Run(b2, [Tick]);
  }

  /**
   * A button held at power-on: kept held, the power-on debounce and the dim delay lead to a
   * downward fade; let go before the debounce ends, it comes to rest.
   */
  lemma HeldAtPowerOn(j: nat)
    requires j < BUTTON_COUNT
    ensures Run(Configured(Initial(j), false), [Tick, Tick]) ==
      Initial(j).(state := Pressed, timer := Some(KEY_DIM_REPEAT_TICKS), fade := Down)
    ensures Run(Configured(Initial(j), false), [Gpio(true), Tick]) == Initial(j).(released := true)
  {
    var b := Configured(Initial(j), false);
    var b1 := Apply(b, Tick);
    assert b1 == Initial(j).(state := Pressed, timer := Some(KEY_DIM_START_TICKS));
    assert [Tick, Tick][1..][1..] == [];
    assert Run(b, [Tick, Tick]) == Run(b1, [Tick]);
    var c1 := Apply(b, Gpio(true));
    assert c1 == b.(released := true);
    assert [Gpio(true), Tick][1..][1..] == [];
    assert Run(b, [Gpio(true), Tick]) == Run(c1, [Tick]);
  }

  /** Releasing while fading and pressing again within the repress window reverses the fade. */
  lemma RepressReverses(b: Button)
    requires b.state == Pressed && b.fade != NotActive && b.index < BUTTON_COUNT
    ensures Run(b, [Gpio(true), Tick, Gpio(false), Tick]) ==
      b.(released := false, timer := Some(KEY_DIM_REPEAT_TICKS), fade := Reversed(b.fade))
  {
    var b1 := Apply(b, Gpio(true));
    var b2 := Apply(b1, Tick);
    var b3 := Apply(b2, Gpio(false));
    assert b2 == b.(released := true, state := WaitingForRepress, timer := Some(REPRESS_TICKS));
    assert b3 == b.(released := false, state := RepressedDebouncing, timer := Some(DEBOUNCE_TICKS));
    var xs := [Gpio(true), Tick, Gpio(false), Tick];
    assert xs[1..][1..][1..][1..] == [];
    assert Run(b, xs) == Run(b3, [Tick]);
  }

  /**
   * A bounce during the repress window bails out to RELEASED with the fade direction still
   * set (the reset to FADE_NOT_ACTIVE happens only when the window expires). The next tap
   * then does not toggle the light: it opens a new repress window instead.
   */
  lemma BailOutKeepsFade(b: Button)
    requires b.state == WaitingForRepress && b.fade != NotActive && b.index < BUTTON_COUNT
    ensures Run(b, [Gpio(false), Gpio(true), Tick]) == b.(released := true, state := Released, timer := None)
    ensures Run(b, [Gpio(false), Gpio(true), Tick] + TAP) ==
      b.(released := true, state := WaitingForRepress, timer := Some(REPRESS_TICKS))
  {
    var xs := [Gpio(false), Gpio(true), Tick];
    var b1 := Apply(b, Gpio(false));
    var b2 := Apply(b1, Gpio(true));
    assert b2 == b.(released := true, state := RepressedDebouncing, timer := Some(DEBOUNCE_TICKS));
    assert xs[1..][1..][1..] == [];
    assert Run(b, xs) == Run(b2, [Tick]);
    var r := Run(b, xs);
    RunAppend(b, xs, TAP);
    var c1 := Apply(r, Gpio(false));
    var c2 := Apply(c1, Tick);
    var c3 := Apply(c2, Gpio(true));
    assert c2 == b.(released := false, state := Pressed, timer := Some(KEY_DIM_START_TICKS));
    assert c3 == b.(released := true, state := ReleasedDebouncing, timer := Some(DEBOUNCE_TICKS));
    assert TAP[1..][1..][1..][1..] == [];
    assert Run(r, TAP) == Run(c3, [Tick]);
  }

  /**
   * A bounce while the release is being debounced puts the button back in PRESSED with no
   * timer armed, so no fade step follows while it is held: further press levels change nothing.
   */
  lemma ReleaseBounceStopsRepeat(b: Button)
    requires b.state == Pressed && b.index < BUTTON_COUNT
    ensures Run(b, [Gpio(true), Gpio(false), Tick]) == b.(released := false, state := Pressed, timer := None)
    ensures Level(Run(b, [Gpio(true), Gpio(false), Tick]), false) == Run(b, [Gpio(true), Gpio(false), Tick])
  {
    var xs := [Gpio(true), Gpio(false), Tick];
    var b1 := Apply(b, Gpio(true));
    var b2 := Apply(b1, Gpio(false));
    assert b2 == b.(released := false, state := ReleasedDebouncing, timer := Some(DEBOUNCE_TICKS));
    assert xs[1..][1..][1..] == [];
    assert Run(b, xs) == Run(b2, [Tick]);
  }
}
