/** FanBA8206: the fan component with its LED counters, stored state, entity
    fields, button queue and processing flag. The host's callbacks are steps:
    Loop (the periodic loop()), Control (a fan call), PressTimer (the
    set-timer button), and FireRelease / FirePress (the "button_off" and
    "button_on" timeouts firing 50 ms after they were set). Every step that
    reads the clock or the bus gets their values as an Env. */
module Fan {
  import opened Panel
  import opened Matrix
  import opened Sampling
  import opened Commands
  import opened Sequencing

  class FanBA8206 {
    const interval: int
    const independentOnOff: bool
    const ledOnCounts: array2<int>

    var lastRun: int
    var sampleStep: int
    var fanState: FanState

    // The fan entity's public fields.
    var state: bool
    var speed: int
    var oscillating: bool
    var presetMode: string

    /** Publishes and timer texts, in the order they were sent. */
    var events: seq<Event>

    var buttonQueue: seq<ButtonBit>
    var processing: bool
    /** A "button_off" timeout is pending. */
    var releaseDue: bool
    /** A "button_on" timeout is pending. */
    var pressDue: bool
    /** Every write_gpio transaction, in order. */
    var writes: seq<BusWrite>

    function Counts(): (g: seq<seq<int>>)
      reads this, ledOnCounts
      requires ledOnCounts.Length0 == ROWS && ledOnCounts.Length1 == COLS
      ensures IsGrid(g)
      ensures forall r, c :: 0 <= r < ROWS && 0 <= c < COLS ==> g[r][c] == ledOnCounts[r, c]
    {
      var a := ledOnCounts;
      [[a[0, 0], a[0, 1], a[0, 2]],
       [a[1, 0], a[1, 1], a[1, 2]],
       [a[2, 0], a[2, 1], a[2, 2]],
       [a[3, 0], a[3, 1], a[3, 2]]]
    }

    function EntityView(): Entity
      reads this
    {
      Entity(state, speed, oscillating, presetMode)
    }

    function SamplerView(): Sampler
      reads this, ledOnCounts
      requires ledOnCounts.Length0 == ROWS && ledOnCounts.Length1 == COLS
    {
      Sampler(Counts(), sampleStep, lastRun, fanState, EntityView(), events)
    }

    function SequencerView(): Sequencer
      reads this
    {
      Sequencer(buttonQueue, processing, releaseDue, pressDue, writes)
    }

    /** The decoder invariant. */
    ghost predicate SamplerValid()
      reads this, ledOnCounts
    {
      ledOnCounts.Length0 == ROWS && ledOnCounts.Length1 == COLS && Consistent(SamplerView())
    }

    /** The decoder invariant and the sequencer invariant. */
    ghost predicate Valid()
      reads this, ledOnCounts
    {
      SamplerValid() && SequencerInv(SequencerView())
    }

    /** Construction followed by setup: counters zero, every stored field at
        its sentinel, the timer text sensor showing "---". */
    constructor (interval: int, independentOnOff: bool, now: nat)
      ensures Valid() && fresh(ledOnCounts)
      ensures this.interval == interval && this.independentOnOff == independentOnOff
      ensures SamplerView() == Initial(now, Entity(false, 0, false, ""))
      ensures SequencerView() == Sequencer([], false, false, false, [])
    {
      this.interval := interval;
      this.independentOnOff := independentOnOff;
      ledOnCounts := new int[ROWS, COLS]((r, c) => 0);
      sampleStep := 0;
      state, speed, oscillating, presetMode := false, 0, false, "";
      buttonQueue, processing, releaseDue, pressDue, writes := [], false, false, false, [];
      lastRun := now;
      fanState := Sentinel;
      events := [TimerText(TimerStr[0])];
      new;
      GridExt(Counts(), ZeroCounts);
    }

    /** The counting half of update_state for one successful read: every
        cell the sample lights gains one count, every other cell keeps its own. */
    method AccumulateSample(data: bv8)
      requires ledOnCounts.Length0 == ROWS && ledOnCounts.Length1 == COLS
      modifies ledOnCounts
      ensures forall i, j :: 0 <= i < ROWS && 0 <= j < COLS ==>
        ledOnCounts[i, j] == old(ledOnCounts[i, j]) + (if CellLit(data, i, j) then 1 else 0)
    {
      var ledStatus := LedStatus(data);
      for r := 0 to ROWS
        invariant forall i, j :: 0 <= i < r && 0 <= j < COLS ==>
          ledOnCounts[i, j] == old(ledOnCounts[i, j]) + (if CellLit(data, i, j) then 1 else 0)
        invariant forall i, j :: r <= i < ROWS && 0 <= j < COLS ==> ledOnCounts[i, j] == old(ledOnCounts[i, j])
      {
        if RowAsserted(ledStatus, r) {
          for c := 0 to COLS
            invariant forall i, j :: 0 <= i < r && 0 <= j < COLS ==>
              ledOnCounts[i, j] == old(ledOnCounts[i, j]) + (if CellLit(data, i, j) then 1 else 0)
            invariant forall j :: 0 <= j < c ==>
              ledOnCounts[r, j] == old(ledOnCounts[r, j]) + (if CellLit(data, r, j) then 1 else 0)
            invariant forall i, j :: (r < i < ROWS || (i == r && c <= j)) && 0 <= j < COLS ==>
              ledOnCounts[i, j] == old(ledOnCounts[i, j])
          {
            if ColumnLow(ledStatus, c) {
              ledOnCounts[r, c] := ledOnCounts[r, c] + 1;
            }
          }
        }
      }
    }

    /** The threshold-and-clear loop of update_state: each cell's lit flag is
        its count over the threshold, and the count restarts at zero. */
    method ThresholdAndClear() returns (ledState: array2<bool>)
      requires ledOnCounts.Length0 == ROWS && ledOnCounts.Length1 == COLS
      modifies ledOnCounts
      ensures fresh(ledState) && ledState.Length0 == ROWS && ledState.Length1 == COLS
      ensures forall i, j :: 0 <= i < ROWS && 0 <= j < COLS ==>
        ledState[i, j] == Lit(old(ledOnCounts[i, j])) && ledOnCounts[i, j] == 0
    {
      ledState := new bool[ROWS, COLS];
      for r := 0 to ROWS
        invariant forall i, j :: 0 <= i < ROWS && 0 <= j < COLS ==>
          if i < r then ledState[i, j] == Lit(old(ledOnCounts[i, j])) && ledOnCounts[i, j] == 0
          else ledOnCounts[i, j] == old(ledOnCounts[i, j])
      {
        for c := 0 to COLS
          invariant forall i, j :: 0 <= i < ROWS && 0 <= j < COLS ==>
            if i < r || (i == r && j < c) then ledState[i, j] == Lit(old(ledOnCounts[i, j])) && ledOnCounts[i, j] == 0
            else ledOnCounts[i, j] == old(ledOnCounts[i, j])
        {
          ledState[r, c] := Lit(ledOnCounts[r, c]);
          ledOnCounts[r, c] := 0;
        }
      }
    }

    /** The speed comparison of update_state: a new speed is stored and
        mirrored (Off turns the entity off, any other speed turns it on at
        that speed). */
    method StoreSpeed(newSpeed: FanSpeed) returns (changed: bool)
      requires newSpeed != SpeedInvalid
      modifies this
      ensures changed == (old(fanState).speed != newSpeed) && fanState == old(fanState).(speed := newSpeed)
      ensures EntityView() ==
        if !changed then old(EntityView())
        else if newSpeed == SpeedOff then old(EntityView()).(state := false)
        else old(EntityView()).(state := true, speed := newSpeed.Code())
      ensures events == old(events) && lastRun == old(lastRun) && sampleStep == old(sampleStep)
      ensures SequencerView() == old(SequencerView())
    {
      changed := fanState.speed != newSpeed;
      if changed {
        fanState := fanState.(speed := newSpeed);
        if newSpeed == SpeedOff {
          state := false;
        } else {
          state := true;
          speed := newSpeed.Code();
        }
      }
    }

    /** The oscillation comparison of update_state. */
    method StoreOscillation(osc: Oscillation) returns (changed: bool)
      requires osc != OscInvalid
      modifies this
      ensures changed == (old(fanState).oscillating != osc) && fanState == old(fanState).(oscillating := osc)
      ensures EntityView() == if changed then old(EntityView()).(oscillating := osc.Code() != 0) else old(EntityView())
      ensures events == old(events) && lastRun == old(lastRun) && sampleStep == old(sampleStep)
      ensures SequencerView() == old(SequencerView())
    {
      changed := fanState.oscillating != osc;
      if changed {
        fanState := fanState.(oscillating := osc);
        oscillating := osc.Code() != 0;
      }
    }

    /** The mode comparison of update_state: the entity shows the mode's name. */
    method StoreMode(mode: FanMode) returns (changed: bool)
      requires mode != ModeInvalid
      modifies this
      ensures changed == (old(fanState).mode != mode) && fanState == old(fanState).(mode := mode)
      ensures EntityView() ==
        if changed then old(EntityView()).(presetMode := FanModeStr[mode.Code()]) else old(EntityView())
      ensures events == old(events) && lastRun == old(lastRun) && sampleStep == old(sampleStep)
      ensures SequencerView() == old(SequencerView())
    {
      changed := fanState.mode != mode;
      if changed {
        fanState := fanState.(mode := mode);
        presetMode := FanModeStr[mode.Code()];
      }
    }

    /** The field-by-field comparison of update_state: each field of the
        decoded state that differs from the stored one is stored and mirrored
        into the entity; reports whether speed, oscillation or mode changed
        and whether the timer did. */
    method StoreFields(newState: FanState) returns (stateChange: bool, timerChange: bool)
      requires IsReal(newState)
      modifies this
      ensures fanState == newState
      ensures EntityView() == MirrorChanges(old(fanState), old(EntityView()), newState)
      ensures stateChange == Changed(old(fanState), newState)
      ensures timerChange == (old(fanState).timer != newState.timer)
      ensures events == old(events) && lastRun == old(lastRun) && sampleStep == old(sampleStep)
      ensures SequencerView() == old(SequencerView())
    {
      var speedChange := StoreSpeed(newState.speed);
      var oscChange := StoreOscillation(newState.oscillating);
      var modeChange := StoreMode(newState.mode);
      stateChange := speedChange || oscChange || modeChange;
      timerChange := fanState.timer != newState.timer;
      if timerChange {
        fanState := fanState.(timer := newState.timer);
      }
    }

    /** The change detection of update_state: store what differs, send the
        timer text when the timer changed and publish when anything else did. */
    method StoreDecoded(newState: FanState)
      requires IsReal(newState)
      modifies this
      ensures var o := Reconcile(old(fanState), old(EntityView()), newState);
        fanState == o.stored && EntityView() == o.entity && events == old(events) + o.events
      ensures lastRun == old(lastRun) && sampleStep == old(sampleStep)
      ensures SequencerView() == old(SequencerView())
    {
      var stateChange, timerChange := StoreFields(newState);
      if timerChange {
        events := events + [TimerTextEvent(newState.timer)];
      }
      if stateChange {
        events := events + [Published(EntityView())];
      }
    }

    /** The end of a window: threshold and clear the counters, decode, store
        what changed, send the timer text and publish. */
    method CloseWindow()
      requires ledOnCounts.Length0 == ROWS && ledOnCounts.Length1 == COLS
      modifies this, ledOnCounts
      ensures Counts() == ZeroCounts && sampleStep == 0
      ensures var o := Reconcile(old(fanState), old(EntityView()), Decode(Threshold(old(Counts()))));
        fanState == o.stored && EntityView() == o.entity && events == old(events) + o.events
      ensures lastRun == old(lastRun) && SequencerView() == old(SequencerView())
    {
      ghost var lit := Threshold(Counts());
      sampleStep := 0;
      var ledState := ThresholdAndClear();
      GridExt(Counts(), ZeroCounts);
      var newState := DecodeLeds(ledState, lit);
      StoreDecoded(newState);
    }

    /** FanBA8206::update_state. */
    method UpdateState(env: Env)
      requires SamplerValid()
      modifies this, ledOnCounts
      ensures SamplerValid()
      ensures SamplerView() == Sampling.UpdateState(old(SamplerView()), interval, env)
      ensures SequencerView() == old(SequencerView())
    {
      ghost var before := SamplerView();
      if Due(env.now, lastRun, interval) {
        lastRun := env.now;
        match env.read
        case None =>
        case Some(data) =>
          SampleKeepsConsistent(SamplerView(), data);
          TakeSample(data);
      }
      assert SamplerView() == Sampling.UpdateState(before, interval, env);
    }

    /** The part of update_state after a successful read: count the sample
        and, at the end of the window, decode and publish. */
    method TakeSample(data: bv8)
      requires ledOnCounts.Length0 == ROWS && ledOnCounts.Length1 == COLS
      modifies this, ledOnCounts
      ensures SamplerView() == Sample(old(SamplerView()), data)
      ensures SequencerView() == old(SequencerView())
    {
      ghost var s1 := SamplerView();
      AccumulateSample(data);
      AccumulateCells(s1.counts, Counts(), data);
      sampleStep := sampleStep + 1;
      assert SamplerView() == s1.(counts := Accumulate(s1.counts, data), step := s1.step + 1);
      if sampleStep >= WINDOW {
        CloseWindow();
      }
    }

    /** FanBA8206::loop: no sampling while a command is being processed. */
    method Loop(env: Env)
      requires Valid()
      modifies this, ledOnCounts
      ensures Valid()
      ensures old(processing) ==> SamplerView() == old(SamplerView())
      ensures !old(processing) ==> SamplerView() == Sampling.UpdateState(old(SamplerView()), interval, env)
      ensures SequencerView() == old(SequencerView())
    {
      if processing {
        return;
      }
      UpdateState(env);
    }

    /** FanBA8206::process_command: with an empty queue, poll once more and
        stop processing; otherwise press the front button and set the
        "button_off" timeout. */
    method ProcessCommand(env: Env)
      requires SamplerValid()
      modifies this, ledOnCounts
      ensures SamplerValid()
      ensures old(buttonQueue) == [] ==>
        && SamplerView() == Sampling.UpdateState(old(SamplerView()), interval, env)
        && SequencerView() == old(SequencerView()).(processing := false)
      ensures old(buttonQueue) != [] ==>
        SamplerView() == old(SamplerView()) && SequencerView() == PressFront(old(SequencerView()))
    {
      if |buttonQueue| == 0 {
        UpdateState(env);
        processing := false;
        return;
      }
      var buttonPressed := buttonQueue[0];
      writes := writes + [WriteGpio(PressValue(buttonPressed))];
      releaseDue := true;
    }

    /** The "button_off" timeout: release every line, drop the front button,
        then set the "button_on" timeout or, with nothing left, finish. */
    method FireRelease(env: Env)
      requires Valid() && releaseDue
      modifies this, ledOnCounts
      ensures Valid()
      ensures SequencerView() == ReleaseStep(old(SequencerView()))
      ensures buttonQueue != [] ==> SamplerView() == old(SamplerView())
      ensures buttonQueue == [] ==> SamplerView() == Sampling.UpdateState(old(SamplerView()), interval, env)
    {
      releaseDue := false;
      writes := writes + [WriteGpio(0)];
      buttonQueue := buttonQueue[1..];
      if |buttonQueue| > 0 {
        pressDue := true;
      } else {
        ProcessCommand(env);
      }
    }

    /** The "button_on" timeout: press the next button. */
    method FirePress(env: Env)
      requires Valid() && pressDue
      modifies this, ledOnCounts
      ensures Valid()
      ensures SamplerView() == old(SamplerView())
      ensures SequencerView() == PressStep(old(SequencerView()))
    {
      pressDue := false;
      ProcessCommand(env);
    }

    /** The power and speed stage of control. */
    method QueuePower(call: FanCall)
      requires 0 <= speed <= 3 && (call.speed.Some? ==> 1 <= call.speed.value <= 3)
      modifies this
      ensures buttonQueue == old(buttonQueue) + PowerPresses(call, old(EntityView()), independentOnOff)
      ensures EntityView() == old(EntityView())
      ensures lastRun == old(lastRun) && sampleStep == old(sampleStep) && fanState == old(fanState) && events == old(events)
      ensures processing == old(processing) && releaseDue == old(releaseDue) && pressDue == old(pressDue)
      ensures writes == old(writes)
    {
      if call.state.Some? {
        var newState := call.state.value;
        if !newState {
          buttonQueue := buttonQueue + [BUTTON_OFF];
        } else {
          if !state {
            if independentOnOff {
              buttonQueue := buttonQueue + [BUTTON_ONOFF];
            } else {
              buttonQueue := buttonQueue + [BUTTON_ONSPEED];
            }
          }
          if call.speed.Some? {
            var currSpeed := speed;
            var newSpeed := call.speed.value;
            newSpeed := if newSpeed < currSpeed then newSpeed + 3 else newSpeed;
            buttonQueue := buttonQueue + Repeat(BUTTON_SPEED, newSpeed - currSpeed);
          }
        }
      }
    }

    /** The oscillation stage of control. */
    method QueueSwing(call: FanCall)
      modifies this
      ensures buttonQueue == old(buttonQueue) + (if SwingRequested(call, old(EntityView())) then [BUTTON_SWING] else [])
      ensures EntityView() == old(EntityView())
      ensures lastRun == old(lastRun) && sampleStep == old(sampleStep) && fanState == old(fanState) && events == old(events)
      ensures processing == old(processing) && releaseDue == old(releaseDue) && pressDue == old(pressDue)
      ensures writes == old(writes)
    {
      if call.oscillating.Some? {
        if oscillating != call.oscillating.value {
          buttonQueue := buttonQueue + [BUTTON_SWING];
        }
      }
    }

    /** The preset stage of control. */
    method QueuePreset(call: FanCall)
      modifies this
      ensures buttonQueue == old(buttonQueue) + Repeat(BUTTON_MODE, PresetPresses(call, old(EntityView())))
      ensures EntityView() == old(EntityView())
      ensures lastRun == old(lastRun) && sampleStep == old(sampleStep) && fanState == old(fanState) && events == old(events)
      ensures processing == old(processing) && releaseDue == old(releaseDue) && pressDue == old(pressDue)
      ensures writes == old(writes)
    {
      if state && call.presetMode != "" && call.presetMode != STR_FANMODE_OFF {
        if call.presetMode != presetMode {
          var currPresetId := ModeId(presetMode);
          var newPresetId := ModeId(call.presetMode);
          newPresetId := if newPresetId < currPresetId then newPresetId + 3 else newPresetId;
          buttonQueue := buttonQueue + Repeat(BUTTON_MODE, newPresetId - currPresetId);
        }
      }
    }

    /** The three queueing stages of control, one after the other. */
    method QueueCall(call: FanCall)
      requires 0 <= speed <= 3 && (call.speed.Some? ==> 1 <= call.speed.value <= 3)
      modifies this
      ensures buttonQueue == old(buttonQueue) + ControlPresses(call, old(EntityView()), independentOnOff)
      ensures EntityView() == old(EntityView())
      ensures lastRun == old(lastRun) && sampleStep == old(sampleStep) && fanState == old(fanState) && events == old(events)
      ensures processing == old(processing) && releaseDue == old(releaseDue) && pressDue == old(pressDue)
      ensures writes == old(writes)
    {
      ghost var e := EntityView();
      QueuePower(call);
      QueueSwing(call);
      QueuePreset(call);
      assert buttonQueue == old(buttonQueue) + ControlPresses(call, e, independentOnOff);
    }

    /** FanBA8206::control: ignored while processing; otherwise queue the
        presses the call needs and, if there are any, start processing by
        pressing the first. The timeouts then press and release the queued
        buttons in order and stop processing. */
    method Control(call: FanCall, env: Env)
      requires Valid()
      requires call.speed.Some? ==> 1 <= call.speed.value <= 3
      modifies this, ledOnCounts
      ensures Valid()
      ensures SamplerView() == old(SamplerView())
      ensures old(processing) ==> SequencerView() == old(SequencerView())
      ensures !old(processing) ==> buttonQueue == ControlPresses(call, old(EntityView()), independentOnOff)
      ensures !old(processing) && buttonQueue == [] ==> SequencerView() == old(SequencerView())
      ensures !old(processing) && buttonQueue != [] ==>
        && SequencerView() == PressFront(Sequencer(buttonQueue, true, false, false, old(writes)))
        && RunTimeouts(SequencerView()) == Sequencer([], false, false, false, old(writes) + PressCycle(buttonQueue))
    {
      if processing {
        return;
      }
      QueueCall(call);
      if |buttonQueue| > 0 {
        processing := true;
        ProcessCommand(env);
        DrainInOrder(buttonQueue, old(writes));
      }
    }

    /** FanBA8206SetTimer::press_action: when the fan is on, queue one Timer
        press and (re)start processing by pressing the front button again,
        whether or not a command is already being processed. */
    method PressTimer(env: Env)
      requires Valid()
      modifies this, ledOnCounts
      ensures Valid()
      ensures SamplerView() == old(SamplerView())
      ensures !old(state) ==> SequencerView() == old(SequencerView())
      ensures old(state) ==>
        SequencerView() == PressFront(old(SequencerView()).(queue := old(buttonQueue) + [BUTTON_TIMER], processing := true))
    {
      if state {
        buttonQueue := buttonQueue + [BUTTON_TIMER];
        processing := true;
        ProcessCommand(env);
      }
    }
  }

  /** The decoding part of update_state on the lit flags: speed, oscillation
      and mode each take the last lit cell of their group, the timer ORs its
      four bits; the result is the decoding of the lit grid. */
  method DecodeLeds(ledState: array2<bool>, ghost lit: seq<seq<bool>>) returns (s: FanState)
    requires ledState.Length0 == ROWS && ledState.Length1 == COLS && IsGrid(lit)
    requires forall i, j :: 0 <= i < ROWS && 0 <= j < COLS ==> ledState[i, j] == lit[i][j]
    ensures s == Decode(lit)
  {
    var newSpeed := SpeedOff;
    if ledState[0, 1] { newSpeed := High; }
    if ledState[1, 1] { newSpeed := Medium; }
    if ledState[2, 1] { newSpeed := Low; }
    assert newSpeed == DecodeSpeed(lit);

    var osc := OscOff;
    if ledState[0, 2] { osc := OscOn; }

    var mode := ModeOff;
    if ledState[3, 2] { mode := Normal; }
    if ledState[3, 1] { mode := Nature; }
    if ledState[2, 2] { mode := Sleep; }
    assert mode == DecodeMode(lit);

    var timer := TIMER_OFF;
    if ledState[3, 0] { timer := timer | TIMER_0_5H; }
    if ledState[2, 0] { timer := timer | TIMER_1H; }
    if ledState[1, 0] { timer := timer | TIMER_2H; }
    if ledState[0, 0] { timer := timer | TIMER_4H; }
    assert timer == DecodeTimer(lit);

    s := FanState(newSpeed, osc, mode, timer);
  }
}
