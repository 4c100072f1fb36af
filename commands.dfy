/** The command side as functions: how many presses a cycling button needs,
    which buttons a fan call queues, and the bytes written to the output
    expander for a press or a release. */
module Commands {
  import opened Panel
  import opened Sampling

  /** The parts of an ESPHome fan call that `control` looks at; an empty
      presetMode means that no preset was requested. */
  datatype FanCall = FanCall(state: Option<bool>, speed: Option<int>, oscillating: Option<bool>, presetMode: string)

  // ---- Cycling buttons ----

  /** What one press of the speed or the mode button does to its position:
      1 -> 2 -> 3 -> 1, and from 0 (off, or the "---" preset) to 1. */
  function Next(p: int): (q: int)
    requires 0 <= p <= 3
    ensures 1 <= q <= 3
  {
    if p == 3 then 1 else p + 1
  }

  /** The position after k presses. */
  function Advance(p: int, k: nat): (q: int)
    requires 0 <= p <= 3
    ensures 0 <= q <= 3
    ensures k > 0 ==> 1 <= q
  {
    if k == 0 then p else Next(Advance(p, k - 1))
  }

  /** The number of presses `control` queues to move from cur to target:
      `(target < cur ? target + 3 : target) - cur`. */
  function CyclicPresses(cur: int, target: int): (n: int)
    requires 0 <= cur <= 3 && 0 <= target <= 3
    ensures 0 <= n <= 3
    ensures cur == target ==> n == 0
    ensures 1 <= target ==> (n == 0 <==> cur == target)
    ensures 1 <= cur && 1 <= target ==> n == (target - cur + 3) % 3 && n <= 2
  {
    (if target < cur then target + 3 else target) - cur
  }

  /** The queued presses take the button from cur to target, and no fewer would. */
  lemma {:induction false} CyclicPressesReach(cur: int, target: int)
    requires 0 <= cur <= 3 && 1 <= target <= 3
    ensures Advance(cur, CyclicPresses(cur, target)) == target
    ensures forall k :: 0 <= k < CyclicPresses(cur, target) ==> Advance(cur, k) != target
  {
    assert Advance(cur, 1) == Next(cur);
    assert Advance(cur, 2) == Next(Next(cur));
    assert Advance(cur, 3) == Next(Next(Next(cur)));
  }

  /** FANMODE_ID[name]; `std::map::operator[]` yields 0 for a name that is
      not in the table. The id names the mode back through FANMODE_STR. */
  function ModeId(name: string): (id: int)
    ensures 0 <= id <= 3 && id in FanModeStr
    ensures FanModeStr[id] == name || (name !in FanModeId && id == 0)
  {
    ModeTablesInverse();
    if name in FanModeId then FanModeId[name] else 0
  }

  // ---- The buttons a fan call queues ----

  /** n presses of button b. */
  function Repeat(b: ButtonBit, n: nat): (q: seq<ButtonBit>)
    ensures |q| == n && forall i :: 0 <= i < n ==> q[i] == b
  {
    if n == 0 then [] else [b] + Repeat(b, n - 1)
  }

  /** Speed presses: only when the call turns the fan on and names a speed
      other than the current one; then exactly as many as take the speed
      button from the current speed to the requested one. */
  function SpeedPresses(call: FanCall, e: Entity): (n: nat)
    requires 0 <= e.speed <= 3
    requires call.speed.Some? ==> 1 <= call.speed.value <= 3
    ensures n <= 3
    ensures n > 0 ==> call.state == Some(true) && call.speed.Some? && call.speed.value != e.speed
    ensures call.state == Some(true) && call.speed.Some? ==>
      && Advance(e.speed, n) == call.speed.value
      && forall k :: 0 <= k < n ==> Advance(e.speed, k) != call.speed.value
  {
    if call.state == Some(true) && call.speed.Some? then
      CyclicPressesReach(e.speed, call.speed.value);
      CyclicPresses(e.speed, call.speed.value)
    else 0
  }

  /** A swing press: the call names an oscillation other than the current
      one, that is, it asks for the toggled oscillation. */
  function SwingRequested(call: FanCall, e: Entity): (swing: bool)
    ensures swing <==> call.oscillating == Some(!e.oscillating)
  {
    call.oscillating.Some? && call.oscillating.value != e.oscillating
  }

  /** Mode presses: only when the fan is on (as it was before the call) and
      the call names a preset other than "---" and other than the current
      one. For a preset of the table, at least one press, and exactly as
      many as take the mode button from the current preset to it. */
  function PresetPresses(call: FanCall, e: Entity): (n: nat)
    ensures n <= 3
    ensures n > 0 ==>
      e.state && call.presetMode != "" && call.presetMode != STR_FANMODE_OFF && call.presetMode != e.presetMode
    ensures e.state && call.presetMode in FanModeId && call.presetMode != STR_FANMODE_OFF && call.presetMode != e.presetMode ==>
      && n > 0
      && Advance(ModeId(e.presetMode), n) == ModeId(call.presetMode)
      && forall k :: 0 <= k < n ==> Advance(ModeId(e.presetMode), k) != ModeId(call.presetMode)
  {
    if e.state && call.presetMode != "" && call.presetMode != STR_FANMODE_OFF && call.presetMode != e.presetMode then
      var cur := ModeId(e.presetMode);
      var target := ModeId(call.presetMode);
      if 1 <= target then
        CyclicPressesReach(cur, target);
        CyclicPresses(cur, target)
      else CyclicPresses(cur, target)
    else 0
  }

  /** The first button of an "on" request on a fan that is off: with
      independent on/off wiring the line of the OFF button, otherwise the
      line of the SPEED button. */
  function OnButton(independentOnOff: bool): (b: ButtonBit)
    ensures independentOnOff ==> b == BUTTON_OFF
    ensures !independentOnOff ==> b == BUTTON_SPEED
  {
    if independentOnOff then BUTTON_ONOFF else BUTTON_ONSPEED
  }

  /** The number of presses of button b in q. */
  function Count(q: seq<ButtonBit>, b: int): (n: nat)
    ensures n <= |q|
  {
    if q == [] then 0 else (if q[0] == b then 1 else 0) + Count(q[1..], b)
  }

  lemma {:induction false} CountAppend(p: seq<ButtonBit>, q: seq<ButtonBit>)
    ensures forall b :: Count(p + q, b) == Count(p, b) + Count(q, b)
  {
    if p != [] {
      assert (p + q)[1..] == p[1..] + q;
      CountAppend(p[1..], q);
    } else {
      assert p + q == q;
    }
  }

  lemma {:induction false} CountRepeat(x: ButtonBit, n: nat)
    ensures forall b :: Count(Repeat(x, n), b) == if b == x then n else 0
  {
    if n > 0 {
      CountRepeat(x, n - 1);
    }
  }

  /** The stage of `control` that queues a button: power and speed, swing,
      preset, and the timer button that only the set-timer button queues. */
  function Stage(b: ButtonBit): nat {
    if b == BUTTON_SWING then 1 else if b == BUTTON_MODE then 2 else if b == BUTTON_TIMER then 3 else 0
  }

  /** The presses of q come stage by stage. */
  predicate InStageOrder(q: seq<ButtonBit>) {
    forall i, j :: 0 <= i < j < |q| ==> Stage(q[i]) <= Stage(q[j])
  }

  /** The power and speed part of `control`: OFF for an "off" request; for
      an "on" request, the on button if the fan is off, then the speed presses. */
  function PowerPresses(call: FanCall, e: Entity, independentOnOff: bool): (q: seq<ButtonBit>)
    requires 0 <= e.speed <= 3
    requires call.speed.Some? ==> 1 <= call.speed.value <= 3
    ensures Count(q, BUTTON_OFF) ==
      (if call.state == Some(false) || (call.state == Some(true) && !e.state && independentOnOff) then 1 else 0)
    ensures Count(q, BUTTON_SPEED) ==
      (if call.state == Some(true) && !e.state && !independentOnOff then 1 else 0) + SpeedPresses(call, e)
    ensures forall b :: b != BUTTON_OFF && b != BUTTON_SPEED ==> Count(q, b) == 0
    ensures forall i :: 0 <= i < |q| ==> Stage(q[i]) == 0
    ensures call.state == Some(false) ==> q == [BUTTON_OFF]
    ensures call.state == Some(true) && !e.state ==> q != [] && q[0] == OnButton(independentOnOff)
  {
    match call.state
    case None => []
    case Some(on) =>
      if !on then [BUTTON_OFF]
      else
        var speed := if call.speed.Some? then Repeat(BUTTON_SPEED, CyclicPresses(e.speed, call.speed.value)) else [];
        var first := if !e.state then [OnButton(independentOnOff)] else [];
        CountRepeat(BUTTON_SPEED, |speed|);
        CountAppend(first, speed);
        first + speed
  }

  /** The buttons FanBA8206::control queues for a call, in order: power and
      speed, then swing, then preset. A request to turn the fan off, or on
      while it is off, starts with that power button. */
  function ControlPresses(call: FanCall, e: Entity, independentOnOff: bool): (q: seq<ButtonBit>)
    requires 0 <= e.speed <= 3
    requires call.speed.Some? ==> 1 <= call.speed.value <= 3
    ensures call.state == Some(false) ==> q != [] && q[0] == BUTTON_OFF
    ensures call.state == Some(true) && !e.state ==> q != [] && q[0] == OnButton(independentOnOff)
  {
    var power := PowerPresses(call, e, independentOnOff);
    var swing := if SwingRequested(call, e) then [BUTTON_SWING] else [];
    power + swing + Repeat(BUTTON_MODE, PresetPresses(call, e))
  }

  /** How often control presses each button: OFF for an "off" request or
      to switch an off fan on with an independent on/off button, SPEED to
      switch it on otherwise plus one per speed step, SWING once for a
      different oscillation, MODE once per preset step (never while the
      fan is off), and never TIMER or any other line. */
  lemma ControlPressesCounts(call: FanCall, e: Entity, independentOnOff: bool)
    requires 0 <= e.speed <= 3
    requires call.speed.Some? ==> 1 <= call.speed.value <= 3
    ensures var q := ControlPresses(call, e, independentOnOff);
      && Count(q, BUTTON_TIMER) == 0
      && Count(q, BUTTON_SWING) == (if SwingRequested(call, e) then 1 else 0)
      && Count(q, BUTTON_MODE) == PresetPresses(call, e)
      && (!e.state ==> Count(q, BUTTON_MODE) == 0)
      && forall b :: b != BUTTON_OFF && b != BUTTON_SPEED && b != BUTTON_SWING && b != BUTTON_MODE ==> Count(q, b) == 0
    ensures var q := ControlPresses(call, e, independentOnOff);
      && Count(q, BUTTON_OFF) ==
           (if call.state == Some(false) || (call.state == Some(true) && !e.state && independentOnOff) then 1 else 0)
      && Count(q, BUTTON_SPEED) ==
           (if call.state == Some(true) && !e.state && !independentOnOff then 1 else 0) + SpeedPresses(call, e)
  {
    var power := PowerPresses(call, e, independentOnOff);
    var swing := if SwingRequested(call, e) then [BUTTON_SWING] else [];
    var preset := Repeat(BUTTON_MODE, PresetPresses(call, e));
    CountRepeat(BUTTON_MODE, |preset|);
    CountAppend(power, swing);
    CountAppend(power + swing, preset);
  }

  /** The queue is built stage by stage: power and speed presses first,
      then the swing press, then the preset presses. */
  lemma ControlPressesInStageOrder(call: FanCall, e: Entity, independentOnOff: bool)
    requires 0 <= e.speed <= 3
    requires call.speed.Some? ==> 1 <= call.speed.value <= 3
    ensures InStageOrder(ControlPresses(call, e, independentOnOff))
  {
    var power := PowerPresses(call, e, independentOnOff);
    var swing := if SwingRequested(call, e) then [BUTTON_SWING] else [];
    var preset := Repeat(BUTTON_MODE, PresetPresses(call, e));
    var q := ControlPresses(call, e, independentOnOff);
    assert q == power + swing + preset;
    forall k | 0 <= k < |q|
      ensures Stage(q[k]) == if k < |power| then 0 else if k < |power| + |swing| then 1 else 2
    {
      if k < |power| {
        assert q[k] == power[k];
      } else if k < |power| + |swing| {
        assert q[k] == swing[k - |power|];
      } else {
        assert q[k] == preset[k - |power| - |swing|];
      }
    }
  }

  /** A call that asks for nothing different queues nothing. Note that an
      "off" request always queues OFF, even on a fan that is already off. */
  lemma NoOpCallQueuesNothing(call: FanCall, e: Entity, independentOnOff: bool)
    requires 0 <= e.speed <= 3
    requires call.state == None || (call.state == Some(true) && e.state)
    requires call.speed.Some? ==> 1 <= call.speed.value <= 3 && call.speed.value == e.speed
    requires !SwingRequested(call, e)
    requires call.presetMode == "" || call.presetMode == STR_FANMODE_OFF || call.presetMode == e.presetMode
    ensures ControlPresses(call, e, independentOnOff) == []
  {
  }

  // ---- Writes to the output expander ----

  /** The two bytes of one write transaction. */
  datatype BusWrite = BusWrite(lo: bv8, hi: bv8)

  /** FanBA8206::write_gpio: the complement of the 16-bit value, low byte
      first; reassembled, the two bytes give back that complement. */
  function WriteGpio(value: bv16): (w: BusWrite)
    ensures ((w.hi as bv16) << 8) | (w.lo as bv16) == !value
  {
    BusWrite(((!value) & 0xFF) as bv8, ((!value) >> 8) as bv8)
  }

  /** Output line i (0..7) is driven low by the write. */
  predicate LineLow(w: BusWrite, i: int)
    requires 0 <= i < 8
  {
    (w.lo >> i) & 1 == 0
  }

  /** Bit i of a 16-bit value is 1. */
  predicate BitSet(v: bv16, i: int)
    requires 0 <= i < 16
  {
    (v >> i) & 1 == 1
  }

  /** The value written to press button b, `1 << b`: bit b alone is set. */
  function PressValue(b: ButtonBit): (v: bv16)
    ensures forall i :: 0 <= i < 16 ==> (BitSet(v, i) <==> i == b)
  {
    (1 as bv16) << b
  }

  /** A press drives exactly line b low and leaves every other line high;
      a release drives every line high. */
  lemma PressDrivesOneLine(b: ButtonBit)
    ensures WriteGpio(PressValue(b)).hi == 0xFF
    ensures forall i :: 0 <= i < 8 ==> (LineLow(WriteGpio(PressValue(b)), i) <==> i == b)
    ensures WriteGpio(0) == BusWrite(0xFF, 0xFF)
  {
  }
}
