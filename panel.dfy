/** Constants of the BA8206 remote panel: the decoded-state enums with their
    numeric codes and "invalid" sentinels, the timer bit values, the preset
    mode name tables, the timer display table and the button bit positions. */
module Panel {

  datatype Option<T> = None | Some(value: T)

  /** FanSpeed; Code() is the enum's integer value. */
  datatype FanSpeed = SpeedOff | Low | Medium | High | SpeedInvalid {
    function Code(): (k: int)
      ensures this != SpeedInvalid ==> 0 <= k <= 3
      ensures this == SpeedInvalid ==> k == INVALID
      ensures this == SpeedOff <==> k == 0
    {
      match this
      case SpeedOff => 0
      case Low => 1
      case Medium => 2
      case High => 3
      case SpeedInvalid => INVALID
    }
  }

  /** FanOscilatting. */
  datatype Oscillation = OscOff | OscOn | OscInvalid {
    function Code(): (k: int)
      ensures this != OscInvalid ==> 0 <= k <= 1
      ensures this == OscInvalid ==> k == INVALID
      ensures this == OscOn <==> k == 1
    {
      match this
      case OscOff => 0
      case OscOn => 1
      case OscInvalid => INVALID
    }
  }

  /** FanMode. */
  datatype FanMode = ModeOff | Normal | Nature | Sleep | ModeInvalid {
    function Code(): (k: int)
      ensures this != ModeInvalid ==> 0 <= k <= 3
      ensures this == ModeInvalid ==> k == INVALID
      ensures this == ModeOff <==> k == 0
    {
      match this
      case ModeOff => 0
      case Normal => 1
      case Nature => 2
      case Sleep => 3
      case ModeInvalid => INVALID
    }
  }

  /** The value every "invalid" enumerator and the timer sentinel share. */
  const INVALID := 100

  const TIMER_OFF: bv8 := 0x00
  const TIMER_0_5H: bv8 := 0x01
  const TIMER_1H: bv8 := 0x02
  const TIMER_2H: bv8 := 0x04
  const TIMER_4H: bv8 := 0x08
  const TIMER_INVALID: bv8 := 100

  /** The four timer bits in ascending order of duration. */
  const TimerBits: seq<bv8> := [TIMER_0_5H, TIMER_1H, TIMER_2H, TIMER_4H]

  /** The stored, debounced state of the panel (struct FanState). */
  datatype FanState = FanState(speed: FanSpeed, oscillating: Oscillation, mode: FanMode, timer: bv8)

  /** The state `setup` stores: every field holds its sentinel. */
  const Sentinel := FanState(SpeedInvalid, OscInvalid, ModeInvalid, TIMER_INVALID)

  /** A state that a decoded LED pattern can produce: no sentinel anywhere. */
  predicate IsReal(s: FanState) {
    s.speed != SpeedInvalid && s.oscillating != OscInvalid && s.mode != ModeInvalid && s.timer as int < 16
  }

  lemma SentinelsAreNotReal(s: FanState)
    requires IsReal(s)
    ensures s.speed != Sentinel.speed && s.oscillating != Sentinel.oscillating
    ensures s.mode != Sentinel.mode && s.timer != Sentinel.timer
    ensures s.speed.Code() != INVALID && s.oscillating.Code() != INVALID && s.mode.Code() != INVALID
  {
  }

  /** Any OR of timer bits stays within the low nibble, i.e. at most 15. */
  lemma TimerBitsDisjoint(i: int, j: int, t: bv8)
    requires 0 <= i < 4 && 0 <= j < 4 && i != j
    requires t & 0xF0 == 0
    ensures TimerBits[i] & TimerBits[j] == 0
    ensures (t | TimerBits[i]) & 0xF0 == 0 && (t | TimerBits[i]) as int <= 15
  {
  }

  // Preset mode names (the emoji are kept as escapes).
  const STR_FANMODE_OFF := "---"
  const STR_FANMODE_NORMAL := "\U{1F32C}\U{FE0F} Normal"
  const STR_FANMODE_NATURE := "\U{1F343} Nature"
  const STR_FANMODE_SLEEP := "\U{1F4A4} Sleep"

  const FanModeStr: map<int, string> :=
    map[0 := STR_FANMODE_OFF, 1 := STR_FANMODE_NORMAL, 2 := STR_FANMODE_NATURE, 3 := STR_FANMODE_SLEEP]

  const FanModeId: map<string, int> :=
    map[STR_FANMODE_OFF := 0, STR_FANMODE_NORMAL := 1, STR_FANMODE_NATURE := 2, STR_FANMODE_SLEEP := 3]

  /** The two mode tables are inverse bijections between {0,1,2,3} and the four names. */
  lemma ModeTablesInverse()
    ensures FanModeStr.Keys == {0, 1, 2, 3}
    ensures FanModeId.Keys == {STR_FANMODE_OFF, STR_FANMODE_NORMAL, STR_FANMODE_NATURE, STR_FANMODE_SLEEP}
    ensures forall id :: id in FanModeStr ==> FanModeStr[id] in FanModeId && FanModeId[FanModeStr[id]] == id
    ensures forall s :: s in FanModeId ==> FanModeId[s] in FanModeStr && FanModeStr[FanModeId[s]] == s
  {
  }

  /** STR_FANTIMER_STR, indexed by the raw timer bitmask. */
  const TimerStr: seq<string> := [
    "---", "0.5h", "1.0h", "1.5h", "2.0h", "2.5h", "3.0h", "3.5h",
    "4.0h", "4.5h", "5.0h", "5.5h", "6.0h", "6.5h", "7.0h", "7.5h"
  ]

  /** Reference text for i half hours, 1 <= i <= 15: "<i/2>.<0|5>h". */
  function HalfHoursText(i: int): (s: string)
    requires 1 <= i <= 15
    ensures |s| == 4 && s[1] == '.' && s[3] == 'h'
  {
    [('0' as int + i / 2) as char, '.', if i % 2 == 1 then '5' else '0', 'h']
  }

  /** Reads a timer text back to its bitmask; "---" and anything unknown read as 0. */
  function TimerIndex(s: string): (k: int)
    ensures 0 <= k < 16
  {
    if |s| == 4 && '0' <= s[0] <= '7' && s[1] == '.' && (s[2] == '0' || s[2] == '5') && s[3] == 'h'
    then (s[0] as int - '0' as int) * 2 + (if s[2] == '5' then 1 else 0)
    else 0
  }

  lemma HalfHoursTextRoundTrip(i: int)
    requires 1 <= i <= 15
    ensures TimerIndex(HalfHoursText(i)) == i
  {
  }

  /** The timer table has 16 entries: "---" for 0, then i x 0.5h for i in 1..15. */
  lemma TimerTableShape()
    ensures |TimerStr| == 16 && TimerStr[0] == "---"
    ensures forall i :: 1 <= i < 16 ==> TimerStr[i] == HalfHoursText(i)
  {
  }

  /** Every bitmask 0..15 names exactly one table entry: reading the text back gives the mask. */
  lemma {:induction false} TimerTableRoundTrip(i: int)
    requires 0 <= i < 16
    ensures TimerIndex(TimerStr[i]) == i
  {
    TimerTableShape();
    if i > 0 {
      HalfHoursTextRoundTrip(i);
    }
  }

  lemma TimerTableInjective(i: int, j: int)
    requires 0 <= i < 16 && 0 <= j < 16 && TimerStr[i] == TimerStr[j]
    ensures i == j
  {
    TimerTableRoundTrip(i);
    TimerTableRoundTrip(j);
  }

  /** A button is named by the output line (bit position) that presses it. */
  type ButtonBit = b: int | 0 <= b < 8

  const BUTTON_OFF: ButtonBit := 7
  const BUTTON_ONOFF: ButtonBit := 7
  const BUTTON_TIMER: ButtonBit := 6
  const BUTTON_SPEED: ButtonBit := 5
  const BUTTON_ONSPEED: ButtonBit := 5
  const BUTTON_MODE: ButtonBit := 4
  const BUTTON_SWING: ButtonBit := 0

  /** OFF/ONOFF and SPEED/ONSPEED share a line; the other lines are distinct. */
  lemma ButtonLayout()
    ensures BUTTON_OFF == BUTTON_ONOFF && BUTTON_SPEED == BUTTON_ONSPEED
    ensures |{BUTTON_OFF, BUTTON_TIMER, BUTTON_SPEED, BUTTON_MODE, BUTTON_SWING}| == 5
  {
  }
}
