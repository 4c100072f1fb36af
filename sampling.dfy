/** The state decoder as a function of its state: one polling step of
    update_state (interval gate, read, count, and at the end of a 32-sample
    window threshold, decode, compare with the stored state and publish). */
module Sampling {
  import opened Panel
  import opened Matrix

  /** The public fields of the fan entity that the decoder writes
      (fan::Fan's state, speed, oscillating and preset_mode). */
  datatype Entity = Entity(state: bool, speed: int, oscillating: bool, presetMode: string)

  /** What the decoder hands to its sinks: a publish of the fan entity, or a
      new text for the timer text sensor. */
  datatype Event = Published(entity: Entity) | TimerText(text: string)

  /** What the clock and the bus give one polling step: millis() and the
      first byte of a 2-byte read, or None when the read failed. */
  datatype Env = Env(now: nat, read: Option<bv8>)

  /** FanBA8206Timer::set_fan_timer: the text published for a timer mask is
      one of the 16 table texts, "---" exactly for no timer, and it reads
      back as that mask. */
  function TimerTextEvent(timer: bv8): (e: Event)
    requires timer as int < 16
    ensures e.TimerText? && e.text in TimerStr
    ensures timer == TIMER_OFF <==> e.text == "---"
    ensures TimerIndex(e.text) == timer as int
  {
    TimerTableRoundTrip(timer as int);
    TimerTableShape();
    TimerText(TimerStr[timer])
  }

  /** Speed, oscillation or mode differ: the changes that trigger a publish. */
  predicate Changed(stored: FanState, dec: FanState) {
    stored.speed != dec.speed || stored.oscillating != dec.oscillating || stored.mode != dec.mode
  }

  /** The entity shows the stored state, field by field, wherever the stored
      field is no longer a sentinel. */
  predicate Mirrors(stored: FanState, e: Entity) {
    && (stored.speed != SpeedInvalid ==>
          (e.state <==> stored.speed != SpeedOff) &&
          (stored.speed != SpeedOff ==> e.speed == stored.speed.Code()))
    && (stored.oscillating != OscInvalid ==> (e.oscillating <==> stored.oscillating == OscOn))
    && (stored.mode != ModeInvalid ==> e.presetMode == FanModeStr[stored.mode.Code()])
  }

  datatype Outcome = Outcome(stored: FanState, entity: Entity, events: seq<Event>)

  /** The entity fields written at the end of a window: each field whose
      stored value differs from the decoded one is set from the decoding. */
  function MirrorChanges(stored: FanState, e: Entity, dec: FanState): (e': Entity)
    requires IsReal(dec)
    ensures !Changed(stored, dec) ==> e' == e
    ensures 0 <= e.speed <= 3 ==> 0 <= e'.speed <= 3
  {
    var e1 :=
      if stored.speed == dec.speed then e
      else if dec.speed == SpeedOff then e.(state := false)
      else e.(state := true, speed := dec.speed.Code());
    var e2 := if stored.oscillating != dec.oscillating then e1.(oscillating := dec.oscillating.Code() != 0) else e1;
    if stored.mode != dec.mode then e2.(presetMode := FanModeStr[dec.mode.Code()]) else e2
  }

  /** After the end-of-window writes the entity shows the decoded state. */
  lemma MirrorChangesMirrors(stored: FanState, e: Entity, dec: FanState)
    requires IsReal(dec) && Mirrors(stored, e)
    ensures Mirrors(dec, MirrorChanges(stored, e, dec))
  {
  }

  /** The end-of-window comparison: every differing field is stored and
      mirrored into the entity; a timer change is sent to the timer text
      sensor; the entity is published once if speed, oscillation or mode
      changed. */
  function Reconcile(stored: FanState, e: Entity, dec: FanState): (o: Outcome)
    requires IsReal(dec)
    ensures o.stored == dec
    ensures o.entity == MirrorChanges(stored, e, dec)
  {
    var timerChanged := stored.timer != dec.timer;
    var stored' := FanState(
      if stored.speed != dec.speed then dec.speed else stored.speed,
      if stored.oscillating != dec.oscillating then dec.oscillating else stored.oscillating,
      if stored.mode != dec.mode then dec.mode else stored.mode,
      if timerChanged then dec.timer else stored.timer);
    var e' := MirrorChanges(stored, e, dec);
    var timerEvents := if timerChanged then [TimerTextEvent(dec.timer)] else [];
    var published := if Changed(stored, dec) then [Published(e')] else [];
    Outcome(stored', e', timerEvents + published)
  }

  /** The events of a window: the entity is published iff speed,
      oscillation or mode changed, the timer text is sent iff the timer
      changed, and nothing else is sent. */
  lemma ReconcileEvents(stored: FanState, e: Entity, dec: FanState)
    requires IsReal(dec)
    ensures var o := Reconcile(stored, e, dec);
      && (Published(o.entity) in o.events <==> Changed(stored, dec))
      && (TimerTextEvent(dec.timer) in o.events <==> stored.timer != dec.timer)
      && (forall ev :: ev in o.events ==> ev == Published(o.entity) || ev == TimerTextEvent(dec.timer))
      && |o.events| <= 2
  {
  }

  /** The first window after setup always publishes, whatever it decodes. */
  lemma ColdStartPublishes(e: Entity, dec: FanState)
    requires IsReal(dec)
    ensures Published(Reconcile(Sentinel, e, dec).entity) in Reconcile(Sentinel, e, dec).events
  {
    ReconcileEvents(Sentinel, e, dec);
  }

  /** The decoder's share of FanBA8206: counters, window position, time of
      the last poll, stored state, entity fields and the events sent so far. */
  datatype Sampler = Sampler(
    counts: seq<seq<int>>, step: int, lastRun: int,
    stored: FanState, entity: Entity, events: seq<Event>)

  /** Between polls every counter lies between 0 and the number of samples
      taken in the current window, which is below 32. */
  predicate WindowInv(s: Sampler) {
    && IsGrid(s.counts)
    && 0 <= s.step < WINDOW
    && forall r, c :: 0 <= r < ROWS && 0 <= c < COLS ==> 0 <= s.counts[r][c] <= s.step
  }

  /** WindowInv, and the entity mirrors the stored state, whose timer is a
      real mask or the sentinel, and whose speed is a speed code. */
  predicate Consistent(s: Sampler) {
    && WindowInv(s)
    && Mirrors(s.stored, s.entity)
    && (s.stored.timer as int < 16 || s.stored.timer == TIMER_INVALID)
    && 0 <= s.entity.speed <= 3
  }

  /** The decoder state right after setup. */
  function Initial(lastRun: int, entity: Entity): (s: Sampler)
    requires 0 <= entity.speed <= 3
    ensures Consistent(s)
  {
    Sampler(ZeroCounts, 0, lastRun, Sentinel, entity, [TimerText(TimerStr[0])])
  }

  const U32 := 0x1_0000_0000

  /** `now - last_run_ >= interval_ms_` with unsigned 32-bit subtraction,
      so the gate keeps working when millis() wraps around. */
  function Due(now: int, lastRun: int, interval: int): (due: bool)
    ensures 0 <= lastRun <= now < U32 ==> (due <==> now - lastRun >= interval)
    ensures 0 <= now < lastRun < U32 ==> (due <==> now + U32 - lastRun >= interval)
  {
    (now - lastRun) % U32 >= interval
  }

  /** The end of a window over the given counts: threshold, decode and
      reconcile; the counters and the window position start again. */
  function EndWindow(s: Sampler, counts: seq<seq<int>>): (t: Sampler)
    requires IsGrid(counts)
    ensures t.step == 0 && t.counts == ZeroCounts && t.lastRun == s.lastRun && IsReal(t.stored)
    ensures |s.events| <= |t.events| && t.events[..|s.events|] == s.events
  {
    var o := Reconcile(s.stored, s.entity, Decode(Threshold(counts)));
    Sampler(ZeroCounts, 0, s.lastRun, o.stored, o.entity, s.events + o.events)
  }

  /** One successful read: count it, and at the 32nd sample close the window. */
  function Sample(s: Sampler, d: bv8): (t: Sampler)
    requires IsGrid(s.counts)
    ensures IsGrid(t.counts) && t.lastRun == s.lastRun
    ensures |s.events| <= |t.events| && t.events[..|s.events|] == s.events
    ensures s.step + 1 < WINDOW ==> t.step == s.step + 1 && t.stored == s.stored && t.events == s.events
    ensures s.step + 1 >= WINDOW ==> t.step == 0 && t.counts == ZeroCounts && IsReal(t.stored)
  {
    var counts := Accumulate(s.counts, d);
    var step := s.step + 1;
    if step >= WINDOW then EndWindow(s, counts)
    else
      s.(counts := counts, step := step)
  }

  /** A sample keeps every counter within the window position and keeps the
      entity mirroring the stored state. */
  lemma SampleKeepsConsistent(s: Sampler, d: bv8)
    requires IsGrid(s.counts)
    ensures WindowInv(s) ==> WindowInv(Sample(s, d))
    ensures Consistent(s) ==> Consistent(Sample(s, d))
  {
    AccumulateBound(s.counts, d, s.step);
    var t := Sample(s, d);
    if s.step + 1 >= WINDOW {
      var dec := Decode(Threshold(Accumulate(s.counts, d)));
      var o := Reconcile(s.stored, s.entity, dec);
      assert t == Sampler(ZeroCounts, 0, s.lastRun, o.stored, o.entity, s.events + o.events);
      if Mirrors(s.stored, s.entity) {
        MirrorChangesMirrors(s.stored, s.entity, dec);
      }
    } else {
      assert t.stored == s.stored && t.entity == s.entity;
    }
  }

  /** FanBA8206::update_state: the interval gate, then a read; a failed read
      has already moved the time of the last poll but touches nothing else. */
  function UpdateState(s: Sampler, interval: int, env: Env): (t: Sampler)
    requires IsGrid(s.counts)
    ensures IsGrid(t.counts)
    ensures Consistent(s) ==> Consistent(t)
    ensures !Due(env.now, s.lastRun, interval) ==> t == s
    ensures Due(env.now, s.lastRun, interval) && env.read.None? ==> t == s.(lastRun := env.now)
    ensures Due(env.now, s.lastRun, interval) && env.read.Some? ==> t.lastRun == env.now
    ensures |s.events| <= |t.events| && t.events[..|s.events|] == s.events
  {
    if !Due(env.now, s.lastRun, interval) then s
    else
      var s1 := s.(lastRun := env.now);
      match env.read
      case None => s1
      case Some(d) =>
        SampleKeepsConsistent(s1, d);
        Sample(s1, d)
  }

  // ---- Several samples of one window ----

  /** Number of samples among ds that light cell (r, c). */
  function LitCount(ds: seq<bv8>, r: int, c: int): (n: nat)
    requires 0 <= r < ROWS && 0 <= c < COLS
    ensures n <= |ds|
  {
    if ds == [] then 0
    else LitCount(ds[..|ds| - 1], r, c) + (if CellLit(ds[|ds| - 1], r, c) then 1 else 0)
  }

  /** The counters after adding ds to counts. */
  function CountsAfter(counts: seq<seq<int>>, ds: seq<bv8>): (g: seq<seq<int>>)
    requires IsGrid(counts)
    ensures IsGrid(g)
    ensures forall r, c :: 0 <= r < ROWS && 0 <= c < COLS ==> g[r][c] == counts[r][c] + LitCount(ds, r, c)
  {
    seq(ROWS, r requires 0 <= r < ROWS =>
      seq(COLS, c requires 0 <= c < COLS => counts[r][c] + LitCount(ds, r, c)))
  }

  /** Successful reads ds, in order. */
  function SampleAll(s: Sampler, ds: seq<bv8>): (t: Sampler)
    requires IsGrid(s.counts)
    ensures IsGrid(t.counts)
  {
    if ds == [] then s else Sample(SampleAll(s, ds[..|ds| - 1]), ds[|ds| - 1])
  }

  /** Inside a window each counter grows by the number of samples lighting its cell. */
  lemma {:induction false} SampleAllCounts(s: Sampler, ds: seq<bv8>)
    requires WindowInv(s) && s.step + |ds| < WINDOW
    ensures SampleAll(s, ds) == s.(counts := CountsAfter(s.counts, ds), step := s.step + |ds|)
  {
    if ds == [] {
      GridExt(s.counts, CountsAfter(s.counts, ds));
    } else {
      SampleAllCounts(s, ds[..|ds| - 1]);
      CountsAfterSnoc(s.counts, ds);
    }
  }

  /** Adding ds is adding all but its last sample, then that one. */
  lemma CountsAfterSnoc(counts: seq<seq<int>>, ds: seq<bv8>)
    requires IsGrid(counts) && ds != []
    ensures CountsAfter(counts, ds) == Accumulate(CountsAfter(counts, ds[..|ds| - 1]), ds[|ds| - 1])
  {
    GridExt(Accumulate(CountsAfter(counts, ds[..|ds| - 1]), ds[|ds| - 1]), CountsAfter(counts, ds));
  }

  /** Debounce: 32 successful reads from a fresh window leave the window
      fresh again and store the decoding of the grid in which a cell is lit
      iff more than 2 of the 32 samples lit it. */
  lemma WindowDebounce(s: Sampler, ds: seq<bv8>)
    requires WindowInv(s) && s.step == 0 && s.counts == ZeroCounts && |ds| == WINDOW
    ensures var t := SampleAll(s, ds);
      && t.step == 0 && t.counts == ZeroCounts && t.lastRun == s.lastRun
      && t.stored == Decode(Threshold(CountsAfter(ZeroCounts, ds)))
  {
    SampleAllCounts(s, ds[..WINDOW - 1]);
    CountsAfterSnoc(ZeroCounts, ds);
  }

  /** A window that decodes to what is already stored changes nothing:
      no publish, no timer text, the entity as it was. */
  lemma RepeatedWindowIsQuiet(t: Sampler, ds: seq<bv8>)
    requires WindowInv(t) && t.step == 0 && t.counts == ZeroCounts && |ds| == WINDOW
    requires t.stored == Decode(Threshold(CountsAfter(ZeroCounts, ds)))
    ensures var u := SampleAll(t, ds);
      u.events == t.events && u.entity == t.entity && u.stored == t.stored
  {
    SampleAllCounts(t, ds[..WINDOW - 1]);
    CountsAfterSnoc(ZeroCounts, ds);
  }

  /** Right after setup, a full window publishes; the same 32 samples again
      publish nothing and leave the entity as it was. */
  lemma ColdStartThenQuiet(s: Sampler, ds: seq<bv8>)
    requires WindowInv(s) && s.step == 0 && s.counts == ZeroCounts && s.stored == Sentinel
    requires |ds| == WINDOW
    ensures var t := SampleAll(s, ds);
      && |s.events| <= |t.events|
      && Published(t.entity) in t.events[|s.events|..]
      && SampleAll(t, ds).events == t.events
      && SampleAll(t, ds).entity == t.entity
  {
    var t := SampleAll(s, ds);
    WindowDebounce(s, ds);
    var init := ds[..WINDOW - 1];
    SampleAllCounts(s, init);
    var before := SampleAll(s, init);
    assert t == Sample(before, ds[WINDOW - 1]);
    var o := Reconcile(Sentinel, before.entity, t.stored);
    assert t.events[|s.events|..] == o.events;
    RepeatedWindowIsQuiet(t, ds);
  }

  /** A window whose only lit cell is (1,1) decodes as Medium speed with
      everything else off. */
  lemma OnlyMediumLit(g: seq<seq<bool>>)
    requires IsGrid(g)
    requires forall r, c :: 0 <= r < ROWS && 0 <= c < COLS ==> (g[r][c] <==> r == 1 && c == 1)
    ensures Decode(g) == FanState(Medium, OscOff, ModeOff, TIMER_OFF)
  {
    var t := DecodeTimer(g);
    assert t & TimerBits[0] == 0 && t & TimerBits[1] == 0 && t & TimerBits[2] == 0 && t & TimerBits[3] == 0;
  }
}
