# BA8206 wall-fan panel driver, modelled in Dafny

This project models the ESPHome `ba8206` component (`FanBA8206`). The
component drives a wall fan's BA8206 remote-control panel through one I2C
device (default address 0x20). It reads two bytes per poll and writes two
bytes per button edge. It has two halves.

- **The state decoder** (`update_state`). Every `interval_ms` it reads the
  panel's LED scan byte. It counts, per cell of the 4 x 3 LED matrix, how
  many of 32 samples lit that cell. At the end of each 32-sample window a
  cell counts as lit when more than 2 samples lit it. The lit grid is
  decoded into speed, oscillation, preset mode and a timer bitmask, and
  compared with the stored state. Each field that differs is stored and
  mirrored into the fan entity. A timer change publishes the timer's text,
  and a speed, oscillation or mode change publishes the entity.
- **The button sequencer** (`control`, `process_command`, the
  "button_off" and "button_on" timeouts, and the set-timer button). A fan
  call is turned into a queue of button presses: power and speed first,
  then swing, then preset. Each press drives one output line low, which
  is released 50 ms later, and the next button follows 50 ms after that.
  While a queue is being processed, the decoder is paused and further fan
  calls are dropped.

Modules:

- `Panel` (panel.dfy) holds the constants of ba8206.h: the enums and
  their codes and sentinels, the timer bits, the preset-name tables, the
  timer text table and the button lines.
- `Matrix` (matrix.dfy) holds the LED matrix. It covers the bits of one
  scan byte, the per-window counters, the lit threshold and the decoding
  of a lit grid.
- `Sampling` (sampling.dfy) gives `update_state` as a function on a
  `Sampler` value (counters, window step, last poll time, stored state,
  entity fields, events sent). It also holds the properties of the
  debounce window.
- `Commands` (commands.dfy) computes the presses a fan call queues, as a
  function of the call and the entity. It also holds the bytes
  `write_gpio` sends.
- `Sequencing` (sequencer.dfy) gives the timeouts as steps on
  a `Sequencer` value (queue, processing flag, pending timeouts, bus
  writes). It proves that the timeouts drain a queue in order.
- `Fan` (fan.dfy) holds the class `FanBA8206`. Its fields are those of
  the C++ class, with the LED counters as an `array2<int>`. Its methods
  are the component's callbacks. Each method is proved to move the
  object's decoder view (`SamplerView`) and sequencer view
  (`SequencerView`) exactly as the functions of `Sampling` and
  `Sequencing` say, and to keep the class invariant `Valid`.

The clock and the bus are inputs. Each step that reads them gets an
`Env(now, read)`: `now` is `millis()`, and `read` is the first byte of
the 2-byte read, or `None` when the read failed. Bus writes are appended
to a log, `writes`, as the two bytes sent. Events that are published go
to a log, `events`: `Published(entity)` for `publish_state()` and
`TimerText(text)` for the timer text sensor. A pending named timeout is a
flag (`releaseDue` for "button_off", `pressDue` for "button_on"), because
setting a named timeout replaces one that is still pending. Firing a
timeout is a method of its own (`FireRelease`, `FirePress`).

Behaviours of the code that the model reproduces as written:

- An "off" request always queues the OFF button, even when the fan is
  already off. So a call that only repeats "off" is not a no-op. An "on"
  request on a fan that is already on, with nothing else different,
  queues nothing (`NoOpCallQueuesNothing`).
- Speed presses are queued only inside an "on" request. A call that names
  a speed without a state queues no speed presses.
- When the queue runs empty, `process_command` polls once more
  (`update_state`) while `processing` is still true, and only then clears
  the flag.
- The set-timer button does not check `processing`. It queues TIMER,
  presses the front of the queue again and restarts "button_off". The
  preset stage of `control` tests the fan's state as it was before the
  call.

## Model

| member | source | states |
|---|---|---|
| Panel.FanSpeed.Code | esphome/components/ba8206/ba8206.h:33-39 | the speed codes are 0..3 with Off alone at 0, and the invalid speed is 100 |
| Panel.Oscillation.Code | esphome/components/ba8206/ba8206.h:41-45 | the oscillation codes are 0/1 with On alone at 1, and the invalid one is 100 |
| Panel.FanMode.Code | esphome/components/ba8206/ba8206.h:54-60 | the mode codes are 0..3 with Off alone at 0, and the invalid mode is 100 |
| Panel.SentinelsAreNotReal | esphome/components/ba8206/ba8206.cpp:38-41 | no decodable state equals the sentinel that setup stores, in any field |
| Panel.TimerBitsDisjoint | esphome/components/ba8206/ba8206.h:47-51 | the four timer bits are pairwise disjoint, and any OR of them stays in the low nibble (at most 15) |
| Panel.ModeTablesInverse | esphome/components/ba8206/ba8206.h:74-86 | FANMODE_STR and FANMODE_ID are inverse bijections between the ids 0..3 and the four preset names |
| Panel.HalfHoursText | esphome/components/ba8206/ba8206.h:89-103 | an independent definition of the i-th timer text, "<i/2>.<0 or 5>h" |
| Panel.TimerIndex | esphome/components/ba8206/ba8206.h:88-103 | reads a timer text back to a bitmask in 0..15 |
| Panel.HalfHoursTextRoundTrip | esphome/components/ba8206/ba8206.h:89-103 | reading the text for i half hours gives back i |
| Panel.TimerTableShape | esphome/components/ba8206/ba8206.h:106-123 | the timer table has 16 entries: "---" and then i half hours for i = 1..15 |
| Panel.TimerTableRoundTrip | esphome/components/ba8206/ba8206.h:106-123 | every bitmask 0..15 reads back from its table text |
| Panel.TimerTableInjective | esphome/components/ba8206/ba8206.h:106-123 | no two bitmasks share a timer text |
| Panel.ButtonLayout | esphome/components/ba8206/ba8206.h:125-131 | OFF/ONOFF and SPEED/ONSPEED share a line, and the five remaining buttons are on distinct lines |
| Matrix.LedStatus | esphome/components/ba8206/ba8206.cpp:67 | the status keeps bits 7..1 of the read byte and clears the swing bit 0 |
| Matrix.RowAsserted | esphome/components/ba8206/ba8206.cpp:68-71 | row r is scanned iff status bit 0x80 >> r is set |
| Matrix.ColumnLow | esphome/components/ba8206/ba8206.cpp:72-74 | column c is lit iff status bit 0x08 >> c is clear (active low) |
| Matrix.CellLit | esphome/components/ba8206/ba8206.cpp:76-82 | a sample counts for cell (r, c) iff bit 7-r of the raw byte is set and bit 3-c is clear |
| Matrix.SwingBitIgnored | esphome/components/ba8206/ba8206.cpp:67 | flipping the swing bit 0 never changes which cells a sample counts for |
| Matrix.Accumulate | esphome/components/ba8206/ba8206.cpp:76-86 | one sample adds 1 to exactly the cells it lights, and every other counter keeps its value |
| Matrix.AccumulateBound | esphome/components/ba8206/ba8206.cpp:76-88 | counters bounded by n stay bounded by n + 1 after one sample |
| Matrix.Lit | esphome/components/ba8206/ba8206.cpp:97 | a count is lit iff it exceeds 2, that is iff at least 3 samples of the window lit the cell |
| Matrix.Threshold | esphome/components/ba8206/ba8206.cpp:93-100 | a cell is lit iff its count exceeds the threshold |
| Matrix.DecodeSpeed | esphome/components/ba8206/ba8206.cpp:102-105 | Low iff (2,1) is lit, Medium iff (1,1) but not (2,1), High iff only (0,1), and Off iff none of them |
| Matrix.DecodeOscillation | esphome/components/ba8206/ba8206.cpp:107-108 | never invalid, and On iff (0,2) is lit |
| Matrix.DecodeMode | esphome/components/ba8206/ba8206.cpp:110-113 | Sleep iff (2,2) is lit, Nature iff (3,1) but not (2,2), Normal iff only (3,2), and Off iff none of them |
| Matrix.DecodeTimer | esphome/components/ba8206/ba8206.cpp:115-119 | the mask is at most 15, and its bit k is set iff cell (3-k, 0) is lit |
| Matrix.Decode | esphome/components/ba8206/ba8206.cpp:102-119 | every decoded state is real, with no sentinel in any field |
| Sampling.TimerTextEvent | esphome/components/ba8206/ba8206.cpp:306-309 | the text sent for a timer mask is one of the 16 table texts, is "---" exactly for mask 0, and reads back as that mask |
| Sampling.MirrorChanges | esphome/components/ba8206/ba8206.cpp:121-153 | with no speed, oscillation or mode change the entity is untouched, and the entity speed stays in 0..3 |
| Sampling.MirrorChangesMirrors | esphome/components/ba8206/ba8206.cpp:121-153 | afterwards the entity shows the decoded state: on iff the speed is not Off, the speed code, the oscillation and the preset name |
| Sampling.Reconcile | esphome/components/ba8206/ba8206.cpp:121-165 | the stored state becomes the decoded state, and the entity gets the mirrored fields |
| Sampling.ReconcileEvents | esphome/components/ba8206/ba8206.cpp:121-165 | it publishes iff speed, oscillation or mode changed, and sends the timer text iff the timer changed; nothing else, at most two events |
| Sampling.ColdStartPublishes | esphome/components/ba8206/ba8206.cpp:121-165 | the first window after setup publishes whatever it decodes, because the stored state is the sentinel |
| Sampling.Initial | esphome/components/ba8206/ba8206.cpp:38-43 | the state after setup satisfies the decoder invariant |
| Sampling.Due | esphome/components/ba8206/ba8206.cpp:53-54 | without a wrap of millis() the gate opens iff now - last_run reaches the interval; across a wrap iff now + 2^32 - last_run does |
| Sampling.EndWindow | esphome/components/ba8206/ba8206.cpp:89-165 | a closed window restarts at step 0 with zero counters, stores a real state and only appends events |
| Sampling.Sample | esphome/components/ba8206/ba8206.cpp:67-165 | within a window the step advances with the stored state and events unchanged; the 32nd sample closes the window; events are only appended |
| Sampling.SampleKeepsConsistent | esphome/components/ba8206/ba8206.cpp:67-165 | a sample keeps every counter between 0 and the window step (below 32), and keeps the entity mirroring the stored state |
| Sampling.UpdateState | esphome/components/ba8206/ba8206.cpp:51-170 | nothing changes before the interval elapses (unsigned 32-bit difference); a failed read only moves the last poll time; the invariant is kept; events are only appended |
| Sampling.SampleAllCounts | esphome/components/ba8206/ba8206.cpp:76-88 | inside a window each counter grows by the number of samples that lit its cell |
| Sampling.WindowDebounce | esphome/components/ba8206/ba8206.cpp:76-119 | 32 reads from a fresh window store the decoding of the grid where a cell is lit iff more than 2 of the 32 samples lit it, and leave the window fresh |
| Sampling.RepeatedWindowIsQuiet | esphome/components/ba8206/ba8206.cpp:121-165 | a window that decodes to the stored state publishes nothing and leaves the entity as it was |
| Sampling.ColdStartThenQuiet | esphome/components/ba8206/ba8206.cpp:51-170 | after setup a full window publishes, and the same 32 samples again publish nothing |
| Sampling.OnlyMediumLit | esphome/components/ba8206/ba8206.cpp:102-119 | a grid with only (1,1) lit decodes as Medium, oscillation Off, mode Off, no timer |
| Commands.CyclicPresses | esphome/components/ba8206/ba8206.cpp:257-261 | the press count is in 0..3; it is 0 iff already at a real target; between real positions it is the forward distance mod 3 |
| Commands.CyclicPressesReach | esphome/components/ba8206/ba8206.cpp:255-262 | that many presses of a cycling button reach the target, and no fewer do |
| Commands.ModeId | esphome/components/ba8206/ba8206.cpp:279-280 | the id is in 0..3 and names the preset back, or is 0 for an unknown name |
| Commands.Repeat | esphome/components/ba8206/ba8206.cpp:261 | n copies of the button |
| Commands.OnButton | esphome/components/ba8206/ba8206.cpp:243-252 | the on button is the OFF line with independent on/off wiring, and the SPEED line otherwise |
| Commands.SpeedPresses | esphome/components/ba8206/ba8206.cpp:255-261 | speed presses only inside an "on" request naming a different speed; then exactly the presses that reach the requested speed, and no fewer would |
| Commands.SwingRequested | esphome/components/ba8206/ba8206.cpp:267-272 | a swing press iff the call asks for the toggled oscillation |
| Commands.PresetPresses | esphome/components/ba8206/ba8206.cpp:275-283 | mode presses only while on, for a preset other than "---" and the current one; for a table preset at least one, exactly the presses that reach it, and no fewer would |
| Commands.PowerPresses | esphome/components/ba8206/ba8206.cpp:233-265 | "off" queues exactly OFF; "on" queues the on button if the fan is off, then the speed presses; only OFF and SPEED appear |
| Commands.ControlPresses | esphome/components/ba8206/ba8206.cpp:233-284 | an "off" request, or "on" on a fan that is off, starts with that power button |
| Commands.ControlPressesCounts | esphome/components/ba8206/ba8206.cpp:233-284 | the number of presses of each button, with no MODE presses while the fan is off, and never TIMER or any other line |
| Commands.ControlPressesInStageOrder | esphome/components/ba8206/ba8206.cpp:233-284 | power and speed presses come before the swing press, which comes before the preset presses |
| Commands.NoOpCallQueuesNothing | esphome/components/ba8206/ba8206.cpp:233-284 | a call asking for nothing different (and not "off") queues no button |
| Commands.WriteGpio | esphome/components/ba8206/ba8206.cpp:183-191 | the two bytes sent, low byte first, reassemble to the complement of the value |
| Commands.PressValue | esphome/components/ba8206/ba8206.cpp:203 | the press value of button b has bit b set and every other bit clear |
| Commands.PressDrivesOneLine | esphome/components/ba8206/ba8206.cpp:202-207 | a press drives exactly the button's line low, and a release drives every line high |
| Sequencing.PressFront | esphome/components/ba8206/ba8206.cpp:202-204 | the front button's press is written and "button_off" becomes pending, with the queue kept |
| Sequencing.PressStep | esphome/components/ba8206/ba8206.cpp:211-216 | "button_on" presses the front button and keeps the sequencer invariant |
| Sequencing.ReleaseStep | esphome/components/ba8206/ba8206.cpp:206-221 | "button_off" writes the release, drops the front button, keeps the invariant, and processing ends iff the queue is empty |
| Sequencing.RunTimeouts | esphome/components/ba8206/ba8206.cpp:204-222 | the pending timeouts fire ("button_on" first when both are pending) until none is left to fire |
| Sequencing.RunTimeoutsSettles | esphome/components/ba8206/ba8206.cpp:193-223 | from any valid state the timeouts empty the queue, clear processing and leave no timeout pending, only appending writes (with "button_on" firing first when both are pending) |
| Sequencing.PressCycleShape | esphome/components/ba8206/ba8206.cpp:193-223 | write 2i presses the i-th queued button and write 2i+1 releases every line |
| Sequencing.DrainInOrder | esphome/components/ba8206/ba8206.cpp:193-223 | after the first press the timeouts press and release each queued button in queue order, then stop processing |
| Fan.FanBA8206.constructor | esphome/components/ba8206/ba8206.cpp:23-44 | zero counters, the sentinel stored state, the "---" timer text, an idle sequencer, and the invariant |
| Fan.FanBA8206.AccumulateSample | esphome/components/ba8206/ba8206.cpp:67-86 | each counter grows by one exactly when the sample lights its cell |
| Fan.FanBA8206.ThresholdAndClear | esphome/components/ba8206/ba8206.cpp:91-100 | each lit flag is its old count over the threshold, and every counter is zero |
| Fan.DecodeLeds | esphome/components/ba8206/ba8206.cpp:102-119 | the decoded state is Decode of the lit grid |
| Fan.FanBA8206.StoreSpeed | esphome/components/ba8206/ba8206.cpp:123-137 | a new speed is stored; Off turns the entity off, and any other speed turns it on at that speed |
| Fan.FanBA8206.StoreOscillation | esphome/components/ba8206/ba8206.cpp:139-145 | a new oscillation is stored and mirrored |
| Fan.FanBA8206.StoreMode | esphome/components/ba8206/ba8206.cpp:147-153 | a new mode is stored, and the entity shows its name |
| Fan.FanBA8206.StoreFields | esphome/components/ba8206/ba8206.cpp:121-160 | the decoded state is stored, the entity changes as MirrorChanges says, and the change flags are reported |
| Fan.FanBA8206.StoreDecoded | esphome/components/ba8206/ba8206.cpp:121-165 | stored state, entity and events change as Reconcile says |
| Fan.FanBA8206.CloseWindow | esphome/components/ba8206/ba8206.cpp:88-167 | the counters are cleared, the step is 0, and the window's decoding is reconciled |
| Fan.FanBA8206.TakeSample | esphome/components/ba8206/ba8206.cpp:67-167 | the decoder view moves as Sample says, and the sequencer is untouched |
| Fan.FanBA8206.UpdateState | esphome/components/ba8206/ba8206.cpp:51-170 | the decoder view moves as Sampling.UpdateState says, keeping the decoder invariant |
| Fan.FanBA8206.Loop | esphome/components/ba8206/ba8206.cpp:172-181 | no sampling while processing, otherwise one update_state; the invariant is kept |
| Fan.FanBA8206.ProcessCommand | esphome/components/ba8206/ba8206.cpp:193-223 | an empty queue polls once and clears processing; otherwise the front button is pressed with the decoder untouched |
| Fan.FanBA8206.FireRelease | esphome/components/ba8206/ba8206.cpp:206-222 | the sequencer moves as ReleaseStep says, and an emptied queue polls once more; the invariant is kept |
| Fan.FanBA8206.FirePress | esphome/components/ba8206/ba8206.cpp:211-216 | the sequencer moves as PressStep says, and the invariant is kept |
| Fan.FanBA8206.QueuePower | esphome/components/ba8206/ba8206.cpp:233-265 | appends PowerPresses for the entity as it was, and nothing else changes |
| Fan.FanBA8206.QueueSwing | esphome/components/ba8206/ba8206.cpp:267-273 | appends one SWING iff the call names a different oscillation |
| Fan.FanBA8206.QueuePreset | esphome/components/ba8206/ba8206.cpp:275-284 | appends PresetPresses MODE presses |
| Fan.FanBA8206.QueueCall | esphome/components/ba8206/ba8206.cpp:233-284 | appends ControlPresses for the entity as it was |
| Fan.FanBA8206.Control | esphome/components/ba8206/ba8206.cpp:225-294 | dropped while processing; otherwise the queue is ControlPresses, and if it is non-empty its first button is pressed and the timeouts drain it in order, then stop |
| Fan.FanBA8206.PressTimer | esphome/components/ba8206/ba8206.cpp:321-330 | with the fan on, TIMER is queued, processing is set and the front button is pressed again; with the fan off nothing changes |

## Left out

- The I2C transport is not modelled. A read is an input (`Env.read`), with `None` for a failed read. A write is an entry in the `writes` log. A failed write is only logged, so it is not modelled.
- `millis()` is an input (`Env.now`). The 50 ms delays of `set_timeout` are not modelled. A pending timeout is a flag, and a method fires it. The model does not constrain the order in which the host fires the timeouts relative to `loop`.
- Sequencing.RunTimeouts fires a pending "button_on" before a pending "button_off". Both are pending only after the set-timer button sets "button_off" while "button_on" is still waiting, and then "button_on" is due first. The model does not measure time, so a tie in the same millisecond, where the host could fire them the other way round, is not modelled.
- Commands.Next: how the panel reacts to a press is not given by the component's code; the model assumes the speed and mode buttons step 1 -> 2 -> 3 -> 1, and from 0 to 1. CyclicPressesReach, SpeedPresses and PresetPresses rely on this assumed button model; the code's "+3" count presumes it too.
- `publish_state` and the text sensor's publishing are events in the `events` log. Their delivery to Home Assistant is not modelled.
- Restoring a saved state in `setup` (`restore_state_`, `apply`), the fan traits, `dump_config` and logging are not modelled. The `fan.py` code generation and configuration schema are not part of this model.
- Commands.ModeId: `std::map::operator[]` on an unknown name also inserts that name into FANMODE_ID. The model keeps only the value it returns (0).
- Fan.FanBA8206.Control: requires a call speed in 1..3. This relies on ESPHome's fan call validation, which clamps the speed to the supported speed count (3). The `uint8_t` casts in the speed and preset arithmetic are exact for these values.
- Sampling.Due: the interval is compared as an integer. The configuration schema (fan.py) requires an interval of at least 1, so the conversion of a negative `interval_ms_` to unsigned in the C++ comparison is not modelled.
- The `uint8_t` counters and `sample_step` are unbounded integers in the model. The window invariant proves they stay at most 32, so they cannot wrap.
- The preset names keep their emoji as Unicode escapes. The timer texts are the 16 fixed strings of the table.
