/** The button sequencer as a function of its state: the queue of button
    presses, the processing flag, the two pending timeouts ("button_off"
    releases the held button, "button_on" presses the next one) and the
    writes to the output expander. A named timeout replaces a pending one of
    the same name, so each is a flag. */
module Sequencing {
  import opened Panel
  import opened Commands

  datatype Sequencer = Sequencer(
    queue: seq<ButtonBit>, processing: bool, releaseDue: bool, pressDue: bool, writes: seq<BusWrite>)

  /** The component processes exactly while buttons are queued, and then a
      timeout is pending; a pending release means the front button is held
      (the last write pressed it), otherwise every line is released; a
      pending press has a button to press, and while a release is also
      pending, a second one. */
  predicate SequencerInv(s: Sequencer) {
    && (s.processing <==> s.queue != [])
    && (s.queue != [] ==> s.releaseDue || s.pressDue)
    && (s.releaseDue ==>
          s.queue != [] && s.writes != [] && s.writes[|s.writes| - 1] == WriteGpio(PressValue(s.queue[0])))
    && (!s.releaseDue ==> s.writes == [] || s.writes[|s.writes| - 1] == WriteGpio(0))
    && (s.pressDue ==> s.queue != [])
    && (s.pressDue && s.releaseDue ==> |s.queue| >= 2)
  }

  /** The press half of process_command on a non-empty queue: drive the
      front button's line low and set the "button_off" timeout. */
  function PressFront(s: Sequencer): (t: Sequencer)
    requires s.queue != []
    ensures t.queue == s.queue && t.releaseDue
    ensures t.writes == s.writes + [WriteGpio(PressValue(s.queue[0]))]
  {
    s.(releaseDue := true, writes := s.writes + [WriteGpio(PressValue(s.queue[0]))])
  }

  /** The "button_on" timeout: press the front button again. */
  function PressStep(s: Sequencer): (t: Sequencer)
    requires s.queue != []
    ensures SequencerInv(s) ==> SequencerInv(t)
    ensures t.queue == s.queue && !t.pressDue && t.releaseDue
  {
    PressFront(s.(pressDue := false))
  }

  /** The "button_off" timeout: release every line and drop the front
      button; with more queued, set the "button_on" timeout, otherwise stop
      processing. */
  function ReleaseStep(s: Sequencer): (t: Sequencer)
    requires s.queue != []
    ensures SequencerInv(s) && s.releaseDue ==> SequencerInv(t)
    ensures t.queue == s.queue[1..] && !t.releaseDue
    ensures t.writes == s.writes + [WriteGpio(0)]
    ensures t.queue == [] <==> !t.processing
  {
    var rest := s.queue[1..];
    s.(queue := rest, releaseDue := false, writes := s.writes + [WriteGpio(0)],
       pressDue := if rest != [] then true else s.pressDue,
       processing := rest != [])
  }

  /** Let the pending timeouts fire until none is left. When both are
      pending, "button_on" was set first (the set-timer button sets
      "button_off" while "button_on" waits), so it fires first. The result
      has no timeout left to fire. */
  function RunTimeouts(s: Sequencer): (t: Sequencer)
    ensures t.queue == [] || (!t.releaseDue && !t.pressDue)
    decreases 3 * |s.queue| + (if s.pressDue then 2 else 0) + (if s.releaseDue then 1 else 0)
  {
    if s.pressDue && s.queue != [] then RunTimeouts(PressStep(s))
    else if s.releaseDue && s.queue != [] then RunTimeouts(ReleaseStep(s))
    else s
  }

  /** From any state the invariant allows, the timeouts drain the queue
      and leave the sequencer idle, with every line released. */
  lemma {:induction false} RunTimeoutsSettles(s: Sequencer)
    requires SequencerInv(s)
    ensures var t := RunTimeouts(s);
      && SequencerInv(t) && t.queue == [] && !t.processing && !t.releaseDue && !t.pressDue
      && |s.writes| <= |t.writes| && t.writes[..|s.writes|] == s.writes
    decreases 3 * |s.queue| + (if s.pressDue then 2 else 0) + (if s.releaseDue then 1 else 0)
  {
    if s.pressDue && s.queue != [] {
      RunTimeoutsSettles(PressStep(s));
    } else if s.releaseDue && s.queue != [] {
      RunTimeoutsSettles(ReleaseStep(s));
    }
  }

  /** The writes of a drain: for each queued button in order, the press of
      its line and then the release of every line. */
  function PressCycle(q: seq<ButtonBit>): seq<BusWrite> {
    if q == [] then [] else [WriteGpio(PressValue(q[0])), WriteGpio(0)] + PressCycle(q[1..])
  }

  /** Write 2i presses the i-th queued button and write 2i + 1 releases it. */
  lemma {:induction false} PressCycleShape(q: seq<ButtonBit>)
    ensures |PressCycle(q)| == 2 * |q|
    ensures forall i :: 0 <= i < |q| ==>
      PressCycle(q)[2 * i] == WriteGpio(PressValue(q[i])) && PressCycle(q)[2 * i + 1] == WriteGpio(0)
  {
    if q != [] {
      PressCycleShape(q[1..]);
      var w := PressCycle(q);
      forall i | 0 <= i < |q|
        ensures w[2 * i] == WriteGpio(PressValue(q[i])) && w[2 * i + 1] == WriteGpio(0)
      {
        if i > 0 {
          assert w[2 * i] == PressCycle(q[1..])[2 * (i - 1)];
          assert w[2 * i + 1] == PressCycle(q[1..])[2 * (i - 1) + 1];
        }
      }
    }
  }

  /** Once the first button of a fresh queue is pressed, the timeouts press
      and release the queued buttons one by one, first in first out, and
      then stop processing. */
  lemma {:induction false} DrainInOrder(q: seq<ButtonBit>, w: seq<BusWrite>)
    requires q != []
    ensures RunTimeouts(PressFront(Sequencer(q, true, false, false, w))) == Sequencer([], false, false, false, w + PressCycle(q))
  {
    var s := PressFront(Sequencer(q, true, false, false, w));
    var s1 := ReleaseStep(s);
    var w1 := w + [WriteGpio(PressValue(q[0])), WriteGpio(0)];
    assert RunTimeouts(s) == RunTimeouts(s1);
    assert PressCycle(q) == [WriteGpio(PressValue(q[0])), WriteGpio(0)] + PressCycle(q[1..]);
    if q[1..] == [] {
      assert s1 == Sequencer([], false, false, false, w1);
    } else {
      var s2 := PressStep(s1);
      assert s1 == Sequencer(q[1..], true, false, true, w1);
      assert s2 == PressFront(Sequencer(q[1..], true, false, false, w1));
      DrainInOrder(q[1..], w1);
    }
  }
}
