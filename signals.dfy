/** The signal controller as the object the simulation mutates: its four
    state fields change in place, and each handler repaints the shared
    registry and returns the timer it would hand to the scheduler. Every
    method is proved against the matching function of SignalLogic. */
module Signals {
  import opened Approaches
  import opened SignalLogic

  class SignalController {
    const stoplines: Registry

    var phase: Phase
    var light: Light
    var priorityRequested: bool
    var extensionUsed: bool

    /** The abstract state the SignalLogic functions work on. */
    function State(): Signal
      reads this
    {
      Signal(phase, light, priorityRequested, extensionUsed)
    }

    /** Object invariant: every grouped key has a stop line, and the registry
        shows the current phase and light state. */
    ghost predicate Valid()
      reads this, stoplines
    {
      Consistent(stoplines.lines, State())
    }

    /** Starts in (NS, GREEN) with both flags clear and paints the registry.
        The registry must hold every grouped key: painting looks each one up. */
    constructor (stoplines: Registry)
      requires KeysPresent(stoplines.lines)
      modifies stoplines
      ensures this.stoplines == stoplines
      ensures State() == Init
      ensures stoplines.lines == Painted(old(stoplines.lines), Init)
      ensures Valid()
    {
      this.stoplines := stoplines;
      phase := NS;
      light := GreenLight;
      priorityRequested := false;
      extensionUsed := false;
      new;
      ApplyColours();
    }

    /** Repaints every NS stop line, then every EW one, for the current state. */
    method ApplyColours()
      requires KeysPresent(stoplines.lines)
      modifies stoplines
      ensures stoplines.lines == Painted(old(stoplines.lines), State())
      ensures Valid()
    {
      var ns, ew;
      if phase == NS {
        ns := if light == GreenLight then Green else Yellow;
        ew := Red;
      } else {
        ew := if light == GreenLight then Green else Yellow;
        ns := Red;
      }
      ghost var before := stoplines.lines;
      PaintGroup(NsKeys, ns);
      ghost var afterNs := stoplines.lines;
      PaintGroup(EwKeys, ew);
      PaintedInGroupOrder(before, afterNs, stoplines.lines, State(), ns, ew);
      PaintedIsConsistent(before, State());
    }

    /** One of the two loops of apply_colours: paints every stop line of
        `keys` with `c`, one at a time, and leaves every other entry alone. */
    method PaintGroup(keys: seq<Key>, c: Colour)
      requires forall k :: k in keys ==> k in stoplines.lines
      modifies stoplines
      ensures stoplines.lines.Keys == old(stoplines.lines).Keys
      ensures forall k :: k in old(stoplines.lines) ==>
        stoplines.lines[k] == if k in keys then old(stoplines.lines)[k].(colour := c) else old(stoplines.lines)[k]
    {
      ghost var before := stoplines.lines;
      var i := 0;
      while i < |keys|
        invariant 0 <= i <= |keys|
        invariant stoplines.lines.Keys == before.Keys
        invariant forall k :: k in before ==>
          stoplines.lines[k] == if k in keys[..i] then before[k].(colour := c) else before[k]
      {
        var k := keys[i];
        assert keys[..i + 1] == keys[..i] + [k];
        stoplines.lines := stoplines.lines[k := stoplines.lines[k].(colour := c)];
        i := i + 1;
      }
      assert keys[..i] == keys;
    }

    /** start: schedules the first transition from the current state. */
    method Start() returns (t: Timer)
      modifies this
      ensures (State(), t) == ScheduleStep(old(State()))
      ensures old(Valid()) ==> Valid()
    {
      t := ScheduleNext();
    }

    /** Grants a priority request only during GREEN, only for a known stop
        line of the active group; a grant sets the request flag. */
    method RequestPriority(approach: Key) returns (granted: bool)
      modifies this
      ensures (granted, State()) == RequestStep(old(State()), approach, approach in stoplines.lines)
      ensures old(Valid()) ==> Valid()
    {
      if light != GreenLight {
        return false;
      }
      if approach !in stoplines.lines {
        return false;
      }
      if approach in NsKeys && phase == NS {
        priorityRequested := true;
        return true;
      }
      if approach in EwKeys && phase == EW {
        priorityRequested := true;
        return true;
      }
      return false;
    }

    /** Decides how long until the next transition and which callback runs
        then; in GREEN it may take the one extension. */
    method ScheduleNext() returns (t: Timer)
      modifies this
      ensures (State(), t) == ScheduleStep(old(State()))
      ensures old(Valid()) ==> Valid()
    {
      if light == GreenLight {
        var delay := GreenTime;
        if priorityRequested && !extensionUsed {
          delay := delay + ExtensionTime;
          extensionUsed := true;
        }
        t := Timer(CallToYellow, delay);
      } else {
        t := Timer(CallSwapPhase, YellowTime);
      }
    }

    /** to_yellow: light to YELLOW, repaint, schedule the swap. */
    method ToYellow() returns (t: Timer)
      requires KeysPresent(stoplines.lines)
      modifies this, stoplines
      ensures (State(), t) == ToYellowStep(old(State()))
      ensures stoplines.lines == Painted(old(stoplines.lines), State())
      ensures Valid()
    {
      light := YellowLight;
      ApplyColours();
      t := ScheduleNext();
    }

    /** swap_phase: toggle the phase, back to GREEN, clear both flags,
        repaint, schedule the next GREEN expiry. */
    method SwapPhase() returns (t: Timer)
      requires KeysPresent(stoplines.lines)
      modifies this, stoplines
      ensures (State(), t) == SwapPhaseStep(old(State()))
      ensures stoplines.lines == Painted(old(stoplines.lines), State())
      ensures Valid()
    {
      phase := if phase == NS then EW else NS;
      light := GreenLight;
      priorityRequested := false;
      extensionUsed := false;
      ApplyColours();
      t := ScheduleNext();
    }

    /** The colour last painted on a stop line. On a valid controller an NS
        line shows green or yellow while NS is active and red otherwise, and
        the mirror for EW. */
    function GetColour(approach: Key): (c: Colour)
      reads this, stoplines
      requires approach in stoplines.lines
      ensures Valid() && approach in NsKeys ==> c == Shown(State(), NS)
      ensures Valid() && approach in EwKeys ==> c == Shown(State(), EW)
    {
      stoplines.lines[approach].colour
    }
  }
}
