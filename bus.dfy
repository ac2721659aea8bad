/** The bus as the object the simulation mutates once per tick. The turtle
    that draws it (its position, heading, path and target corner) is folded
    into the bus's own fields. Move is proved against BusLogic.Tick and
    SignalLogic.RequestStep. */
module Buses {
  import opened Approaches
  import opened SignalLogic
  import opened BusLogic
  import opened Signals

  /** The route's stop lines alternate NS, EW, NS, EW. */
  lemma RouteAlternatesPhases()
    ensures |Route| == 4
    ensures forall i :: 0 <= i < |Route| ==> ApproachPhase(Route[i]) == Some(if i % 2 == 0 then NS else EW)
  {
    assert Route[0] in NsKeys && Route[2] in NsKeys;
    assert Route[1] in EwKeys && Route[3] in EwKeys;
  }

  class Bus {
    const controller: SignalController
    const stoplines: Registry
    const path: seq<Point>

    var pos: Point
    var heading: int
    var targetIndex: nat
    var approachIndex: nat
    var step: real
    var isLate: bool
    var priorityRequested: bool

    /** The abstract state BusLogic.Tick works on. */
    function State(): BusState
      reads this
    {
      BusState(pos, heading, targetIndex, approachIndex, step, isLate, priorityRequested)
    }

    ghost predicate Valid()
      reads this
    {
      |path| == 4 && WellFormed(State())
    }

    /** Placed on the first corner of the outer ring lane, heading east
        towards the second corner, attending to the first stop line of the
        route, at GO speed, on time, with no request filed. */
    constructor (controller: SignalController, stoplines: Registry, margin: real, roadWidth: real)
      ensures this.controller == controller && this.stoplines == stoplines
      ensures path == Corners(margin, roadWidth)
      ensures State() == BusState(path[0], 0, 1, 0, GoSpeed, false, false)
      ensures Valid()
    {
      this.controller := controller;
      this.stoplines := stoplines;
      path := Corners(margin, roadWidth);
      step := GoSpeed;
      approachIndex := 0;
      isLate := false;
      priorityRequested := false;
      new;
      pos := path[0];
      targetIndex := 1;
      heading := 0;
    }

    /** Where a stop line stands. */
    function StopPointFor(key: Key): Point
      reads this, stoplines
      requires key in stoplines.lines
    {
      stoplines.lines[key].at
    }

    /** One tick: read the colour of the current stop line, measure the
        distance to it along the travel axis, pick a speed, file a priority
        request if late and close, then either snap onto the corner and move
        on to the next leg, or step forward along one axis. The controller
        changes only through the request, and only when the bus asks. */
    method Move()
      requires Valid()
      requires Route[approachIndex] in stoplines.lines
      requires Route[approachIndex] in controller.stoplines.lines
      modifies this, controller
      ensures Valid()
      ensures old(controller.Valid()) ==> controller.Valid()
      ensures var a := Route[old(approachIndex)];
              var stop := stoplines.lines[a].at;
              var asked := WantsPriority(old(isLate), old(priorityRequested),
                                         DistRemaining(old(pos), path[old(targetIndex)], stop));
              var (granted, requestedState) := RequestStep(old(controller.State()), a, true);
              controller.State() == (if asked then requestedState else old(controller.State())) &&
              State() == Tick(old(State()), path, Reading(stop, controller.stoplines.lines[a].colour, asked && granted))
    {
      var target := path[targetIndex];
      var approach := Route[approachIndex];
      var colour := controller.GetColour(approach);
      var stop := StopPointFor(approach);

      // The axis the bus is moving along
      var distToStop, direction;
      if Abs(target.x - pos.x) >= GoSpeed {
        distToStop := stop.x - pos.x;
        direction := if target.x > pos.x then 1.0 else -1.0;
      } else {
        distToStop := stop.y - pos.y;
        direction := if target.y > pos.y then 1.0 else -1.0;
      }
      var distRemaining := distToStop * direction;
      assert distRemaining == DistRemaining(pos, target, stop) by {
        if direction > 0.0 {
          assert distRemaining == distToStop;
        } else {
          assert distRemaining == -distToStop;
        }
      }

      step := DecideSpeed(colour, distRemaining);
      RequestIfLate(approach, distRemaining);
      Drive(target);
    }

    /** The priority request of move: a late bus with no request granted on
        this leg asks while the stop line is strictly ahead within the request
        zone, and records only a granted request. */
    method RequestIfLate(approach: Key, distRemaining: real)
      requires approach in controller.stoplines.lines
      modifies this`priorityRequested, controller
      ensures old(controller.Valid()) ==> controller.Valid()
      ensures var asked := WantsPriority(isLate, old(priorityRequested), distRemaining);
              var (granted, requestedState) := RequestStep(old(controller.State()), approach, true);
              controller.State() == (if asked then requestedState else old(controller.State())) &&
              priorityRequested == (old(priorityRequested) || (asked && granted))
    {
      if isLate && !priorityRequested && 0.0 < distRemaining < RequestZone {
        var ok := controller.RequestPriority(approach);
        if ok {
          priorityRequested := true;
        }
      }
    }

    /** The movement of move: on reaching the target corner, snap onto it,
        advance both indices and clear the request flag; otherwise turn
        towards the target along one axis and step forward by the speed. */
    method Drive(target: Point)
      requires Valid() && target == path[targetIndex]
      modifies this`pos, this`heading, this`targetIndex, this`approachIndex, this`priorityRequested
      ensures Valid()
      ensures State() == DriveStep(old(State()), path)
    {
      var dx := target.x - pos.x;
      var dy := target.y - pos.y;

      // Reached the target corner?
      if Abs(dx) < GoSpeed && Abs(dy) < GoSpeed {
        assert |Route| == 4 && (targetIndex + 1) % |path| == NextIndex(targetIndex);
        pos := target;
        targetIndex := (targetIndex + 1) % |path|;
        approachIndex := (approachIndex + 1) % |Route|;
        priorityRequested := false;
        return;
      }

      if Abs(dx) >= GoSpeed {
        heading := if dx > 0.0 then 0 else 180;
      } else {
        heading := if dy > 0.0 then 90 else 270;
      }
      pos := Forward(pos, heading, step);
    }
  }
}
