/** One tick of the bus as a pure function of what it sees: the axis it
    travels on, the signed distance to the current stop line, the speed it
    picks from the colour and the zone radii, whether it files a priority
    request, and how it moves or reaches its corner. Positions are exact
    reals; the bus's 4-corner path is cyclic. */
module BusLogic {
  import opened Approaches

  // Driving speeds (distance per tick)
  const GoSpeed: real := 4.0
  const SlowSpeed: real := 1.5
  const StopSpeed: real := 0.0

  // Zone radii, measured back from the stop line
  const SlowZone: real := 100.0
  const StopZone: real := 60.0
  const RequestZone: real := 120.0

  /** The stop line the bus attends to on each leg, in path order. */
  const Route: seq<Key> := ["RN_S", "RE_S", "RS_S", "RW_S"]

  function Abs(r: real): real
  {
    if r < 0.0 then -r else r
  }

  /** The corners of the outer ring lane, the bus's cyclic path. The lane
      lies a quarter road width outside the middle of the ring road, whose
      inner edge is a road width inside the margin; so it runs at
      margin - roadWidth/4 from the centre. The corners go counterclockwise
      from the south-west one: the first leg runs east. */
  function Corners(margin: real, roadWidth: real): (path: seq<Point>)
    ensures var lane := margin - roadWidth / 4.0;
            path == [Point(-lane, -lane), Point(lane, -lane), Point(lane, lane), Point(-lane, lane)]
    ensures |path| == 4
    ensures path[0].y == path[1].y && path[1].x == path[2].x && path[2].y == path[3].y && path[3].x == path[0].x
    ensures path[0].x == path[0].y && path[2].x == path[2].y && path[1].x == -path[0].x && path[3].y == -path[0].y
  {
    var half := roadWidth / 2.0;
    var lane := (margin - roadWidth) + half + half / 2.0;
    [Point(-lane, -lane), Point(lane, -lane), Point(lane, lane), Point(-lane, lane)]
  }

  datatype Axis = Horizontal | Vertical

  /** The bus travels horizontally while the target is at least one GO step
      away in x, and vertically after that. */
  function TravelAxis(pos: Point, target: Point): Axis
  {
    if Abs(target.x - pos.x) >= GoSpeed then Horizontal else Vertical
  }

  function Coord(p: Point, a: Axis): real
  {
    if a == Horizontal then p.x else p.y
  }

  /** +1 when the target lies in the positive direction on the travel axis,
      -1 otherwise. */
  function Direction(pos: Point, target: Point): (d: real)
    ensures d == 1.0 || d == -1.0
    ensures d * d == 1.0
  {
    var a := TravelAxis(pos, target);
    if Coord(target, a) > Coord(pos, a) then 1.0 else -1.0
  }

  /** Signed distance to the stop line along the travel axis, positive while
      the stop line is still ahead. */
  function DistRemaining(pos: Point, target: Point, stop: Point): real
  {
    var a := TravelAxis(pos, target);
    var gap := Coord(stop, a) - Coord(pos, a);
    if Direction(pos, target) > 0.0 then gap else -gap
  }

  /** The distance is the offset to the stop line on the travel axis times
      the direction of travel, as the bus computes it. */
  lemma DistRemainingIsOffsetTimesDirection(pos: Point, target: Point, stop: Point)
    ensures var a := TravelAxis(pos, target);
            DistRemaining(pos, target, stop) == (Coord(stop, a) - Coord(pos, a)) * Direction(pos, target)
  {
  }

  /** The distance is the gap to the stop line along the travel axis, and it
      is positive exactly when the stop line lies strictly between the bus and
      the side the target is on. */
  lemma DistRemainingMeaning(pos: Point, target: Point, stop: Point)
    ensures var a := TravelAxis(pos, target);
            Abs(DistRemaining(pos, target, stop)) == Abs(Coord(stop, a) - Coord(pos, a)) &&
            (DistRemaining(pos, target, stop) > 0.0 <==>
              if Coord(target, a) > Coord(pos, a) then Coord(stop, a) > Coord(pos, a)
              else Coord(stop, a) < Coord(pos, a))
  {
  }

  /** The speed for this tick. It is 0 exactly for a red light with the stop
      line at most the stop zone ahead; it is the slow speed exactly for red
      or yellow with the stop line in the slow zone beyond that; in every
      other case (green, yellow close to the line, past the line, far away)
      it is the GO speed. */
  function DecideSpeed(colour: Colour, dist: real): (speed: real)
    ensures speed == StopSpeed <==> colour == Red && 0.0 < dist <= StopZone
    ensures speed == SlowSpeed <==> (colour == Red || colour == Yellow) && StopZone < dist <= SlowZone
    ensures speed == GoSpeed <==> !(colour == Red && 0.0 < dist <= StopZone) &&
                                  !((colour == Red || colour == Yellow) && StopZone < dist <= SlowZone)
    ensures speed in {StopSpeed, SlowSpeed, GoSpeed}
  {
    if colour == Red && dist <= StopZone && dist > 0.0 then StopSpeed
    else if (colour == Red || colour == Yellow) && dist > StopZone && dist <= SlowZone then SlowSpeed
    else GoSpeed
  }

  /** For a red light the speed never decreases as the stop line gets
      further away: stop, then slow, then go. */
  lemma RedBrakingMonotone(d1: real, d2: real)
    requires 0.0 < d1 <= d2
    ensures DecideSpeed(Red, d1) <= DecideSpeed(Red, d2)
  {
  }

  /** Past the stop line (distance zero or less) nothing slows the bus. */
  lemma PastStopLineGoes(colour: Colour, dist: real)
    requires dist <= 0.0
    ensures DecideSpeed(colour, dist) == GoSpeed
  {
  }

  /** A late bus that has not yet been granted a request on this leg asks
      while the stop line is strictly ahead and inside the request zone. */
  predicate WantsPriority(isLate: bool, requested: bool, dist: real)
  {
    isLate && !requested && 0.0 < dist < RequestZone
  }

  /** The bus has reached its corner when it is within one GO step on both axes. */
  predicate Arrived(pos: Point, target: Point)
  {
    Abs(target.x - pos.x) < GoSpeed && Abs(target.y - pos.y) < GoSpeed
  }

  /** Heading in degrees: east/west by the sign of the x offset while it is at
      least one GO step, else north/south by the sign of the y offset. */
  function Heading(pos: Point, target: Point): (h: int)
    ensures Cardinal(h)
    ensures (h == 0 || h == 180) <==> TravelAxis(pos, target) == Horizontal
  {
    var dx := target.x - pos.x;
    var dy := target.y - pos.y;
    if Abs(dx) >= GoSpeed then (if dx > 0.0 then 0 else 180)
    else (if dy > 0.0 then 90 else 270)
  }

  predicate Cardinal(heading: int)
  {
    heading == 0 || heading == 90 || heading == 180 || heading == 270
  }

  /** Moving `step` forward along one of the four cardinal headings. */
  function Forward(p: Point, heading: int, step: real): Point
    requires Cardinal(heading)
  {
    if heading == 0 then Point(p.x + step, p.y)
    else if heading == 180 then Point(p.x - step, p.y)
    else if heading == 90 then Point(p.x, p.y + step)
    else Point(p.x, p.y - step)
  }

  /** The part of the bus that one tick changes or reads. `target` indexes
      the path, `approach` indexes Route. */
  datatype BusState = BusState(pos: Point, heading: int, target: nat, approach: nat,
                               step: real, isLate: bool, requested: bool)

  /** What the bus learns in one tick: where its current stop line is, the
      colour the controller shows on it, and whether the controller would
      grant a priority request for it right now. */
  datatype Reading = Reading(stop: Point, colour: Colour, granted: bool)

  /** The next index on the 4-element cycle. */
  function NextIndex(i: nat): (j: nat)
    requires i < 4
    ensures j < 4 && j == if i == 3 then 0 else i + 1
  {
    (i + 1) % 4
  }

  /** Both indices stay on the 4-element cycle, with the approach one leg
      behind the target corner, and the heading is cardinal. */
  ghost predicate WellFormed(b: BusState)
  {
    b.target < 4 && b.approach < 4 && NextIndex(b.approach) == b.target && Cardinal(b.heading)
  }

  /** The approach index is the target index moved back by one, mod 4. */
  lemma ApproachLagsTarget(b: BusState)
    requires WellFormed(b)
    ensures b.approach == (b.target + 3) % 4
  {
  }

  /** The first half of move: pick the speed for this tick and record a
      granted priority request. Position, heading and indices are untouched,
      the speed is one of stop, slow or go, and a recorded request stays
      recorded. */
  function SenseStep(b: BusState, path: seq<Point>, r: Reading): (b': BusState)
    requires |path| == 4 && WellFormed(b)
    ensures b' == b.(step := b'.step, requested := b'.requested)
    ensures b'.step in {StopSpeed, SlowSpeed, GoSpeed}
    ensures b.requested ==> b'.requested
  {
    var dist := DistRemaining(b.pos, path[b.target], r.stop);
    b.(step := DecideSpeed(r.colour, dist),
       requested := b.requested || (WantsPriority(b.isLate, b.requested, dist) && r.granted))
  }

  /** The second half of move: on the corner, snap onto it and start the next
      leg; otherwise turn towards the target and step forward. The bus stays
      well formed, and its speed and lateness are left alone. */
  function DriveStep(b: BusState, path: seq<Point>): (b': BusState)
    requires |path| == 4 && WellFormed(b)
    ensures WellFormed(b')
    ensures b'.step == b.step && b'.isLate == b.isLate
  {
    var target := path[b.target];
    if Arrived(b.pos, target) then
      b.(pos := target, target := NextIndex(b.target), approach := NextIndex(b.approach), requested := false)
    else
      var h := Heading(b.pos, target);
      b.(pos := Forward(b.pos, h, b.step), heading := h)
  }

  /** One call of move. */
  function Tick(b: BusState, path: seq<Point>, r: Reading): BusState
    requires |path| == 4 && WellFormed(b)
  {
    DriveStep(SenseStep(b, path, r), path)
  }

  /** A tick keeps the indices on the cycle and in step with each other, the
      heading cardinal, and the speed one of stop, slow or go. */
  lemma TickKeepsWellFormed(b: BusState, path: seq<Point>, r: Reading)
    requires |path| == 4 && WellFormed(b)
    ensures WellFormed(Tick(b, path, r))
    ensures Tick(b, path, r).step in {StopSpeed, SlowSpeed, GoSpeed}
    ensures Tick(b, path, r).isLate == b.isLate
  {
  }

  /** Reaching the corner snaps the bus onto it, advances both indices by one
      mod 4, clears the request flag and does not step forward. */
  lemma TickArrives(b: BusState, path: seq<Point>, r: Reading)
    requires |path| == 4 && WellFormed(b)
    requires Arrived(b.pos, path[b.target])
    ensures Tick(b, path, r).pos == path[b.target]
    ensures Tick(b, path, r).target == (b.target + 1) % 4
    ensures Tick(b, path, r).approach == (b.approach + 1) % 4
    ensures !Tick(b, path, r).requested
    ensures Tick(b, path, r).heading == b.heading
  {
  }

  /** Away from the corner the bus moves by exactly its new speed along one
      axis, towards the target, and that axis is the one the distance to the
      stop line was measured on. */
  lemma TickStepsOneAxis(b: BusState, path: seq<Point>, r: Reading)
    requires |path| == 4 && WellFormed(b)
    requires !Arrived(b.pos, path[b.target])
    ensures var b' := Tick(b, path, r);
            var t := path[b.target];
            var a := TravelAxis(b.pos, t);
            (a == Horizontal ==> b'.pos.y == b.pos.y && b'.pos.x - b.pos.x == b'.step * Direction(b.pos, t) &&
                                 b'.heading == (if t.x > b.pos.x then 0 else 180)) &&
            (a == Vertical ==> b'.pos.x == b.pos.x && b'.pos.y - b.pos.y == b'.step * Direction(b.pos, t) &&
                               b'.heading == (if t.y > b.pos.y then 90 else 270)) &&
            b'.target == b.target && b'.approach == b.approach
  {
  }

  /** The request flag after a tick: set when it was set or a request made in
      this tick was granted, and cleared on reaching the corner. A request is
      only ever counted when the bus wanted to make one. */
  lemma TickRequestFlag(b: BusState, path: seq<Point>, r: Reading)
    requires |path| == 4 && WellFormed(b)
    ensures var t := path[b.target];
            Tick(b, path, r).requested ==
              (!Arrived(b.pos, t) &&
               (b.requested || (WantsPriority(b.isLate, b.requested, DistRemaining(b.pos, t, r.stop)) && r.granted)))
  {
  }

  /** A bus facing red never crosses the stop line ahead of it in one tick:
      stopping inside the stop zone and the slow speed in the slow zone keep
      the stop line strictly ahead on the axis it travels. */
  lemma {:induction false} RedNeverCrossesStopLine(b: BusState, path: seq<Point>, r: Reading)
    requires |path| == 4 && WellFormed(b)
    requires r.colour == Red && !Arrived(b.pos, path[b.target])
    requires DistRemaining(b.pos, path[b.target], r.stop) > 0.0
    ensures var t := path[b.target];
            var a := TravelAxis(b.pos, t);
            (Coord(r.stop, a) - Coord(Tick(b, path, r).pos, a)) * Direction(b.pos, t) > 0.0
  {
    var t := path[b.target];
    var a := TravelAxis(b.pos, t);
    var dir := Direction(b.pos, t);
    var b' := Tick(b, path, r);
    var dist := DistRemaining(b.pos, t, r.stop);
    TickStepsOneAxis(b, path, r);
    assert Coord(b'.pos, a) == Coord(b.pos, a) + b'.step * dir;
    assert dir * dir == 1.0;
    calc {
      (Coord(r.stop, a) - Coord(b'.pos, a)) * dir;
      (Coord(r.stop, a) - Coord(b.pos, a)) * dir - b'.step * (dir * dir);
      dist - b'.step;
    }
  }

  /** Granted priority requests counted from `b` until the bus next reaches a
      corner (the request of the arrival tick itself included). */
  function LegGrants(b: BusState, path: seq<Point>, rs: seq<Reading>): nat
    requires |path| == 4 && WellFormed(b)
    decreases |rs|
  {
    if rs == [] then 0
    else
      var t := path[b.target];
      var asked := WantsPriority(b.isLate, b.requested, DistRemaining(b.pos, t, rs[0].stop));
      var g := if asked && rs[0].granted then 1 else 0;
      if Arrived(b.pos, t) then g
      else
        TickKeepsWellFormed(b, path, rs[0]);
        g + LegGrants(Tick(b, path, rs[0]), path, rs[1..])
  }

  /** At most one granted request per leg, whatever the controller answers,
      and none once one has been granted. */
  lemma {:induction false} AtMostOneGrantPerLeg(b: BusState, path: seq<Point>, rs: seq<Reading>)
    requires |path| == 4 && WellFormed(b)
    ensures LegGrants(b, path, rs) <= (if b.requested then 0 else 1)
    decreases |rs|
  {
    if rs != [] && !Arrived(b.pos, path[b.target]) {
      TickKeepsWellFormed(b, path, rs[0]);
      TickRequestFlag(b, path, rs[0]);
      AtMostOneGrantPerLeg(Tick(b, path, rs[0]), path, rs[1..]);
    }
  }
}
