# Transit signal priority: signal controller and bus, in Dafny

This project models the decision logic of a one-intersection transit-signal-priority
simulation and proves properties of it. The model has two parts.

- **The signal controller** (`sim/signals.py`). It is a timed state machine over a phase
  (NS or EW) and a light state (GREEN or YELLOW), with two flags: `priority_requested`
  and `extension_used`. It repaints the stop-line registry so that the active group
  shows green or yellow and the other group shows red. It grants priority requests
  only during GREEN, and only for a known stop line of the active group. It cycles
  GREEN → YELLOW → phase swap → GREEN, and gives a GREEN period at most one extension.
- **The bus** (`sim/bus.py`). It drives a cyclic 4-corner path around the outer ring
  lane. On each tick it measures the signed distance to its current stop line along
  the axis it travels on. It picks stop, slow or go from the colour and fixed zone
  radii. A late bus files at most one priority request per leg. At a corner the bus
  snaps onto the corner and starts the next leg; otherwise it steps along one axis.

Modules:

- `Approaches` (`approaches.dfy`) holds the stop-line keys, the three colours and
  points. It also holds the shared `Registry` class: key → (colour, position). The
  map creates it, the controller repaints it in place and the bus reads positions
  from it.
- `SignalLogic` (`signal_logic.dfy`) holds the controller's decisions as pure
  functions of its state. A `Sim` is a state plus its one pending timer. `Next` and
  `Run` give the controller under the scheduler: any interleaving of timer firings
  and priority requests.
- `Signals` (`signals.dfy`) holds the `SignalController` class. Its fields change in
  place, and each method is proved to equal the matching `SignalLogic` function.
- `BusLogic` (`bus_logic.dfy`) holds one bus tick as pure functions (`SenseStep`,
  `DriveStep`, `Tick`) and the lemmas about them.
- `Buses` (`bus.dfy`) holds the `Bus` class. `Move` is proved to equal `Tick`, and to
  change the controller exactly as `RequestStep` does when the bus asks.

"Schedule callback X after d ms" (`screen.ontimer`) is modelled as a `Timer(X, d)`
value, returned by the handler that would have scheduled it.

`Move` keeps the source's order of steps. It reads the colour and stop point, picks
the axis and the signed distance, and picks the speed (`DecideSpeed`, the if/elif
chain lifted into a function). Then two helper methods run: `RequestIfLate` (the
priority request) and `Drive` (corner arrival or one step). `apply_colours` has two
identical loops, one per group. Here they are one loop in `PaintGroup`, called once
per group in the same order.

The main result is `SignalLogic.GreenNeverExtended` and `FromStartGreenIsPlain`.
The source means the green extension to be reachable:
- `request_priority` sets `priority_requested` on a grant (`sim/signals.py:56`, `:61`);
- `schedule_next` adds `extension_time` when that flag is set, "at most once per green"
  (`sim/signals.py:78-81`).

Yet the extension is never used when `start` is the first call on the freshly
constructed controller, as `main.py:18-19` does. From there, under any sequence of
firings and requests, every GREEN expiry the controller schedules is exactly
`green_time`. The reason is that the GREEN expiry is decided when GREEN begins:
- `swap_phase` clears `priority_requested` just before it calls `schedule_next`;
- `start` then schedules from the initial state, where the flag is also clear.

Nothing in `sim/signals.py` forces that order. A request granted between
construction and `start` does make the first GREEN longer
(`RequestBeforeStartExtends`).

A request granted during a GREEN therefore never lengthens that GREEN
(`GrantedRequestDoesNotLengthenGreen` shows one concrete run). The model follows
the code as written and proves this about it.

## Model

| member | source | states |
|---|---|---|
| `SignalLogic.ApproachPhase` | sim/signals.py:66-71 | NS for exactly the NS keys, EW for exactly the EW keys, None for every other key (both directions, using the disjointness of the groups) |
| `SignalLogic.KeyGroupsDisjoint` | sim/signals.py:20-23 | no key is in both the NS and the EW group |
| `SignalLogic.Painted` | sim/signals.py:27-39 | the repaint of apply_colours: no key added or removed, no stop line moved, and stop lines outside both groups untouched |
| `SignalLogic.PaintedIsConsistent` | sim/signals.py:27-39 | after repainting, every NS line shows `Shown(s, NS)`: green or yellow by the light state when NS is active, red otherwise; the mirror for EW |
| `SignalLogic.PaintedInGroupOrder` | sim/signals.py:35-39 | painting the NS group and then the EW group one key at a time yields the repainted registry, because the groups are disjoint |
| `Signals.SignalController.ApplyColours` | sim/signals.py:27-39 | the registry becomes the repainted registry for the current state, and the phase-exclusivity invariant holds |
| `Signals.SignalController.PaintGroup` | sim/signals.py:35-39 | each key of the group gets the colour; every other entry, and the key set, is unchanged (loop with invariants) |
| `Signals.SignalController.constructor` | sim/signals.py:4-25 | starts in (NS, GREEN) with both flags false; the registry is painted and consistent; requires every grouped key to be in the registry, as the lookups in apply_colours do |
| `SignalLogic.RequestStep` | sim/signals.py:45-64 | granted iff GREEN, the key is in the registry and its group is the active phase; a grant sets only the request flag, a refusal changes nothing |
| `SignalLogic.RequestIdempotent` | sim/signals.py:54-64 | a second identical request gives the same result and state as the first |
| `Signals.SignalController.RequestPriority` | sim/signals.py:45-64 | the returned flag and new state are those of RequestStep; the registry invariant is kept |
| `SignalLogic.ScheduleStep` | sim/signals.py:73-86 | schedule_next changes no field but extension_used, never clears it, and schedules to_yellow in GREEN and swap_phase in YELLOW (delays in ScheduleGreen and ScheduleYellow) |
| `SignalLogic.ScheduleGreen` | sim/signals.py:73-83 | in GREEN the callback is to_yellow; the delay is green_time + extension_time iff a request is pending and the extension unused, else green_time; taking it sets extension_used |
| `SignalLogic.ScheduleYellow` | sim/signals.py:85-86 | in YELLOW the callback is swap_phase after yellow_time and the state is unchanged |
| `SignalLogic.ExtensionAtMostOnce` | sim/signals.py:78-81 | two schedules within one GREEN, with any request between, total at most two green_times plus one extension; after an extended schedule the next is plain |
| `Signals.SignalController.ScheduleNext` | sim/signals.py:73-86 | new state and timer are those of ScheduleStep |
| `Signals.SignalController.Start` | sim/signals.py:41-43 | schedules from the current state as schedule_next does |
| `SignalLogic.ToYellowStep` | sim/signals.py:88-91 | to_yellow only sets the light to YELLOW and hands over to swap_phase after yellow_time |
| `Signals.SignalController.ToYellow` | sim/signals.py:88-91 | state and timer are those of ToYellowStep; the registry is repainted and consistent |
| `SignalLogic.SwapPhaseStep` | sim/signals.py:93-101 | swap_phase toggles the phase, returns to GREEN with both flags false, and schedules to_yellow after exactly green_time |
| `Signals.SignalController.SwapPhase` | sim/signals.py:93-101 | state and timer are those of SwapPhaseStep; the registry is repainted and consistent |
| `Signals.SignalController.GetColour` | sim/signals.py:103-104 | on a consistent controller an NS line shows `Shown(State(), NS)` (green/yellow while NS is active, red otherwise), and the mirror for EW |
| `SignalLogic.SuccessorCycleOfFour` | sim/signals.py:88-98 | the cycle (NS,G)→(NS,Y)→(EW,G)→(EW,Y) returns to its start after four steps, and two steps swap the phase |
| `SignalLogic.RequestBeforeStartExtends` | sim/signals.py:41-83 | a request on RN_S granted before start sets the flag, so the first GREEN start schedules is green_time + extension_time: the plain-GREEN result needs start to come first |
| `SignalLogic.StartedIsSteady` | sim/signals.py:14-17 | the started controller is in the initial state with a plain green_time expiry pending and no extension used |
| `SignalLogic.NextKeepsSteady` | sim/signals.py:88-101 | every firing moves (phase, light) one place along the cycle, a request never moves it, and the steady invariant is kept |
| `SignalLogic.GreenNeverExtended` | sim/signals.py:41-101 | along any run from a steady state, the extension is never used, every scheduled to_yellow delay is green_time and every swap_phase delay is yellow_time |
| `SignalLogic.FromStartGreenIsPlain` | sim/signals.py:41-43 | with start as the first call on the constructed controller, under any firings and requests, no GREEN expiry is ever scheduled longer than green_time |
| `SignalLogic.GrantedRequestDoesNotLengthenGreen` | sim/signals.py:45-83 | a request on RN_S right after start is granted, yet the timers scheduled are green_time, yellow_time, green_time |
| `BusLogic.Corners` | sim/bus.py:9-47 | the outer ring lane runs at margin − roadWidth/4 from the centre; the path is its four corners counterclockwise from (−lane, −lane), so the first leg runs east |
| `Buses.Bus.constructor` | sim/bus.py:4-52 | bus on the first corner heading 0 towards corner 1, approach index 0, GO speed, not late, no request; indices well formed |
| `Buses.RouteAlternatesPhases` | sim/bus.py:27 | the route's stop lines belong alternately to the NS and the EW group |
| `Buses.Bus.StopPointFor` | sim/bus.py:54-56 | reads the registered position of a stop line; the repaint never moves a stop line (`SignalLogic.Painted`) |
| `BusLogic.TravelAxis` | sim/bus.py:68-76 | horizontal while the target is at least one GO step away in x, else vertical; DistRemainingMeaning and TickStepsOneAxis state what it decides |
| `BusLogic.Direction` | sim/bus.py:72-76 | the direction of travel on the travel axis is a unit sign, ±1 |
| `BusLogic.DistRemaining` | sim/bus.py:68-83 | the signed distance to the stop line; its meaning is stated by DistRemainingIsOffsetTimesDirection and DistRemainingMeaning |
| `BusLogic.DistRemainingIsOffsetTimesDirection` | sim/bus.py:68-83 | the distance is the stop-line offset on the travel axis times the ±1 direction, as the bus computes it |
| `BusLogic.DistRemainingMeaning` | sim/bus.py:68-83 | the distance's magnitude is the gap on the travel axis, and it is positive iff the stop line lies strictly ahead towards the target |
| `BusLogic.DecideSpeed` | sim/bus.py:78-91 | 0 iff red and 0 < d ≤ 60; 1.5 iff red or yellow and 60 < d ≤ 100; 4 in every other case; always one of the three |
| `BusLogic.RedBrakingMonotone` | sim/bus.py:85-91 | for red, speed does not decrease as the stop line gets further ahead |
| `BusLogic.PastStopLineGoes` | sim/bus.py:86-91 | at or past the stop line the speed is GO whatever the colour |
| `BusLogic.NextIndex` | sim/bus.py:106-108 | advancing an index on the 4-cycle stays below 4 and wraps 3 to 0 |
| `BusLogic.ApproachLagsTarget` | sim/bus.py:106-108 | in a well-formed bus, current_approach_index == (target_index + 3) % 4 |
| `BusLogic.Heading` | sim/bus.py:113-117 | the heading is always cardinal, and it is east/west exactly when the travel axis is horizontal |
| `BusLogic.SenseStep` | sim/bus.py:78-97 | the first half of move changes only the speed and the request flag; the speed is one of 0, 1.5, 4, and a recorded request stays recorded |
| `BusLogic.DriveStep` | sim/bus.py:99-120 | the second half of move keeps the bus well formed (indices in step on the 4-cycle, heading cardinal) and leaves speed and lateness alone |
| `BusLogic.Tick` | sim/bus.py:58-123 | one call of move, SenseStep then DriveStep; what it does is stated by TickKeepsWellFormed, TickArrives, TickStepsOneAxis, TickRequestFlag and RedNeverCrossesStopLine |
| `BusLogic.TickKeepsWellFormed` | sim/bus.py:58-111 | a tick keeps both indices in [0, 4) and in step, the heading cardinal, and the speed in {0, 1.5, 4} |
| `BusLogic.TickArrives` | sim/bus.py:103-111 | on arrival the bus is exactly on the corner, both indices advance by 1 mod 4, the request flag is cleared and the heading is unchanged |
| `BusLogic.TickStepsOneAxis` | sim/bus.py:113-120 | otherwise the bus moves on the travel axis only, by the new speed towards the target, heading 0/180 or 90/270 by the sign of the offset |
| `BusLogic.TickRequestFlag` | sim/bus.py:93-109 | the flag afterwards is set iff not arrived and it was set or a wanted request was granted |
| `BusLogic.RedNeverCrossesStopLine` | sim/bus.py:78-120 | facing red with the stop line ahead, one tick away from the corner never takes the bus past it |
| `BusLogic.AtMostOneGrantPerLeg` | sim/bus.py:93-109 | whatever the controller answers, at most one request is granted per leg, and none once the flag is set |
| `Buses.Bus.RequestIfLate` | sim/bus.py:93-97 | the controller changes as RequestStep says exactly when the bus is late, has no grant yet and is within (0, 120); the flag is set only on a grant |
| `Buses.Bus.Drive` | sim/bus.py:99-120 | the new bus state is DriveStep of the old: snap and advance at the corner, else turn and step |
| `Buses.Bus.Move` | sim/bus.py:58-123 | the new bus state is Tick of the old one with the reading it took; the controller changes only through a request the bus wanted to make; both objects stay valid |

## Left out

- Timer scheduling (`screen.ontimer`, the self-rescheduling of `move` every 20 ms): each handler returns the `Timer` it would schedule. There is no timer queue and no virtual clock; `SignalLogic.Run` allows any interleaving of firings and requests instead.
- Turtle drawing, the map layout (`sim/map.py`, `map.py`) and window setup (`main.py`): they are rendering only. The registry is modelled as key → (colour, position), and the bus path takes the map's margin and road width as parameters.
- Floating point: positions and speeds are exact reals. The small rounding turtle's `forward` introduces through cos/sin of the heading is not modelled; a step moves exactly along one axis.
- Unknown stop-line keys: `get_colour`, `stop_point_for` and `apply_colours` raise on a missing key. The model makes presence a precondition instead. The map creates `RN_C`-style keys while the controller and the bus use `RN_S`-style keys, so the real program would raise at this point; the model does not reconcile the two.
- `colour in ("red")` is a substring test on a string. For the three colours the controller paints, it behaves as `colour == "red"`, and it is modelled that way with an enum of three colours.
- `get_colour` returns the turtle's fill colour, modelled as the colour last written to the registry entry.
- `is_late` is only ever initialised to false in the source. The model keeps it as a field that callers may set, so the request path is reachable.
- The bus's unused geometry fields and the turtle's shape and colour are left out. The `screen` references are left out too.

