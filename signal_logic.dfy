/** The signal controller's decisions as pure functions over its state:
    which approaches belong to which phase, which colour each group shows,
    whether a priority request is granted, and what each timer callback does
    and schedules next. A "schedule this callback after d ms" is returned as
    a Timer value instead of being handed to a timer queue. */
module SignalLogic {
  import opened Approaches

  // Timing in milliseconds
  const GreenTime: nat := 3000
  const YellowTime: nat := 1500
  const ExtensionTime: nat := 2000

  datatype Phase = NS | EW

  /** The controller's light state; the inactive group is always red. */
  datatype Light = GreenLight | YellowLight

  /** Stop lines grouped by the phase that gives them right of way. */
  const NsKeys: seq<Key> := ["NB", "SB", "RN_L", "RN_R", "RN_S", "RS_L", "RS_R", "RS_S"]
  const EwKeys: seq<Key> := ["EB", "WB", "RE_T", "RE_B", "RE_S", "RW_T", "RW_B", "RW_S"]

  datatype Signal = Signal(phase: Phase, light: Light, priorityRequested: bool, extensionUsed: bool)

  /** The state the controller is constructed in. */
  const Init := Signal(NS, GreenLight, false, false)

  /** The two callbacks the controller hands to the scheduler. */
  datatype Callback = CallToYellow | CallSwapPhase

  /** "Run callback after delay milliseconds". */
  datatype Timer = Timer(callback: Callback, delay: nat)

  function Other(p: Phase): (q: Phase)
    ensures q != p
  {
    if p == NS then EW else NS
  }

  lemma KeyGroupsDisjoint()
    ensures forall k :: k in NsKeys ==> k !in EwKeys
  {
  }

  /** The phase group an approach belongs to, if any. */
  function ApproachPhase(k: Key): (p: Option<Phase>)
    ensures p == Some(NS) <==> k in NsKeys
    ensures p == Some(EW) <==> k in EwKeys
    ensures p == None <==> k !in NsKeys && k !in EwKeys
  {
    KeyGroupsDisjoint();
    if k in NsKeys then Some(NS)
    else if k in EwKeys then Some(EW)
    else None
  }

  /** Every key of both groups has a stop line in the registry. */
  ghost predicate KeysPresent(lines: map<Key, StopLine>)
  {
    (forall k :: k in NsKeys ==> k in lines) && (forall k :: k in EwKeys ==> k in lines)
  }

  /** The colour that the stop lines of `group` show in state `s`. */
  function Shown(s: Signal, group: Phase): Colour
  {
    if group != s.phase then Red
    else if s.light == GreenLight then Green
    else Yellow
  }

  /** The registry after every grouped stop line has been repainted for `s`:
      no key is added or removed, no stop line moves, and keys outside both
      groups are left as they are. */
  function Painted(lines: map<Key, StopLine>, s: Signal): (r: map<Key, StopLine>)
    ensures r.Keys == lines.Keys
    ensures forall k :: k in lines ==> r[k].at == lines[k].at
    ensures forall k :: k in lines && k !in NsKeys && k !in EwKeys ==> r[k] == lines[k]
  {
    map k | k in lines ::
      match ApproachPhase(k)
      case Some(g) => lines[k].(colour := Shown(s, g))
      case None => lines[k]
  }

  /** Phase exclusivity as the registry shows it: the active group shows the
      light state's colour and the other group shows red. */
  ghost predicate Consistent(lines: map<Key, StopLine>, s: Signal)
  {
    KeysPresent(lines) &&
    (forall k :: k in NsKeys ==> lines[k].colour == Shown(s, NS)) &&
    (forall k :: k in EwKeys ==> lines[k].colour == Shown(s, EW))
  }

  /** After repainting, every NS stop line shows green or yellow (by the light
      state) when NS is active and red otherwise, and the mirror for EW. */
  lemma PaintedIsConsistent(lines: map<Key, StopLine>, s: Signal)
    requires KeysPresent(lines)
    ensures Consistent(Painted(lines, s), s)
  {
  }

  /** Painting the NS group and then the EW group, one key at a time, gives
      the registry Painted describes. */
  lemma PaintedInGroupOrder(before: map<Key, StopLine>, mid: map<Key, StopLine>, after: map<Key, StopLine>,
                            s: Signal, ns: Colour, ew: Colour)
    requires ns == Shown(s, NS) && ew == Shown(s, EW)
    requires mid.Keys == before.Keys && after.Keys == before.Keys
    requires forall k :: k in before ==> mid[k] == if k in NsKeys then before[k].(colour := ns) else before[k]
    requires forall k :: k in before ==> after[k] == if k in EwKeys then mid[k].(colour := ew) else mid[k]
    ensures after == Painted(before, s)
  {
    KeyGroupsDisjoint();
    forall k | k in before
      ensures after[k] == Painted(before, s)[k]
    {
      match ApproachPhase(k)
      case Some(g) =>
      case None =>
    }
  }

  /** request_priority: the granted flag and the new state. `known` says
      whether the approach has a stop line in the registry. */
  function RequestStep(s: Signal, approach: Key, known: bool): (r: (bool, Signal))
    ensures r.0 <==> s.light == GreenLight && known && ApproachPhase(approach) == Some(s.phase)
    ensures r.1 == if r.0 then s.(priorityRequested := true) else s
  {
    if s.light != GreenLight then (false, s)
    else if !known then (false, s)
    else if approach in NsKeys && s.phase == NS then (true, s.(priorityRequested := true))
    else if approach in EwKeys && s.phase == EW then (true, s.(priorityRequested := true))
    else (false, s)
  }

  /** Asking twice is the same as asking once. */
  lemma RequestIdempotent(s: Signal, approach: Key, known: bool)
    ensures RequestStep(RequestStep(s, approach, known).1, approach, known) == RequestStep(s, approach, known)
  {
  }

  /** schedule_next: the state after deciding the delay, and the timer. It
      touches no field but extension_used, never clears that flag, and the
      callback it schedules is to_yellow in GREEN and swap_phase in YELLOW. */
  function ScheduleStep(s: Signal): (r: (Signal, Timer))
    ensures r.0 == s.(extensionUsed := r.0.extensionUsed)
    ensures s.extensionUsed ==> r.0.extensionUsed
    ensures r.1.callback == (if s.light == GreenLight then CallToYellow else CallSwapPhase)
  {
    match s.light
    case GreenLight =>
      if s.priorityRequested && !s.extensionUsed then
        (s.(extensionUsed := true), Timer(CallToYellow, GreenTime + ExtensionTime))
      else
        (s, Timer(CallToYellow, GreenTime))
    case YellowLight =>
      (s, Timer(CallSwapPhase, YellowTime))
  }

  /** to_yellow: switch the light to yellow and schedule the next transition.
      Only the light changes, and swap_phase follows after yellow_time. */
  function ToYellowStep(s: Signal): (r: (Signal, Timer))
    ensures r == (s.(light := YellowLight), Timer(CallSwapPhase, YellowTime))
  {
    ScheduleStep(s.(light := YellowLight))
  }

  /** swap_phase: toggle the phase, go back to green, clear both flags and
      schedule the next transition, which is a GREEN of exactly green_time. */
  function SwapPhaseStep(s: Signal): (r: (Signal, Timer))
    ensures r == (Signal(Other(s.phase), GreenLight, false, false), Timer(CallToYellow, GreenTime))
  {
    ScheduleStep(Signal(Other(s.phase), GreenLight, false, false))
  }

  /** Running a callback that the scheduler fires. */
  function FireStep(s: Signal, c: Callback): (r: (Signal, Timer))
  {
    match c
    case CallToYellow => ToYellowStep(s)
    case CallSwapPhase => SwapPhaseStep(s)
  }

  /** In GREEN the delay is green_time, plus extension_time exactly when a
      request is pending and the extension is still unused; taking it marks it
      used, and nothing else changes. */
  lemma ScheduleGreen(s: Signal)
    requires s.light == GreenLight
    ensures ScheduleStep(s).1.callback == CallToYellow
    ensures ScheduleStep(s).1.delay == GreenTime + ExtensionTime <==> s.priorityRequested && !s.extensionUsed
    ensures ScheduleStep(s).1.delay == GreenTime <==> !(s.priorityRequested && !s.extensionUsed)
    ensures ScheduleStep(s).0 == s.(extensionUsed := s.extensionUsed || s.priorityRequested)
  {
  }

  /** In YELLOW the delay is yellow_time, the callback swap_phase, and the
      state is untouched. */
  lemma ScheduleYellow(s: Signal)
    requires s.light == YellowLight
    ensures ScheduleStep(s) == (s, Timer(CallSwapPhase, YellowTime))
  {
  }

  /** A GREEN period is extended at most once: once a schedule has taken the
      extension, no later request in the same GREEN makes another schedule
      extend it again. */
  lemma ExtensionAtMostOnce(s: Signal, approach: Key, known: bool)
    requires s.light == GreenLight
    ensures var (s1, t1) := ScheduleStep(s);
            var (s2, t2) := ScheduleStep(RequestStep(s1, approach, known).1);
            t1.delay + t2.delay <= GreenTime + ExtensionTime + GreenTime &&
            (t1.delay == GreenTime + ExtensionTime ==> t2.delay == GreenTime)
  {
  }

  // ---------------------------------------------------------------------
  // The controller running under the scheduler: one pending timer at a time,
  // and between firings any number of priority requests.

  datatype Event = Requested(approach: Key) | Fired

  /** The controller's state together with the one timer it has pending. */
  datatype Sim = Sim(signal: Signal, pending: Timer)

  /** start: the state right after construction, with the first transition
      scheduled. */
  function Started(): Sim
  {
    var (s, t) := ScheduleStep(Init);
    Sim(s, t)
  }

  /** One event; `known` is the set of keys with a stop line in the registry. */
  function Next(sim: Sim, e: Event, known: set<Key>): Sim
  {
    match e
    case Requested(a) => sim.(signal := RequestStep(sim.signal, a, a in known).1)
    case Fired =>
      var (s, t) := FireStep(sim.signal, sim.pending.callback);
      Sim(s, t)
  }

  function Run(sim: Sim, es: seq<Event>, known: set<Key>): Sim
    decreases |es|
  {
    if es == [] then sim else Run(Next(sim, es[0], known), es[1..], known)
  }

  /** Every timer scheduled along a run, in order, starting with the one
      pending at the start. */
  function Scheduled(sim: Sim, es: seq<Event>, known: set<Key>): seq<Timer>
    decreases |es|
  {
    if es == [] then [sim.pending]
    else if es[0] == Fired then [sim.pending] + Scheduled(Next(sim, es[0], known), es[1..], known)
    else Scheduled(Next(sim, es[0], known), es[1..], known)
  }

  /** The successor of (phase, light) in the fixed cycle
      (NS,GREEN) -> (NS,YELLOW) -> (EW,GREEN) -> (EW,YELLOW) -> (NS,GREEN). */
  function Successor(p: Phase, l: Light): (Phase, Light)
  {
    match (p, l)
    case (NS, GreenLight) => (NS, YellowLight)
    case (NS, YellowLight) => (EW, GreenLight)
    case (EW, GreenLight) => (EW, YellowLight)
    case (EW, YellowLight) => (NS, GreenLight)
  }

  lemma SuccessorCycleOfFour(p: Phase, l: Light)
    ensures var (p1, l1) := Successor(p, l);
            var (p2, l2) := Successor(p1, l1);
            var (p3, l3) := Successor(p2, l2);
            Successor(p3, l3) == (p, l) && (p2, l2) == (Other(p), l) && (p1, l1) != (p, l)
  {
  }

  /** What holds of every state the running controller reaches: the pending
      callback matches the light state, its delay is the plain green_time or
      yellow_time, and the extension has never been used. */
  ghost predicate Steady(sim: Sim)
  {
    !sim.signal.extensionUsed &&
    sim.pending == (if sim.signal.light == GreenLight then Timer(CallToYellow, GreenTime) else Timer(CallSwapPhase, YellowTime))
  }

  lemma StartedIsSteady()
    ensures Steady(Started())
    ensures Started().signal == Init
  {
  }

  /** The plain GREEN relies on start being the first call on the constructed
      controller. A request granted before start sets the flag, and then the
      first GREEN start schedules is extended. */
  lemma RequestBeforeStartExtends()
    ensures RequestStep(Init, "RN_S", true).0
    ensures ScheduleStep(RequestStep(Init, "RN_S", true).1).1 == Timer(CallToYellow, GreenTime + ExtensionTime)
  {
  }

  /** One event keeps Steady; a firing moves (phase, light) one place along
      the cycle, and a request never moves it. */
  lemma NextKeepsSteady(sim: Sim, e: Event, known: set<Key>)
    requires Steady(sim)
    ensures Steady(Next(sim, e, known))
    ensures e == Fired ==> (Next(sim, e, known).signal.phase, Next(sim, e, known).signal.light) == Successor(sim.signal.phase, sim.signal.light)
    ensures e != Fired ==> Next(sim, e, known).signal.phase == sim.signal.phase && Next(sim, e, known).signal.light == sim.signal.light
  {
  }

  /** From the started controller, under any interleaving of firings and
      priority requests, the extension is never used and every GREEN period
      that is actually scheduled lasts exactly green_time: swap_phase clears
      the request flag before schedule_next reads it, and start schedules from
      a state where it is clear too. */
  lemma {:induction false} GreenNeverExtended(sim: Sim, es: seq<Event>, known: set<Key>)
    requires Steady(sim)
    ensures Steady(Run(sim, es, known))
    ensures !Run(sim, es, known).signal.extensionUsed
    ensures forall t :: t in Scheduled(sim, es, known) && t.callback == CallToYellow ==> t.delay == GreenTime
    ensures forall t :: t in Scheduled(sim, es, known) && t.callback == CallSwapPhase ==> t.delay == YellowTime
    decreases |es|
  {
    if es != [] {
      NextKeepsSteady(sim, es[0], known);
      GreenNeverExtended(Next(sim, es[0], known), es[1..], known);
    }
  }

  /** The whole simulation from start: no GREEN is ever longer than green_time. */
  lemma FromStartGreenIsPlain(es: seq<Event>, known: set<Key>)
    ensures forall t :: t in Scheduled(Started(), es, known) && t.callback == CallToYellow ==> t.delay == GreenTime
    ensures !Run(Started(), es, known).signal.extensionUsed
  {
    StartedIsSteady();
    GreenNeverExtended(Started(), es, known);
  }

  /** A late bus's request on an NS stop line right after start is granted,
      yet the GREEN it is facing still ends after green_time: that GREEN's
      expiry was scheduled by start, before the request arrived, and the next
      GREEN is scheduled by swap_phase after clearing the flag. */
  lemma GrantedRequestDoesNotLengthenGreen(known: set<Key>)
    requires "RN_S" in known
    ensures RequestStep(Started().signal, "RN_S", true).0
    ensures Scheduled(Started(), [Requested("RN_S"), Fired, Fired], known) ==
            [Timer(CallToYellow, GreenTime), Timer(CallSwapPhase, YellowTime), Timer(CallToYellow, GreenTime)]
  {
    assert "RN_S" in NsKeys;
    var es: seq<Event> := [Requested("RN_S"), Fired, Fired];
    assert es[1..] == [Fired, Fired] && es[2..] == [Fired] && es[3..] == [];
  }
}
