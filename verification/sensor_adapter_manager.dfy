/** The sensor polling manager (`SensorAdapterManager`) as a state machine.
    Its state is the normalised poll rate, the device location, the attached
    listener and whether its scheduler is running. The scheduler's timer is
    replaced by an explicit `Tick` step: each tick that falls while the
    scheduler runs performs `handleTelemetry` once. The calls the manager
    makes on its sources and its listener are recorded in a trace. */
module SensorAdapterManager {
  import opened Common

  /** The three telemetry sources the manager owns. */
  datatype Sensor = HumiditySensor | PressureSensor | TemperatureSensor

  /** The order in which `handleTelemetry` polls the sources and notifies the
      listener of their records. */
  const PollOrder: seq<Sensor> := [HumiditySensor, PressureSensor, TemperatureSensor]

  datatype Manager = Manager(pollRate: int, locationId: string, listener: Option<Listener>, running: bool)

  /** The poll rate the constructor keeps: a configured rate that is not
      positive is replaced by the default. */
  function NormalizePollRate(configured: int): (r: int)
    ensures r > 0
    ensures configured > 0 ==> r == configured
    ensures configured <= 0 ==> r == DefaultPollCycles
  {
    if configured <= 0 then DefaultPollCycles else configured
  }

  /** Normalising an already normalised rate changes nothing. */
  lemma NormalizePollRateIdempotent(configured: int)
    ensures NormalizePollRate(NormalizePollRate(configured)) == NormalizePollRate(configured)
  {
  }

  /** A freshly constructed manager: rate normalised, no listener, scheduler
      created but not started. */
  function New(configuredPollRate: int, locationId: string): (m: Manager)
    ensures m.pollRate > 0
    ensures configuredPollRate > 0 ==> m.pollRate == configuredPollRate
    ensures configuredPollRate <= 0 ==> m.pollRate == DefaultPollCycles
    ensures m.locationId == locationId
    ensures m.listener.None? && !m.running
  {
    Manager(NormalizePollRate(configuredPollRate), locationId, None, false)
  }

  /** A call the manager makes on one of its collaborators. */
  datatype Event =
    | GenerateTelemetry(source: Sensor)
    | HandleSensorMessage(listener: Listener, data: SensorData)

  /** The behaviour of the sources during one tick: `generateTelemetry` on a
      source either returns a record or raises. */
  type Sources = Sensor -> Outcome<SensorData>

  /** The source an event polls, if it is a `generateTelemetry` call. */
  function SourceOf(e: Event): Option<Sensor> {
    if e.GenerateTelemetry? then Some(e.source) else None
  }

  /** The record an event hands to a listener, if it is a notification. */
  function RecordOf(e: Event): Option<SensorData> {
    if e.HandleSensorMessage? then Some(e.data) else None
  }

  /** The sources polled in a trace, in order. */
  function Polled(t: seq<Event>): seq<Sensor> {
    Collect(t, SourceOf)
  }

  /** The records handed to a listener in a trace, in order. */
  function Delivered(t: seq<Event>): seq<SensorData> {
    Collect(t, RecordOf)
  }

  /** The `generateTelemetry` calls on the given sources, in order. */
  function PollEvents(sources: seq<Sensor>): (t: seq<Event>)
    ensures Polled(t) == sources
    ensures Delivered(t) == []
    ensures forall e <- t :: e.GenerateTelemetry?
  {
    if sources == [] then []
    else
      var t := [GenerateTelemetry(sources[0])] + PollEvents(sources[1..]);
      assert t[1..] == PollEvents(sources[1..]);
      t
  }

  /** The `handleSensorMessage` calls handing the given records to a listener. */
  function NotifyEvents(listener: Listener, records: seq<SensorData>): (t: seq<Event>)
    ensures Polled(t) == []
    ensures Delivered(t) == records
    ensures forall e <- t :: e.HandleSensorMessage? && e.listener == listener && e.data in records
  {
    if records == [] then []
    else
      var t := [HandleSensorMessage(listener, records[0])] + NotifyEvents(listener, records[1..]);
      assert t[1..] == NotifyEvents(listener, records[1..]);
      t
  }

  /** No `generateTelemetry` call follows a notification. */
  predicate PollsFirst(t: seq<Event>) {
    forall i, j | 0 <= i < j < |t| :: t[j].GenerateTelemetry? ==> t[i].GenerateTelemetry?
  }

  /** Polls followed by notifications keep the polls first. */
  lemma PollsThenNotifications(polls: seq<Event>, notes: seq<Event>)
    requires forall e <- polls :: e.GenerateTelemetry?
    requires forall e <- notes :: e.HandleSensorMessage?
    ensures PollsFirst(polls) && PollsFirst(polls + notes)
  {
    var t := polls + notes;
    forall j | |polls| <= j < |t| ensures !t[j].GenerateTelemetry? {
      assert t[j] == notes[j - |polls|];
      assert t[j] in notes;
    }
    forall i, j | 0 <= i < j < |t| && t[j].GenerateTelemetry? ensures t[i].GenerateTelemetry? {
      assert t[i] == polls[i];
      assert t[i] in polls;
    }
  }

  /** Calls `generateTelemetry` on each source in turn. There is no exception
      handling around these calls, so a source that raises stops the polling:
      the result holds the records of the sources before it, and all records
      exactly when no source raised. */
  function PollSources(sources: seq<Sensor>, generate: Sources): (records: seq<SensorData>)
    ensures |records| <= |sources|
    ensures forall i :: 0 <= i < |records| ==> generate(sources[i]) == Returned(records[i])
    ensures |records| < |sources| ==> generate(sources[|records|]).Raised?
    decreases |sources|
  {
    if sources == [] then []
    else match generate(sources[0])
      case Raised => []
      case Returned(d) => [d] + PollSources(sources[1..], generate)
  }

  /** Each record with the manager's location stamped on it. */
  function Stamp(records: seq<SensorData>, locationId: string): (r: seq<SensorData>)
    ensures |r| == |records|
    ensures forall i :: 0 <= i < |r| ==>
      r[i].locationId == locationId && r[i].(locationId := records[i].locationId) == records[i]
  {
    seq(|records|, i requires 0 <= i < |records| => WithLocation(records[i], locationId))
  }

  /** The record a source produced in a tick where it returned, stamped with
      the manager's location. */
  function Reading(generate: Sources, s: Sensor, locationId: string): SensorData
    requires generate(s).Returned?
  {
    WithLocation(generate(s).value, locationId)
  }

  /** One tick: whether an exception escaped it, and the calls it made. */
  datatype TickResult = TickResult(raised: bool, trace: seq<Event>)

  /** `handleTelemetry`: poll the humidity, pressure and temperature sources
      once each, stamp the manager's location on every record and, if a
      listener is attached, notify it of the three records in that order. */
  function HandleTelemetry(m: Manager, generate: Sources): (r: TickResult)
    // an exception escapes exactly when some source raises
    ensures !r.raised <==> forall s :: generate(s).Returned?
    // without one, every source is polled exactly once, in the fixed order
    ensures !r.raised ==> Polled(r.trace) == PollOrder
    // with one, polling stops at the first source that raised
    ensures r.raised ==>
      var p := Polled(r.trace);
      && 1 <= |p| <= |PollOrder|
      && p == PollOrder[..|p|]
      && generate(p[|p| - 1]).Raised?
      && forall i :: 0 <= i < |p| - 1 ==> generate(p[i]).Returned?
    // the listener hears all three stamped records in order, or nothing at all
    ensures !r.raised && m.listener.Some? ==>
      Delivered(r.trace) == [Reading(generate, HumiditySensor, m.locationId),
                             Reading(generate, PressureSensor, m.locationId),
                             Reading(generate, TemperatureSensor, m.locationId)]
    ensures r.raised || m.listener.None? ==> Delivered(r.trace) == []
    // every notification goes to the attached listener and carries the location
    ensures forall e <- r.trace :: e.HandleSensorMessage? ==>
      m.listener == Some(e.listener) && e.data.locationId == m.locationId
    // every poll happens before any notification
    ensures PollsFirst(r.trace)
  {
    var records := PollSources(PollOrder, generate);
    if |records| < |PollOrder| then
      AbortedTick(generate, |records|)
    else
      assert forall s :: generate(s).Returned? by {
        forall s ensures generate(s).Returned? {
          assert s == PollOrder[0] || s == PollOrder[1] || s == PollOrder[2];
        }
      }
      CompletedTick(m, generate)
  }

  /** The calls of a tick in which the source at position `k` of the poll
      order raised: the sources up to and including it were polled, the rest
      were not, and the exception left before any notification. */
  function AbortedTick(generate: Sources, k: nat): (r: TickResult)
    requires k < |PollOrder|
    requires generate(PollOrder[k]).Raised?
    ensures r.raised
    ensures Polled(r.trace) == PollOrder[..k + 1]
    ensures Delivered(r.trace) == []
    ensures PollsFirst(r.trace)
  {
    var polls := PollEvents(PollOrder[..k + 1]);
    PollsThenNotifications(polls, []);
    TickResult(true, polls)
  }

  /** The calls of a tick in which every source returned: all three polled in
      order, then, with a listener attached, the three stamped records handed
      to it in the same order. */
  function CompletedTick(m: Manager, generate: Sources): (r: TickResult)
    requires forall s :: generate(s).Returned?
    ensures !r.raised
    ensures Polled(r.trace) == PollOrder
    ensures m.listener.Some? ==>
      Delivered(r.trace) == [Reading(generate, HumiditySensor, m.locationId),
                             Reading(generate, PressureSensor, m.locationId),
                             Reading(generate, TemperatureSensor, m.locationId)]
    ensures m.listener.None? ==> Delivered(r.trace) == []
    ensures forall e <- r.trace :: e.HandleSensorMessage? ==>
      m.listener == Some(e.listener) && e.data.locationId == m.locationId
    ensures PollsFirst(r.trace)
  {
    var polls := PollEvents(PollOrder);
    PollsThenNotifications(polls, []);
    if m.listener.None? then
      TickResult(false, polls)
    else
      var records := PollSources(PollOrder, generate);
      var notes := NotifyEvents(m.listener.value, Stamp(records, m.locationId));
      CollectConcat(polls, notes, SourceOf);
      CollectConcat(polls, notes, RecordOf);
      PollsThenNotifications(polls, notes);
      TickResult(false, polls + notes)
  }

  /** `setDataMessageListener`: a falsy listener leaves the manager unchanged,
      a truthy one replaces the current listener and nothing else. */
  function SetDataMessageListener(m: Manager, listener: Option<Listener>): (m': Manager)
    ensures listener.None? ==> m' == m
    ensures listener.Some? ==> m' == m.(listener := listener)
    ensures m'.listener == SelectListener(m.listener, listener)
  {
    m.(listener := SelectListener(m.listener, listener))
  }

  /** The manager after a start or stop request, and whether the request
      only produced a warning. */
  datatype Control = Control(manager: Manager, warned: bool)

  /** `startManager`: start a stopped scheduler; on a running one, only warn. */
  function StartManager(m: Manager): (r: Control)
    ensures r.manager.running
    ensures r.warned <==> m.running
    ensures r.manager.(running := m.running) == m
  {
    if !m.running then Control(m.(running := true), false)
    else Control(m, true)
  }

  /** `stopManager`: shut a running scheduler down; shutting down a stopped
      one raises inside the scheduler, which the manager catches and only
      warns about. */
  function StopManager(m: Manager): (r: Control)
    ensures !r.manager.running
    ensures r.warned <==> !m.running
    ensures r.manager.(running := m.running) == m
  {
    if m.running then Control(m.(running := false), false)
    else Control(m, true)
  }

  /** A second start, or a second stop, changes nothing and only warns. */
  lemma StartStopIdempotent(m: Manager)
    ensures StartManager(StartManager(m).manager) == Control(StartManager(m).manager, true)
    ensures StopManager(StopManager(m).manager) == Control(StopManager(m).manager, true)
  {
  }

  /** Stopping then starting resumes the manager exactly as it was running. */
  lemma StopThenStartResumes(m: Manager)
    requires m.running
    ensures StartManager(StopManager(m).manager) == Control(m, false)
  {
  }

  /** What can happen to the manager: a timer interval elapses, or a caller
      sets the listener, starts or stops the manager. */
  datatype Op =
    | Tick(generate: Sources)
    | SetListener(listener: Option<Listener>)
    | Start
    | Stop

  /** A sequence of steps: the manager after them and every call it made. */
  datatype Session = Session(manager: Manager, trace: seq<Event>)

  /** One step. A tick performs `handleTelemetry` only while the scheduler
      runs; an exception from it ends that tick only, since the scheduler
      reports job errors and keeps firing. */
  function Step(m: Manager, op: Op): (r: Session)
    ensures r.manager.pollRate == m.pollRate && r.manager.locationId == m.locationId
    ensures m.listener.Some? ==> r.manager.listener.Some?
    ensures r.trace != [] ==> op.Tick? && m.running
    ensures op.Tick? ==> r.manager == m
    ensures op.Start? ==> r.manager == StartManager(m).manager
    ensures op.Stop? ==> r.manager == StopManager(m).manager
    ensures op.SetListener? ==> r.manager == SetDataMessageListener(m, op.listener)
    ensures op.Tick? && m.running ==> r.trace == HandleTelemetry(m, op.generate).trace
    ensures forall e <- r.trace :: e.HandleSensorMessage? ==>
      m.listener == Some(e.listener) && e.data.locationId == m.locationId
  {
    match op
    case Tick(g) => Session(m, if m.running then HandleTelemetry(m, g).trace else [])
    case SetListener(l) => Session(SetDataMessageListener(m, l), [])
    case Start => Session(StartManager(m).manager, [])
    case Stop => Session(StopManager(m).manager, [])
  }

  /** Runs the steps in order. */
  function Run(m: Manager, ops: seq<Op>): Session
    decreases |ops|
  {
    if ops == [] then Session(m, [])
    else
      var step := Step(m, ops[0]);
      var rest := Run(step.manager, ops[1..]);
      Session(rest.manager, step.trace + rest.trace)
  }

  /** The number of timer intervals among the steps. */
  function Ticks(ops: seq<Op>): nat {
    if ops == [] then 0 else (if ops[0].Tick? then 1 else 0) + Ticks(ops[1..])
  }

  /** Whether none of the steps attaches a listener. */
  predicate NoAttach(ops: seq<Op>) {
    forall i :: 0 <= i < |ops| ==> !(ops[i].SetListener? && ops[i].listener.Some?)
  }

  /** Dropping the first step keeps a sequence free of attachments. */
  lemma NoAttachTail(ops: seq<Op>)
    requires ops != [] && NoAttach(ops)
    ensures NoAttach(ops[1..])
  {
    forall i | 0 <= i < |ops[1..]| ensures !(ops[1..][i].SetListener? && ops[1..][i].listener.Some?) {
      assert ops[1..][i] == ops[i + 1];
    }
  }

  /** The poll rate and the location never change, a listener once attached
      stays attached, and every record any listener hears carries the
      manager's location. */
  lemma {:induction false} RunKeepsConfiguration(m: Manager, ops: seq<Op>)
    ensures Run(m, ops).manager.pollRate == m.pollRate
    ensures Run(m, ops).manager.locationId == m.locationId
    ensures m.listener.Some? ==> Run(m, ops).manager.listener.Some?
    ensures forall d <- Delivered(Run(m, ops).trace) :: d.locationId == m.locationId
    decreases |ops|
  {
    if ops != [] {
      var step := Step(m, ops[0]);
      RunKeepsConfiguration(step.manager, ops[1..]);
      CollectConcat(step.trace, Run(step.manager, ops[1..]).trace, RecordOf);
      forall d <- Delivered(step.trace) ensures d.locationId == m.locationId {
        DeliveredLocated(step.trace, m);
      }
    }
  }

  /** Every record delivered in a trace whose notifications all carry the
      manager's location carries it. */
  lemma {:induction false} DeliveredLocated(t: seq<Event>, m: Manager)
    requires forall e <- t :: e.HandleSensorMessage? ==> e.data.locationId == m.locationId
    ensures forall d <- Delivered(t) :: d.locationId == m.locationId
  {
    if t != [] {
      DeliveredLocated(t[1..], m);
    }
  }

  /** Each timer interval polls every source at most once and notifies the
      listener at most once per source. */
  lemma {:induction false} RunPollBound(m: Manager, ops: seq<Op>)
    ensures |Polled(Run(m, ops).trace)| <= |PollOrder| * Ticks(ops)
    ensures |Delivered(Run(m, ops).trace)| <= |PollOrder| * Ticks(ops)
    decreases |ops|
  {
    if ops != [] {
      var step := Step(m, ops[0]);
      RunPollBound(step.manager, ops[1..]);
      CollectConcat(step.trace, Run(step.manager, ops[1..]).trace, SourceOf);
      CollectConcat(step.trace, Run(step.manager, ops[1..]).trace, RecordOf);
    }
  }

  /** A stopped manager that is never started makes no calls at all. */
  lemma {:induction false} StoppedManagerIsSilent(m: Manager, ops: seq<Op>)
    requires !m.running
    requires forall i :: 0 <= i < |ops| ==> !ops[i].Start?
    ensures Run(m, ops).trace == []
    ensures !Run(m, ops).manager.running
    decreases |ops|
  {
    if ops != [] {
      match ops[0]
      case Tick(g) => StoppedManagerIsSilent(m, ops[1..]);
      case SetListener(l) => StoppedManagerIsSilent(SetDataMessageListener(m, l), ops[1..]);
      case Stop => StoppedManagerIsSilent(StopManager(m).manager, ops[1..]);
    }
  }

  /** Without a listener, ticks deliver nothing and leave nothing behind: the
      manager is as before apart from its running flag. */
  lemma {:induction false} NoBufferingWithoutListener(m: Manager, ops: seq<Op>)
    requires m.listener.None?
    requires NoAttach(ops)
    ensures Delivered(Run(m, ops).trace) == []
    ensures Run(m, ops).manager == m.(running := Run(m, ops).manager.running)
    decreases |ops|
  {
    if ops != [] {
      var step := Step(m, ops[0]);
      NoAttachTail(ops);
      assert ops[0].SetListener? ==> ops[0].listener.None?;
      NoBufferingWithoutListener(step.manager, ops[1..]);
      CollectConcat(step.trace, Run(step.manager, ops[1..]).trace, RecordOf);
    }
  }

  /** Stopping and then starting a running manager resumes ticking: the next
      timer interval polls every source once, in order, and delivers that
      interval's three stamped records to the attached listener. */
  lemma StopThenStartResumesTicking(m: Manager, g: Sources)
    requires m.running && m.listener.Some?
    requires forall s :: g(s).Returned?
    ensures Polled(Run(m, [Stop, Start, Tick(g)]).trace) == PollOrder
    ensures Delivered(Run(m, [Stop, Start, Tick(g)]).trace) ==
      [Reading(g, HumiditySensor, m.locationId),
       Reading(g, PressureSensor, m.locationId),
       Reading(g, TemperatureSensor, m.locationId)]
  {
    StopStartTickRunsOneTick(m, g);
    assert !HandleTelemetry(m, g).raised;
  }

  /** Stopping and starting a running manager and letting one interval
      elapse makes exactly the calls of one `handleTelemetry`. */
  lemma StopStartTickRunsOneTick(m: Manager, g: Sources)
    requires m.running
    ensures Run(m, [Stop, Start, Tick(g)]).trace == HandleTelemetry(m, g).trace
  {
    assert [Stop, Start, Tick(g)] == [Stop, Start] + [Tick(g)];
    StopStartChangesNothing(m, [Tick(g)]);
    RunFirstStep(m, [Tick(g)]);
    assert [Tick(g)][1..] == [];
  }

  /** Stopping and then starting a running manager leaves it as it was, so
      the steps after that run as they would have without the pair. */
  lemma StopStartChangesNothing(m: Manager, rest: seq<Op>)
    requires m.running
    ensures Run(m, [Stop, Start] + rest) == Run(m, rest)
  {
    var ops := [Stop, Start] + rest;
    var stopped := m.(running := false);
    assert Step(m, Stop) == Session(stopped, []);
    assert Step(stopped, Start) == Session(m, []);
    assert ops[0] == Stop && ops[1..][0] == Start && ops[1..][1..] == rest;
    var r2 := Run(stopped, ops[1..]);
    assert r2 == Session(Run(m, rest).manager, [] + Run(m, rest).trace);
    assert Run(m, ops) == Session(r2.manager, [] + r2.trace);
  }

  /** Once stopped, a manager makes no call at all until it is started again. */
  lemma StopSilencesTicks(m: Manager, ops: seq<Op>)
    requires forall i :: 0 <= i < |ops| ==> !ops[i].Start?
    ensures Run(m, [Stop] + ops).trace == []
    ensures !Run(m, [Stop] + ops).manager.running
  {
    assert ([Stop] + ops)[0] == Stop && ([Stop] + ops)[1..] == ops;
    RunFirstStep(m, [Stop] + ops);
    StoppedManagerIsSilent(StopManager(m).manager, ops);
  }

  /** Starting a stopped manager lets the next timer interval make exactly
      the calls of one `handleTelemetry` on the running manager. */
  lemma StartThenTickRunsOneTick(m: Manager, g: Sources)
    requires !m.running
    ensures Run(m, [Start, Tick(g)]).trace == HandleTelemetry(m.(running := true), g).trace
  {
    var started := m.(running := true);
    assert Step(m, Start) == Session(started, []);
    assert [Start, Tick(g)][1..] == [Tick(g)] && [Tick(g)][1..] == [];
    RunFirstStep(m, [Start, Tick(g)]);
    RunFirstStep(started, [Tick(g)]);
  }

  /** Attaching a listener to a running manager lets the next timer interval
      make exactly the calls of one `handleTelemetry` with that listener. */
  lemma AttachThenTickRunsOneTick(m: Manager, l: Listener, g: Sources)
    requires m.running
    ensures Run(m, [SetListener(Some(l)), Tick(g)]).trace ==
      HandleTelemetry(m.(listener := Some(l)), g).trace
  {
    var attached := m.(listener := Some(l));
    assert Step(m, SetListener(Some(l))) == Session(attached, []);
    assert [SetListener(Some(l)), Tick(g)][1..] == [Tick(g)] && [Tick(g)][1..] == [];
    RunFirstStep(m, [SetListener(Some(l)), Tick(g)]);
    RunFirstStep(attached, [Tick(g)]);
  }

  /** The first timer interval after a listener is attached to a running
      manager delivers that interval's three stamped records, in order. */
  lemma AttachThenTickDelivers(m: Manager, l: Listener, g: Sources)
    requires m.running
    requires forall s :: g(s).Returned?
    ensures Delivered(Run(m, [SetListener(Some(l)), Tick(g)]).trace) ==
      [Reading(g, HumiditySensor, m.locationId),
       Reading(g, PressureSensor, m.locationId),
       Reading(g, TemperatureSensor, m.locationId)]
  {
    AttachThenTickRunsOneTick(m, l, g);
    assert !HandleTelemetry(m.(listener := Some(l)), g).raised;
  }

  /** No buffering: however many intervals elapse with no listener, the first
      interval after one is attached to the running manager delivers exactly
      that interval's three stamped records and nothing from before. */
  lemma {:induction false} FirstTickAfterAttachDeliversOnlyItsRecords(m: Manager, ops: seq<Op>, l: Listener, g: Sources)
    requires m.listener.None?
    requires NoAttach(ops)
    requires Run(m, ops).manager.running
    requires forall s :: g(s).Returned?
    ensures Delivered(Run(m, ops + [SetListener(Some(l)), Tick(g)]).trace) ==
      [Reading(g, HumiditySensor, m.locationId),
       Reading(g, PressureSensor, m.locationId),
       Reading(g, TemperatureSensor, m.locationId)]
    decreases |ops|
  {
    var after := [SetListener(Some(l)), Tick(g)];
    if ops == [] {
      assert ops + after == after;
      AttachThenTickDelivers(m, l, g);
    } else {
      var step := Step(m, ops[0]);
      assert (ops + after)[0] == ops[0] && (ops + after)[1..] == ops[1..] + after;
      NoAttachTail(ops);
      assert ops[0].SetListener? ==> ops[0].listener.None?;
      assert step.manager.listener.None? && step.manager.locationId == m.locationId;
      RunFirstStep(m, ops);
      RunFirstStep(m, ops + after);
      FirstTickAfterAttachDeliversOnlyItsRecords(step.manager, ops[1..], l, g);
      SilentWithoutListener(step.trace, m);
      CollectConcat(step.trace, Run(step.manager, ops[1..] + after).trace, RecordOf);
    }
  }

  /** A trace whose notifications could only go to an absent listener
      delivers nothing. */
  lemma {:induction false} SilentWithoutListener(t: seq<Event>, m: Manager)
    requires m.listener.None?
    requires forall e <- t :: e.HandleSensorMessage? ==> m.listener == Some(e.listener)
    ensures Delivered(t) == []
  {
    if t != [] {
      assert t[0] in t;
      SilentWithoutListener(t[1..], m);
    }
  }

  /** A non-empty sequence of steps runs its first step, then the rest from
      the state that step left. */
  lemma RunFirstStep(m: Manager, ops: seq<Op>)
    requires ops != []
    ensures Run(m, ops).manager == Run(Step(m, ops[0]).manager, ops[1..]).manager
    ensures Run(m, ops).trace == Step(m, ops[0]).trace + Run(Step(m, ops[0]).manager, ops[1..]).trace
  {
  }
}
