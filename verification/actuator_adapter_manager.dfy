/** The actuator command router (`ActuatorAdapterManager`) in simulator mode:
    it validates an inbound command, dispatches it on its type to the humidifier
    or the HVAC actuator, and forwards a truthy response to the attached
    listener. The router's only state is its location and its listener; the
    calls it makes on its collaborators are recorded in a trace. */
module ActuatorAdapterManager {
  import opened Common

  /** The two actuators the simulator-mode constructor creates. */
  datatype Actuator = HumidifierActuator | HvacActuator

  /** The actuator type each simulated actuator is responsible for. */
  function TypeOf(a: Actuator): int {
    match a
    case HumidifierActuator => HumidifierActuatorType
    case HvacActuator => HvacActuatorType
  }

  /** Dispatch on a command's type: the actuator for that type, if any. */
  function ActuatorFor(typeId: int): (r: Option<Actuator>)
    ensures forall a :: r == Some(a) <==> TypeOf(a) == typeId
  {
    if typeId == HumidifierActuatorType then Some(HumidifierActuator)
    else if typeId == HvacActuatorType then Some(HvacActuator)
    else None
  }

  datatype Manager = Manager(locationId: string, listener: Option<Listener>)

  /** A freshly constructed router, given the configured location. */
  function New(locationId: string): (m: Manager)
    ensures m.locationId == locationId
    ensures m.listener.None?
  {
    Manager(locationId, None)
  }

  /** A call the router makes on one of its collaborators. */
  datatype Event =
    | UpdateActuator(actuator: Actuator, command: ActuatorData)
    | HandleActuatorCommandResponse(listener: Listener, response: ActuatorData)

  /** The behaviour of the actuators: `updateActuator` on a given actuator
      either returns a response (`None` when it is falsy) or raises. */
  type Actuators = (Actuator, ActuatorData) -> Outcome<Option<ActuatorData>>

  /** The result of `sendActuatorCommand`: the boolean it returns (or the
      exception it lets through) and the calls it made. */
  datatype Sent = Sent(outcome: Outcome<bool>, trace: seq<Event>)

  /** The actuator an event invokes, if it is an `updateActuator` call. */
  function ActuatorOf(e: Event): Option<Actuator> {
    if e.UpdateActuator? then Some(e.actuator) else None
  }

  /** The response an event hands to a listener, if it is a notification. */
  function ResponseOf(e: Event): Option<ActuatorData> {
    if e.HandleActuatorCommandResponse? then Some(e.response) else None
  }

  /** The actuators invoked in a trace, in order. */
  function Dispatched(t: seq<Event>): seq<Actuator> {
    Collect(t, ActuatorOf)
  }

  /** The responses handed to a listener in a trace, in order. */
  function Forwarded(t: seq<Event>): seq<ActuatorData> {
    Collect(t, ResponseOf)
  }

  /** The three validation gates, in the order the router applies them: a
      command is present, it is not a response, and it is addressed to this
      device. The source compares locations by identity (`is`); the model
      compares them as strings. */
  predicate Admissible(m: Manager, data: Option<ActuatorData>) {
    && data.Some?
    && !data.value.isResponse
    && data.value.locationId == m.locationId
  }

  /** A Python string object: its identity and its text. */
  datatype StrObject = StrObject(identity: nat, text: string)

  /** The location gate as written: `is` compares object identity. */
  predicate SameLocationAsWritten(command: StrObject, device: StrObject) {
    command.identity == device.identity
  }

  /** The location gate as intended, and as `Admissible` states it: the two
      locations have the same text. */
  predicate SameLocation(command: StrObject, device: StrObject) {
    command.text == device.text
  }

  /** The three gates as written: the command's location object must be the
      device's location object. */
  predicate AdmissibleAsWritten(device: StrObject, data: Option<ActuatorData>, location: StrObject) {
    && data.Some?
    && !data.value.isResponse
    && SameLocationAsWritten(location, device)
  }

  /** A humidifier command addressed to this device's location, but carrying
      a distinct string object for it (as one decoded from a message would),
      is routed by the intended gates and rejected by the gates as written. */
  lemma IdentityCheckRejectsMatchingLocation()
    ensures var m := New("constraineddevice001");
            var data := Some(ActuatorData("HumidifierCmd", HumidifierActuatorType,
                                          "constraineddevice001", 45.0, None, false, 0));
            var device := StrObject(2, m.locationId);
            var location := StrObject(1, data.value.locationId);
            && SameLocation(location, device)
            && Route(m, data) == Some(HumidifierActuator)
            && !AdmissibleAsWritten(device, data, location)
  {
  }

  /** The gates as written never admit more than the intended ones: an
      object is the same object only when its text is the same. */
  lemma AsWrittenIsStricter(m: Manager, device: StrObject, data: Option<ActuatorData>, location: StrObject)
    requires device.text == m.locationId
    requires data.Some? ==> location.text == data.value.locationId
    requires location.identity == device.identity ==> location == device
    ensures AdmissibleAsWritten(device, data, location) ==> Admissible(m, data)
  {
  }

  /** The actuator an admissible command is routed to. */
  function Route(m: Manager, data: Option<ActuatorData>): (r: Option<Actuator>)
    ensures forall a :: r == Some(a) <==> Admissible(m, data) && TypeOf(a) == data.value.typeId
  {
    if Admissible(m, data) then ActuatorFor(data.value.typeId) else None
  }

  /** A truthy response: the actuator returned and its response is not `None`. */
  predicate Truthy(o: Outcome<Option<ActuatorData>>) {
    o.Returned? && o.value.Some?
  }

  /** `sendActuatorCommand`. */
  function SendActuatorCommand(m: Manager, data: Option<ActuatorData>, actuate: Actuators): (r: Sent)
    // rejected and unroutable commands touch nobody and return False
    ensures Route(m, data).None? ==> r == Sent(Returned(false), [])
    // a routed command reaches exactly the actuator for its type, exactly once
    ensures Route(m, data).Some? ==>
      && Dispatched(r.trace) == [Route(m, data).value]
      && r.trace[0] == UpdateActuator(Route(m, data).value, data.value)
    // True exactly when the dispatched actuator produced a truthy response
    ensures r.outcome == Returned(true) <==>
      Route(m, data).Some? && Truthy(actuate(Route(m, data).value, data.value))
    // an exception from the actuator propagates to the caller
    ensures r.outcome.Raised? <==>
      Route(m, data).Some? && actuate(Route(m, data).value, data.value).Raised?
    // the attached listener receives that response once; otherwise nothing is forwarded
    ensures r.outcome == Returned(true) && m.listener.Some? ==>
      Forwarded(r.trace) == [actuate(Route(m, data).value, data.value).value.value]
    ensures !(r.outcome == Returned(true) && m.listener.Some?) ==> Forwarded(r.trace) == []
    ensures forall e <- r.trace :: e.HandleActuatorCommandResponse? ==> m.listener == Some(e.listener)
  {
    match Route(m, data)
    case None => Sent(Returned(false), [])
    case Some(a) =>
      var call := UpdateActuator(a, data.value);
      match actuate(a, data.value)
      case Raised => Sent(Raised, [call])
      case Returned(None) => Sent(Returned(false), [call])
      case Returned(Some(response)) =>
        if m.listener.Some? then
          var trace := [call, HandleActuatorCommandResponse(m.listener.value, response)];
          assert trace[1..] == [trace[1]] && trace[1..][1..] == [];
          assert Dispatched(trace[1..]) == [] && Forwarded(trace[1..]) == [response];
          Sent(Returned(true), trace)
        else
          Sent(Returned(true), [call])
  }

  /** `setDataMessageListener`: a falsy listener leaves the router unchanged,
      a truthy one replaces the current listener and nothing else. */
  function SetDataMessageListener(m: Manager, listener: Option<Listener>): (m': Manager)
    ensures listener.None? ==> m' == m
    ensures listener.Some? ==> m' == m.(listener := listener)
    ensures m'.listener == SelectListener(m.listener, listener)
  {
    m.(listener := SelectListener(m.listener, listener))
  }

  /** An entry point invoked on the router by its callers. Each send carries
      the actuators' behaviour at the time of that call, so actuators that
      keep state between calls can answer a repeated command differently. */
  datatype Op = Send(data: Option<ActuatorData>, actuate: Actuators) | SetListener(listener: Option<Listener>)

  /** A sequence of entry-point invocations: the router after them, the
      booleans returned by the sends that returned, whether some send raised,
      and every collaborator call made. The router catches nothing, so an
      exception reaches its caller, which may catch it and carry on calling. */
  datatype Session = Session(manager: Manager, results: seq<bool>, raised: bool, trace: seq<Event>)

  function Run(m: Manager, ops: seq<Op>): Session
    decreases |ops|
  {
    if ops == [] then Session(m, [], false, [])
    else match ops[0]
      case SetListener(l) => Run(SetDataMessageListener(m, l), ops[1..])
      case Send(d, actuate) =>
        var s := SendActuatorCommand(m, d, actuate);
        var rest := Run(m, ops[1..]);
        if s.outcome.Raised? then Session(rest.manager, rest.results, true, s.trace + rest.trace)
        else Session(rest.manager, [s.outcome.value] + rest.results, rest.raised, s.trace + rest.trace)
  }

  /** The number of sends that returned True. */
  function Successes(results: seq<bool>): nat {
    if results == [] then 0 else (if results[0] then 1 else 0) + Successes(results[1..])
  }

  /** The router's location never changes, and once a listener is attached it
      stays attached: the setter cannot detach it. */
  lemma {:induction false} RunKeepsLocationAndListener(m: Manager, ops: seq<Op>)
    ensures Run(m, ops).manager.locationId == m.locationId
    ensures m.listener.Some? ==> Run(m, ops).manager.listener.Some?
    decreases |ops|
  {
    if ops != [] {
      match ops[0]
      case SetListener(l) => RunKeepsLocationAndListener(SetDataMessageListener(m, l), ops[1..]);
      case Send(d, actuate) => RunKeepsLocationAndListener(m, ops[1..]);
    }
  }

  /** Over any sequence of calls, those after a send that raised included,
      every True result was preceded by an actuator invocation, and the
      listener is notified at most once per True result -- exactly once when a
      listener was attached from the start. */
  lemma {:induction false} RunNotificationsMatchSuccesses(m: Manager, ops: seq<Op>)
    ensures Successes(Run(m, ops).results) <= |Dispatched(Run(m, ops).trace)|
    ensures |Forwarded(Run(m, ops).trace)| <= Successes(Run(m, ops).results)
    ensures m.listener.Some? ==>
      |Forwarded(Run(m, ops).trace)| == Successes(Run(m, ops).results)
    decreases |ops|
  {
    if ops != [] {
      match ops[0]
      case SetListener(l) => RunNotificationsMatchSuccesses(SetDataMessageListener(m, l), ops[1..]);
      case Send(d, actuate) =>
        var s := SendActuatorCommand(m, d, actuate);
        var rest := Run(m, ops[1..]);
        RunNotificationsMatchSuccesses(m, ops[1..]);
        CollectConcat(s.trace, rest.trace, ActuatorOf);
        CollectConcat(s.trace, rest.trace, ResponseOf);
        if !s.outcome.Raised? {
          assert ([s.outcome.value] + rest.results)[1..] == rest.results;
        }
    }
  }
}
