/** Values shared by both adapter managers: the optional-reference wrapper that
    stands for Python's `None`, the outcome of a call into a collaborator that
    may raise, the data message listener, the framework constants the managers
    consult, and the data records they pass around. */
module Common {

  /** An optional reference: `None` is Python's `None`, which is falsy. */
  datatype Option<+T> = None | Some(value: T)

  /** What a call into a collaborator does: it returns a value, or it raises
      and the exception propagates to the caller (neither manager catches it). */
  datatype Outcome<+T> = Returned(value: T) | Raised

  /** An attached data message listener, identified by its reference. Every
      listener object is truthy; the falsy listener is `Option.None`. */
  datatype Listener = Listener(id: nat)

  /** Actuator type identifiers and the default poll rate (in seconds) from the
      framework's configuration constants. */
  const HvacActuatorType: int := 1
  const HumidifierActuatorType: int := 2
  const DefaultPollCycles: int := 60

  /** An actuator command or an actuator's response to one. Numeric payloads
      are kept as opaque reals; floating point is not modelled. */
  datatype ActuatorData = ActuatorData(
    name: string,
    typeId: int,
    locationId: string,
    value: real,
    stateData: Option<string>,
    isResponse: bool,
    statusCode: int)

  /** One telemetry record produced by a sensor source. */
  datatype SensorData = SensorData(
    name: string,
    typeId: int,
    locationId: string,
    value: real,
    timeStamp: string)

  /** The values a projection picks out of a trace, in order; the events it
      maps to `None` are skipped. */
  function Collect<E, T>(t: seq<E>, pick: E -> Option<T>): (r: seq<T>)
    ensures |r| <= |t|
  {
    if t == [] then []
    else (if pick(t[0]).Some? then [pick(t[0]).value] else []) + Collect(t[1..], pick)
  }

  /** Collecting from two traces one after the other collects from each in turn. */
  lemma {:induction false} CollectConcat<E, T>(a: seq<E>, b: seq<E>, pick: E -> Option<T>)
    ensures Collect(a + b, pick) == Collect(a, pick) + Collect(b, pick)
  {
    if a == [] {
      assert a + b == b;
    } else {
      assert (a + b)[0] == a[0];
      assert (a + b)[1..] == a[1..] + b;
      CollectConcat(a[1..], b, pick);
      var head := if pick(a[0]).Some? then [pick(a[0]).value] else [];
      calc {
        Collect(a + b, pick);
        head + Collect(a[1..] + b, pick);
        head + (Collect(a[1..], pick) + Collect(b, pick));
        (head + Collect(a[1..], pick)) + Collect(b, pick);
      }
    }
  }

  /** `setLocationID`: the record with its location replaced, all else kept. */
  function WithLocation(d: SensorData, locationId: string): (r: SensorData)
    ensures r.locationId == locationId
    ensures r.(locationId := d.locationId) == d
  {
    d.(locationId := locationId)
  }

  /** The rule both managers' `setDataMessageListener` follow: a falsy
      candidate is ignored and the current listener kept; any other candidate
      replaces the current listener (last registration wins). */
  function SelectListener(current: Option<Listener>, candidate: Option<Listener>): (r: Option<Listener>)
    ensures r == candidate || r == current
    ensures r.None? ==> current.None? && candidate.None?
    ensures candidate.Some? ==> r == candidate
  {
    if candidate.Some? then candidate else current
  }

  /** Registering twice keeps only the later truthy listener. */
  lemma LastRegistrationWins(current: Option<Listener>, a: Option<Listener>, b: Listener)
    ensures SelectListener(SelectListener(current, a), Some(b)) == Some(b)
  {
  }

  /** Selecting is idempotent: offering the same candidate again changes nothing. */
  lemma SelectListenerIdempotent(current: Option<Listener>, candidate: Option<Listener>)
    ensures SelectListener(SelectListener(current, candidate), candidate) == SelectListener(current, candidate)
  {
  }
}
