# Adapter management of the constrained-device agent

This project models, in Dafny, the two adapter managers of the constrained
device application (CDA):

- **`ActuatorAdapterManager`**, the actuator command router. A command passes
  three gates in order: it is present, it is not a response, and it is
  addressed to this device's location. It is then dispatched on its type to the
  humidifier or the HVAC actuator. A truthy response is forwarded to the data
  message listener when one is attached. The call returns `True` exactly when
  the actuator produced a truthy response. Only the simulator-mode wiring is
  modelled.
- **`SensorAdapterManager`**, the sensor polling manager, as a state machine.
  Its state is the poll rate, the location, the listener and the scheduler's
  running flag. A `Tick` step stands for one timer interval. While the
  scheduler runs, a tick performs `handleTelemetry`: it polls the humidity,
  pressure and temperature sources once each and stamps the manager's location
  on each record. It then notifies the listener of the three records in that
  order, or does nothing when no listener is attached.

Both managers are pure step functions over immutable records. Each step
returns the new state, the result and a trace of the calls made on the
collaborators: `updateActuator`, `generateTelemetry`,
`handleActuatorCommandResponse` and `handleSensorMessage`. Properties such as
"exactly one call" and "no call" are stated on that trace through filters
(`Dispatched`, `Forwarded`, `Polled`, `Delivered`).

The collaborators are parameters. Actuators are a function from (actuator,
command) to an `Outcome`. The outcome is a response (`None` when it is falsy),
or `Raised`. Sources are a function from sensor to an `Outcome` of a record.
Neither manager catches exceptions from these calls, so a `Raised` outcome
propagates. A source that raises stops the rest of that tick's polling, and
nothing is delivered. This follows the code. A design that isolates each
source's failure and polls the others is not what the code does, and it is
not modelled. The listener is `Option<Listener>`, where `None` stands for
Python's falsy `None`.

Files:

- `common.dfy`: module `Common`. It holds `Option`, `Outcome`, `Listener`, the
  `ActuatorData` and `SensorData` records, the framework constants, the
  listener-setter rule shared by both managers, and `Collect`, the one trace
  filter from which the four filters above are built.
- `actuator_adapter_manager.dfy`: module `ActuatorAdapterManager`.
- `sensor_adapter_manager.dfy`: module `SensorAdapterManager`.

`ConfigConst.py` is not part of this model. The constants
`HVAC_ACTUATOR_TYPE = 1`, `HUMIDIFIER_ACTUATOR_TYPE = 2` and
`DEFAULT_POLL_CYCLES = 60` are the framework's values. The proofs use only
that the two type ids differ and that the default poll rate is positive.

## Model

| member | source | states |
|---|---|---|
| `Common.WithLocation` | src/main/python/programmingtheiot/cda/system/SensorAdapterManager.py:137-139 | Stamping a record sets its location and leaves every other field unchanged. |
| `Common.SelectListener` | src/main/python/programmingtheiot/cda/system/ActuatorAdapterManager.py:110-112 | A truthy candidate becomes the listener. A falsy one keeps the current listener. The result is never absent unless both were absent. |
| `Common.LastRegistrationWins` | src/main/python/programmingtheiot/cda/system/SensorAdapterManager.py:151-153 | Of two registrations, the later truthy listener is the one attached. |
| `Common.SelectListenerIdempotent` | src/main/python/programmingtheiot/cda/system/ActuatorAdapterManager.py:110-112 | Offering the same listener twice has the same effect as offering it once. |
| `ActuatorAdapterManager.ActuatorFor` | src/main/python/programmingtheiot/cda/system/ActuatorAdapterManager.py:86-94 | A type id selects an actuator exactly when that actuator handles that type. Any other type selects no actuator. |
| `ActuatorAdapterManager.New` | src/main/python/programmingtheiot/cda/system/ActuatorAdapterManager.py:41-46 | A new router keeps the configured location and has no listener. |
| `ActuatorAdapterManager.Route` | src/main/python/programmingtheiot/cda/system/ActuatorAdapterManager.py:76-94 | A command reaches actuator `a` if and only if it is present, is not a response, has the device's location, and has `a`'s type. |
| `ActuatorAdapterManager.SendActuatorCommand` | src/main/python/programmingtheiot/cda/system/ActuatorAdapterManager.py:74-107 | A rejected or unroutable command returns False and makes no call. A routed command invokes exactly its own actuator, exactly once. The result is True iff that actuator's response is truthy. An actuator exception propagates. The response is forwarded exactly once when a listener is attached, and never otherwise. |
| `ActuatorAdapterManager.SetDataMessageListener` | src/main/python/programmingtheiot/cda/system/ActuatorAdapterManager.py:110-112 | A falsy listener leaves the router unchanged. A truthy one replaces the listener and nothing else. |
| `ActuatorAdapterManager.RunKeepsLocationAndListener` | src/main/python/programmingtheiot/cda/system/ActuatorAdapterManager.py:110-112 | Across any sequence of calls, including calls made after a send raised and its caller caught the exception, the location never changes. A listener, once attached, is never detached. |
| `ActuatorAdapterManager.RunNotificationsMatchSuccesses` | src/main/python/programmingtheiot/cda/system/ActuatorAdapterManager.py:96-100 | Across any sequence of calls, including calls made after a send raised and its caller caught the exception, there are at least as many actuator invocations as True results. There are at most as many listener notifications as True results. With a listener attached from the start, the notifications equal the True results. |
| `ActuatorAdapterManager.IdentityCheckRejectsMatchingLocation` | src/main/python/programmingtheiot/cda/system/ActuatorAdapterManager.py:78 | A humidifier command whose location has the device's text, but is a distinct string object, is routed by `Route`. The gates as written (`AdmissibleAsWritten`) reject it. |
| `ActuatorAdapterManager.AsWrittenIsStricter` | src/main/python/programmingtheiot/cda/system/ActuatorAdapterManager.py:76-78 | When one string object has only one text, every command the identity gate admits is also admitted by the text gate. The fix only admits more commands. |
| `SensorAdapterManager.NormalizePollRate` | src/main/python/programmingtheiot/cda/system/SensorAdapterManager.py:51-52 | The kept poll rate is positive. A positive configured rate is kept. Any other rate becomes `DEFAULT_POLL_CYCLES`. |
| `SensorAdapterManager.NormalizePollRateIdempotent` | src/main/python/programmingtheiot/cda/system/SensorAdapterManager.py:51-52 | Normalising a normalised rate changes nothing. |
| `SensorAdapterManager.New` | src/main/python/programmingtheiot/cda/system/SensorAdapterManager.py:38-58 | A new manager has a positive poll rate, the configured rate when that was positive, and the given location. It has no listener and its scheduler is not running. |
| `SensorAdapterManager.PollSources` | src/main/python/programmingtheiot/cda/system/SensorAdapterManager.py:133-135 | Each returned record is what its source returned, in order. When fewer records than sources come back, the next source is the one that raised. |
| `SensorAdapterManager.Stamp` | src/main/python/programmingtheiot/cda/system/SensorAdapterManager.py:137-139 | The result has one record per input record. Each one carries the manager's location and agrees with its input record in every other field. |
| `SensorAdapterManager.HandleTelemetry` | src/main/python/programmingtheiot/cda/system/SensorAdapterManager.py:132-148 | A tick raises iff some source raises. Without an exception, the humidity, pressure and temperature sources are each polled exactly once, in that order. With one, polling stops at the first source that raised. An attached listener receives exactly the three stamped records in that order. Otherwise nothing is delivered. Every notification goes to the attached listener and carries the location. No poll follows a notification. |
| `SensorAdapterManager.AbortedTick` | src/main/python/programmingtheiot/cda/system/SensorAdapterManager.py:133-135 | When the source at a given position raises, exactly the sources up to and including it are polled, in order, and nothing is delivered. |
| `SensorAdapterManager.CompletedTick` | src/main/python/programmingtheiot/cda/system/SensorAdapterManager.py:133-148 | When every source returns, all three are polled in order. Then an attached listener receives the three stamped records in the same order, and no listener means no notification. |
| `SensorAdapterManager.SetDataMessageListener` | src/main/python/programmingtheiot/cda/system/SensorAdapterManager.py:151-153 | A falsy listener leaves the manager unchanged. A truthy one replaces the listener and nothing else. |
| `SensorAdapterManager.StartManager` | src/main/python/programmingtheiot/cda/system/SensorAdapterManager.py:156-162 | Afterwards the manager is running. It warns iff it was already running. Nothing else changes. |
| `SensorAdapterManager.StopManager` | src/main/python/programmingtheiot/cda/system/SensorAdapterManager.py:165-171 | Afterwards the manager is not running. It warns, without failing, iff it was already stopped. Nothing else changes. |
| `SensorAdapterManager.StartStopIdempotent` | src/main/python/programmingtheiot/cda/system/SensorAdapterManager.py:156-171 | A second start, or a second stop, leaves the manager unchanged and only warns. |
| `SensorAdapterManager.StopThenStartResumes` | src/main/python/programmingtheiot/cda/system/SensorAdapterManager.py:156-171 | Stopping a running manager and starting it again restores it, with no warning. |
| `SensorAdapterManager.Step` | src/main/python/programmingtheiot/cda/system/SensorAdapterManager.py:55-56 | A timer interval on a running manager makes exactly the calls of one `handleTelemetry`. No other step makes a call. A timer interval leaves the manager unchanged. A start step gives the manager `startManager` leaves, a stop step the one `stopManager` leaves, and a set-listener step the one `setDataMessageListener` leaves. No step changes the poll rate or the location, and none detaches a listener. |
| `SensorAdapterManager.RunKeepsConfiguration` | src/main/python/programmingtheiot/cda/system/SensorAdapterManager.py:137-153 | Across any sequence of steps, the poll rate and location never change, and an attached listener is never detached. Every record delivered carries the manager's location. |
| `SensorAdapterManager.RunPollBound` | src/main/python/programmingtheiot/cda/system/SensorAdapterManager.py:133-148 | Across any sequence of steps, at most three polls and three notifications happen per timer interval. |
| `SensorAdapterManager.StoppedManagerIsSilent` | src/main/python/programmingtheiot/cda/system/SensorAdapterManager.py:156-171 | A stopped manager that is never started makes no call on any source or listener, and stays stopped. |
| `SensorAdapterManager.StopThenStartResumesTicking` | src/main/python/programmingtheiot/cda/system/SensorAdapterManager.py:55-56 | After a running manager is stopped and started again, the next timer interval polls all three sources in order. It delivers that interval's three stamped records to the attached listener. |
| `SensorAdapterManager.NoBufferingWithoutListener` | src/main/python/programmingtheiot/cda/system/SensorAdapterManager.py:145-148 | Without a listener, ticks deliver nothing and leave the manager as it was, apart from its running flag. `FirstTickAfterAttachDeliversOnlyItsRecords` builds on this. |
| `SensorAdapterManager.FirstTickAfterAttachDeliversOnlyItsRecords` | src/main/python/programmingtheiot/cda/system/SensorAdapterManager.py:145-153 | However many steps pass without a listener, the first timer interval after one is attached to the running manager delivers exactly that interval's three stamped records, in order. Nothing is held over from earlier intervals. |
| `SensorAdapterManager.AttachThenTickRunsOneTick` | src/main/python/programmingtheiot/cda/system/SensorAdapterManager.py:145-153 | Attaching a listener to a running manager, then one timer interval, makes exactly the calls of one `handleTelemetry` with that listener. |
| `SensorAdapterManager.AttachThenTickDelivers` | src/main/python/programmingtheiot/cda/system/SensorAdapterManager.py:145-153 | When every source returns, the interval right after a listener is attached delivers the three stamped records, in order. |
| `SensorAdapterManager.StopSilencesTicks` | src/main/python/programmingtheiot/cda/system/SensorAdapterManager.py:165-171 | After a stop, no step makes any call on a source or a listener until the next start, and the manager stays stopped. |
| `SensorAdapterManager.StartThenTickRunsOneTick` | src/main/python/programmingtheiot/cda/system/SensorAdapterManager.py:156-160 | Starting a stopped manager, then one timer interval, makes exactly the calls of one `handleTelemetry` on the running manager. |

## Left out

- The scheduler's timer: its real-time firing, its background thread and any overlap between ticks. A `Tick` step stands for one interval, and a boolean stands for the scheduler's running state. In a sequence of steps, a tick that raises ends that tick only, because the scheduler reports job errors and keeps firing.
- Configuration lookups and dynamic class loading. The poll rate, the location and the collaborators are parameters.
- Emulator mode. In that mode the router stores `hvacAdapter` and `humidifierAdapter` but dispatches through `hvacActuator` and `humidifierActuator`. Those are set only in simulator mode. The router's constructor also ignores its `useEmulator` argument. Only the simulator-mode wiring is modelled.
- The simulated data sets and their floating-point floors and ceilings. Sensor and actuator values are opaque reals.
- The emulator tasks. They are hardware plumbing that drives the SenseHAT emulator.
- Logging. The only logging with an observable role is the warning on a repeated start or stop. It is the `warned` flag of `StartManager` and `StopManager`.
- Exceptions from the listener. Listener calls are assumed to return, and their boolean results are ignored, as in the source.
- Actuator and source internal state. Each `Send` step carries the actuators' behaviour for that call, and each `Tick` step carries the sources' behaviour for that interval. So stateful collaborators are covered, but their state itself is not modelled.
- `Common.WithLocation`: assumes `setLocationID` changes only the record's location and keeps its name, type, value and time stamp. `SensorData.py` is not part of this model, so this is not checked against its text.
- The return value of `setDataMessageListener`. It is annotated `-> bool` but returns `None` in both branches, and the model returns only the new state.
- `SensorAdapterManager.StopThenStartResumesTicking`: assumes the scheduler can be started again after `shutdown()`, with its interval job still scheduled and runnable. Lines 169 and 160 call `shutdown()` and then `start()` on the same `BackgroundScheduler`. Whether the scheduler library allows that, and whether its executor survives the shutdown, is library behaviour that is not part of this model. `SensorAdapterManager.StartThenTickRunsOneTick` rests on the same assumption.
- `ActuatorAdapterManager.SendActuatorCommand`: compares locations as strings, where line 78 compares them by object identity (see Findings).

## Findings

| source | as written | input that shows it | evidently intended | confidence | as-written member | corrected member |
|---|---|---|---|---|---|---|
| src/main/python/programmingtheiot/cda/system/ActuatorAdapterManager.py:78 | `data.getLocationID() is self.locationID` compares string object identity | A command whose location is "constraineddevice001" as a string object distinct from the configured one (for example, one decoded from a message) is rejected although the locations are equal | The command's location equals the configured location as text | medium, not executed | `ActuatorAdapterManager.IdentityCheckRejectsMatchingLocation` | `ActuatorAdapterManager.Route` |
