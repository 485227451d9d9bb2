# Drone bootcamp watchdog and telemetry pairing, modelled in Dafny

This project models the two pieces of sequential logic at the centre of the
bootcamp's worker processes and proves what they promise.

- **Heartbeat receiver** (`heartbeat_receiver.dfy`, module `Heartbeat`). This is a
  connectivity watchdog. Each `run()` call takes one liveness sample: did
  `recv_match` return a HEARTBEAT message or not. It then updates a
  consecutive-miss counter and a two-valued state, `"Connected"` or
  `"Disconnected"`, and returns the state. The receiver is the class
  `HeartbeatReceiver`. Its fields are updated in place by `Run`. A ghost field
  `history` records the samples seen. The pure functions `Step` and `Trace` give
  the specification. The object invariant `Valid()` ties the fields to
  `Trace(Initial(), history)` and to the length of the trailing run of misses.
- **Telemetry pairing loop** (`telemetry.dfy`, module `Telemetry`). This models
  `Telemetry.run`. It polls for an ATTITUDE and a LOCAL_POSITION_NED message
  and keeps the first of each. It tracks the largest `time_boot_ms`. It builds
  a `TelemetryData` record as soon as both messages are held, or returns `None`
  when the time budget runs out. The connection is a parameter: `inbox[i]`
  holds what `recv_match` would answer for each message type if asked in loop
  iteration `i`. The one-second budget is the number of iterations,
  `|inbox|`. Payload fields have an opaque type `F`, because the loop only
  copies them. The method `Run` keeps the source's `while` loop. It is proved
  equal to the reference function `Expected`. The ghost record of the
  `recv_match` calls it makes is proved equal to `PollsUpTo(inbox, Iterations(inbox))`.
  Further lemmas state what those reference functions promise.

`wrappers.dfy` holds the `Option` type standing for Python's `None`.

## Model

| member | source | states |
|---|---|---|
| `Heartbeat.HeartbeatReceiver.constructor` | modules/heartbeat/heartbeat_receiver.py:43-56 | A new receiver is "Disconnected", has 0 missed heartbeats, has a threshold of 5 and has an empty history. |
| `Heartbeat.HeartbeatReceiver.Run` | modules/heartbeat/heartbeat_receiver.py:58-90 | A hit sets the counter to 0 and the state to "Connected". A miss adds exactly 1 to the counter. A miss that brings the counter to 5 or more sets "Disconnected". Any other miss leaves the state unchanged. The returned value is the state after the update. The invariant is kept: the state is one of the two strings and the counter equals the trailing run of misses. After the call, the state is "Connected" exactly when some hit has been seen and the counter is below 5. |
| `Heartbeat.HitRecovers` | modules/heartbeat/heartbeat_receiver.py:68-76 | After any history, one received heartbeat gives "Connected" with 0 misses. |
| `Heartbeat.MissNeverConnects` | modules/heartbeat/heartbeat_receiver.py:77-88 | A miss never moves the state to "Connected". |
| `Heartbeat.TraceKeepsConnectivity` | modules/heartbeat/heartbeat_receiver.py:53-88 | From a valid state, every sequence of samples leaves the state as "Connected" or "Disconnected". |
| `Heartbeat.MissedIsTrailingMisses` | modules/heartbeat/heartbeat_receiver.py:54-79 | From a new receiver, the miss counter equals the length of the trailing run of misses in the sample history. |
| `Heartbeat.ConnectedIff` | modules/heartbeat/heartbeat_receiver.py:53-88 | From a new receiver, the state is "Connected" if and only if the history contains a hit and fewer than 5 misses follow the last hit. |
| `Heartbeat.MissesFromConnected` | modules/heartbeat/heartbeat_receiver.py:77-88 | From "Connected" with 0 misses, k consecutive misses give counter k. The state stays "Connected" for k < 5 and becomes "Disconnected" for k >= 5, so disconnection happens exactly on the 5th miss. |
| `Heartbeat.MissesKeepDisconnected` | modules/heartbeat/heartbeat_receiver.py:77-88 | From "Disconnected", any run of misses keeps it "Disconnected" and adds the run's length to the counter. |
| `Heartbeat.FourMissesHitMissStaysConnected` | modules/heartbeat/heartbeat_receiver.py:66-90 | From "Connected", the samples miss, miss, miss, miss, hit, miss keep the receiver "Connected" after every prefix. |
| `Telemetry.FirstIndex` | modules/telemetry/telemetry.py:106-119 | Gives the first iteration in which a stream delivers a message: that iteration delivers one and no earlier iteration does. Gives none when no iteration delivers one. |
| `Telemetry.Run` | modules/telemetry/telemetry.py:100-148 | The result equals `Expected(inbox)`. The `recv_match` calls made are exactly `PollsUpTo(inbox, Iterations(inbox))`, in order. |
| `Telemetry.ExpectedSomeIff` | modules/telemetry/telemetry.py:105-148 | The result is present if and only if, within the budget, some iteration answers with an ATTITUDE and some iteration answers with a LOCAL_POSITION_NED. Otherwise it is `None`. |
| `Telemetry.ExpectedFromFirstMessages` | modules/telemetry/telemetry.py:102-137 | Let ka be the iteration of the first ATTITUDE and kp that of the first LOCAL_POSITION_NED. Position and velocity come from the message of iteration kp only. Angles and rates come from the message of iteration ka only. `time_since_boot` is the larger of the two `time_boot_ms`. The loop stops in iteration max(ka, kp). |
| `Telemetry.IterationsWithinBudget` | modules/telemetry/telemetry.py:105 | The loop never runs more iterations than the budget allows. |
| `Telemetry.PollsBelow` | modules/telemetry/telemetry.py:105-138 | Every call made in the first n iterations belongs to one of them. So nothing is polled after the iteration in which both messages are first held. |
| `Telemetry.PollsDistinct` | modules/telemetry/telemetry.py:106-119 | No (iteration, message type) call is made twice: each iteration polls each type at most once. |
| `Telemetry.NoPollOnceHeld` | modules/telemetry/telemetry.py:106-119 | A message type is polled only while no message of that type is held. Once the first one is kept, it is never asked for again. |
| `Telemetry.PollsWhileMissing` | modules/telemetry/telemetry.py:106-119 | Conversely, every iteration polls each type that is not yet held. |
| `Telemetry.FirstIndexOfExtension` | modules/telemetry/telemetry.py:106-119 | Once a stream has delivered a message, later answers do not change which message is first. |
| `Telemetry.LongerBudgetSameResult` | modules/telemetry/telemetry.py:105-137 | When a result is produced within a budget, a longer budget gives the same result, the same number of iterations and the same calls. |

## Left out

- The process framework (the cross-process bounded queue wrapper, the worker properties, the worker manager and the exit controller). Its source under `utilities/workers` is not part of this model. Its substance is concurrency across OS processes.
- `bootcamp_main.py`: process orchestration, YAML and logger setup, connection setup and the timed main loop. All of it is I/O.
- The worker entry functions (`heartbeat_receiver_worker.py`, `heartbeat_sender_worker.py`, `telemetry_worker.py`, `command_worker.py`): sleep-and-poll loops that push to queues and log.
- `heartbeat_sender.py`: a single call into the MAVLink library to send a heartbeat.
- `command.py`: an empty stub. The command decision logic is not part of this model.
- The connection: `recv_match` is replaced by its answer. For the watchdog this is one boolean per call. For telemetry it is one `Poll` per loop iteration.
- Wall-clock time and `time.sleep`: the one-second telemetry budget is the length of `inbox`.
- Logging, including the three timeout error messages of `Telemetry.run`, and `TelemetryData.__str__`.
- The `create` factories with their private-key guard. `HeartbeatReceiver.create` can only fail through exceptions raised by the connection or the logger, and both are left out.
- Float payload values: they are only copied, so their type is a parameter.
- `TelemetryData`: the record's fields default to `None` in Python, but `run` always fills every field, so the model's record has no optional fields.
