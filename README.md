# Video-stream monitor: drain, change gate and cycle controller

This project models `monitor_video_stream`, the streaming tool of the
monitoring agent (`app/monitoring_agent/agent.py`). The tool runs an endless
loop. Each cycle does four things:

1. It drains the live request queue and keeps only the latest request that
   carries a blob declared as `"image/jpeg"`.
2. It sends that frame to an external description service.
3. It passes the returned text through a change gate. The gate is one slot,
   `last_count`, that decides whether the text is surfaced.
4. It sleeps for 10 seconds.

The project also models `stop_streaming`, which does nothing.

How the files are laid out:

- `live_requests.dfy`
  - `Wrappers`: the `Option` type.
  - `LiveRequests`: blobs and queued requests, the frame test, `LastFrame` (the request the drain keeps), and how a failing queue or a JPEG blob without data interrupts the drain.
- `change_gate.dfy`, module `ChangeGate`:
  - `Gate`: the truthiness test on `last_count`.
  - `GateRun`: the gate over a sequence of descriptions.
  - `Changes`: an independent reference policy ("each description that differs from the one before it").
- `monitor_cycle.dfy`, module `MonitorCycle`:
  - One cycle as a pure function `Cycle` of the state (pending requests, `last_count`), the queue's fault and the service's reply.
  - A run of cycles, `Run`, and the lemmas about both.
- `monitor_agent.dfy`, module `MonitorAgent`: the imperative form that follows the source.
  - A `LiveRequestQueue` class.
  - A `VideoMonitor` class that owns `last_count`.
  - `DrainLatest`: the drain loop.
  - `RunCycle`: one iteration of the outer loop.
  - `Monitor`: the outer loop over a finite list of cycles.
  - `StopStreaming`.

The three methods `DrainLatest`, `RunCycle` and `Monitor` are each proved equal to their pure
counterparts (`LastFrame` with `DrainRemainder`, `Cycle` and `Run`). The properties are proved
about those functions.

The external steps are given to the model as inputs:

- **The queue failure.** It is `fault: Option<nat>`. `Some(k)` means the queue raises at the size test made after `k` requests were taken.
- **The description service.** Its answer is a `Reply`. It is one of:
  - `GenerateFailed`: the call raised.
  - `Response(text)`: the text of the first part of the first candidate. It is `Option<string>`, because a part's text may be absent.
  - `NoCandidate`: the response has no candidate or part to read.
- **Other requests.** Requests that arrive between cycles are passed in as each cycle's `arrivals`. No request can arrive during the drain. `get()` is called only after a non-zero size, and the queue's `get()` then returns without suspending. So the drain sees exactly the queue as it was when the cycle began.

An emitted response is identified by its text (`Alert(text)`). The two error
markers carry the exact messages of the source.

Points of the source's behaviour that the model keeps as written:

- **A failing drain skips the sleep.** The drain's `except` yields `"Error pulling latest images"` and ends with `continue`, so the sleep at line 85 is skipped. `Cycle` has `slept == false` here.
- **A failing call skips the sleep too.** The same holds for `"Error while generating response"` (lines 70-73).
- **A malformed response ends the generator.** The text is read at lines 77-80, outside the `try` block. So a response without a candidate or part raises there and ends the generator. The model returns `halted == true`, and `Run` stops there.
- **The baseline test is truthiness.** `not last_count` makes both `None` and `""` an unset slot. So an empty description that differs from a set slot is surfaced, and the next description after it becomes a new silent baseline (`EmptyDescriptionRearmsBaseline`).

## Model

| member | source | states |
|---|---|---|
| `LiveRequests.LastFrame` | app/monitoring_agent/agent.py:25-35 | the retained request is one of the consumed requests and has a blob with MIME type exactly `image/jpeg`; nothing is retained exactly when no consumed request is such a frame |
| `LiveRequests.LastFrameIsLatest` | app/monitoring_agent/agent.py:30-35 | a frame followed by no other frame is the one retained, whatever requests of other kinds come after it |
| `LiveRequests.LastFramePosition` | app/monitoring_agent/agent.py:30-35 | conversely, the retained request sits at a position after which no frame arrived; later requests were consumed and dropped |
| `LiveRequests.LastFrameSnoc` | app/monitoring_agent/agent.py:33-35 | taking one more request replaces the retained one exactly when the new request is a JPEG frame |
| `LiveRequests.FirstUnreadable` | app/monitoring_agent/agent.py:33-34 | finds the first JPEG request whose blob has no data, which is the request whose logging at line 34 raises; none is found exactly when every JPEG request carries data |
| `LiveRequests.DrainFailsWhen` | app/monitoring_agent/agent.py:29-39 | the drain raises if and only if the queue raises at a size test it reaches or a JPEG request without data is taken; it has then taken at most the whole queue |
| `ChangeGate.GateStoresLatest` | app/monitoring_agent/agent.py:77-80 | after any description reaches the gate, `last_count` holds that description (stored as a baseline, stored on change, or already equal) |
| `ChangeGate.GateAlertsOnChange` | app/monitoring_agent/agent.py:77-82 | a description is surfaced if and only if `last_count` was truthy and differs from it |
| `ChangeGate.Changes` | app/monitoring_agent/agent.py:77-82 | the reference policy surfaces nothing for zero or one description, fewer items than descriptions, and only descriptions after the first |
| `ChangeGate.GateRunSlot` | app/monitoring_agent/agent.py:77-80 | after a sequence of descriptions, `last_count` holds the last one, or its initial value when there was none |
| `ChangeGate.GateRunIsChanges` | app/monitoring_agent/agent.py:77-82 | for non-empty descriptions, the gate surfaces exactly the descriptions that differ from their predecessor; from an unset slot the first one is the silent baseline |
| `ChangeGate.FirstDescriptionIsSilent` | app/monitoring_agent/agent.py:77-78 | for any text, the first description after start sets `last_count` to it and surfaces nothing |
| `ChangeGate.RepeatThenChange` | app/monitoring_agent/agent.py:77-82 | the descriptions A, A, B surface only B |
| `ChangeGate.ChangeRepeatChangeBack` | app/monitoring_agent/agent.py:77-82 | the descriptions A, B, B, A surface B and then A |
| `ChangeGate.EmptyDescriptionRearmsBaseline` | app/monitoring_agent/agent.py:77-82 | from slot A, the descriptions "", B surface "" and store B silently, because "" is falsy |
| `MonitorCycle.CycleDrainsQueue` | app/monitoring_agent/agent.py:29-39 | after a normal drain the queue is empty; after a failed drain the queue is the untaken suffix |
| `MonitorCycle.CycleSendsLatestFrame` | app/monitoring_agent/agent.py:42-58 | the blob sent to the service is the blob of a queued request with MIME type `image/jpeg`, it carries data, and no frame came after that request |
| `MonitorCycle.CycleIgnoresNonFrames` | app/monitoring_agent/agent.py:33-42 | when no queued request has a JPEG blob, nothing is sent to the service |
| `MonitorCycle.CycleWithoutFrame` | app/monitoring_agent/agent.py:42-85 | with no frame retained, the cycle makes no call, yields nothing, keeps `last_count` and sleeps |
| `MonitorCycle.CycleUnreadableFrame` | app/monitoring_agent/agent.py:30-39 | with a queue that does not raise, the first JPEG request without data still ends the drain: one drain error marker, `last_count` kept, no sleep, and the requests after it stay queued |
| `MonitorCycle.CycleDrainFailure` | app/monitoring_agent/agent.py:36-39 | a failing drain yields exactly the one marker "Error pulling latest images", sends nothing, keeps `last_count` and skips the sleep |
| `MonitorCycle.CycleGenerateFailure` | app/monitoring_agent/agent.py:70-73 | a failing call yields exactly the one marker "Error while generating response", keeps `last_count` and skips the sleep |
| `MonitorCycle.CycleGatesDescription` | app/monitoring_agent/agent.py:77-85 | in a cycle whose call succeeds: a falsy slot takes the text silently; a truthy, different slot takes it and yields exactly one alert; an equal text changes nothing; then the cycle sleeps |
| `MonitorCycle.CycleDescribedOnlyAfterCall` | app/monitoring_agent/agent.py:42-80 | the gate sees a description if and only if a frame was sent and the call returned a readable response (its text may be None) |
| `MonitorCycle.RunFollowsGate` | app/monitoring_agent/agent.py:24-85 | over any run of cycles, the alerts and the final `last_count` are exactly what the gate makes of the descriptions that reached it; failed or frameless cycles do not affect them |
| `MonitorCycle.RunAlertsAreChanges` | app/monitoring_agent/agent.py:22-85 | from the start (`last_count = None`), with non-empty descriptions, a run surfaces exactly the descriptions that differ from the previous description |
| `MonitorCycle.RunWithoutFrames` | app/monitoring_agent/agent.py:24-85 | a stream that never delivers a JPEG frame never surfaces a description, never ends the generator, keeps `last_count`, and yields only drain error markers |
| `MonitorCycle.ChangeSurvivesGenerateFailure` | app/monitoring_agent/agent.py:56-82 | a failed call does not use up a change: the next successful cycle with a text different from a set `last_count` surfaces it |
| `MonitorAgent.LiveRequestQueue.QSize` | app/monitoring_agent/agent.py:30 | the size query returns the number of requests waiting |
| `MonitorAgent.LiveRequestQueue.Get` | app/monitoring_agent/agent.py:32 | `get` returns the oldest request and removes it |
| `MonitorAgent.VideoMonitor.constructor` | app/monitoring_agent/agent.py:22 | a new generator starts with `last_count` unset |
| `MonitorAgent.VideoMonitor.DrainLatest` | app/monitoring_agent/agent.py:25-39 | the drain loop returns the latest JPEG frame of the queue (`LastFrame`), or the failure if the queue raised or a JPEG request had no data; a normal drain leaves the queue empty, and an interrupted one leaves exactly the requests it had not taken |
| `MonitorAgent.VideoMonitor.RunCycle` | app/monitoring_agent/agent.py:24-85 | one outer-loop iteration changes the queue and `last_count` and yields exactly what `Cycle` says |
| `MonitorAgent.VideoMonitor.Monitor` | app/monitoring_agent/agent.py:24-85 | the outer loop over the given cycles ends in the state, emissions and termination flag that `Run` gives |
| `MonitorAgent.StopStreamingKeepsMonitor` | app/monitoring_agent/agent.py:90-97 | calling `stop_streaming` leaves a running monitor and its queue unchanged |

## Left out

- The Gemini client and the `generate_content` call (lines 17, 47-68) are foreign network calls. Their outcome is the `reply` input. The request contents are not modelled: the image part, the prompt text, the model name and the system instruction.
- The response envelope is not modelled. An emitted response is identified by its extracted text.
- `asyncio.sleep(10)` is the `slept` flag of a cycle. Timing is not modelled, and neither are the `await` suspension points.
- The ADK `LiveRequestQueue` internals are not modelled. This includes the private `_queue` and the blocking of `get()` on an empty queue: `Get` requires a non-empty queue, because the drain calls it only after a non-zero size.
- The fields of a live request other than its blob are not modelled.
- A queue failure is modelled only at the size test. Failing inside `get()` before a request is removed has the same effect.
- MonitorAgent.VideoMonitor.Monitor: the `while True` loop is modelled over a finite list of cycles. Cancellation by the runtime is the end of the list.
- `print` logging is not modelled as output. The one print that can raise, the slice of the blob's data at line 34, is modelled: a JPEG request without data fails the drain.
- The `root_agent` registration (lines 100-113) is framework configuration and is not modelled.
- `StopStreaming` has no contract of its own. It has no `modifies` clause, so Dafny allows it to change no state. `StopStreamingKeepsMonitor` states this.
