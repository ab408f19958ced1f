# Camera calibration: synchronized recording start, modelled in Dafny

This project models the coordination core of the CameraCalibration Android
app. One device chooses the master role and the others choose the slave role.
Every device talks to a shared relay over one WebSocket. A slave that receives
a trigger waits for the next minute boundary of its wall clock and only then
starts a 2-minute camera recording. The model covers four pieces of the app:

- `network.dfy` (module `Network`) models `WebSocketManager`: one nullable
  client slot, a role announcement `{"deviceType":"<type>"}` sent when a
  client opens, best-effort sends, and a single-slot "latest message" cell
  (a `StateFlow<String?>`) that inbound frames overwrite.
- `roles.dfy` (module `Roles`) models `MainActivity`: the `isMaster` flag,
  the collector's trigger gate (not master, text contains `"M1"`, current
  screen is setup), and the connect-as-master, connect-as-slave and destroy
  sequences.
- `scheduler.dfy` (module `Scheduler`) models the poll loop of
  `SlaveRecordingFragment.setupRecordingSchedule`. It releases at most once:
  on the first sample with `second == 0 && millis < 100`, and only if such a
  sample is polled before teardown. On every other poll it shows
  `60 - second`. Teardown stops it.
- `camera.dfy` (module `Camera`) models `CameraRecorder`: the
  `videoCapture` / `recording` / `currentRecordingFile` slots, unbind before
  bind, the output file `REC_<yyyyMMdd_HHmmss>.mp4`, and the Start/Finalize
  listener. It also models `stopRecording`.
- `slave_recording.dfy` (module `SlaveRecording`) models the rest of
  `SlaveRecordingFragment`: the status text, navigation back to setup, the
  finished-callback, the start-error path and `onDestroyView`.
- `scenario.dfy` holds five small, independent runs of these operations.
  Each has its own manager or screen, and no frame is relayed between
  devices. They cover: each role's announcement; two frames delivered to a
  slave; the master's command followed by the marker; a marker overwritten
  before the collector runs; and a release at `:00.050`, followed by the
  stop and the save.
- `text.dfy` models Kotlin's `String.contains`. `wrappers.dfy` holds
  `Option`, which stands for Kotlin's nullable types.

Platform pieces become inputs:

- The clock is the sequence of `(second, millis)` samples that successive
  polls read.
- Teardown is the number of polls done before `onDestroyView` runs.
- Library exceptions are boolean fault parameters.
- The camera is a stream of `Start` / `Finalize(hasError)` events plus a
  movies directory, modelled as a map from file name to length (a missing
  name is a missing file).
- The coroutines run as sequential steps.

In places the source does not do what its own structure says it intends.
The model follows the code as written:

- **Failed recordings are not reported.** The slave screen's finished-callback
  has a failure branch for a missing or empty file
  (`SlaveRecordingFragment.kt:144-147`) that shows a failure and navigates
  back. The recorder never reaches it. A Finalize without error on an empty or missing file calls no
  callback and deletes nothing. A Finalize with an error deletes the file
  but calls no callback either. The slave screen is therefore never told,
  and never navigates back. Its own "empty file" branch cannot be reached
  through the recorder. `OnCameraEvent` proves both facts.
- **Cancellation is not quiet.** `onDestroyView` cancels the job
  (`SlaveRecordingFragment.kt:166`) and releases the binding, which suggests
  teardown should end the job silently. Instead, a cancellation that arrives
  during `delay(10)` raises a `CancellationException`. The loop's
  `catch (e: Exception)` catches it and writes the status text through the
  binding that `onDestroyView` has already released. That write raises
  again, so the navigation back is never reached. No recording is released
  (`RunSchedule`, `viewFault`). A teardown during the 2-minute recording
  delay goes the same way. The recorder raises the cancellation again
  (`CameraRecorder.kt:124-126`), and both of the screen's handlers write to
  the released binding. `stopRecording` is never called, and nothing
  navigates back (`AwaitRecordingEnd`).
- **The trigger strings do not match.** The master's button sends
  `"SEND_TO_SLAVES"`, but slaves react only to text containing `"M1"`. Both
  literals are kept as the source has them, and `MasterCommandIsNoTrigger`
  proves that the command never arms a slave.
- **Connect does not close the previous client.** Only callers that
  disconnect first keep a single live client. `Connect` states both cases.
- **Triggers can be lost.** The message cell is a `StateFlow`
  (`WebSocketManager.kt:14`). It emits only when its value changes, and it
  conflates. A collector that runs late sees only the value the cell holds
  by then, and it always ends up seeing the final one. A repeated identical
  frame therefore reaches the collector once. A `"M1"` frame that a later
  frame overwrites before the collector runs arms nothing. `Collect` takes
  as input the moments at which the collector runs. `OverwrittenTriggerIsMissed`
  and `FinalTriggerArms` state both outcomes.

## Model

| member | source | states |
|---|---|---|
| `Text.ContainsIff` | app/src/main/java/com/ai/cameracalibration/MainActivity.kt:47 | the substring test used by the trigger gate holds exactly when the marker occurs at some index of the text |
| `Network.ParseAnnouncement` | app/src/main/java/com/ai/cameracalibration/network/WebSocketManager.kt:39 | a frame read back as an announcement is exactly the announcement of the type read |
| `Network.AnnouncementRoundTrip` | app/src/main/java/com/ai/cameracalibration/network/WebSocketManager.kt:39 | the announcement `{"deviceType":"<type>"}` carries its device type recoverably |
| `Network.AnnouncementInjective` | app/src/main/java/com/ai/cameracalibration/network/WebSocketManager.kt:39 | different device types announce themselves with different frames |
| `Network.LatestIsLastPresent` | app/src/main/java/com/ai/cameracalibration/network/WebSocketManager.kt:44-46 | the message cell keeps no history: after a run of frames it holds the last non-null one, or its old value when all were null |
| `Network.Manager.constructor` | app/src/main/java/com/ai/cameracalibration/network/WebSocketManager.kt:13-14 | the client slot and the message cell start empty |
| `Network.Manager.Connect` | app/src/main/java/com/ai/cameracalibration/network/WebSocketManager.kt:31-66 | the call is logged with the caller's role flag; on success the slot holds a fresh connecting client of the given type; a raised exception changes nothing; a still-live previous client is not closed and stays live beside the new one |
| `Network.Manager.Disconnect` | app/src/main/java/com/ai/cameracalibration/network/WebSocketManager.kt:79-86 | the call is logged with the caller's role flag; the client in the slot, if any, is closed and the slot emptied; if at most one client was live, none is afterwards |
| `Network.Manager.SendMessage` | app/src/main/java/com/ai/cameracalibration/network/WebSocketManager.kt:69-77 | with no client nothing is sent; otherwise the frame is appended to the client's wire exactly when it is open and the send does not fail; failures never propagate |
| `Network.Manager.Opened` | app/src/main/java/com/ai/cameracalibration/network/WebSocketManager.kt:36-40 | the opened client becomes open and its device type's announcement is handed to `SendMessage`, which sends on the client in the slot; it reaches the wire once when that client is open and the send does not fail, and not at all otherwise; when the slot holds another client, or none, the opened client's own wire is untouched |
| `Network.Manager.OnMessage` | app/src/main/java/com/ai/cameracalibration/network/WebSocketManager.kt:42-47 | a non-null frame overwrites the cell with exactly that frame, a null frame leaves it; subscribers see an emission only when the value changes |
| `Roles.StepIdempotent` | app/src/main/java/com/ai/cameracalibration/MainActivity.kt:44-59 | handling the same value twice acts as handling it once |
| `Roles.OffSetupIsInert` | app/src/main/java/com/ai/cameracalibration/MainActivity.kt:50-55 | a device not on the setup screen never changes screen, whatever it collects |
| `Roles.ArmsAtMostOnce` | app/src/main/java/com/ai/cameracalibration/MainActivity.kt:47-55 | over any sequence of collected values, duplicate triggers included, the slave screen is entered at most once |
| `Roles.MasterNeverReacts` | app/src/main/java/com/ai/cameracalibration/MainActivity.kt:47 | a master device never changes screen, whatever messages it collects |
| `Roles.ArmedIff` | app/src/main/java/com/ai/cameracalibration/MainActivity.kt:45-55 | from setup, a device ends on the slave screen if and only if some collected value is non-null, the device is not master and the text contains `"M1"`; otherwise it stays on setup |
| `Roles.MasterCommandIsNoTrigger` | app/src/main/java/com/ai/cameracalibration/ui/setup/fragments/MasterRecordingFragment.kt:30 | the master's `"SEND_TO_SLAVES"` command does not contain `"M1"` and arms no slave |
| `Roles.AnnouncementIsNoTrigger` | app/src/main/java/com/ai/cameracalibration/network/WebSocketManager.kt:39 | the `MASTER` and `SLAVE` announcements, if relayed, arm no slave |
| `Roles.Activity.constructor` | app/src/main/java/com/ai/cameracalibration/MainActivity.kt:22 | a new activity is not master and shows the setup screen |
| `Roles.Activity.HandleMessage` | app/src/main/java/com/ai/cameracalibration/MainActivity.kt:44-59 | the screen changes only from setup to the slave screen, and only for a non-null value containing `"M1"` on a non-master device |
| `Roles.Activity.Collect` | app/src/main/java/com/ai/cameracalibration/MainActivity.kt:42-64 | the collector handles the cell's current value, then, at each moment it gets to run, the value the cell holds if it changed; the screen ends as handling exactly those observed values in order would, and the cell holds the last non-null frame |
| `Roles.ObservedEndsWithLatest` | app/src/main/java/com/ai/cameracalibration/network/WebSocketManager.kt:45 | however late the collector runs, the last value it is handed is the cell's final value |
| `Roles.ObservedFromCell` | app/src/main/java/com/ai/cameracalibration/network/WebSocketManager.kt:44-46 | every value the collector is handed is the cell's initial value or a frame that arrived; conflation drops values but invents none |
| `Roles.FinalTriggerArms` | app/src/main/java/com/ai/cameracalibration/MainActivity.kt:44-55 | a slave on setup ends armed whenever the cell's final value is a trigger |
| `Roles.ArmedOnlyByDelivered` | app/src/main/java/com/ai/cameracalibration/MainActivity.kt:44-55 | a slave ends armed only if the cell's initial value or some arrived frame was a trigger |
| `Roles.OverwrittenTriggerIsMissed` | app/src/main/java/com/ai/cameracalibration/MainActivity.kt:44-55 | a trigger overwritten by a non-trigger before the collector runs leaves the slave on setup |
| `Roles.Activity.ConnectAsMaster` | app/src/main/java/com/ai/cameracalibration/MainActivity.kt:66-81 | the manager sees a disconnect made while the flag had its old value, then a connect as `MASTER` made with the flag already true, and the master screen is shown; the previous client is closed and, without faults, exactly one live client remains; if generating the id raises, only `isMaster` changes (to false) and the previous client is untouched |
| `Roles.Activity.ConnectAsSlave` | app/src/main/java/com/ai/cameracalibration/MainActivity.kt:83-94 | the manager sees a disconnect made with the old flag, then a connect as `SLAVE` made with the flag already false; the screen does not change; without faults exactly one live client remains; if generating the id raises, nothing changes and the previous client is untouched |
| `Roles.Activity.OnDestroy` | app/src/main/java/com/ai/cameracalibration/MainActivity.kt:96-100 | the disconnect is made before the flag is cleared; the connection is closed, the slot empty and `isMaster` false |
| `Scheduler.Countdown` | app/src/main/java/com/ai/cameracalibration/ui/setup/fragments/SlaveRecordingFragment.kt:117 | the countdown shown lies in 1..60 and is 60 exactly at second 0 |
| `Scheduler.ScheduleFrom` | app/src/main/java/com/ai/cameracalibration/ui/setup/fragments/SlaveRecordingFragment.kt:106-119 | a release or an interruption always refers to a sample actually polled |
| `Scheduler.Schedule` | app/src/main/java/com/ai/cameracalibration/ui/setup/fragments/SlaveRecordingFragment.kt:103-119 | the job ends without polling exactly when it is cancelled before the loop starts |
| `Scheduler.ScheduleFromSound` | app/src/main/java/com/ai/cameracalibration/ui/setup/fragments/SlaveRecordingFragment.kt:106-119 | each way the loop can end is justified by the samples polled and the cancellation moment |
| `Scheduler.ReleaseOnlyInWindow` | app/src/main/java/com/ai/cameracalibration/ui/setup/fragments/SlaveRecordingFragment.kt:111-113 | a release happens only on a sample with second 0 and millis below 100, the first such sample, and only before cancellation |
| `Scheduler.ReleaseIff` | app/src/main/java/com/ai/cameracalibration/ui/setup/fragments/SlaveRecordingFragment.kt:106-118 | the job releases if and only if some in-window sample is polled before teardown |
| `Scheduler.PollUntilBoundary` | app/src/main/java/com/ai/cameracalibration/ui/setup/fragments/SlaveRecordingFragment.kt:106-119 | the loop ends as the schedule says, with at most one release, and shows `60 - second` once for each poll that did not release |
| `Scheduler.ReleasesAtBoundary` | app/src/main/java/com/ai/cameracalibration/ui/setup/fragments/SlaveRecordingFragment.kt:111 | a clock reaching `:00.050` releases on that poll |
| `Scheduler.MissedWindowWaits` | app/src/main/java/com/ai/cameracalibration/ui/setup/fragments/SlaveRecordingFragment.kt:111-118 | a poll landing at `:00.120` does not fire late; the job keeps waiting |
| `Camera.TimestampOf` | app/src/main/java/com/ai/cameracalibration/camera/CameraRecorder.kt:138 | a name read back as an output file name is exactly `REC_` + the timestamp + `.mp4` |
| `Camera.FileNameRoundTrip` | app/src/main/java/com/ai/cameracalibration/camera/CameraRecorder.kt:131-138 | the output file name carries its timestamp recoverably |
| `Camera.FileNamesDistinct` | app/src/main/java/com/ai/cameracalibration/camera/CameraRecorder.kt:131-142 | two recordings share a file name exactly when their timestamps are equal |
| `Camera.Recorder.constructor` | app/src/main/java/com/ai/cameracalibration/camera/CameraRecorder.kt:28-30 | a new recorder has no capture use case, no recording and no file |
| `Camera.Recorder.StartRecording` | app/src/main/java/com/ai/cameracalibration/camera/CameraRecorder.kt:44-95 | provider, bind and storage failures are raised in that order with no file created and no recording started; bind comes after unbind, so a failed bind leaves nothing bound; on success the old file of the same name is deleted and a fresh recording writes to `REC_<timestamp>.mp4` |
| `Camera.Recorder.HandleEvent` | app/src/main/java/com/ai/cameracalibration/camera/CameraRecorder.kt:95-118 | Start reports the start; Finalize empties the recording slot and yields at most one outcome: with an error the file is deleted and no callback runs, without one the file is handed over exactly when it exists and is non-empty |
| `Camera.Recorder.StopRecording` | app/src/main/java/com/ai/cameracalibration/camera/CameraRecorder.kt:145-152 | the current recording, if any, is asked to stop and the slot ends empty; with an empty slot it does nothing and produces no outcome |
| `SlaveRecording.FinishedStatus` | app/src/main/java/com/ai/cameracalibration/ui/setup/fragments/SlaveRecordingFragment.kt:140-148 | the verdict is success, with the file's name and length, exactly when the file exists and is non-empty, and failure otherwise |
| `SlaveRecording.Fragment.constructor` | app/src/main/java/com/ai/cameracalibration/ui/setup/fragments/SlaveRecordingFragment.kt:56-63 | a new screen has its view binding and no recorder |
| `SlaveRecording.Fragment.Show` | app/src/main/java/com/ai/cameracalibration/ui/setup/fragments/SlaveRecordingFragment.kt:27 | writing the status needs the binding; after teardown the write raises instead |
| `SlaveRecording.Fragment.NavigateToMain` | app/src/main/java/com/ai/cameracalibration/ui/setup/fragments/SlaveRecordingFragment.kt:158-162 | one request to go back to setup |
| `SlaveRecording.Fragment.InitializeCamera` | app/src/main/java/com/ai/cameracalibration/ui/setup/fragments/SlaveRecordingFragment.kt:85-95 | a fresh recorder is created for the movies directory, with no capture use case, nothing bound, no recording and no file |
| `SlaveRecording.Fragment.OnRecordingFinished` | app/src/main/java/com/ai/cameracalibration/ui/setup/fragments/SlaveRecordingFragment.kt:139-149 | success is shown only for an existing non-empty file and failure otherwise; either way exactly one navigation back |
| `SlaveRecording.Fragment.StartRecordingProcess` | app/src/main/java/com/ai/cameracalibration/ui/setup/fragments/SlaveRecordingFragment.kt:128-156 | with a recorder, a start error yields the error status and exactly one navigation back, and leaves the movies directory and the current file as they were; a successful start deletes any old `REC_<timestamp>.mp4` and records into it; without a recorder nothing starts |
| `SlaveRecording.Fragment.OnDestroyView` | app/src/main/java/com/ai/cameracalibration/ui/setup/fragments/SlaveRecordingFragment.kt:164-169 | the recorder and the binding are released |
| `SlaveRecording.Fragment.RunSchedule` | app/src/main/java/com/ai/cameracalibration/ui/setup/fragments/SlaveRecordingFragment.kt:102-126 | the job ends as the schedule says; only a release starts a recording, with the recorder's effects on the capture use case, the binding and the movies directory; every other exit leaves the recording, the current file and the movies directory as they were; a teardown releases nothing and requests no navigation, and one during the delay ends in the handler's write to the released binding |
| `SlaveRecording.Fragment.AwaitRecordingEnd` | app/src/main/java/com/ai/cameracalibration/camera/CameraRecorder.kt:120-127 | when the `MaxDurationMs` wait elapses, the recording is asked to stop and the slot ends empty; a teardown during the wait leaves the recording running and unstopped, faults the view and requests no navigation |
| `SlaveRecording.Fragment.OnCameraEvent` | app/src/main/java/com/ai/cameracalibration/ui/setup/fragments/SlaveRecordingFragment.kt:135-150 | each camera event navigates back at most once, and does so exactly for an error-free Finalize of a non-empty file while the view exists; an error Finalize deletes the current file; a Finalize that does not navigate leaves the status as it was, so the failure status is never shown through the recorder; after teardown the status never changes and the view faults exactly when a callback runs (Start, or a clean Finalize of a non-empty file); while the view exists no write faults |
| `Scenario.Announcements` | app/src/main/java/com/ai/cameracalibration/MainActivity.kt:66-94 | a master and a slave each put exactly their own announcement on the wire |
| `Scenario.DeliverTwo` | app/src/main/java/com/ai/cameracalibration/MainActivity.kt:44-59 | a slave on setup, whose collector catches up after each frame, is armed after two frames exactly when one of them is a trigger |
| `Scenario.MissedTrigger` | app/src/main/java/com/ai/cameracalibration/MainActivity.kt:44-55 | the marker followed by the master's command, both arriving before the collector runs, leaves the slave on setup |
| `Scenario.Triggers` | app/src/main/java/com/ai/cameracalibration/ui/setup/fragments/MasterRecordingFragment.kt:30 | the master's command leaves a slave on setup; a later `"M1"` frame arms it |
| `Scenario.RecordingSession` | app/src/main/java/com/ai/cameracalibration/ui/setup/fragments/SlaveRecordingFragment.kt:102-156 | a slave released at `:00.050` records, is stopped and reports a saved non-empty file with one navigation back |

## Left out

- The UI is left out: views, Toasts, the toolbar, navigation graph details and `DeviceSetupFragment`. Navigation is reduced to a current screen in `Roles` and a count of requests in `SlaveRecording`.
- The permission requests of `SlaveRecordingFragment` (lines 31-83) are left out; the model starts once permissions are granted.
- The CameraX internals (provider, quality selector, preview, `prepareRecording`, audio) are left out. They appear only as the provider/bind fault flags, the recording handle and the events.
- The real WebSocket client is left out: URI, threads, the close and error callbacks, and the `@Volatile`/`synchronized` singleton in `getInstance`. The client is an opaque handle; the one manager is passed to the activity.
- Coroutines, dispatchers and `runOnUiThread` are left out; steps run sequentially. The only scheduling choice modelled is when the message collector gets to run (`Collect`). `delay(10)` is "take the next sample". The 2-minute `delay` is reduced to the constant `Camera.MaxDurationMs` and the moment of teardown, if any (`AwaitRecordingEnd`).
- Clock reading and formatting (`Calendar`, `SimpleDateFormat`, `Locale`) are left out. Samples and the timestamp string are inputs.
- `WebSocketMessage.kt` (Gson wrappers, unused by the code modelled) is not part of this model.
- `Network.Manager.Disconnect`: an exception raised by `close()` is not modelled; closing is taken to succeed, so the catch block there is not covered.
- `Camera.Recorder.StopRecording`: an exception raised by `Recording.stop()` is not modelled, for the same reason.
- `Roles.Activity.ConnectAsMaster`: the catch block is reached only when generating the device id raises, because `disconnect` and `connect` catch their own exceptions; that is the only failure modelled. A failure of the navigation posted to the UI thread is not modelled. The contract does not state where the navigation falls relative to the disconnect and connect calls; it only states the screen at the end.
- `Roles.Activity.HandleMessage`: the catch around navigation is not modelled; navigation from setup to the slave screen is taken to succeed.
- `Scheduler.PollUntilBoundary`: the clock is a finite sequence of samples, so a job that has not released or been cancelled by the last sample ends as `Waiting`; the loop's unbounded polling beyond that horizon is not modelled.
- `SlaveRecording.Fragment.RunSchedule`: the fault raised by the status write on a released binding is recorded as `viewFault`; what the process then does with that uncaught exception is not modelled.
- The fragment's `startRecordingProcess` and the recorder's `startRecording` are suspending calls that last the whole recording. They are split into three parts: the start (`StartRecordingProcess`), camera events delivered one at a time (`OnCameraEvent`), and the end of the wait (`AwaitRecordingEnd`). Interleavings between events and the wait are not modelled.
- `Camera.CameraEvent` covers only `Start` and `Finalize`. The listener's `when` has no `else` branch, so it ignores the other `VideoRecordEvent` kinds (status and pause/resume updates); they are left out.
- How CameraX finalizes a recording that is never stopped, after a teardown releases the lifecycle, is not modelled.
- Logging (`Log.d`, `Log.e`) is left out. In the source it is the only trace of a swallowed connect, send or close failure and of an error Finalize; the model keeps only the state those failures leave behind.
- Status texts are reduced to the `Status` datatype. The Korean texts and the `HH:mm` and KB formatting are not modelled.
