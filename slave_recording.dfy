/**
 * The slave recording screen (SlaveRecordingFragment): it runs the
 * alignment loop, starts the recorder on release, shows the outcome and
 * navigates back to the setup screen; teardown cancels the loop and
 * releases the view and the recorder.
 *
 * The view binding is reduced to `hasBinding`; a write to the status text
 * through a released binding raises a NullPointerException in the source,
 * recorded here as `viewFault` (the statement after it does not run).
 */
module SlaveRecording {
  import opened Wrappers
  import Scheduler
  import Camera

  /** What the status text shows. */
  datatype Status =
    | Initializing
    | WaitingSeconds(seconds: int)
    | Starting
    | RecordingNow
    | Saved(file: string, length: nat)
    | SaveFailed
    | StartFailed
    | ScheduleFailed

  /** The finished-callback's verdict on the file it is handed. */
  function FinishedStatus(file: string, files: map<string, nat>): (s: Status)
    ensures s.Saved? <==> file in files && files[file] > 0
    ensures s.Saved? ==> s.file == file && s.length == files[file]
    ensures !s.Saved? ==> s == SaveFailed
  {
    if file in files && files[file] > 0 then Saved(file, files[file]) else SaveFailed
  }

  class Fragment {
    var hasBinding: bool
    var recorder: Camera.Recorder?
    var status: Status
    /** Requests to navigate back to the setup screen. */
    var navigations: nat
    var viewFault: bool

    /** The objects of the current recorder that the recorder's methods may change. */
    ghost function CameraFrame(): set<object>
      reads this, recorder
    {
      if recorder == null then {}
      else {recorder} + (if recorder.storage == null then {} else {recorder.storage})
    }

    /** The view has been created; no recorder yet. */
    constructor ()
      ensures hasBinding && recorder == null && status == Initializing && navigations == 0 && !viewFault
    {
      hasBinding := true;
      recorder := null;
      status := Initializing;
      navigations := 0;
      viewFault := false;
    }

    /** Writes the status text through the binding. */
    method Show(s: Status) returns (ok: bool)
      modifies this`status, this`viewFault
      ensures ok == hasBinding
      ensures ok ==> status == s && viewFault == old(viewFault)
      ensures !ok ==> status == old(status) && viewFault
    {
      ok := hasBinding;
      if ok {
        status := s;
      } else {
        viewFault := true;
      }
    }

    method NavigateToMain()
      modifies this`navigations
      ensures navigations == old(navigations) + 1
    {
      navigations := navigations + 1;
    }

    /** Permissions granted: creates the recorder for the movies directory. */
    method InitializeCamera(storage: Camera.MoviesDir?)
      requires hasBinding
      modifies this`recorder, this`status
      ensures recorder != null && fresh(recorder) && recorder.Valid() && recorder.storage == storage
      ensures !recorder.videoCapture && !recorder.bound && recorder.recording == null && recorder.currentFile == None
      ensures status == Initializing
    {
      status := Initializing;
      recorder := new Camera.Recorder(storage);
    }

    /** The finished-callback: success only for an existing non-empty file; both verdicts navigate back once. */
    method OnRecordingFinished(file: string, files: map<string, nat>)
      modifies this`status, this`viewFault, this`navigations
      ensures hasBinding ==> status == FinishedStatus(file, files) && navigations == old(navigations) + 1
      ensures hasBinding ==> viewFault == old(viewFault)
      ensures !hasBinding ==> status == old(status) && viewFault && navigations == old(navigations)
    {
      var ok := Show(FinishedStatus(file, files));
      if ok {
        NavigateToMain();
      }
    }

    /**
     * Release: shows the start, asks the recorder (if still present) to
     * start; a start error is shown and navigates back once.
     */
    method StartRecordingProcess(providerOk: bool, bindOk: bool, timestamp: string)
      requires hasBinding && (recorder != null ==> recorder.Valid())
      modifies this`status, this`viewFault, this`navigations, CameraFrame()
      ensures hasBinding && viewFault == old(viewFault) && recorder == old(recorder)
      ensures recorder != null ==> recorder.Valid()
      ensures recorder == null ==> status == Starting && navigations == old(navigations)
      ensures recorder != null && !(providerOk && bindOk && recorder.storage != null) ==>
                status == StartFailed && navigations == old(navigations) + 1
                && recorder.recording == old(recorder.recording) && recorder.currentFile == old(recorder.currentFile)
      ensures recorder != null && !(providerOk && bindOk) && recorder.storage != null ==>
                recorder.storage.files == old(recorder.storage.files)
      ensures recorder != null && providerOk && bindOk && recorder.storage != null ==>
                status == Starting && navigations == old(navigations)
                && fresh(recorder.recording) && !recorder.recording.stopRequested
                && recorder.currentFile == Some(Camera.OutputFileName(timestamp))
                && recorder.storage.files == old(recorder.storage.files) - {Camera.OutputFileName(timestamp)}
      ensures recorder != null && providerOk ==> recorder.videoCapture && recorder.bound == bindOk
      ensures recorder != null && !providerOk ==>
                recorder.videoCapture == old(recorder.videoCapture) && recorder.bound == old(recorder.bound)
    {
      var ok := Show(Starting);
      if recorder != null {
        var error := recorder.StartRecording(providerOk, bindOk, timestamp);
        if error.Some? {
          ok := Show(StartFailed);
          NavigateToMain();
        }
      }
    }

    /** Teardown of the view: the job is cancelled, recorder and binding are released. */
    method OnDestroyView()
      modifies this`hasBinding, this`recorder
      ensures !hasBinding && recorder == null
    {
      recorder := null;
      hasBinding := false;
    }

    /**
     * The scheduled job: the poll loop, then what its end leads to. A
     * release starts the recording. A teardown before the first poll ends
     * the job quietly. A teardown during a delay raises a cancellation that
     * the job's catch-all handler receives: it writes the status text
     * through the released binding, which raises again before the
     * navigation back is requested.
     */
    method RunSchedule(clock: seq<Scheduler.Sample>, cancelAfter: Option<nat>,
                       providerOk: bool, bindOk: bool, timestamp: string) returns (exit: Scheduler.Exit)
      requires hasBinding && !viewFault && recorder != null && recorder.Valid()
      modifies this, CameraFrame()
      ensures exit == Scheduler.Schedule(clock, cancelAfter)
      ensures !exit.Released? ==> old(recorder).recording == old(recorder.recording)
                                   && old(recorder).currentFile == old(recorder.currentFile)
      ensures exit.Released? && providerOk ==> old(recorder).videoCapture && old(recorder).bound == bindOk
      ensures exit.Released? && !providerOk ==>
                old(recorder).videoCapture == old(recorder.videoCapture) && old(recorder).bound == old(recorder.bound)
      ensures !exit.Released? ==> old(recorder).videoCapture == old(recorder.videoCapture)
                                   && old(recorder).bound == old(recorder.bound)
      ensures !exit.Released? && old(recorder).storage != null ==>
                old(recorder).storage.files == old(recorder.storage.files)
      ensures exit.Released? ==> hasBinding && recorder == old(recorder) && !viewFault
      ensures exit.Released? && providerOk && bindOk && recorder.storage != null ==>
                status == Starting && navigations == old(navigations)
                && fresh(recorder.recording) && !recorder.recording.stopRequested
                && recorder.currentFile == Some(Camera.OutputFileName(timestamp))
                && recorder.storage.files == old(recorder.storage.files) - {Camera.OutputFileName(timestamp)}
      ensures exit.Released? && !(providerOk && bindOk && recorder.storage != null) ==>
                status == StartFailed && navigations == old(navigations) + 1
                && recorder.recording == old(recorder.recording) && recorder.currentFile == old(recorder.currentFile)
      ensures exit.Released? && !(providerOk && bindOk) && recorder.storage != null ==>
                recorder.storage.files == old(recorder.storage.files)
      ensures exit.Inactive? || exit.Interrupted? ==> !hasBinding && recorder == null && navigations == old(navigations)
      ensures exit.Inactive? ==> !viewFault && status == old(status)
      ensures exit.Interrupted? ==> viewFault && status == WaitingSeconds(Scheduler.Countdown(clock[exit.polls - 1].second))
      ensures exit.Waiting? ==> hasBinding && recorder == old(recorder) && !viewFault && navigations == old(navigations)
      ensures exit.Waiting? ==>
                status == if clock == [] then old(status) else WaitingSeconds(Scheduler.Countdown(clock[|clock| - 1].second))
    {
      var shown;
      exit, shown := Scheduler.PollUntilBoundary(clock, cancelAfter);
      if shown != [] {
        var _ := Show(WaitingSeconds(shown[|shown| - 1]));
      }
      match exit
      case Released(_) =>
        StartRecordingProcess(providerOk, bindOk, timestamp);
      case Inactive =>
        OnDestroyView();
      case Interrupted(_) =>
        OnDestroyView();
        // The handler's write raises on the released binding, so its
        // navigation back is never reached.
        var _ := Show(ScheduleFailed);
      case Waiting =>
    }

    /**
     * The rest of a started recording: the recorder waits
     * `Camera.MaxDurationMs` and then stops it. `teardownAt` is when the view
     * is torn down, in milliseconds after the start, if it is. A teardown
     * during the wait cancels the job: the cancellation is raised again by
     * the recorder, and the screen's handler writes the status text through
     * the released binding, which raises, as does the job's own handler after
     * it. So the recording is never stopped and nothing navigates back.
     */
    method AwaitRecordingEnd(teardownAt: Option<nat>)
      requires hasBinding && recorder != null
      modifies this, recorder`recording, recorder.recording
      ensures status == old(status) && navigations == old(navigations)
      ensures !(teardownAt.Some? && teardownAt.value < Camera.MaxDurationMs) ==>
                hasBinding && recorder == old(recorder) && viewFault == old(viewFault)
                && recorder.recording == null
                && (old(recorder.recording) != null ==> old(recorder.recording).stopRequested)
      ensures teardownAt.Some? && teardownAt.value < Camera.MaxDurationMs ==>
                !hasBinding && recorder == null && viewFault
                && old(recorder).recording == old(recorder.recording)
                && (old(recorder.recording) != null ==>
                      old(recorder.recording).stopRequested == old(recorder.recording.stopRequested))
    {
      if teardownAt.Some? && teardownAt.value < Camera.MaxDurationMs {
        OnDestroyView();
        // The start handler's status write raises on the released binding;
        // the job's handler then writes again and raises too.
        var ok := Show(StartFailed);
        ok := Show(ScheduleFailed);
      } else {
        recorder.StopRecording();
      }
    }

    /**
     * A camera event for a recording started by `rec`, delivered to the
     * recorder's listener whatever the screen's state, with the screen's
     * callbacks attached.
     */
    method OnCameraEvent(rec: Camera.Recorder, event: Camera.CameraEvent)
      requires rec.Valid()
      modifies rec`recording, rec.storage, this`status, this`viewFault, this`navigations
      ensures rec.Valid()
      ensures navigations <= old(navigations) + 1
      ensures navigations == old(navigations) + 1 <==>
                hasBinding && event == Camera.Finalize(false) && rec.currentFile.Some?
                && rec.currentFile.value in rec.storage.files && rec.storage.files[rec.currentFile.value] > 0
      ensures navigations >= old(navigations)
      ensures navigations == old(navigations) + 1 ==>
                status == FinishedStatus(rec.currentFile.value, rec.storage.files) && status.Saved?
      ensures event.Start? ==> rec.recording == old(rec.recording) && navigations == old(navigations)
      ensures event.Start? && hasBinding ==> status == RecordingNow
      ensures !(event.Finalize? && event.hasError) && rec.storage != null ==> rec.storage.files == old(rec.storage.files)
      ensures status.SaveFailed? ==> old(status).SaveFailed?
      ensures event.Finalize? && event.hasError ==> status == old(status) && navigations == old(navigations)
      ensures event.Finalize? ==> rec.recording == null
      ensures event.Finalize? && navigations == old(navigations) ==> status == old(status)
      ensures !hasBinding ==> status == old(status)
      ensures hasBinding ==> viewFault == old(viewFault)
      ensures !hasBinding ==>
                (viewFault <==>
                   (old(viewFault) || event.Start? ||
                    (event == Camera.Finalize(false) && rec.currentFile.Some?
                     && rec.currentFile.value in old(rec.storage.files) && old(rec.storage.files)[rec.currentFile.value] > 0)))
      ensures event.Finalize? && event.hasError && rec.currentFile.Some? ==>
                rec.storage.files == old(rec.storage.files) - {rec.currentFile.value}
    {
      var cb := rec.HandleEvent(event);
      match cb
      case NoCallback =>
      case Started =>
        var _ := Show(RecordingNow);
      case Finished(file) =>
        OnRecordingFinished(file, rec.storage.files);
    }
  }
}
