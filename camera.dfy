/**
 * The camera recorder: binds preview and video capture to the screen's
 * lifecycle, creates the output file, starts a recording and reacts to the
 * camera's Start and Finalize events; a stop ends the recording after the
 * fixed maximum duration.
 *
 * The camera pipeline is abstracted to its events and to the file it leaves
 * in the movies directory, a map from file name to length in bytes (an
 * absent name is a missing file).
 */
module Camera {
  import opened Wrappers

  /** The recording stops 2 minutes after it starts. */
  const MaxDurationMs := 2 * 60 * 1000
  const FilePrefix := "REC_"
  const FileExtension := ".mp4"

  /** Name of the output file for a `yyyyMMdd_HHmmss` timestamp. */
  function OutputFileName(timestamp: string): string
  {
    FilePrefix + timestamp + FileExtension
  }

  /** Reads the timestamp back out of an output file name; the inverse of `OutputFileName`. */
  function TimestampOf(name: string): (r: Option<string>)
    ensures r.Some? ==> OutputFileName(r.value) == name
  {
    var p, q := |FilePrefix|, |FileExtension|;
    if |name| >= p + q && name[..p] == FilePrefix && name[|name| - q..] == FileExtension
    then
      var t := name[p..|name| - q];
      assert name == name[..p] + t + name[|name| - q..];
      Some(t)
    else None
  }

  lemma FileNameRoundTrip(timestamp: string)
    ensures TimestampOf(OutputFileName(timestamp)) == Some(timestamp)
  {
    var n := OutputFileName(timestamp);
    assert n[..|FilePrefix|] == FilePrefix;
    assert n[|n| - |FileExtension|..] == FileExtension;
    assert n[|FilePrefix|..|n| - |FileExtension|] == timestamp;
  }

  /**
   * Recordings started in different seconds get different files; two started
   * within the same second share one name, so the later deletes the earlier.
   */
  lemma FileNamesDistinct(t1: string, t2: string)
    ensures OutputFileName(t1) == OutputFileName(t2) <==> t1 == t2
  {
    FileNameRoundTrip(t1);
    FileNameRoundTrip(t2);
  }

  /** The app's movies directory. */
  class MoviesDir {
    var files: map<string, nat>

    constructor (files: map<string, nat>)
      ensures this.files == files
    {
      this.files := files;
    }
  }

  /** An active camera recording; `Stop` asks the camera to finalize it. */
  class Recording {
    var stopRequested: bool

    constructor ()
      ensures !stopRequested
    {
      stopRequested := false;
    }

    method Stop()
      modifies this
      ensures stopRequested
    {
      stopRequested := true;
    }
  }

  datatype CameraEvent = Start | Finalize(hasError: bool)

  /** Which of the caller's callbacks an event invoked. */
  datatype Callback = NoCallback | Started | Finished(file: string)

  datatype StartError =
    | ProviderFailed   // the camera provider could not be obtained
    | BindFailed       // binding preview and capture to the lifecycle raised
    | NoStorageDir     // the movies directory is unavailable

  class Recorder {
    /** The app's movies directory, or null when external storage is unavailable. */
    const storage: MoviesDir?
    /** A video-capture use case has been built. */
    var videoCapture: bool
    /** Preview and capture are bound to the lifecycle. */
    var bound: bool
    var recording: Recording?
    var currentFile: Option<string>

    ghost predicate Valid()
      reads this
    {
      currentFile.Some? ==> storage != null
    }

    constructor (storage: MoviesDir?)
      ensures Valid() && this.storage == storage
      ensures !videoCapture && !bound && recording == null && currentFile == None
    {
      this.storage := storage;
      videoCapture := false;
      bound := false;
      recording := null;
      currentFile := None;
    }

    /**
     * Everything the recorder does before the 2-minute wait: obtain the
     * provider, build the capture use case, unbind everything and bind anew,
     * then create the output file and start recording into it. Each failure
     * is raised again to the caller; `error` names it.
     */
    method StartRecording(providerOk: bool, bindOk: bool, timestamp: string) returns (error: Option<StartError>)
      requires Valid()
      modifies this, storage
      ensures Valid()
      ensures !providerOk ==> error == Some(ProviderFailed)
      ensures providerOk && !bindOk ==> error == Some(BindFailed)
      ensures providerOk && bindOk && storage == null ==> error == Some(NoStorageDir)
      ensures error.None? <==> providerOk && bindOk && storage != null
      ensures !providerOk ==> videoCapture == old(videoCapture) && bound == old(bound)
      ensures providerOk ==> videoCapture && bound == bindOk
      ensures error.Some? ==> recording == old(recording) && currentFile == old(currentFile)
      ensures error.Some? && storage != null ==> storage.files == old(storage.files)
      ensures error.None? ==>
        var name := OutputFileName(timestamp);
        currentFile == Some(name) && storage.files == old(storage.files) - {name}
        && fresh(recording) && !recording.stopRequested
    {
      if !providerOk {
        return Some(ProviderFailed);
      }
      videoCapture := true;
      bound := false;  // unbindAll
      if !bindOk {
        return Some(BindFailed);
      }
      bound := true;
      if storage == null {
        return Some(NoStorageDir);
      }
      var name := OutputFileName(timestamp);
      if name in storage.files {
        storage.files := storage.files - {name};
      }
      currentFile := Some(name);
      recording := new Recording();
      error := None;
    }

    /**
     * The recording's event listener. Start reports that recording began.
     * Finalize with an error deletes the output file; without one it hands
     * the file to the caller only if it exists and is non-empty. Either way
     * the recording slot is emptied.
     */
    method HandleEvent(event: CameraEvent) returns (cb: Callback)
      requires Valid()
      modifies this`recording, storage
      ensures Valid()
      ensures event.Start? ==> cb == Started && recording == old(recording)
      ensures event.Finalize? ==> recording == null && !cb.Started?
      ensures event.Finalize? && event.hasError ==> cb == NoCallback
      ensures event.Finalize? && event.hasError && currentFile.Some? ==>
                storage.files == old(storage.files) - {currentFile.value}
      ensures !(event.Finalize? && event.hasError) && storage != null ==> storage.files == old(storage.files)
      ensures cb.Finished? <==>
                event.Finalize? && !event.hasError && currentFile.Some?
                && currentFile.value in storage.files && storage.files[currentFile.value] > 0
      ensures cb.Finished? ==> Some(cb.file) == currentFile
      ensures currentFile.None? && storage != null ==> storage.files == old(storage.files)
    {
      cb := NoCallback;
      match event
      case Start =>
        cb := Started;
      case Finalize(hasError) =>
        if hasError {
          if currentFile.Some? {
            storage.files := storage.files - {currentFile.value};
          }
        } else if currentFile.Some? {
          var name := currentFile.value;
          if name in storage.files && storage.files[name] > 0 {
            cb := Finished(name);
          }
        }
        recording := null;
    }

    /** Stops the current recording, if any; the slot is empty afterwards. */
    method StopRecording()
      modifies this`recording, recording
      ensures recording == null
      ensures old(recording) != null ==> old(recording).stopRequested
    {
      if recording != null {
        recording.Stop();
      }
      recording := null;
    }
  }
}
