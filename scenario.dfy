/**
 * Small independent runs of the model's operations, each with its own
 * manager or screen: the role announcements, frames delivered to a slave,
 * a trigger lost to conflation, and a slave's loop releasing at :00.050,
 * recording, stopping after the maximum duration and saving.
 */
module Scenario {
  import opened Wrappers
  import Network
  import Roles
  import Scheduler
  import Camera
  import SlaveRecording

  /** Each device's client opens and announces its role, once. */
  method Announcements() returns (masterFrames: seq<string>, slaveFrames: seq<string>)
    ensures masterFrames == [Network.Announcement(Roles.MasterType)]
    ensures slaveFrames == [Network.Announcement(Roles.SlaveType)]
  {
    var managerA := new Network.Manager();
    var a := new Roles.Activity(managerA);
    a.ConnectAsMaster(Some("device-a"), false);
    var clientA := managerA.webSocket;
    managerA.Opened(clientA, false);
    masterFrames := clientA.sent;

    var managerB := new Network.Manager();
    var b := new Roles.Activity(managerB);
    b.ConnectAsSlave(Some("device-b"), false);
    var clientB := managerB.webSocket;
    managerB.Opened(clientB, false);
    slaveFrames := clientB.sent;
  }

  /** A slave on its setup screen collects two frames in turn; reports whether it is armed after each. */
  method DeliverTwo(first: string, second: string) returns (armedAfterFirst: bool, armedAfterSecond: bool)
    ensures armedAfterFirst <==> Roles.IsTrigger(false, Some(first))
    ensures armedAfterSecond <==> Roles.IsTrigger(false, Some(first)) || Roles.IsTrigger(false, Some(second))
  {
    var manager := new Network.Manager();
    var b := new Roles.Activity(manager);
    b.Collect([Some(first)], [false]);
    var frames := [None, Some(first)];
    assert Roles.Observed(None, [Some(first)], [false]) == [Some(first)];
    Roles.ArmedIff(false, frames);
    armedAfterFirst := b.screen == Roles.SlaveRecording;

    var latest := manager.latest;
    var screen := b.screen;
    b.Collect([Some(second)], [false]);
    frames := [latest, Some(second)];
    assert Roles.Observed(latest, [Some(second)], [false]) == [Some(second)];
    if screen == Roles.SlaveRecording {
      Roles.OffSetupIsInert(false, screen, frames);
    } else {
      Roles.ArmedIff(false, frames);
      assert Roles.IsTrigger(false, latest) ==> Roles.IsTrigger(false, Some(first));
    }
    armedAfterSecond := b.screen == Roles.SlaveRecording;
  }

  /** The master's command arms nothing; a later frame with the marker arms the slave. */
  method Triggers() returns (armedByCommand: bool, armedByMarker: bool)
    ensures !armedByCommand && armedByMarker
  {
    Roles.MasterCommandIsNoTrigger(false);
    assert Roles.IsTrigger(false, Some(Roles.TriggerMarker));
    armedByCommand, armedByMarker := DeliverTwo(Roles.MasterCommand, Roles.TriggerMarker);
  }

  /**
   * The marker and then the master's command reach a slave before its
   * collector gets to run: the marker is conflated away and the slave stays
   * on setup.
   */
  method MissedTrigger() returns (armed: bool)
    ensures !armed
  {
    var manager := new Network.Manager();
    var b := new Roles.Activity(manager);
    b.Collect([Some(Roles.TriggerMarker), Some(Roles.MasterCommand)], [false, false]);
    Roles.MasterCommandIsNoTrigger(false);
    Roles.OverwrittenTriggerIsMissed(false, Roles.TriggerMarker, Roles.MasterCommand);
    armed := b.screen == Roles.SlaveRecording;
  }

  /** The slave's screen releases at :00.050, records, stops after the maximum duration and saves. */
  method RecordingSession() returns (exit: Scheduler.Exit, saved: bool)
    ensures exit == Scheduler.Released(2)
    ensures saved
  {
    var screen := new SlaveRecording.Fragment();
    var movies := new Camera.MoviesDir(map[]);
    screen.InitializeCamera(movies);
    var recorder := screen.recorder;
    var clock := [Scheduler.Sample(59, 990), Scheduler.Sample(59, 995), Scheduler.Sample(0, 50)];
    exit := screen.RunSchedule(clock, None, true, true, "20261015_120000");
    screen.OnCameraEvent(recorder, Camera.Start);

    // After the maximum duration the recording is stopped; the camera
    // leaves a non-empty file and finalizes without error.
    screen.AwaitRecordingEnd(None);
    var name := Camera.OutputFileName("20261015_120000");
    movies.files := movies.files[name := 1024];
    screen.OnCameraEvent(recorder, Camera.Finalize(false));
    saved := screen.status == SlaveRecording.Saved(name, 1024) && screen.navigations == 1;
  }
}
