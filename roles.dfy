/**
 * The role coordinator (MainActivity): the `isMaster` flag, the trigger gate
 * of the message collector, and the connect-as-master / connect-as-slave /
 * destroy sequences over the connection manager. Navigation is reduced to
 * the current screen.
 */
module Roles {
  import opened Wrappers
  import opened Text
  import Network

  /** The marker a slave looks for in raw inbound text. */
  const TriggerMarker := "M1"
  /** The command the master screen's button sends (MasterRecordingFragment). */
  const MasterCommand := "SEND_TO_SLAVES"
  const MasterType := "MASTER"
  const SlaveType := "SLAVE"

  datatype Screen = Setup | SlaveRecording | MasterRecording

  /** A collected value is acted upon: present, local device not master, marker in the text. */
  predicate IsTrigger(isMaster: bool, message: Option<string>)
  {
    message.Some? && !isMaster && Contains(message.value, TriggerMarker)
  }

  /** One collected value: a trigger moves the setup screen to the slave screen, nothing else moves. */
  function Step(isMaster: bool, screen: Screen, message: Option<string>): Screen
  {
    if IsTrigger(isMaster, message) && screen == Setup then SlaveRecording else screen
  }

  /** The screen after collecting `messages` in order. */
  function Run(isMaster: bool, screen: Screen, messages: seq<Option<string>>): Screen
    decreases |messages|
  {
    if messages == [] then screen else Run(isMaster, Step(isMaster, screen, messages[0]), messages[1..])
  }

  /** How many of the collected values moved the device to the slave screen. */
  function Arms(isMaster: bool, screen: Screen, messages: seq<Option<string>>): nat
    decreases |messages|
  {
    if messages == [] then 0
    else
      var next := Step(isMaster, screen, messages[0]);
      (if next != screen then 1 else 0) + Arms(isMaster, next, messages[1..])
  }

  /** Collecting the same value twice in a row acts at most once. */
  lemma StepIdempotent(isMaster: bool, screen: Screen, message: Option<string>)
    ensures Step(isMaster, Step(isMaster, screen, message), message) == Step(isMaster, screen, message)
  {
  }

  /** Off the setup screen nothing a device collects changes its screen. */
  lemma {:induction false} OffSetupIsInert(isMaster: bool, screen: Screen, messages: seq<Option<string>>)
    requires screen != Setup
    ensures Run(isMaster, screen, messages) == screen && Arms(isMaster, screen, messages) == 0
    decreases |messages|
  {
    if messages != [] {
      OffSetupIsInert(isMaster, screen, messages[1..]);
    }
  }

  /** Duplicate or repeated triggers arm a device at most once. */
  lemma {:induction false} ArmsAtMostOnce(isMaster: bool, screen: Screen, messages: seq<Option<string>>)
    ensures Arms(isMaster, screen, messages) <= 1
    decreases |messages|
  {
    if messages != [] {
      var next := Step(isMaster, screen, messages[0]);
      if next != screen {
        OffSetupIsInert(isMaster, next, messages[1..]);
      } else {
        ArmsAtMostOnce(isMaster, next, messages[1..]);
      }
    }
  }

  /** A master device never reacts to any message, whatever its content. */
  lemma {:induction false} MasterNeverReacts(screen: Screen, messages: seq<Option<string>>)
    ensures Run(true, screen, messages) == screen && Arms(true, screen, messages) == 0
    decreases |messages|
  {
    if messages != [] {
      MasterNeverReacts(screen, messages[1..]);
    }
  }

  /** From the setup screen, a device ends on the slave screen exactly when some collected value was a trigger. */
  lemma {:induction false} ArmedIff(isMaster: bool, messages: seq<Option<string>>)
    ensures Run(isMaster, Setup, messages) == SlaveRecording
            <==> exists i :: 0 <= i < |messages| && IsTrigger(isMaster, messages[i])
    ensures Run(isMaster, Setup, messages) != SlaveRecording ==> Run(isMaster, Setup, messages) == Setup
    ensures Arms(isMaster, Setup, messages) == 1 <==> Run(isMaster, Setup, messages) == SlaveRecording
    decreases |messages|
  {
    if messages != [] {
      if IsTrigger(isMaster, messages[0]) {
        OffSetupIsInert(isMaster, SlaveRecording, messages[1..]);
      } else {
        ArmedIff(isMaster, messages[1..]);
        if exists i :: 0 <= i < |messages| && IsTrigger(isMaster, messages[i]) {
          var i :| 0 <= i < |messages| && IsTrigger(isMaster, messages[i]);
          assert messages[1..][i - 1] == messages[i];
        }
        if exists i :: 0 <= i < |messages[1..]| && IsTrigger(isMaster, messages[1..][i]) {
          var i :| 0 <= i < |messages[1..]| && IsTrigger(isMaster, messages[1..][i]);
          assert messages[i + 1] == messages[1..][i];
        }
      }
    }
  }

  /**
   * The values a collector of the message cell is handed. The cell starts
   * at `latest` and `frames` arrive in order; after frame `i` the collector
   * gets to run exactly when `resumes[i]`. A StateFlow conflates: a
   * collector that runs late sees only the value the cell holds by then.
   * It always catches up with the final value.
   */
  function Observed(latest: Option<string>, frames: seq<Option<string>>, resumes: seq<bool>): seq<Option<string>>
    requires |resumes| == |frames|
    decreases |frames|
  {
    if frames == [] then [latest]
    else
      var next := if frames[0].Some? then frames[0] else latest;
      (if resumes[0] then [next] else []) + Observed(next, frames[1..], resumes[1..])
  }

  /** The collector always ends up handed the cell's final value. */
  lemma {:induction false} ObservedEndsWithLatest(latest: Option<string>, frames: seq<Option<string>>, resumes: seq<bool>)
    requires |resumes| == |frames|
    ensures |Observed(latest, frames, resumes)| > 0
    ensures Observed(latest, frames, resumes)[|Observed(latest, frames, resumes)| - 1] == Network.LatestAfter(latest, frames)
    decreases |frames|
  {
    if frames != [] {
      var next := if frames[0].Some? then frames[0] else latest;
      ObservedEndsWithLatest(next, frames[1..], resumes[1..]);
    }
  }

  /** Conflation invents nothing: every value handed over is the initial value or an arrived frame. */
  lemma {:induction false} ObservedFromCell(latest: Option<string>, frames: seq<Option<string>>, resumes: seq<bool>)
    requires |resumes| == |frames|
    ensures forall k :: 0 <= k < |Observed(latest, frames, resumes)| ==>
              Observed(latest, frames, resumes)[k] == latest || Observed(latest, frames, resumes)[k] in frames
    decreases |frames|
  {
    if frames != [] {
      var next := if frames[0].Some? then frames[0] else latest;
      ObservedFromCell(next, frames[1..], resumes[1..]);
      var head: seq<Option<string>> := if resumes[0] then [next] else [];
      assert Observed(latest, frames, resumes) == head + Observed(next, frames[1..], resumes[1..]);
      forall k | 0 <= k < |Observed(latest, frames, resumes)|
        ensures Observed(latest, frames, resumes)[k] == latest || Observed(latest, frames, resumes)[k] in frames
      {
        if k >= |head| {
          var v := Observed(next, frames[1..], resumes[1..])[k - |head|];
          assert v == next || v in frames[1..];
          assert v in frames[1..] ==> v in frames;
        }
      }
    }
  }

  /** A slave on setup ends armed when the cell's final value is a trigger, however late it ran. */
  lemma FinalTriggerArms(isMaster: bool, latest: Option<string>, frames: seq<Option<string>>, resumes: seq<bool>)
    requires |resumes| == |frames|
    requires IsTrigger(isMaster, Network.LatestAfter(latest, frames))
    ensures Run(isMaster, Setup, [latest] + Observed(latest, frames, resumes)) == SlaveRecording
  {
    var all := [latest] + Observed(latest, frames, resumes);
    ObservedEndsWithLatest(latest, frames, resumes);
    assert IsTrigger(isMaster, all[|all| - 1]);
    ArmedIff(isMaster, all);
  }

  /** A slave is armed only by the initial value of the cell or by a frame that actually arrived. */
  lemma ArmedOnlyByDelivered(isMaster: bool, latest: Option<string>, frames: seq<Option<string>>, resumes: seq<bool>)
    requires |resumes| == |frames|
    requires Run(isMaster, Setup, [latest] + Observed(latest, frames, resumes)) == SlaveRecording
    ensures IsTrigger(isMaster, latest) || exists i :: 0 <= i < |frames| && IsTrigger(isMaster, frames[i])
  {
    var obs := Observed(latest, frames, resumes);
    var all := [latest] + obs;
    ArmedIff(isMaster, all);
    ObservedFromCell(latest, frames, resumes);
    var j :| 0 <= j < |all| && IsTrigger(isMaster, all[j]);
    if j > 0 && all[j] != latest {
      assert all[j] == obs[j - 1];
      var i :| 0 <= i < |frames| && frames[i] == all[j];
    }
  }

  /** A trigger overwritten before the collector runs arms nothing. */
  lemma OverwrittenTriggerIsMissed(isMaster: bool, trigger: string, other: string)
    requires !IsTrigger(isMaster, Some(other))
    ensures Run(isMaster, Setup, [None] + Observed(None, [Some(trigger), Some(other)], [false, false])) == Setup
  {
    var frames, resumes := [Some(trigger), Some(other)], [false, false];
    assert frames[1..] == [Some(other)] && resumes[1..] == [false];
    assert frames[1..][1..] == [] && resumes[1..][1..] == [];
    assert Observed(Some(other), [], []) == [Some(other)];
    assert Observed(Some(trigger), frames[1..], resumes[1..]) == [] + [Some(other)];
    assert Observed(None, frames, resumes) == [] + [Some(other)];
    var all := [None, Some(other)];
    assert all[1..] == [Some(other)] && all[1..][1..] == [];
    assert [None] + Observed(None, frames, resumes) == all;
    assert Run(isMaster, Setup, all) == Run(isMaster, Setup, all[1..]);
    assert Run(isMaster, Setup, all[1..]) == Run(isMaster, Setup, []);
  }

  /** The master's button command does not carry the slaves' marker, so it arms no slave. */
  lemma MasterCommandIsNoTrigger(isMaster: bool)
    ensures !IsTrigger(isMaster, Some(MasterCommand))
  {
    AbsentCharNotContained(MasterCommand, TriggerMarker, '1');
  }

  /** Role announcements relayed to other devices arm no slave either. */
  lemma AnnouncementIsNoTrigger(isMaster: bool, deviceType: string)
    requires deviceType == MasterType || deviceType == SlaveType
    ensures !IsTrigger(isMaster, Some(Network.Announcement(deviceType)))
  {
    AbsentCharNotContained(Network.Announcement(deviceType), TriggerMarker, '1');
  }

  class Activity {
    /** The process-wide connection manager. */
    const manager: Network.Manager
    var isMaster: bool
    var screen: Screen

    constructor (manager: Network.Manager)
      ensures this.manager == manager && !isMaster && screen == Setup
    {
      this.manager := manager;
      isMaster := false;
      screen := Setup;
    }

    /** The collector's handler for one value of the message cell. */
    method HandleMessage(message: Option<string>)
      modifies this`screen
      ensures screen == Step(isMaster, old(screen), message)
      ensures screen != old(screen) ==> screen == SlaveRecording && old(screen) == Setup && IsTrigger(isMaster, message)
    {
      if message.Some? {
        if !isMaster && Contains(message.value, TriggerMarker) {
          if screen == Setup {
            screen := SlaveRecording;
          }
        }
      }
    }

    /**
     * Collects the message cell: first its current value; then, while
     * `frames` arrive, the collector runs after frame `i` when `resumes[i]`
     * and handles the cell's value if it differs from the last one it
     * handled; finally it catches up with the cell's last value.
     */
    method Collect(frames: seq<Option<string>>, resumes: seq<bool>)
      requires |resumes| == |frames|
      modifies this`screen, manager`latest
      ensures screen == Run(isMaster, old(screen), [old(manager.latest)] + Observed(old(manager.latest), frames, resumes))
      ensures manager.latest == Network.LatestAfter(old(manager.latest), frames)
    {
      ghost var all := [manager.latest] + Observed(manager.latest, frames, resumes);
      var collected := manager.latest;
      HandleMessage(collected);
      StepIdempotent(isMaster, old(screen), collected);
      assert all[1..] == Observed(collected, frames, resumes);
      for i := 0 to |frames|
        invariant Run(isMaster, screen, Observed(manager.latest, frames[i..], resumes[i..])) == Run(isMaster, old(screen), all)
        invariant Step(isMaster, screen, collected) == screen
        invariant Network.LatestAfter(manager.latest, frames[i..]) == Network.LatestAfter(old(manager.latest), frames)
      {
        assert frames[i..][1..] == frames[i + 1..] && resumes[i..][1..] == resumes[i + 1..];
        ghost var prev := manager.latest;
        var _ := manager.OnMessage(frames[i]);
        ghost var rest := Observed(manager.latest, frames[i + 1..], resumes[i + 1..]);
        assert Observed(prev, frames[i..], resumes[i..]) == (if resumes[i] then [manager.latest] else []) + rest;
        if resumes[i] {
          assert ([manager.latest] + rest)[1..] == rest;
          assert Run(isMaster, screen, [manager.latest] + rest) == Run(isMaster, Step(isMaster, screen, manager.latest), rest);
        } else {
          assert [] + rest == rest;
        }
        if resumes[i] && manager.latest != collected {
          ghost var before := screen;
          collected := manager.latest;
          HandleMessage(collected);
          StepIdempotent(isMaster, before, collected);
        }
      }
      // The last change is always delivered.
      if manager.latest != collected {
        collected := manager.latest;
        HandleMessage(collected);
      }
    }

    /**
     * Becomes master: closes the previous connection, sets the flag, opens a
     * connection announcing "MASTER", then shows the master screen.
     * `deviceId` is None when generating the id raised; the handler then
     * only clears the flag.
     */
    method ConnectAsMaster(deviceId: Option<string>, connectFault: bool)
      requires manager.Valid()
      modifies this`isMaster, this`screen, manager, manager.webSocket
      ensures manager.Valid()
      ensures deviceId.None? ==> !isMaster && screen == old(screen) && manager.calls == old(manager.calls)
      ensures deviceId.None? ==> manager.webSocket == old(manager.webSocket) && manager.clients == old(manager.clients)
      ensures deviceId.None? && old(manager.webSocket) != null ==>
                old(manager.webSocket).state == old(manager.webSocket.state) && old(manager.webSocket).sent == old(manager.webSocket.sent)
      ensures deviceId.Some? ==> isMaster && screen == MasterRecording
      ensures deviceId.Some? ==>
                manager.calls == old(manager.calls) + [Network.DisconnectCall(old(isMaster)), Network.ConnectCall(MasterType, true)]
      ensures deviceId.Some? && old(manager.webSocket) != null ==> old(manager.webSocket).state == Network.Closed
      ensures deviceId.Some? && old(manager.webSocket) != null ==> old(manager.webSocket).sent == old(manager.webSocket.sent)
      ensures deviceId.Some? && connectFault ==> manager.clients == old(manager.clients)
      ensures deviceId.Some? && !connectFault ==> manager.webSocket != null && manager.clients == old(manager.clients) + {manager.webSocket}
      ensures deviceId.Some? && !connectFault ==>
                fresh(manager.webSocket) && manager.webSocket.deviceType == MasterType
                && manager.webSocket.state == Network.Connecting && manager.webSocket.sent == []
      ensures deviceId.Some? && !connectFault && old(manager.AtMostOneLive()) ==> manager.AtMostOneLive()
      ensures deviceId.Some? && connectFault ==> manager.webSocket == null
      ensures manager.latest == old(manager.latest)
    {
      if deviceId.None? {
        isMaster := false;
        return;
      }
      manager.Disconnect(isMaster);
      isMaster := true;
      manager.Connect(deviceId.value, MasterType, connectFault, isMaster);
      screen := MasterRecording;
    }

    /**
     * Becomes slave: closes the previous connection, clears the flag and opens
     * a connection announcing "SLAVE". The screen does not change; a failed
     * id generation is only logged.
     */
    method ConnectAsSlave(deviceId: Option<string>, connectFault: bool)
      requires manager.Valid()
      modifies this`isMaster, manager, manager.webSocket
      ensures manager.Valid() && screen == old(screen)
      ensures deviceId.None? ==> isMaster == old(isMaster) && manager.calls == old(manager.calls)
      ensures deviceId.None? ==> manager.webSocket == old(manager.webSocket) && manager.clients == old(manager.clients)
      ensures deviceId.None? && old(manager.webSocket) != null ==>
                old(manager.webSocket).state == old(manager.webSocket.state) && old(manager.webSocket).sent == old(manager.webSocket.sent)
      ensures deviceId.Some? ==> !isMaster
      ensures deviceId.Some? ==>
                manager.calls == old(manager.calls) + [Network.DisconnectCall(old(isMaster)), Network.ConnectCall(SlaveType, false)]
      ensures deviceId.Some? && old(manager.webSocket) != null ==> old(manager.webSocket).state == Network.Closed
      ensures deviceId.Some? && old(manager.webSocket) != null ==> old(manager.webSocket).sent == old(manager.webSocket.sent)
      ensures deviceId.Some? && connectFault ==> manager.clients == old(manager.clients)
      ensures deviceId.Some? && !connectFault ==> manager.webSocket != null && manager.clients == old(manager.clients) + {manager.webSocket}
      ensures deviceId.Some? && !connectFault ==>
                fresh(manager.webSocket) && manager.webSocket.deviceType == SlaveType
                && manager.webSocket.state == Network.Connecting && manager.webSocket.sent == []
      ensures deviceId.Some? && !connectFault && old(manager.AtMostOneLive()) ==> manager.AtMostOneLive()
      ensures deviceId.Some? && connectFault ==> manager.webSocket == null
      ensures manager.latest == old(manager.latest)
    {
      if deviceId.None? {
        return;
      }
      manager.Disconnect(isMaster);
      isMaster := false;
      manager.Connect(deviceId.value, SlaveType, connectFault, isMaster);
    }

    /** Teardown: closes the connection and clears the flag. */
    method OnDestroy()
      requires manager.Valid()
      modifies this`isMaster, manager, manager.webSocket
      ensures manager.Valid() && manager.webSocket == null && !isMaster
      ensures old(manager.webSocket) != null ==>
                old(manager.webSocket).state == Network.Closed && old(manager.webSocket).sent == old(manager.webSocket.sent)
      ensures manager.clients == old(manager.clients)
      ensures old(manager.AtMostOneLive()) ==> manager.NoneLive()
      ensures manager.calls == old(manager.calls) + [Network.DisconnectCall(old(isMaster))]
      ensures screen == old(screen) && manager.latest == old(manager.latest)
    {
      manager.Disconnect(isMaster);
      isMaster := false;
    }
  }
}
