/**
 * The connection manager: one slot for the relay client, a role
 * announcement sent when a client opens, and a single-slot "latest message"
 * cell (a StateFlow) that inbound frames overwrite.
 *
 * The relay client library is abstracted to an opaque handle with a
 * lifecycle state, a log of frames it has put on the wire, and the device
 * type its open-callback announces.
 */
module Network {
  import opened Wrappers

  /** Prefix and suffix of the role announcement `{"deviceType":"<type>"}`. */
  const AnnouncementPrefix := "{\"deviceType\":\""
  const AnnouncementSuffix := "\"}"

  /** The frame a client sends as soon as its connection opens. */
  function Announcement(deviceType: string): string
  {
    AnnouncementPrefix + deviceType + AnnouncementSuffix
  }

  /** How a receiver reads an announcement back; the inverse of `Announcement`. */
  function ParseAnnouncement(frame: string): (r: Option<string>)
    ensures r.Some? ==> Announcement(r.value) == frame
  {
    var p, q := |AnnouncementPrefix|, |AnnouncementSuffix|;
    if |frame| >= p + q && frame[..p] == AnnouncementPrefix && frame[|frame| - q..] == AnnouncementSuffix
    then
      var t := frame[p..|frame| - q];
      assert frame == frame[..p] + t + frame[|frame| - q..];
      Some(t)
    else None
  }

  lemma AnnouncementRoundTrip(deviceType: string)
    ensures ParseAnnouncement(Announcement(deviceType)) == Some(deviceType)
  {
    var a := Announcement(deviceType);
    var p := |AnnouncementPrefix|;
    assert a[..p] == AnnouncementPrefix;
    assert a[|a| - |AnnouncementSuffix|..] == AnnouncementSuffix;
    assert a[p..|a| - |AnnouncementSuffix|] == deviceType;
  }

  /** Distinct roles announce themselves with distinct frames. */
  lemma AnnouncementInjective(t1: string, t2: string)
    requires Announcement(t1) == Announcement(t2)
    ensures t1 == t2
  {
    AnnouncementRoundTrip(t1);
    AnnouncementRoundTrip(t2);
  }

  /** The message cell after `frames` arrive in order: the last present frame wins. */
  function LatestAfter(latest: Option<string>, frames: seq<Option<string>>): Option<string>
    decreases |frames|
  {
    if frames == [] then latest
    else LatestAfter(if frames[0].Some? then frames[0] else latest, frames[1..])
  }

  /**
   * The cell keeps no history: it holds the last present frame, or its
   * previous value when no frame was present.
   */
  lemma {:induction false} LatestIsLastPresent(latest: Option<string>, frames: seq<Option<string>>)
    ensures (forall i :: 0 <= i < |frames| ==> frames[i].None?) ==> LatestAfter(latest, frames) == latest
    ensures forall k :: 0 <= k < |frames| && frames[k].Some? && (forall j :: k < j < |frames| ==> frames[j].None?)
              ==> LatestAfter(latest, frames) == frames[k]
    decreases |frames|
  {
    if frames != [] {
      var next := if frames[0].Some? then frames[0] else latest;
      LatestIsLastPresent(next, frames[1..]);
      forall k | 0 <= k < |frames| && frames[k].Some? && (forall j :: k < j < |frames| ==> frames[j].None?)
        ensures LatestAfter(latest, frames) == frames[k]
      {
        if k > 0 {
          assert frames[1..][k - 1] == frames[k];
          forall j | k - 1 < j < |frames[1..]| ensures frames[1..][j].None? {
            assert frames[1..][j] == frames[j + 1];
          }
        } else {
          forall i | 0 <= i < |frames[1..]| ensures frames[1..][i].None? {
            assert frames[1..][i] == frames[i + 1];
          }
        }
      }
      if forall i :: 0 <= i < |frames| ==> frames[i].None? {
        forall i | 0 <= i < |frames[1..]| ensures frames[1..][i].None? {
          assert frames[1..][i] == frames[i + 1];
        }
      }
    }
  }

  datatype SocketState = Connecting | Open | Closed

  /** A relay client: created connecting, opened by the library, closed on request. */
  class Socket {
    /** The device type captured by this client's open-callback. */
    const deviceType: string
    var state: SocketState
    /** Frames this client has put on the wire, oldest first. */
    var sent: seq<string>

    constructor (deviceType: string)
      ensures this.deviceType == deviceType && state == Connecting && sent == []
    {
      this.deviceType := deviceType;
      state := Connecting;
      sent := [];
    }

    method Close()
      modifies this
      ensures state == Closed && sent == old(sent)
    {
      state := Closed;
    }

    /** Sending succeeds only on an open connection; `fault` is a transport failure. */
    method Send(frame: string, fault: bool) returns (ok: bool)
      modifies this
      ensures ok <==> old(state) == Open && !fault
      ensures state == old(state)
      ensures sent == if ok then old(sent) + [frame] else old(sent)
    {
      ok := state == Open && !fault;
      if ok {
        sent := sent + [frame];
      }
    }
  }

  /**
   * A call a screen makes on the manager, with the caller's role flag as it
   * stood when the call was made.
   */
  datatype Call = DisconnectCall(callerIsMaster: bool) | ConnectCall(deviceType: string, callerIsMaster: bool)

  class Manager {
    /** The current relay client, or none. */
    var webSocket: Socket?
    /** The single-slot message cell; starts empty. */
    var latest: Option<string>
    /** Every client this manager has created. */
    ghost var clients: set<Socket>
    /** Every connect and disconnect made on this manager, oldest first. */
    ghost var calls: seq<Call>

    ghost predicate Valid()
      reads this
    {
      webSocket != null ==> webSocket in clients
    }

    /** No client other than the one in the slot is still live. */
    ghost predicate AtMostOneLive()
      reads this, clients
    {
      forall s :: s in clients && s != webSocket ==> s.state == Closed
    }

    /** Every client this manager has created is closed. */
    ghost predicate NoneLive()
      reads this, clients
    {
      forall s :: s in clients ==> s.state == Closed
    }

    constructor ()
      ensures Valid() && NoneLive()
      ensures webSocket == null && latest == None && clients == {} && calls == []
    {
      webSocket := null;
      latest := None;
      clients := {};
      calls := [];
    }

    /**
     * Creates a client for `deviceType`, starts its connection and stores it
     * in the slot. It does not close a client already in the slot. `fault`
     * stands for an exception while building or starting the client; it is
     * caught and nothing changes. The device id is not used.
     * `callerIsMaster` is ghost: by convention every caller passes its own
     * `isMaster` flag as it stands at the call, so the log shows the order
     * of flag updates and calls.
     */
    method Connect(deviceId: string, deviceType: string, fault: bool, ghost callerIsMaster: bool)
      requires Valid()
      modifies this
      ensures Valid() && latest == old(latest)
      ensures calls == old(calls) + [ConnectCall(deviceType, callerIsMaster)]
      ensures fault ==> webSocket == old(webSocket) && clients == old(clients)
      ensures !fault ==> fresh(webSocket) && webSocket.deviceType == deviceType
                         && webSocket.state == Connecting && webSocket.sent == []
                         && clients == old(clients) + {webSocket}
      ensures !fault && old(NoneLive()) ==> AtMostOneLive()
      ensures !fault && old(webSocket) != null && old(webSocket.state) != Closed ==> !AtMostOneLive()
    {
      calls := calls + [ConnectCall(deviceType, callerIsMaster)];
      if !fault {
        var client := new Socket(deviceType);
        webSocket := client;
        clients := clients + {client};
        if old(webSocket) != null && old(webSocket.state) != Closed {
          assert old(webSocket) in clients && old(webSocket) != webSocket;
        }
      }
    }

    /**
     * Closes the client in the slot, if any, and empties the slot.
     * `callerIsMaster` follows the same convention as in `Connect`.
     */
    method Disconnect(ghost callerIsMaster: bool)
      requires Valid()
      modifies this, webSocket
      ensures Valid() && webSocket == null
      ensures latest == old(latest) && clients == old(clients)
      ensures calls == old(calls) + [DisconnectCall(callerIsMaster)]
      ensures old(webSocket) != null ==> old(webSocket).state == Closed && old(webSocket).sent == old(webSocket.sent)
      ensures old(AtMostOneLive()) ==> NoneLive()
    {
      calls := calls + [DisconnectCall(callerIsMaster)];
      if webSocket != null {
        webSocket.Close();
        webSocket := null;
      }
    }

    /** Best-effort send on the client in the slot; failures are swallowed. */
    method SendMessage(frame: string, fault: bool)
      modifies webSocket
      ensures webSocket != null ==> webSocket.state == old(webSocket.state)
      ensures webSocket != null ==>
                webSocket.sent == if old(webSocket.state) == Open && !fault then old(webSocket.sent) + [frame] else old(webSocket.sent)
    {
      if webSocket != null {
        var _ := webSocket.Send(frame, fault);
      }
    }

    /**
     * The library opens `client` and runs its open-callback, which announces
     * the client's device type through `SendMessage`, that is, on whatever
     * client is in the slot at that moment.
     */
    method Opened(client: Socket, fault: bool)
      requires client.state == Connecting
      modifies client, webSocket
      ensures client.state == Open
      ensures webSocket != client ==> client.sent == old(client.sent)
      ensures webSocket == client ==>
                client.sent == old(client.sent) + if fault then [] else [Announcement(client.deviceType)]
      ensures webSocket != null && webSocket != client ==>
                webSocket.state == old(webSocket.state) &&
                webSocket.sent == old(webSocket.sent) +
                  if old(webSocket.state) == Open && !fault then [Announcement(client.deviceType)] else []
    {
      client.state := Open;
      SendMessage(Announcement(client.deviceType), fault);
    }

    /**
     * An inbound frame: a present message overwrites the cell, an absent one
     * leaves it. Subscribers see an emission only when the value changes.
     */
    method OnMessage(message: Option<string>) returns (emitted: bool)
      modifies this`latest
      ensures latest == if message.Some? then message else old(latest)
      ensures emitted <==> message.Some? && message != old(latest)
    {
      emitted := message.Some? && message != latest;
      if message.Some? {
        latest := message;
      }
    }
  }
}
