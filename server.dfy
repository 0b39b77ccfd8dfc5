/**
 * The relay of server.js as an object: `meetings` and the sockets are
 * updated in place by the handlers, which append what they emit to an
 * outbox.  Each handler is proved to leave the object in the state the
 * matching ServerSpec function computes, so ServerProperties holds of it.
 */
module Server {
  import opened Optional
  import JsObject
  import opened ServerSpec

  class RelayServer {
    var meetings: map<MeetingId, Room>        // meetings
    var sockets: map<SocketId, Socket>        // socket.meetingID, socket.userID
    var rooms: map<string, set<SocketId>>     // socket.io's rooms
    var outbox: seq<Delivery>                 // emitted events

    /** The object's state as a ServerSpec value. */
    function Model(): Relay
      reads this
    {
      Relay(meetings, sockets, rooms, outbox)
    }

    /** `const meetings = {}`, before any socket connects. */
    constructor ()
      ensures Model() == Init()
    {
      meetings, sockets, rooms, outbox := map[], map[], map[], [];
    }

    /** `io.on("connection", ...)` for a socket id socket.io has not used before. */
    method Connect(sid: SocketId)
      requires sid !in sockets
      modifies this
      ensures Model() == ServerSpec.Connect(old(Model()), sid)
    {
      sockets := sockets[sid := Socket(None, None)];
      rooms := rooms[sid := Members(rooms, sid) + {sid}];
    }

    /** `socket.join(r)`. */
    method JoinRoom(sid: SocketId, r: string)
      modifies this
      ensures Model() == old(Model()).(rooms := old(rooms)[r := Members(old(rooms), r) + {sid}])
    {
      rooms := rooms[r := Members(rooms, r) + {sid}];
    }

    /** `socket.userID = userID; socket.meetingID = meetingID`. */
    method Tag(sid: SocketId, m: MeetingId, u: UserId)
      requires sid in sockets
      modifies this
      ensures Model() == old(Model()).(sockets := old(sockets)[sid := Socket(Some(m), Some(u))])
    {
      sockets := sockets[sid := sockets[sid].(userID := Some(u))];
      sockets := sockets[sid := sockets[sid].(meetingID := Some(m))];
    }

    /** `if (!meetings[meetingID]) meetings[meetingID] = {}; meetings[meetingID][socket.id] = userID`. */
    method Record(sid: SocketId, m: MeetingId, u: UserId)
      modifies this
      ensures Model() == old(Model()).(meetings := old(meetings)[m := JsObject.Put(RoomOf(old(meetings), m), sid, u)])
    {
      if m !in meetings {
        meetings := meetings[m := []];
      }
      meetings := meetings[m := JsObject.Put(meetings[m], sid, u)];
    }

    /** The `joinMeeting` handler of socket `sid`. */
    method JoinMeeting(sid: SocketId, m: MeetingId, u: UserId)
      requires sid in sockets
      modifies this
      ensures Model() == ServerSpec.JoinMeeting(old(Model()), sid, m, u)
    {
      JoinRoom(sid, m);
      Tag(sid, m, u);
      Record(sid, m, u);
      var participants := JsObject.Values(meetings[m]);
      outbox := outbox + [Delivery({sid}, ExistingParticipants(participants)), Delivery(Members(rooms, m) - {sid}, UserJoined(u))];
    }

    /** The `signal` handler. */
    method Signal(to: string, from: string, data: string)
      modifies this
      ensures Model() == ServerSpec.Signal(old(Model()), to, from, data)
    {
      outbox := outbox + [Delivery(Members(rooms, to), SignalOut(from, data))];
    }

    /** socket.io closing socket `sid`, then the `disconnect` handler. */
    method Disconnect(sid: SocketId)
      requires sid in sockets
      modifies this
      ensures Model() == ServerSpec.Disconnect(old(Model()), sid)
    {
      rooms := LeaveAll(rooms, sid);
      var sock := sockets[sid];
      sockets := sockets - {sid};
      if sock.meetingID.Some? && sock.meetingID.value != "" && sock.meetingID.value in meetings {
        var m := sock.meetingID.value;
        meetings := meetings[m := JsObject.Delete(meetings[m], sid)];
        outbox := outbox + [Delivery(Members(rooms, m), UserLeft(sock.userID))];
        if meetings[m] == [] {
          meetings := meetings - {m};
        }
      }
    }
  }
}
