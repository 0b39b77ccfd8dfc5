/**
 * The room relay of server.js as values: the `meetings` store, the sockets
 * socket.io keeps for the relay (with the `meetingID` and `userID` the
 * handlers set on them), socket.io's own rooms, and the events the handlers
 * emit, recorded in an outbox.
 */
module ServerSpec {
  import opened Optional
  import JsObject

  type SocketId = string
  type MeetingId = string
  type UserId = string

  /** `meetings[meetingID]`: socket id to user id, in insertion order. */
  type Room = seq<JsObject.Prop<UserId>>

  /** The two properties the handlers set on a socket; both start undefined. */
  datatype Socket = Socket(meetingID: Option<MeetingId>, userID: Option<UserId>)

  /** What the relay emits. */
  datatype Event =
    | ExistingParticipants(users: seq<UserId>)
    | UserJoined(joined: UserId)
    | UserLeft(left: Option<UserId>)
    | SignalOut(from: string, data: string)

  /** One `emit`, with the sockets it reaches. */
  datatype Delivery = Delivery(to: set<SocketId>, event: Event)

  datatype Relay = Relay(
    meetings: map<MeetingId, Room>,        // the `meetings` object
    sockets: map<SocketId, Socket>,        // connected sockets
    rooms: map<string, set<SocketId>>,     // socket.io's rooms (never empty)
    outbox: seq<Delivery>)                 // everything emitted so far

  /** The server as it starts: no meetings, no sockets. */
  function Init(): Relay
  {
    Relay(map[], map[], map[], [])
  }

  /** The sockets `io.to(r)` and `socket.to(r)` reach: the members of room `r`. */
  function Members(rooms: map<string, set<SocketId>>, r: string): set<SocketId>
  {
    if r in rooms then rooms[r] else {}
  }

  /** `meetings[m]`, or no entries when the meeting does not exist. */
  function RoomOf(meetings: map<MeetingId, Room>, m: MeetingId): Room
  {
    if m in meetings then meetings[m] else []
  }

  /** The socket ids that have an entry in a room. */
  function Keys(room: Room): set<SocketId>
  {
    set i | 0 <= i < |room| :: room[i].key
  }

  /** A new socket: socket.io puts every socket in a room named by its own id. */
  function Connect(s: Relay, sid: SocketId): Relay
  {
    if sid in s.sockets then s
    else s.(sockets := s.sockets[sid := Socket(None, None)],
            rooms := s.rooms[sid := Members(s.rooms, sid) + {sid}])
  }

  /** The `joinMeeting` handler of socket `sid`. */
  function JoinMeeting(s: Relay, sid: SocketId, m: MeetingId, u: UserId): Relay
  {
    var rooms := s.rooms[m := Members(s.rooms, m) + {sid}];
    var room := JsObject.Put(RoomOf(s.meetings, m), sid, u);
    s.(meetings := s.meetings[m := room],
       sockets := s.sockets[sid := Socket(Some(m), Some(u))],
       rooms := rooms,
       outbox := s.outbox + [Delivery({sid}, ExistingParticipants(JsObject.Values(room))),
                             Delivery(rooms[m] - {sid}, UserJoined(u))])
  }

  /** The `signal` handler: `io.to(to).emit("signal", { from, data })`. */
  function Signal(s: Relay, to: string, from: string, data: string): Relay
  {
    s.(outbox := s.outbox + [Delivery(Members(s.rooms, to), SignalOut(from, data))])
  }

  /** socket.io takes a closing socket out of every room, dropping rooms that empty. */
  function LeaveAll(rooms: map<string, set<SocketId>>, sid: SocketId): map<string, set<SocketId>>
  {
    map r | r in rooms && rooms[r] - {sid} != {} :: rooms[r] - {sid}
  }

  /** The guard `meetingID && meetings[meetingID]`: an empty string is falsy. */
  predicate InLiveMeeting(s: Relay, sock: Socket)
  {
    sock.meetingID.Some? && sock.meetingID.value != "" && sock.meetingID.value in s.meetings
  }

  /**
   * The `disconnect` handler of socket `sid`, which socket.io runs after the
   * socket has left all its rooms.
   */
  function Disconnect(s: Relay, sid: SocketId): Relay
  {
    if sid !in s.sockets then s
    else
      var sock := s.sockets[sid];
      var r := s.(sockets := s.sockets - {sid}, rooms := LeaveAll(s.rooms, sid));
      if !InLiveMeeting(s, sock) then r
      else
        var m := sock.meetingID.value;
        var room := JsObject.Delete(s.meetings[m], sid);
        r.(meetings := if room == [] then s.meetings - {m} else s.meetings[m := room],
           outbox := s.outbox + [Delivery(Members(r.rooms, m), UserLeft(sock.userID))])
  }

  /** What reaches the relay: connections, the three handled messages, disconnections. */
  datatype Input =
    | Connection(sid: SocketId)
    | Join(sid: SocketId, meetingID: MeetingId, userID: UserId)
    | Forward(sid: SocketId, to: string, from: string, data: string)
    | Close(sid: SocketId)

  /** One input; a message on a socket that is not connected cannot arrive and changes nothing. */
  function Step(s: Relay, e: Input): Relay
  {
    match e
    case Connection(sid) => Connect(s, sid)
    case Join(sid, m, u) => if sid in s.sockets then JoinMeeting(s, sid, m, u) else s
    case Forward(sid, to, from, data) => if sid in s.sockets then Signal(s, to, from, data) else s
    case Close(sid) => Disconnect(s, sid)
  }

  function Run(s: Relay, es: seq<Input>): Relay
    decreases |es|
  {
    if es == [] then s else Run(Step(s, es[0]), es[1..])
  }

  /** Every meeting in the store has at least one entry, and no socket has two. */
  predicate Valid(s: Relay)
  {
    forall m :: m in s.meetings ==> s.meetings[m] != [] && JsObject.Distinct(s.meetings[m])
  }
}
