/** What the handlers of server.js promise, proved about ServerSpec. */
module ServerProperties {
  import opened Optional
  import JsObject
  import opened ServerSpec

  /** The keys of a room without duplicates are as many as its entries. */
  lemma {:induction false} KeysCount(room: Room)
    requires JsObject.Distinct(room)
    ensures |Keys(room)| == |room|
    decreases |room|
  {
    if room != [] {
      var rest := room[1..];
      assert JsObject.Distinct(rest);
      KeysCount(rest);
      assert Keys(room) == {room[0].key} + Keys(rest) by {
        forall k | k in Keys(room) ensures k in {room[0].key} + Keys(rest) {
          var i :| 0 <= i < |room| && room[i].key == k;
          if i > 0 { assert rest[i - 1] == room[i]; }
        }
        forall k | k in Keys(rest) ensures k in Keys(room) {
          var i :| 0 <= i < |rest| && rest[i].key == k;
          assert room[i + 1] == rest[i];
        }
      }
      assert room[0].key !in Keys(rest);
    }
  }

  /** A key has an entry exactly when Get finds it. */
  lemma KeysAgree(room: Room, k: SocketId)
    ensures k in Keys(room) <==> JsObject.Get(room, k).Some?
  {
    if JsObject.Get(room, k).Some? {
      var i :| 0 <= i < |room| && room[i] == JsObject.Prop(k, JsObject.Get(room, k).value);
      assert room[i].key == k;
    }
  }

  /**
   * `joinMeeting(m, u)` on socket `sid` (server.js:44-50): the room now maps
   * `sid` to `u`, the socket carries `m` and `u`, every other socket is as it
   * was, the meeting exists, and the socket is in socket.io's room `m`.
   */
  lemma JoinEffects(s: Relay, sid: SocketId, m: MeetingId, u: UserId)
    ensures var r := JoinMeeting(s, sid, m, u);
      && JsObject.Get(r.meetings[m], sid) == Some(u)
      && r.sockets[sid] == Socket(Some(m), Some(u))
      && (forall d :: d != sid && d in s.sockets ==> d in r.sockets && r.sockets[d] == s.sockets[d])
      && r.meetings.Keys == s.meetings.Keys + {m}
      && sid in Members(r.rooms, m)
  {
  }

  /** No other socket's entry in any meeting changes when `sid` joins `m` (server.js:49-50). */
  lemma JoinKeepsOtherEntries(s: Relay, sid: SocketId, m: MeetingId, u: UserId, n: MeetingId, d: SocketId)
    requires (n, d) != (m, sid)
    ensures JsObject.Get(RoomOf(JoinMeeting(s, sid, m, u).meetings, n), d) == JsObject.Get(RoomOf(s.meetings, n), d)
  {
    var r := JoinMeeting(s, sid, m, u);
    if n == m {
      assert RoomOf(r.meetings, n) == JsObject.Put(RoomOf(s.meetings, m), sid, u);
    } else {
      assert RoomOf(r.meetings, n) == RoomOf(s.meetings, n);
    }
  }

  /**
   * The `existingParticipants` list (server.js:53-56) is sent to the joiner
   * only, and it lists the values of the room after the insertion, so it
   * holds the joiner's own user id.
   */
  lemma JoinParticipants(s: Relay, sid: SocketId, m: MeetingId, u: UserId)
    ensures var r := JoinMeeting(s, sid, m, u);
      && |r.outbox| == |s.outbox| + 2 && r.outbox[..|s.outbox|] == s.outbox
      && r.outbox[|s.outbox|] == Delivery({sid}, ExistingParticipants(JsObject.Values(r.meetings[m])))
      && u in JsObject.Values(r.meetings[m])
  {
    var room := JoinMeeting(s, sid, m, u).meetings[m];
    assert JsObject.Get(room, sid) == Some(u);
    var i :| 0 <= i < |room| && room[i] == JsObject.Prop(sid, u);
    assert JsObject.Values(room)[i] == u;
  }

  /**
   * The participant list has one entry per member of the room, and the
   * members are the previous ones and the joiner.
   */
  lemma JoinParticipantCount(s: Relay, sid: SocketId, m: MeetingId, u: UserId)
    requires Valid(s)
    ensures var room := JoinMeeting(s, sid, m, u).meetings[m];
      && |JsObject.Values(room)| == |Keys(room)|
      && Keys(room) == Keys(RoomOf(s.meetings, m)) + {sid}
  {
    var old_ := RoomOf(s.meetings, m);
    var room := JsObject.Put(old_, sid, u);
    assert JoinMeeting(s, sid, m, u).meetings[m] == room;
    assert JsObject.Distinct(old_);
    JsObject.PutDistinct(old_, sid, u);
    KeysCount(room);
    forall k ensures k in Keys(room) <==> k in Keys(old_) + {sid} {
      KeysAgree(room, k);
      KeysAgree(old_, k);
    }
  }

  /**
   * `userJoined` (server.js:59) goes to the other members of socket.io's
   * room `m` and never to the joiner.
   */
  lemma JoinNotifiesOthers(s: Relay, sid: SocketId, m: MeetingId, u: UserId)
    ensures var r := JoinMeeting(s, sid, m, u);
      && |r.outbox| == |s.outbox| + 2
      && r.outbox[|s.outbox| + 1] == Delivery(Members(s.rooms, m) - {sid}, UserJoined(u))
      && sid !in r.outbox[|s.outbox| + 1].to
  {
  }

  /**
   * `disconnect` of a socket that never joined, whose meeting id is the
   * empty string, or whose meeting is gone (server.js:76-78) changes no
   * meeting and emits nothing.
   */
  lemma DisconnectNoop(s: Relay, sid: SocketId)
    requires sid in s.sockets && !InLiveMeeting(s, s.sockets[sid])
    ensures var r := Disconnect(s, sid);
      && r.meetings == s.meetings && r.outbox == s.outbox
      && sid !in r.sockets
      && (forall x :: x in r.rooms ==> sid !in r.rooms[x])
  {
  }

  /**
   * `disconnect` of a socket whose latest meeting `m` exists (server.js:78-88):
   * only its entry goes from `m`; `m` is deleted when it empties and kept
   * otherwise; every other meeting is as it was; `userLeft` with the socket's
   * user id goes to the sockets still in socket.io's room `m`, which no
   * longer include the leaver.
   */
  lemma DisconnectEffects(s: Relay, sid: SocketId)
    requires sid in s.sockets && InLiveMeeting(s, s.sockets[sid])
    ensures var r := Disconnect(s, sid);
      var m := s.sockets[sid].meetingID.value;
      var room := JsObject.Delete(s.meetings[m], sid);
      && (room == [] ==> m !in r.meetings)
      && (room != [] ==> m in r.meetings && r.meetings[m] == room)
      && JsObject.Get(RoomOf(r.meetings, m), sid).None?
      && (forall d :: d != sid ==> JsObject.Get(RoomOf(r.meetings, m), d) == JsObject.Get(s.meetings[m], d))
      && (forall n :: n != m ==> (n in r.meetings <==> n in s.meetings))
      && (forall n :: n != m && n in s.meetings ==> r.meetings[n] == s.meetings[n])
      && r.outbox == s.outbox + [Delivery(Members(s.rooms, m) - {sid}, UserLeft(s.sockets[sid].userID))]
      && sid !in r.sockets
  {
    var r := Disconnect(s, sid);
    var m := s.sockets[sid].meetingID.value;
    assert Members(r.rooms, m) == Members(s.rooms, m) - {sid};
  }

  /** The store keeps its invariant through every handler. */
  lemma JoinKeepsValid(s: Relay, sid: SocketId, m: MeetingId, u: UserId)
    requires Valid(s)
    ensures Valid(JoinMeeting(s, sid, m, u))
  {
    var r := JoinMeeting(s, sid, m, u);
    assert JsObject.Distinct(RoomOf(s.meetings, m));
    JsObject.PutDistinct(RoomOf(s.meetings, m), sid, u);
    assert JsObject.Get(r.meetings[m], sid).Some?;
  }

  lemma DisconnectKeepsValid(s: Relay, sid: SocketId)
    requires Valid(s)
    ensures Valid(Disconnect(s, sid))
  {
    if sid in s.sockets && InLiveMeeting(s, s.sockets[sid]) {
      var m := s.sockets[sid].meetingID.value;
      JsObject.DeleteDistinct(s.meetings[m], sid);
    }
  }

  lemma StepKeepsValid(s: Relay, e: Input)
    requires Valid(s)
    ensures Valid(Step(s, e))
  {
    match e
    case Connection(sid) =>
    case Join(sid, m, u) => if sid in s.sockets { JoinKeepsValid(s, sid, m, u); }
    case Forward(sid, to, from, data) =>
    case Close(sid) => DisconnectKeepsValid(s, sid);
  }

  lemma {:induction false} RunKeepsValid(s: Relay, es: seq<Input>)
    requires Valid(s)
    ensures Valid(Run(s, es))
    decreases |es|
  {
    if es != [] {
      StepKeepsValid(s, es[0]);
      RunKeepsValid(Step(s, es[0]), es[1..]);
    }
  }

  /**
   * After any sequence of connections, joins, signals and disconnections,
   * every meeting in the store has at least one entry: an emptied meeting
   * never lingers.
   */
  lemma MeetingsNeverEmpty(es: seq<Input>)
    ensures forall m :: m in Run(Init(), es).meetings ==> Run(Init(), es).meetings[m] != []
  {
    RunKeepsValid(Init(), es);
  }

  /**
   * `signal` (server.js:65-67) emits `{ from, data }` unchanged, once, to the
   * members of the room named `to` (every socket's own id names a room),
   * checks no membership and changes no state.
   */
  lemma SignalForwards(s: Relay, to: string, from: string, data: string)
    ensures var r := Signal(s, to, from, data);
      && r.outbox == s.outbox + [Delivery(Members(s.rooms, to), SignalOut(from, data))]
      && r.meetings == s.meetings && r.sockets == s.sockets && r.rooms == s.rooms
  {
  }

  /**
   * socket.io's rooms whose name is not in `joined` are exactly the rooms of
   * connected sockets named by their own ids, and each holds that socket
   * alone.
   */
  ghost predicate OwnRooms(s: Relay, joined: set<string>)
  {
    forall r :: r !in joined ==> (r in s.rooms <==> r in s.sockets) && (r in s.rooms ==> s.rooms[r] == {r})
  }

  /** Every input keeps OwnRooms, as long as a join names a meeting in `joined`. */
  lemma StepKeepsOwnRooms(s: Relay, e: Input, joined: set<string>)
    requires OwnRooms(s, joined)
    requires e.Join? ==> e.meetingID in joined
    ensures OwnRooms(Step(s, e), joined)
  {
    var r := Step(s, e);
    match e
    case Connection(sid) =>
      if sid !in s.sockets && sid !in joined {
        assert sid !in s.rooms;
        assert r.rooms[sid] == {sid};
      }
    case Join(sid, m, u) =>
    case Forward(sid, to, from, data) =>
    case Close(sid) =>
      if sid in s.sockets {
        forall n | n !in joined
          ensures (n in r.rooms <==> n in r.sockets) && (n in r.rooms ==> r.rooms[n] == {n})
        {
          assert r.rooms == LeaveAll(s.rooms, sid);
          if n in s.rooms && n != sid {
            assert s.rooms[n] - {sid} == {n};
          }
        }
      }
  }

  /** The meeting ids that the joins among `es` name. */
  ghost function JoinedIds(es: seq<Input>): set<string>
  {
    set i | 0 <= i < |es| && es[i].Join? :: es[i].meetingID
  }

  lemma {:induction false} RunKeepsOwnRooms(s: Relay, es: seq<Input>, joined: set<string>)
    requires OwnRooms(s, joined)
    requires forall i :: 0 <= i < |es| && es[i].Join? ==> es[i].meetingID in joined
    ensures OwnRooms(Run(s, es), joined)
    decreases |es|
  {
    if es != [] {
      StepKeepsOwnRooms(s, es[0], joined);
      forall i | 0 <= i < |es[1..]| && es[1..][i].Join? ensures es[1..][i].meetingID in joined {
        assert es[1..][i] == es[i + 1];
      }
      RunKeepsOwnRooms(Step(s, es[0]), es[1..], joined);
    }
  }

  /**
   * From server start, a connected socket whose id no joined meeting bears is
   * the one member of the room its id names, so a signal addressed to that id
   * (server.js:66) reaches it alone.
   */
  lemma SignalToSocket(es: seq<Input>, sid: SocketId, from: string, data: string)
    requires sid in Run(Init(), es).sockets
    requires forall i :: 0 <= i < |es| && es[i].Join? ==> es[i].meetingID != sid
    ensures Members(Run(Init(), es).rooms, sid) == {sid}
    ensures var r := Signal(Run(Init(), es), sid, from, data);
      r.outbox[|r.outbox| - 1] == Delivery({sid}, SignalOut(from, data))
  {
    var joined := JoinedIds(es);
    forall i | 0 <= i < |es| && es[i].Join? ensures es[i].meetingID in joined {
    }
    RunKeepsOwnRooms(Init(), es, joined);
  }

  /**
   * Nothing stops a client from joining a meeting whose id is another
   * socket's id (server.js:45): a signal to that socket then reaches the
   * joiner too.
   */
  lemma SignalToMeetingNamedBySocket(from: string, data: string)
    ensures var s := Run(Init(), [Connection("a"), Connection("b"), Join("b", "a", "u")]);
      Signal(s, "a", from, data).outbox[|Signal(s, "a", from, data).outbox| - 1]
        == Delivery({"a", "b"}, SignalOut(from, data))
  {
    var s1 := Connect(Init(), "a");
    var s2 := Connect(s1, "b");
    assert Run(Init(), [Connection("a"), Connection("b"), Join("b", "a", "u")]) == JoinMeeting(s2, "b", "a", "u") by {
      assert [Connection("a"), Connection("b"), Join("b", "a", "u")][1..] == [Connection("b"), Join("b", "a", "u")];
      assert [Connection("b"), Join("b", "a", "u")][1..] == [Join("b", "a", "u")];
      assert [Join("b", "a", "u")][1..] == [];
    }
    assert Members(s1.rooms, "a") == {"a"};
    assert Members(s2.rooms, "a") == {"a"};
    assert Members(JoinMeeting(s2, "b", "a", "u").rooms, "a") == {"a", "b"};
  }

  /**
   * Re-joining another meeting overwrites the socket's `meetingID` but leaves
   * the entry in the first meeting (server.js:46-50); the later `disconnect`
   * removes only the entry in the latest meeting (server.js:76-79), so the
   * first one keeps the departed user.
   */
  lemma RejoinLeavesOldEntry(s: Relay, sid: SocketId, m1: MeetingId, m2: MeetingId, u: UserId)
    requires sid in s.sockets && m1 != m2 && m2 != ""
    ensures var r1 := JoinMeeting(JoinMeeting(s, sid, m1, u), sid, m2, u);
      var r2 := Disconnect(r1, sid);
      && r1.sockets[sid].meetingID == Some(m2)
      && JsObject.Get(r1.meetings[m1], sid) == Some(u)
      && JsObject.Get(RoomOf(r2.meetings, m2), sid).None?
      && m1 in r2.meetings && JsObject.Get(r2.meetings[m1], sid) == Some(u)
      && sid !in r2.sockets
  {
    var r1 := JoinMeeting(JoinMeeting(s, sid, m1, u), sid, m2, u);
    JoinEffects(s, sid, m1, u);
    JoinEffects(JoinMeeting(s, sid, m1, u), sid, m2, u);
    assert JsObject.Get(RoomOf(r1.meetings, m1), sid) == Some(u);
    DisconnectEffects(r1, sid);
  }
}
