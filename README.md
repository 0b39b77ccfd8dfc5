# Peer-to-peer meeting: media bookkeeping and room relay, in Dafny

This project models the two stateful parts of a small browser video-meeting
application and proves what they promise.

- **The client-side `WrtcHelper`** of `public/app.js`. It keeps one peer
  connection per remote participant in `peers_con_ids` and `peers_conns`. It
  also keeps one audio and one video sender slot per participant, the remote
  streams, the local microphone track with its `enabled` flag and
  `_isAudioMute`, and the video state (`None`, `Camera`, `ScreenShare`) with
  its single local video track. The handlers are:
  - the mute, camera and screen-share clicks;
  - connection creation and closing;
  - the sender fan-outs `_addUpdateSenders` and `_removeSenders`;
  - the browser callbacks;
  - the `_exchangeSDP` dispatch of inbound answer, offer and ICE-candidate
    messages.
- **The room relay** of `server.js`. `meetings` maps a meeting id to an
  object from socket id to user id. The `joinMeeting`, `signal` and
  `disconnect` handlers update it, tag sockets with `meetingID` and `userID`,
  and emit `existingParticipants`, `userJoined`, `userLeft` and `signal`
  events.

## Layout

Each component has three layers:

- a value model, with one pure function per handler;
- lemmas about those functions;
- a class whose fields are the program's variables.

Every method of that class is proved to leave the object in exactly the
state the matching function computes from the state before the call, so the
lemmas hold of the object too.

| file | module | contents |
|---|---|---|
| js_object.dfy | Optional, JsObject | `undefined`/`null` versus a value; a JavaScript object as an insertion-ordered property list (`o[k]`, `o[k] = v`, `delete`, `Object.values`) |
| client_spec.dfy | ClientSpec | the client's entities, the `Session` value and one function per handler |
| client_fanout.dfy | ClientFanout | the two forEach folds over `peers_con_ids` |
| client_props.dfy | ClientProperties | what each client handler does |
| client_invariant.dfy | ClientInvariant | the invariant every client handler keeps, and at most one live local video track |
| client.dfy | Client | class `WrtcHelper`, the handlers as methods over the module's variables |
| server_spec.dfy | ServerSpec | the relay's state and one function per handler |
| server_props.dfy | ServerProperties | what each relay handler does, and meetings never empty |
| server.dfy | Server | class `RelayServer`, the handlers as methods over `meetings` and the sockets |

**Browser and device abstraction.** Peer connections, tracks, senders,
session descriptions and ICE candidates are opaque handles. New handles take
fresh numbers from a counter. Every call the code makes into the browser is
appended to a call log:

- `new RTCPeerConnection`, `close`, `stop`;
- `addTrack`, `replaceTrack`, `removeTrack`;
- `createOffer`, `createAnswer`, `setLocalDescription`,
  `setRemoteDescription`, `addIceCandidate`;
- the capture requests that yield a track.

`_serverFn` appends to an outbox. The outcome of a capture request
(`getUserMedia`, `getDisplayMedia`) is a parameter of the handler that makes
it: refused (the request throws), granted without a track, or granted with
one. Only a grant with a track is logged, as an `Acquire` of that track; a
refused request or a trackless grant leaves no entry, so "changes nothing"
below means no state changes and nothing is logged.

**Relay environment.** socket.io puts every socket in a room named by its
own id. socket.io takes a closing socket out of all its rooms before the
`disconnect` handler runs. The model keeps socket.io's rooms for this reason:

- `socket.to(m)` reaches the members of socket.io's room `m`, minus the
  sender;
- `io.to(to)` reaches the members of room `to`;
- neither goes through `meetings`.

**Where the code differs from its evidently intended behaviour, the model follows the code:**

- Muting removes the audio senders; it does not only flip `enabled`
  (public/app.js:46-47).
- `existingParticipants` includes the joiner's own user id (server.js:50-56).
- The screen stream's `oninactive` clears the track but leaves `_videoState`
  at `ScreenShare` (public/app.js:74).
- `closeConnection` leaves both sender slots of the closed id behind
  (public/app.js:171-179). `ClientProperties.ReconnectKeepsStaleSender`
  shows the consequence. If the same peer reconnects while the camera is on,
  its slot still names the old connection's sender. That sender gets
  `replaceTrack`, and the new connection gets no `addTrack`. Turning the
  camera off then asks the new connection to remove the old connection's
  sender (`ClientProperties.ReconnectThenCameraOff`).
- `_createConnection` catches up only the video track
  (public/app.js:128). A peer connected while the microphone is unmuted gets
  no audio sender until the next unmute click
  (`ClientProperties.UnmuteThenConnect`).
- Any client may join a meeting whose id is another socket's id
  (server.js:45). A signal addressed to that socket (server.js:66) then
  reaches the joiner too (`ServerProperties.SignalToMeetingNamedBySocket`);
  `ServerProperties.SignalToSocket` holds only for socket ids no join names.
- A socket that joins a second meeting stays in the first one's entry list
  (server.js:46-50). Its `disconnect` removes only the entry in the latest
  meeting (`ServerProperties.RejoinLeavesOldEntry`).

## Model

| member | source | states |
|---|---|---|
| JsObject.Get | server.js:49 | `o[k]` is undefined exactly when no property has key `k`, and otherwise is the value of a property with key `k` |
| JsObject.Put | server.js:50 | after `o[k] = v`, `o[k]` is `v`; every other key reads as before; a new key adds one property; existing properties keep their order and keys |
| JsObject.Values | server.js:53 | `Object.values(o)` lists the values in property order, one per property |
| JsObject.Delete | server.js:79 | after `delete o[k]`, `o[k]` is undefined and every other key reads as before |
| JsObject.PutDistinct | server.js:50 | assigning a property never creates a duplicate key |
| JsObject.DeleteDistinct | server.js:79 | deleting keeps keys distinct and removes exactly one property when the key was present |
| JsObject.PutTwice | public/app.js:172 | assigning the same value twice is the same as assigning it once |
| JsObject.EmptyIffNoKey | server.js:85 | an object has no keys exactly when it has no properties |
| ClientSpec.StopAll | public/app.js:175-176 | `getTracks().forEach(t => t.stop())` stops each track of the stream once, in order, and a missing stream stops nothing |
| ClientSpec.EnsureConnection | public/app.js:144 | afterwards the id has a connection; if it already had one, nothing changes |
| ClientFanout.AddUpdateAllSlots | public/app.js:155-162 | after the forEach, every visited id with a connection has a sender; an existing sender is kept and got `replaceTrack`; an empty slot holds a new sender of that id's connection, made by `addTrack`; every other slot is unchanged; only `addTrack`/`replaceTrack` calls are appended |
| ClientFanout.AddUpdateAllCounts | public/app.js:155-162 | with a well-keyed id list, one call per id with a connection, and exactly as many `addTrack` calls as such ids with an empty slot |
| ClientFanout.RemoveAllSlots | public/app.js:164-169 | after the forEach, every visited slot is null and other slots are unchanged; `removeTrack` was called for every visited id with both a sender and a connection, and every appended call is such a `removeTrack` |
| ClientProperties.VisitedIffLive | public/app.js:156 | with a consistent registry, forEach over `peers_con_ids` reaches exactly the ids with an open connection |
| ClientProperties.AddUpdateSendersEffects | public/app.js:155-162 | `_addUpdateSenders` on a session changes only that kind's sender table, the log and the counter; every open connection's slot holds a sender given the track, kept and given `replaceTrack` if it existed, new and added by `addTrack` otherwise (a kept sender may belong to a closed connection, see ReconnectKeepsStaleSender); one call per open connection, one `addTrack` per empty slot |
| ClientProperties.AddUpdateSendersOwned | public/app.js:155-162 | when every filled slot of an open connection holds a sender of that connection, afterwards every open connection's slot holds a sender of its own connection |
| ClientProperties.RemoveSendersEffects | public/app.js:164-169 | `_removeSenders` on a session leaves no open connection with a sender of that kind and keeps other slots; `removeTrack` is called for every open connection that had a sender, and every call made is a `removeTrack` of some open id's sender on that id's connection |
| ClientProperties.CloseConnectionEntries | public/app.js:171-179 | `closeConnection(c)` nulls c's entry in `peers_con_ids`, `peers_conns` and both remote stream tables, changes no other id's entries, and leaves both sender tables and the outbox as they were |
| ClientProperties.CloseConnectionCalls | public/app.js:171-179 | `close()` is called once and first, only if c had a connection; every other appended call is a `stop()`, and every track of c's remote audio and video streams is stopped |
| ClientProperties.CloseConnectionIdempotent | public/app.js:171-179 | closing the same id twice is the same as closing it once |
| ClientProperties.RegisterEffects | public/app.js:105-126 | the registration half of `_createConnection(c)` registers c with a fresh connection, makes the one `new RTCPeerConnection` call, keeps the registry consistent and changes no other id |
| ClientProperties.CreateConnectionEffects | public/app.js:104-131 | `_createConnection(c)` registers c with a fresh connection and changes no other id; with video on and a track, c's video slot holds a sender (a new one of the new connection if the slot was empty); otherwise video senders are untouched; audio senders are never touched |
| ClientProperties.RegisterKeepsRegistryOk | public/app.js:125-126 | writing `peers_con_ids[c]` and `peers_conns[c]` together (both set, or both null) keeps the two tables consistent |
| ClientProperties.PutWellKeyed | public/app.js:172 | assigning an id to itself or to null keeps every entry of `peers_con_ids` null or equal to its key |
| ClientProperties.ToggleMuteEffects | public/app.js:41-49 | a click without a track, when the microphone request is refused or yields no track, changes nothing; the first granted click acquires a new track and enables it; later clicks keep the track and flip its flag without asking again; afterwards `_isAudioMute` is the flag negated, and open connections have audio senders when the flag is on and none when it is off |
| ClientProperties.MuteClickKeepsTrack | public/app.js:42-44 | with a microphone track, a click keeps the track, flips its flag, only appends to the log and requests no device |
| ClientProperties.MuteParity | public/app.js:42-44 | once a microphone track exists, n clicks keep that track, leave its flag flipped n times, and request no device |
| ClientProperties.MuteParityFromFirstClick | public/app.js:42-44 | starting without a track, a granted first click and any later clicks leave the new track enabled exactly when the number of clicks is odd; the microphone is requested once, by the first click, and never again |
| ClientProperties.ClearVideoStreamEffects | public/app.js:87-94 | with a track, `_clearVideoStream` stops it first, forgets it and removes every open connection's video sender; without a track it changes nothing |
| ClientProperties.ManageVideoOff | public/app.js:60-66 | `_manageVideo(None)` sets the state to None; a track that existed is stopped and forgotten and its senders removed; otherwise senders and log are untouched |
| ClientProperties.ManageVideoWithoutTrack | public/app.js:69-84 | a refused capture request changes nothing; a stream without a video track clears the old track and sets the requested state |
| ClientProperties.InstallVideo | public/app.js:77-83 | once the new track exists, the old track is stopped first, then the new one is stored under the requested state, and every open connection's video slot holds a sender given it by `addTrack` or `replaceTrack` (possibly a closed connection's, see ReconnectKeepsStaleSender) |
| ClientProperties.ManageVideoOn | public/app.js:69-84 | a granted capture is the first call, the previous track is stopped right after it, the state becomes the requested mode, the new track is stored, no further capture is made, and every open connection's video slot holds a sender given the new track (possibly a closed connection's, see ReconnectKeepsStaleSender) |
| ClientProperties.CameraThenScreenShare | public/app.js:51-57 | switching from camera to screen share stops the camera track, stores the screen track and leaves a sender in every open connection's video slot (possibly a closed connection's, see ReconnectKeepsStaleSender) |
| ClientProperties.ScreenShareInactiveKeepsState | public/app.js:74 | `oninactive` clears the track but keeps `ScreenShare`, so a connection created afterwards gets no video sender and the next screen-share click turns video off |
| ClientProperties.ExchangeSdpPriority | public/app.js:142-149 | exactly one of the answer, offer and candidate branches runs, in that order of priority |
| ClientProperties.AnswerBranch | public/app.js:142 | an answer becomes the remote description of the existing connection; for a missing connection nothing happens; registry and outbox never change |
| ClientProperties.OfferBranch | public/app.js:143-148 | an offer creates the missing connection, becomes its remote description, and is answered: the answer is stored as the local description and exactly one message, that answer, goes to the sender |
| ClientProperties.IceCandidateBranch | public/app.js:149-151 | a candidate creates the missing connection and is handed to `addIceCandidate`; nothing is emitted; with an existing connection the call is the only change |
| ClientProperties.CandidateBeforeOffer | public/app.js:144-151 | a candidate from an unknown peer that arrives before its offer creates the connection, and the offer then reuses that same connection |
| ClientProperties.ReconnectKeepsStaleSender | public/app.js:171-179 | after close and reconnect with the camera on, the slot still names the old connection's sender, which gets `replaceTrack`; the new connection gets no `addTrack` |
| ClientProperties.ReconnectThenCameraOff | public/app.js:164-166 | in that scenario, turning the camera off calls `removeTrack` on the new connection with the closed connection's sender |
| ClientProperties.UnmuteThenConnect | public/app.js:128 | after an unmute click with no peers, a peer connected next has an open connection but no audio sender although the track is enabled |
| ClientInvariant.FanoutKeepsValid | public/app.js:155-169 | both fan-outs keep the client invariant (consistent registry, every superseded video track stopped, `_isAudioMute` mirrors the flag) |
| ClientInvariant.CreateConnectionKeepsValid | public/app.js:104-131 | `_createConnection` keeps the invariant |
| ClientInvariant.CloseConnectionKeepsValid | public/app.js:171-179 | `closeConnection` keeps the invariant |
| ClientInvariant.ToggleMuteKeepsValid | public/app.js:41-49 | the mute click keeps the invariant |
| ClientInvariant.ClearVideoStreamKeepsValid | public/app.js:87-94 | `_clearVideoStream` keeps the invariant |
| ClientInvariant.VideoOffKeepsValid | public/app.js:60-66 | `_manageVideo(None)` keeps the invariant |
| ClientInvariant.VideoWithoutTrackKeepsValid | public/app.js:77-79 | `_manageVideo` with a trackless stream keeps the invariant |
| ClientInvariant.VideoOnKeepsValid | public/app.js:69-84 | `_manageVideo` with a new track keeps the invariant |
| ClientInvariant.ManageVideoKeepsValid | public/app.js:60-85 | `_manageVideo` keeps the invariant whatever the capture outcome |
| ClientInvariant.AnswerKeepsValid | public/app.js:142 | the answer branch keeps the invariant |
| ClientInvariant.OfferKeepsValid | public/app.js:143-148 | the offer branch keeps the invariant |
| ClientInvariant.IceKeepsValid | public/app.js:149-151 | the candidate branch keeps the invariant |
| ClientInvariant.ExchangeSdpKeepsValid | public/app.js:140-153 | `_exchangeSDP` keeps the invariant |
| ClientInvariant.IceCandidateFoundKeepsValid | public/app.js:107 | `onicecandidate` keeps the invariant |
| ClientInvariant.NegotiationNeededKeepsValid | public/app.js:108 | `onnegotiationneeded` keeps the invariant |
| ClientInvariant.TrackArrivedKeepsValid | public/app.js:110-123 | `ontrack` keeps the invariant |
| ClientInvariant.StepKeepsValid | public/app.js:40-58 | every click, connection event, callback and inbound message keeps the invariant |
| ClientInvariant.RunKeepsValid | public/app.js:40-58 | any sequence of them keeps the invariant |
| ClientInvariant.InitValid | public/app.js:5-13 | the module's initial variables satisfy the invariant |
| ClientInvariant.AtMostOneLiveVideo | public/app.js:77-80 | under the invariant every acquired video track other than the current one has been stopped, so at most one is live |
| ClientInvariant.CreateConnectionKeepsCovered | public/app.js:104-131 | `_createConnection` keeps every open connection's video slot filled while a video track exists |
| ClientInvariant.CloseConnectionKeepsCovered | public/app.js:171-179 | `closeConnection` keeps that coverage |
| ClientInvariant.ToggleMuteKeepsCovered | public/app.js:41-49 | the mute click keeps that coverage |
| ClientInvariant.ManageVideoKeepsCovered | public/app.js:60-85 | `_manageVideo` keeps that coverage whatever the capture outcome |
| ClientInvariant.ScreenShareInactiveKeepsCovered | public/app.js:74 | `oninactive` keeps that coverage (it clears the track) |
| ClientInvariant.SameVideoCovered | public/app.js:140-153 | a step that changes no connection, video slot, track or state keeps that coverage |
| ClientInvariant.EnsureConnectionKeepsCovered | public/app.js:144 | creating a missing connection keeps that coverage |
| ClientInvariant.OfferKeepsCovered | public/app.js:143-148 | the offer branch keeps that coverage |
| ClientInvariant.IceKeepsCovered | public/app.js:149-151 | the candidate branch keeps that coverage |
| ClientInvariant.ExchangeSdpKeepsCovered | public/app.js:140-153 | `_exchangeSDP` keeps that coverage |
| ClientInvariant.StepKeepsCovered | public/app.js:40-58 | every click, connection event, callback and inbound message keeps that coverage |
| ClientInvariant.RunKeepsCovered | public/app.js:40-58 | any sequence of them keeps that coverage |
| ClientInvariant.Reachable | public/app.js:4-189 | from page load, after any sequence of events, the invariant holds, at most one local video track is live, and while a video track exists every open connection's video slot holds a sender |
| Client.Without | public/app.js:115 | `stream.removeTrack(t)` leaves exactly the other tracks |
| Client.WrtcHelper.constructor | public/app.js:5-13 | the module's variables start as on script load |
| Client.WrtcHelper.SetSlot | public/app.js:161 | `rtpSenders[id] = v` changes only that slot |
| Client.WrtcHelper.AddUpdateFor | public/app.js:156-161 | one forEach callback of `_addUpdateSenders` performs one step of the fold |
| Client.WrtcHelper.AddUpdateSenders | public/app.js:155-162 | the loop ends in the state `ClientSpec.AddUpdateSenders` computes |
| Client.WrtcHelper.RemoveFor | public/app.js:165-168 | one forEach callback of `_removeSenders` performs one step of the fold |
| Client.WrtcHelper.RemoveSenders | public/app.js:164-169 | the loop ends in the state `ClientSpec.RemoveSenders` computes |
| Client.WrtcHelper.Register | public/app.js:105-126 | c is registered with a fresh connection whose creation is logged |
| Client.WrtcHelper.NewConnection | public/app.js:105 | `new RTCPeerConnection` returns a fresh handle and logs the call |
| Client.WrtcHelper.Remember | public/app.js:125-126 | `peers_con_ids[c] = c` and `peers_conns[c] = conn`, nothing else |
| Client.WrtcHelper.CreateConnection | public/app.js:104-131 | ends in the state `ClientSpec.CreateConnection` computes (see CreateConnectionEffects) |
| Client.WrtcHelper.StopTracks | public/app.js:175-176 | the loop logs one `stop()` per track of the stream and changes nothing else |
| Client.WrtcHelper.Unregister | public/app.js:172-174 | nulls c's registration and closes its connection if there was one |
| Client.WrtcHelper.ForgetStreams | public/app.js:177-178 | nulls c's two remote stream entries |
| Client.WrtcHelper.CloseConnection | public/app.js:171-179 | ends in the state `ClientSpec.CloseConnection` computes (see CloseConnectionEntries, CloseConnectionCalls) |
| Client.WrtcHelper.StartAudio | public/app.js:96-102 | a granted microphone yields a new, disabled track; otherwise nothing changes |
| Client.WrtcHelper.ToggleMute | public/app.js:41-49 | ends in the state `ClientSpec.ToggleMute` computes (see ToggleMuteEffects) |
| Client.WrtcHelper.ClearVideoStream | public/app.js:87-94 | ends in the state `ClientSpec.ClearVideoStream` computes |
| Client.WrtcHelper.AcquireVideo | public/app.js:71-73 | a granted capture returns a fresh track and logs the request for the mode's source |
| Client.WrtcHelper.SetVideo | public/app.js:78-80 | sets `_videoState` and `_videoCamSSTrack`, nothing else |
| Client.WrtcHelper.InstallVideo | public/app.js:69-84 | with a granted track, ends in the state `ClientSpec.ManageVideo` computes (see ManageVideoOn) |
| Client.WrtcHelper.ManageVideo | public/app.js:60-85 | ends in the state `ClientSpec.ManageVideo` computes for every capture outcome |
| Client.WrtcHelper.ToggleCamera | public/app.js:51-53 | the camera click turns video off from `Camera`, and on to `Camera` otherwise |
| Client.WrtcHelper.ToggleScreenShare | public/app.js:55-57 | the screen-share click turns video off from `ScreenShare`, and on to `ScreenShare` otherwise |
| Client.WrtcHelper.ScreenShareInactive | public/app.js:74 | `oninactive` clears the video stream and nothing else |
| Client.WrtcHelper.IceCandidateFound | public/app.js:107 | a found candidate is sent to the peer; the end-of-candidates event sends nothing |
| Client.WrtcHelper.CreateOffer | public/app.js:133-138 | an offer is created, stored as the local description and sent to the peer |
| Client.WrtcHelper.ClearTracks | public/app.js:115 | removing every track of a snapshot of the list leaves the stream empty |
| Client.WrtcHelper.TrackArrived | public/app.js:110-123 | both remote streams of the id exist afterwards, and the kind's stream holds exactly the arriving track |
| Client.WrtcHelper.Invoke | public/app.js:142 | one awaited browser call is logged and nothing else changes |
| Client.WrtcHelper.EnsureConnection | public/app.js:144 | ends in the state `ClientSpec.EnsureConnection` computes |
| Client.WrtcHelper.Answer | public/app.js:145-148 | applies the offer, creates and stores a fresh answer, and sends it to the peer |
| Client.WrtcHelper.ExchangeSdp | public/app.js:140-153 | ends in the state `ClientSpec.ExchangeSdp` computes (see the branch lemmas) |
| ServerProperties.KeysCount | server.js:53 | a room without duplicate socket ids has as many members as entries |
| ServerProperties.KeysAgree | server.js:50 | a socket id is a member of a room exactly when the room has a value under it |
| ServerProperties.JoinEffects | server.js:44-50 | after `joinMeeting(m, u)`: `meetings[m][sid]` is `u`; the socket carries `m` and `u`; other sockets are unchanged; `m` exists; the socket is in socket.io's room `m` |
| ServerProperties.JoinKeepsOtherEntries | server.js:49-50 | no other socket's entry in any meeting changes |
| ServerProperties.JoinParticipants | server.js:53-56 | the joiner alone receives `existingParticipants`: the room's values after the insertion, which include the joiner's own user id |
| ServerProperties.JoinParticipantCount | server.js:50-56 | that list has one entry per member, and the members are the previous ones plus the joiner |
| ServerProperties.JoinNotifiesOthers | server.js:59 | `userJoined` goes to the other members of room `m`, never to the joiner |
| ServerProperties.DisconnectNoop | server.js:76-78 | for a socket that never joined, joined with an empty meeting id, or whose meeting is gone, `disconnect` changes no meeting and emits nothing |
| ServerProperties.DisconnectEffects | server.js:78-88 | otherwise only the socket's entry leaves its latest meeting, which is deleted exactly when it empties; other meetings are unchanged; `userLeft` with its user id goes to the remaining members of room `m` |
| ServerProperties.JoinKeepsValid | server.js:49-50 | joining keeps every meeting non-empty and free of duplicate socket ids |
| ServerProperties.DisconnectKeepsValid | server.js:79-87 | disconnecting keeps every meeting non-empty and free of duplicate socket ids |
| ServerProperties.StepKeepsValid | server.js:40-92 | every connection, message and disconnection keeps the invariant |
| ServerProperties.RunKeepsValid | server.js:40-92 | any sequence of them keeps the invariant |
| ServerProperties.MeetingsNeverEmpty | server.js:84-87 | from server start, after any events, every meeting in the store has an entry |
| ServerProperties.SignalForwards | server.js:65-67 | `signal` emits `{from, data}` unchanged, once, to the members of room `to`, checking no membership and changing no state |
| ServerProperties.StepKeepsOwnRooms | server.js:40-92 | every input keeps each room not named by a joined meeting equal to the one connected socket of that id, and absent when that socket is not connected |
| ServerProperties.RunKeepsOwnRooms | server.js:40-92 | any sequence of inputs whose joins name only such meetings keeps that |
| ServerProperties.SignalToSocket | server.js:66 | from server start, after any events in which no join names the socket's id, a signal addressed to a connected socket's id reaches that socket alone |
| ServerProperties.SignalToMeetingNamedBySocket | server.js:45-66 | after sockets a and b connect and b joins a meeting named "a", a signal to "a" reaches both a and b |
| ServerProperties.RejoinLeavesOldEntry | server.js:46-79 | a rejoin moves `socket.meetingID` but keeps the first meeting's entry, which survives the later `disconnect` |
| Server.RelayServer.constructor | server.js:38 | the store starts empty, with no sockets |
| Server.RelayServer.Connect | server.js:40 | a new socket carries no meeting and sits in the room named by its id |
| Server.RelayServer.JoinRoom | server.js:45 | `socket.join(m)` adds the socket to room `m` and changes nothing else |
| Server.RelayServer.Tag | server.js:46-47 | sets `socket.userID` and `socket.meetingID`, nothing else |
| Server.RelayServer.Record | server.js:49-50 | creates the meeting if missing and stores the socket's user id in it |
| Server.RelayServer.JoinMeeting | server.js:44-62 | ends in the state `ServerSpec.JoinMeeting` computes (see the join lemmas) |
| Server.RelayServer.Signal | server.js:65-67 | ends in the state `ServerSpec.Signal` computes (see SignalForwards) |
| Server.RelayServer.Disconnect | server.js:75-91 | ends in the state `ServerSpec.Disconnect` computes (see DisconnectNoop, DisconnectEffects) |

## Left out

- The Express app, HTTP(S) server, certificates, views, routes and
  `server.listen` (server.js:1-35, 94-96): framework plumbing with no effect
  on the relay's state.
- The `sendMessage` chat broadcast (server.js:70-72): a stateless fan-out
  outside the core.
- `console.log` calls: output only.
- The Xirsys ICE-server fetch (public/app.js:17-30): a network call.
  `iceConfiguration` is not represented.
- `_init` (public/app.js:32-38) and the exported object (public/app.js:181-188).
  `_serverFn` is the outbox. The third argument `_my_connid` passed with an
  answer (public/app.js:148) is not recorded.
- The `$(document).ready` bootstrap, `MyApp` and `HostControls`
  (public/app.js:191-203): `MyApp` and `HostControls` are not part of this
  model.
- DOM and jQuery work: button icons, `alert`, `getElementById(...).srcObject`,
  and `_localVideoPlayer`. These are display only.
- SDP and ICE internals, and what `replaceTrack`/`addTrack` do inside the
  browser. These are recorded as calls on opaque handles.
- `JSON.parse` of inbound messages: messages arrive parsed, so malformed
  JSON is not modelled.
- `ClientProperties.AnswerBranch`: rejected promises are not modelled. An
  answer for a missing connection throws before any effect and is modelled as
  no change. An answer that matches no pending offer, or a repeated answer,
  makes `setRemoteDescription` reject; the model records the call as if it
  succeeded.
- `ClientProperties.OfferBranch`: a rejected `setRemoteDescription`,
  `createAnswer` or `setLocalDescription` (public/app.js:145-147) ends the
  branch, so no answer is sent. The model always sends the answer.
- `ClientSpec.NegotiationNeeded`: a rejected `createOffer` or
  `setLocalDescription` (public/app.js:135-136) means no offer is sent. The
  model always sends it (`Client.WrtcHelper.CreateOffer` likewise).
- `ClientProperties.CandidateBeforeOffer`: `addIceCandidate` on a connection
  without a remote description rejects, and public/app.js:151 swallows the
  rejection, so the code loses such an early candidate. The model only
  records the call.
- `ClientSpec.RemoveOne`: by section 5.1 of the W3C WebRTC 1.0
  specification, `removeTrack` of a sender that the connection did not create
  throws `InvalidAccessError`; the model lets the call succeed. In the code
  the throw ends `_removeSenders`' forEach early, so later slots are not
  nulled. Inside `_manageVideo`'s `try` (public/app.js:69-84) it also skips
  storing the newly acquired track, which is not stopped. In the mute click
  (public/app.js:47) it skips public/app.js:48, so `_isAudioMute` no longer
  mirrors the track's flag; a stale audio slot arises from `closeConnection`
  and a reconnect just as a stale video slot does.
  `ClientInvariant.Reachable` and `ClientInvariant.AtMostOneLiveVideo` are
  therefore not promised for the code once a stale sender is removed
  (`ClientProperties.ReconnectThenCameraOff` builds such a state).
- Interleaving at `await` points: each handler runs to completion, as a
  single-threaded sequence of events.
- `_removeSenders` visiting a closed id: the code reads `peers_con_ids[id]` as
  null and writes `rtpSenders[null]`, a property named "null". The model
  does not track that property, so the closed id's own slot is left as it
  was.
- `Array.prototype.forEach` on `peers_con_ids` visits index properties only.
  The code stores connection ids as property names. The model follows the
  evidently intended behaviour (visit every registered id), in insertion
  order. With non-numeric
  ids, the code as written would visit none.
- `Object.values` on a meeting puts integer-like keys first. socket.io ids
  are not integer-like, so the model keeps insertion order.
- The `joinMeeting` payload is taken to carry string `meetingID` and
  `userID`. Missing or non-string fields are not modelled.
- `ServerSpec.JoinMeeting`: meeting ids are assumed not to name properties
  of `Object.prototype` ("__proto__", "constructor", "toString", ...). For
  such an id `meetings[m]` is already truthy at server.js:49, so no new
  object is made, and server.js:50 writes onto a shared built-in object.
- `Server.RelayServer.Connect` requires an id socket.io has not used before.
  `JoinMeeting` and `Disconnect` require a connected socket. socket.io
  guarantees both, and the value-level `ServerSpec.Step` treats the
  impossible cases as no change.
