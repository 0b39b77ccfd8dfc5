/**
 * The browser side of the system: the `WrtcHelper` module of public/app.js.
 *
 * The module's state is a `Session` value; each handler of the module is a
 * function from the old session (and the handler's arguments) to the new one.
 * The browser objects it drives (RTCPeerConnection, MediaStreamTrack,
 * RTCRtpSender, session descriptions, ICE candidates) are abstract handles;
 * every call the module makes into them is appended to `calls`, and every
 * message handed to the signalling callback `_serverFn` is appended to
 * `outbox`.  `nextId` hands out fresh handles for the objects the browser
 * creates.
 */
module ClientSpec {
  import opened Optional
  import JsObject

  /** A remote participant's connection id (a socket id, so a string). */
  type ConnId = JsObject.Key

  /** One entry of `peers_con_ids`: the id itself, or None once closed. */
  type Entry = JsObject.Prop<Option<ConnId>>

  /** `VideoStates`: None, Camera or ScreenShare. */
  datatype VideoState = NoVideo | Camera | ScreenShare

  /** Which of the two sender tables a fan-out works on. */
  datatype Kind = Audio | Video

  /** Abstract browser objects, identified by handles. */
  datatype Conn = Conn(handle: nat)
  datatype Track = Track(id: nat)
  /** An RTCRtpSender; `conn` is the connection whose addTrack created it. */
  datatype Sender = Sender(id: nat, conn: Conn)
  datatype Sdp = Sdp(id: nat)
  datatype Candidate = Candidate(id: nat)

  /** The three capture sources: getUserMedia for audio or camera, getDisplayMedia for the screen. */
  datatype Source = Microphone | CameraInput | ScreenCapture

  /**
   * The outcome of a device request: refused (the promise rejects), or
   * granted with a stream that does or does not contain a track of the
   * requested kind.
   */
  datatype Device = Denied | Granted(hasTrack: bool)

  /** A call the module makes into the browser. */
  datatype Call =
    | NewPeerConnection(conn: Conn)
    | Acquire(source: Source, track: Track)
    | AddTrack(conn: Conn, track: Track, sender: Sender)
    | ReplaceTrack(sender: Sender, track: Track)
    | RemoveTrack(conn: Conn, sender: Sender)
    | Close(conn: Conn)
    | Stop(track: Track)
    | CreateOffer(conn: Conn, sdp: Sdp)
    | CreateAnswer(conn: Conn, sdp: Sdp)
    | SetLocalDescription(conn: Conn, sdp: Sdp)
    | SetRemoteDescription(conn: Conn, sdp: Sdp)
    | AddIceCandidate(conn: Conn, candidate: Candidate)

  /** The JSON payloads sent through `_serverFn`, each with exactly one key. */
  datatype Payload = OfferMsg(sdp: Sdp) | AnswerMsg(sdp: Sdp) | IceMsg(candidate: Candidate)

  /** `_serverFn(payload, to)`. */
  datatype Outgoing = Outgoing(payload: Payload, to: ConnId)

  /** An inbound message after `JSON.parse`: any of the three keys may be present. */
  datatype Message = Message(answer: Option<Sdp>, offer: Option<Sdp>, iceCandidate: Option<Candidate>)

  /** `_rtpVideoSenders` / `_rtpAudioSenders`. */
  type Slots = map<ConnId, Option<Sender>>
  /** `peers_conns`. */
  type Conns = map<ConnId, Option<Conn>>
  /** `_remoteVideoStreams` / `_remoteAudioStreams`: each stream's tracks. */
  type Streams = map<ConnId, Option<seq<Track>>>

  datatype Session = Session(
    peerIds: seq<Entry>,          // peers_con_ids, in insertion order
    peerConns: Conns,             // peers_conns
    videoSenders: Slots,          // _rtpVideoSenders
    audioSenders: Slots,          // _rtpAudioSenders
    remoteVideo: Streams,         // _remoteVideoStreams
    remoteAudio: Streams,         // _remoteAudioStreams
    audioTrack: Option<Track>,    // _audioTrack
    audioEnabled: bool,           // _audioTrack.enabled
    isAudioMute: bool,            // _isAudioMute
    videoState: VideoState,       // _videoState
    videoTrack: Option<Track>,    // _videoCamSSTrack
    calls: seq<Call>,             // calls made into the browser, oldest first
    outbox: seq<Outgoing>,        // messages given to _serverFn, oldest first
    nextId: nat)                  // next fresh browser handle

  /** The module's state when the page loads. */
  function Init(): Session
  {
    Session([], map[], map[], map[], map[], map[], None, false, true, NoVideo, None, [], [], 0)
  }

  // ---------------------------------------------------------------------
  // Lookups with JavaScript's truthiness: a missing key and null are alike.

  function ConnOf(conns: Conns, id: ConnId): Option<Conn>
  {
    if id in conns then conns[id] else None
  }

  function SenderOf(slots: Slots, id: ConnId): Option<Sender>
  {
    if id in slots then slots[id] else None
  }

  function StreamOf(streams: Streams, id: ConnId): Option<seq<Track>>
  {
    if id in streams then streams[id] else None
  }

  /** `peers_conns[id]` is a connection. */
  predicate Live(s: Session, id: ConnId)
  {
    ConnOf(s.peerConns, id).Some?
  }

  /** `peers_con_ids[id] == id`. */
  predicate Registered(s: Session, id: ConnId)
  {
    JsObject.Get(s.peerIds, id) == Some(Some(id))
  }

  /** `forEach` over `ids` hands `c` to its callback. */
  ghost predicate Visited(ids: seq<Entry>, c: ConnId)
  {
    exists i :: 0 <= i < |ids| && ids[i].val == Some(c)
  }

  function SlotsOf(s: Session, kind: Kind): Slots
  {
    if kind == Video then s.videoSenders else s.audioSenders
  }

  // ---------------------------------------------------------------------
  // Sender fan-out (_addUpdateSenders / _removeSenders, public/app.js:155-169)

  /** What a fan-out threads through its loop: the sender table, the call log, the handle counter. */
  datatype Fanout = Fanout(slots: Slots, calls: seq<Call>, next: nat)

  /** One callback of `_addUpdateSenders`'s forEach. */
  function AddUpdateOne(id: Option<ConnId>, conns: Conns, track: Track, f: Fanout): Fanout
  {
    if id.None? || ConnOf(conns, id.value).None? then f
    else
      var c := id.value;
      var conn := ConnOf(conns, c).value;
      match SenderOf(f.slots, c)
      case Some(snd) => f.(calls := f.calls + [ReplaceTrack(snd, track)])
      case None =>
        var snd := Sender(f.next, conn);
        Fanout(f.slots[c := Some(snd)], f.calls + [AddTrack(conn, track, snd)], f.next + 1)
  }

  function AddUpdateAll(ids: seq<Entry>, conns: Conns, track: Track, f: Fanout): Fanout
    decreases |ids|
  {
    if ids == [] then f
    else AddUpdateAll(ids[1..], conns, track, AddUpdateOne(ids[0].val, conns, track, f))
  }

  /**
   * One callback of `_removeSenders`'s forEach.  For a null entry the source
   * writes `rtpSenders[null]`, a property named "null" that no connection id
   * reads; the model leaves the table as it is.
   */
  function RemoveOne(id: Option<ConnId>, conns: Conns, f: Fanout): Fanout
  {
    if id.None? then f
    else
      var c := id.value;
      var calls :=
        if SenderOf(f.slots, c).Some? && ConnOf(conns, c).Some?
        then f.calls + [RemoveTrack(ConnOf(conns, c).value, SenderOf(f.slots, c).value)]
        else f.calls;
      f.(slots := f.slots[c := None], calls := calls)
  }

  function RemoveAll(ids: seq<Entry>, conns: Conns, f: Fanout): Fanout
    decreases |ids|
  {
    if ids == [] then f
    else RemoveAll(ids[1..], conns, RemoveOne(ids[0].val, conns, f))
  }

  function StartFanout(s: Session, kind: Kind): Fanout
  {
    Fanout(SlotsOf(s, kind), s.calls, s.nextId)
  }

  function WithFanout(s: Session, kind: Kind, f: Fanout): Session
  {
    if kind == Video then s.(videoSenders := f.slots, calls := f.calls, nextId := f.next)
    else s.(audioSenders := f.slots, calls := f.calls, nextId := f.next)
  }

  /** `_addUpdateSenders(track, rtpSenders)`. */
  function AddUpdateSenders(s: Session, track: Track, kind: Kind): Session
  {
    WithFanout(s, kind, AddUpdateAll(s.peerIds, s.peerConns, track, StartFanout(s, kind)))
  }

  /** `_removeSenders(rtpSenders)`. */
  function RemoveSenders(s: Session, kind: Kind): Session
  {
    WithFanout(s, kind, RemoveAll(s.peerIds, s.peerConns, StartFanout(s, kind)))
  }

  // ---------------------------------------------------------------------
  // Connection lifecycle (public/app.js:104-131, 171-179)

  /** The first part of `_createConnection(connid)`: a fresh connection, registered under `connid`. */
  function Register(s: Session, c: ConnId): Session
  {
    var conn := Conn(s.nextId);
    s.(peerIds := JsObject.Put(s.peerIds, c, Some(c)),
       peerConns := s.peerConns[c := Some(conn)],
       calls := s.calls + [NewPeerConnection(conn)],
       nextId := s.nextId + 1)
  }

  /** `_createConnection(connid)`: a fresh connection, registered, with the current video caught up. */
  function CreateConnection(s: Session, c: ConnId): Session
  {
    var s1 := Register(s, c);
    if s1.videoState != NoVideo && s1.videoTrack.Some?
    then AddUpdateSenders(s1, s1.videoTrack.value, Video)
    else s1
  }

  /** `getTracks().forEach(t => t.stop())` on a stream, if there is one. */
  function StopAll(stream: Option<seq<Track>>): (r: seq<Call>)
    ensures stream.None? ==> r == []
    ensures stream.Some? ==> |r| == |stream.value|
    ensures stream.Some? ==> forall i :: 0 <= i < |r| ==> r[i] == Stop(stream.value[i])
  {
    match stream
    case None => []
    case Some(ts) => seq(|ts|, i requires 0 <= i < |ts| => Stop(ts[i]))
  }

  /** `closeConnection(connid)`. */
  function CloseConnection(s: Session, c: ConnId): Session
  {
    var closeCall := if Live(s, c) then [Close(ConnOf(s.peerConns, c).value)] else [];
    s.(peerIds := JsObject.Put(s.peerIds, c, None),
       peerConns := s.peerConns[c := None],
       remoteAudio := s.remoteAudio[c := None],
       remoteVideo := s.remoteVideo[c := None],
       calls := s.calls + closeCall + StopAll(StreamOf(s.remoteAudio, c)) + StopAll(StreamOf(s.remoteVideo, c)))
  }

  // ---------------------------------------------------------------------
  // Local audio (public/app.js:41-49, 96-102)

  /** `_startAudio()`: the new microphone track starts disabled. */
  function StartAudio(s: Session, dev: Device): Session
  {
    if dev == Granted(true) then
      var t := Track(s.nextId);
      s.(audioTrack := Some(t), audioEnabled := false,
         calls := s.calls + [Acquire(Microphone, t)], nextId := s.nextId + 1)
    else s
  }

  /** The click handler of the mute/unmute button. */
  function ToggleMute(s: Session, dev: Device): Session
  {
    var s1 := if s.audioTrack.None? then StartAudio(s, dev) else s;
    if s1.audioTrack.None? then s1
    else
      var s2 := s1.(audioEnabled := !s1.audioEnabled);
      var s3 := if s2.audioEnabled then AddUpdateSenders(s2, s2.audioTrack.value, Audio)
                else RemoveSenders(s2, Audio);
      s3.(isAudioMute := !s3.audioEnabled)
  }

  // ---------------------------------------------------------------------
  // Local video (public/app.js:51-94)

  /** `_clearVideoStream(_rtpVideoSenders)`. */
  function ClearVideoStream(s: Session): Session
  {
    match s.videoTrack
    case None => s
    case Some(t) => RemoveSenders(s.(videoTrack := None, calls := s.calls + [Stop(t)]), Video)
  }

  function SourceFor(mode: VideoState): Source
  {
    if mode == Camera then CameraInput else ScreenCapture
  }

  /** `_manageVideo(newState)`, with `dev` the outcome of the capture request. */
  function ManageVideo(s: Session, newState: VideoState, dev: Device): Session
  {
    if newState == NoVideo then ClearVideoStream(s.(videoState := NoVideo))
    else if dev.Denied? then s
    else
      var t := Track(s.nextId);
      var s1 := if dev.hasTrack
                then s.(calls := s.calls + [Acquire(SourceFor(newState), t)], nextId := s.nextId + 1)
                else s;
      var s2 := ClearVideoStream(s1).(videoState := newState);
      if dev.hasTrack then AddUpdateSenders(s2.(videoTrack := Some(t)), t, Video) else s2
  }

  /** The click handler of the camera button. */
  function ToggleCamera(s: Session, dev: Device): Session
  {
    if s.videoState == Camera then ManageVideo(s, NoVideo, dev) else ManageVideo(s, Camera, dev)
  }

  /** The click handler of the screen-share button. */
  function ToggleScreenShare(s: Session, dev: Device): Session
  {
    if s.videoState == ScreenShare then ManageVideo(s, NoVideo, dev) else ManageVideo(s, ScreenShare, dev)
  }

  /** The screen-capture stream's `oninactive` callback: clears the track, keeps `_videoState`. */
  function ScreenShareInactive(s: Session): Session
  {
    ClearVideoStream(s)
  }

  // ---------------------------------------------------------------------
  // Negotiation (public/app.js:107-108, 133-153)

  /** `onicecandidate`: a non-null candidate is sent to the peer at once. */
  function IceCandidateFound(s: Session, c: ConnId, candidate: Option<Candidate>): Session
  {
    if candidate.Some? then s.(outbox := s.outbox + [Outgoing(IceMsg(candidate.value), c)]) else s
  }

  /**
   * `onnegotiationneeded`, that is `_createOffer(connid)`.  When
   * `peers_conns[connid]` is null the call `conn.createOffer()` throws and the
   * promise rejects before anything happens.
   */
  function NegotiationNeeded(s: Session, c: ConnId): Session
  {
    match ConnOf(s.peerConns, c)
    case None => s
    case Some(conn) =>
      var offer := Sdp(s.nextId);
      s.(calls := s.calls + [CreateOffer(conn, offer), SetLocalDescription(conn, offer)],
         outbox := s.outbox + [Outgoing(OfferMsg(offer), c)],
         nextId := s.nextId + 1)
  }

  /** The bookkeeping part of `ontrack`: the kind's stream now holds exactly the arriving track. */
  function TrackArrived(s: Session, c: ConnId, t: Track, kind: Kind): Session
  {
    var video := if StreamOf(s.remoteVideo, c).None? then s.remoteVideo[c := Some([])] else s.remoteVideo;
    var audio := if StreamOf(s.remoteAudio, c).None? then s.remoteAudio[c := Some([])] else s.remoteAudio;
    if kind == Video then s.(remoteVideo := video[c := Some([t])], remoteAudio := audio)
    else s.(remoteVideo := video, remoteAudio := audio[c := Some([t])])
  }

  /** `if (!peers_conns[c]) await _createConnection(c)`. */
  function EnsureConnection(s: Session, c: ConnId): (r: Session)
    ensures Live(r, c)
    ensures Live(s, c) ==> r == s
  {
    if Live(s, c) then s else CreateConnection(s, c)
  }

  /**
   * `_exchangeSDP(message, from)`.  An answer for a missing connection makes
   * `peers_conns[from].setRemoteDescription` throw, so nothing happens.  A
   * rejected `addIceCandidate` is caught, so its outcome changes nothing.
   */
  function ExchangeSdp(s: Session, msg: Message, from: ConnId): Session
  {
    if msg.answer.Some? then
      match ConnOf(s.peerConns, from)
      case None => s
      case Some(conn) => s.(calls := s.calls + [SetRemoteDescription(conn, msg.answer.value)])
    else if msg.offer.Some? then
      var s1 := EnsureConnection(s, from);
      var conn := ConnOf(s1.peerConns, from).value;
      var answer := Sdp(s1.nextId);
      s1.(calls := s1.calls + [SetRemoteDescription(conn, msg.offer.value),
                               CreateAnswer(conn, answer),
                               SetLocalDescription(conn, answer)],
          outbox := s1.outbox + [Outgoing(AnswerMsg(answer), from)],
          nextId := s1.nextId + 1)
    else if msg.iceCandidate.Some? then
      var s1 := EnsureConnection(s, from);
      var conn := ConnOf(s1.peerConns, from).value;
      s1.(calls := s1.calls + [AddIceCandidate(conn, msg.iceCandidate.value)])
    else s
  }

  // ---------------------------------------------------------------------
  // Everything that can happen to the module, one handler at a time.

  datatype Event =
    | CreateNewConnection(c: ConnId)
    | CloseExistingConnection(c: ConnId)
    | ClickMute(dev: Device)
    | ClickCamera(dev: Device)
    | ClickScreenShare(dev: Device)
    | ScreenInactive
    | IceFound(c: ConnId, candidate: Option<Candidate>)
    | NegotiationNeededAt(c: ConnId)
    | TrackFrom(c: ConnId, t: Track, kind: Kind)
    | Inbound(msg: Message, from: ConnId)

  function Step(s: Session, e: Event): Session
  {
    match e
    case CreateNewConnection(c) => CreateConnection(s, c)
    case CloseExistingConnection(c) => CloseConnection(s, c)
    case ClickMute(dev) => ToggleMute(s, dev)
    case ClickCamera(dev) => ToggleCamera(s, dev)
    case ClickScreenShare(dev) => ToggleScreenShare(s, dev)
    case ScreenInactive => ScreenShareInactive(s)
    case IceFound(c, cand) => IceCandidateFound(s, c, cand)
    case NegotiationNeededAt(c) => NegotiationNeeded(s, c)
    case TrackFrom(c, t, kind) => TrackArrived(s, c, t, kind)
    case Inbound(msg, from) => ExchangeSdp(s, msg, from)
  }

  function Run(s: Session, es: seq<Event>): Session
    decreases |es|
  {
    if es == [] then s else Run(Step(s, es[0]), es[1..])
  }

  // ---------------------------------------------------------------------
  // The invariant every reachable session keeps.

  /** `peers_con_ids` has distinct keys, each mapped to itself or to null. */
  predicate WellKeyed(ids: seq<Entry>)
  {
    && JsObject.Distinct(ids)
    && forall i :: 0 <= i < |ids| ==> ids[i].val == None || ids[i].val == Some(ids[i].key)
  }

  /** `peers_con_ids` and `peers_conns` agree on which ids are open. */
  ghost predicate RegistryAgrees(s: Session)
  {
    forall c :: Live(s, c) <==> Registered(s, c)
  }

  /** Every camera or screen track ever acquired, other than the current one, has been stopped. */
  predicate OtherVideoStopped(s: Session)
  {
    forall i :: 0 <= i < |s.calls| && s.calls[i].Acquire? && s.calls[i].source != Microphone
                && Some(s.calls[i].track) != s.videoTrack
                ==> Stop(s.calls[i].track) in s.calls
  }

  /** `_isAudioMute` mirrors the enabled flag, which is off while there is no track. */
  predicate MuteAgrees(s: Session)
  {
    s.isAudioMute == !s.audioEnabled && (s.audioTrack.None? ==> !s.audioEnabled)
  }

  ghost predicate Valid(s: Session)
  {
    WellKeyed(s.peerIds) && RegistryAgrees(s) && OtherVideoStopped(s) && MuteAgrees(s)
  }

  /** The local video tracks that have been acquired and not stopped. */
  ghost function LiveVideoTracks(s: Session): set<Track>
  {
    set i | 0 <= i < |s.calls| && s.calls[i].Acquire? && s.calls[i].source != Microphone
            && Stop(s.calls[i].track) !in s.calls :: s.calls[i].track
  }
}
