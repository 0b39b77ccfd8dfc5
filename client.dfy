/**
 * The `WrtcHelper` module of public/app.js as an object whose fields are the
 * module's variables, updated in place by its handlers.  Every method is
 * proved to leave the object in the state the matching ClientSpec function
 * computes from the state before the call, so everything proved about those
 * functions (ClientProperties, ClientInvariant) holds of the object.
 */
module Client {
  import opened Optional
  import JsObject
  import opened ClientSpec

  /** `stream.removeTrack(t)` on a stream's track list. */
  function Without(ts: seq<Track>, t: Track): (r: seq<Track>)
    ensures forall x :: x in r <==> x in ts && x != t
    ensures |r| <= |ts|
  {
    if ts == [] then []
    else if ts[0] == t then Without(ts[1..], t)
    else [ts[0]] + Without(ts[1..], t)
  }

  /** One more step of `_addUpdateSenders`'s forEach. */
  lemma AddUpdateStep(ids: seq<Entry>, i: nat, conns: Conns, track: Track, f: Fanout)
    requires i < |ids|
    ensures AddUpdateAll(ids[i..], conns, track, f)
         == AddUpdateAll(ids[i + 1..], conns, track, AddUpdateOne(ids[i].val, conns, track, f))
  {
    assert ids[i..][1..] == ids[i + 1..];
  }

  /** One more step of `_removeSenders`'s forEach. */
  lemma RemoveStep(ids: seq<Entry>, i: nat, conns: Conns, f: Fanout)
    requires i < |ids|
    ensures RemoveAll(ids[i..], conns, f) == RemoveAll(ids[i + 1..], conns, RemoveOne(ids[i].val, conns, f))
  {
    assert ids[i..][1..] == ids[i + 1..];
  }

  /** A non-empty sequence has a member. */
  lemma FirstIsMember(r: seq<Track>)
    ensures r != [] ==> r[0] in r
  {
  }

  class WrtcHelper {
    var peerIds: seq<Entry>           // peers_con_ids
    var peerConns: Conns              // peers_conns
    var videoSenders: Slots           // _rtpVideoSenders
    var audioSenders: Slots           // _rtpAudioSenders
    var remoteVideo: Streams          // _remoteVideoStreams
    var remoteAudio: Streams          // _remoteAudioStreams
    var audioTrack: Option<Track>     // _audioTrack
    var audioEnabled: bool            // _audioTrack.enabled
    var isAudioMute: bool             // _isAudioMute
    var videoState: VideoState        // _videoState
    var videoTrack: Option<Track>     // _videoCamSSTrack
    var calls: seq<Call>              // calls made into the browser
    var outbox: seq<Outgoing>         // messages handed to _serverFn
    var nextId: nat                   // next fresh browser handle

    /** The object's state as a ClientSpec session. */
    function Model(): Session
      reads this
    {
      Session(peerIds, peerConns, videoSenders, audioSenders, remoteVideo, remoteAudio,
              audioTrack, audioEnabled, isAudioMute, videoState, videoTrack, calls, outbox, nextId)
    }

    /** The module's variables as initialised when the script loads. */
    constructor ()
      ensures Model() == Init()
    {
      peerIds, peerConns, videoSenders, audioSenders := [], map[], map[], map[];
      remoteVideo, remoteAudio := map[], map[];
      audioTrack, audioEnabled, isAudioMute := None, false, true;
      videoState, videoTrack := NoVideo, None;
      calls, outbox, nextId := [], [], 0;
    }

    /** `rtpSenders`: the sender table `kind` names. */
    function Table(kind: Kind): Slots
      reads this
    {
      if kind == Video then videoSenders else audioSenders
    }

    /** `rtpSenders[id] = v`. */
    method SetSlot(kind: Kind, id: ConnId, v: Option<Sender>)
      modifies this
      ensures Table(kind) == old(Table(kind))[id := v]
      ensures kind == Video ==> audioSenders == old(audioSenders)
      ensures kind == Audio ==> videoSenders == old(videoSenders)
      ensures peerIds == old(peerIds) && peerConns == old(peerConns)
      ensures remoteVideo == old(remoteVideo) && remoteAudio == old(remoteAudio)
      ensures audioTrack == old(audioTrack) && audioEnabled == old(audioEnabled) && isAudioMute == old(isAudioMute)
      ensures videoState == old(videoState) && videoTrack == old(videoTrack)
      ensures calls == old(calls) && outbox == old(outbox) && nextId == old(nextId)
    {
      if kind == Video {
        videoSenders := videoSenders[id := v];
      } else {
        audioSenders := audioSenders[id := v];
      }
    }

    /** The callback of `_addUpdateSenders`'s forEach, for the entry `id`. */
    method AddUpdateFor(id: Option<ConnId>, track: Track, kind: Kind)
      modifies this
      ensures Fanout(Table(kind), calls, nextId) == AddUpdateOne(id, peerConns, track, old(Fanout(Table(kind), calls, nextId)))
      ensures kind == Video ==> audioSenders == old(audioSenders)
      ensures kind == Audio ==> videoSenders == old(videoSenders)
      ensures peerIds == old(peerIds) && peerConns == old(peerConns)
      ensures remoteVideo == old(remoteVideo) && remoteAudio == old(remoteAudio)
      ensures audioTrack == old(audioTrack) && audioEnabled == old(audioEnabled) && isAudioMute == old(isAudioMute)
      ensures videoState == old(videoState) && videoTrack == old(videoTrack) && outbox == old(outbox)
    {
      if id.Some? && ConnOf(peerConns, id.value).Some? {
        var conn := ConnOf(peerConns, id.value).value;
        match SenderOf(Table(kind), id.value)
        case Some(snd) =>
          calls := calls + [ReplaceTrack(snd, track)];
        case None =>
          var snd := Sender(nextId, conn);
          SetSlot(kind, id.value, Some(snd));
          calls := calls + [AddTrack(conn, track, snd)];
          nextId := nextId + 1;
      }
    }

    /** `_addUpdateSenders(track, rtpSenders)`: the forEach over `peers_con_ids`. */
    method AddUpdateSenders(track: Track, kind: Kind)
      modifies this
      ensures Model() == ClientSpec.AddUpdateSenders(old(Model()), track, kind)
    {
      ghost var goal := AddUpdateAll(peerIds, peerConns, track, StartFanout(Model(), kind));
      var i := 0;
      while i < |peerIds|
        invariant 0 <= i <= |peerIds|
        invariant peerIds == old(peerIds) && peerConns == old(peerConns)
        invariant remoteVideo == old(remoteVideo) && remoteAudio == old(remoteAudio)
        invariant audioTrack == old(audioTrack) && audioEnabled == old(audioEnabled) && isAudioMute == old(isAudioMute)
        invariant videoState == old(videoState) && videoTrack == old(videoTrack) && outbox == old(outbox)
        invariant kind == Video ==> audioSenders == old(audioSenders)
        invariant kind == Audio ==> videoSenders == old(videoSenders)
        invariant AddUpdateAll(peerIds[i..], peerConns, track, Fanout(Table(kind), calls, nextId)) == goal
      {
        AddUpdateStep(peerIds, i, peerConns, track, Fanout(Table(kind), calls, nextId));
        AddUpdateFor(peerIds[i].val, track, kind);
        i := i + 1;
      }
      assert peerIds[i..] == [];
    }

    /** The callback of `_removeSenders`'s forEach, for the entry `id`. */
    method RemoveFor(id: Option<ConnId>, kind: Kind)
      modifies this
      ensures Fanout(Table(kind), calls, nextId) == RemoveOne(id, peerConns, old(Fanout(Table(kind), calls, nextId)))
      ensures kind == Video ==> audioSenders == old(audioSenders)
      ensures kind == Audio ==> videoSenders == old(videoSenders)
      ensures peerIds == old(peerIds) && peerConns == old(peerConns)
      ensures remoteVideo == old(remoteVideo) && remoteAudio == old(remoteAudio)
      ensures audioTrack == old(audioTrack) && audioEnabled == old(audioEnabled) && isAudioMute == old(isAudioMute)
      ensures videoState == old(videoState) && videoTrack == old(videoTrack) && outbox == old(outbox)
    {
      if id.Some? {
        var snd := SenderOf(Table(kind), id.value);
        if snd.Some? && ConnOf(peerConns, id.value).Some? {
          calls := calls + [RemoveTrack(ConnOf(peerConns, id.value).value, snd.value)];
        }
        SetSlot(kind, id.value, None);
      }
    }

    /** `_removeSenders(rtpSenders)`: the forEach over `peers_con_ids`. */
    method RemoveSenders(kind: Kind)
      modifies this
      ensures Model() == ClientSpec.RemoveSenders(old(Model()), kind)
    {
      ghost var goal := RemoveAll(peerIds, peerConns, StartFanout(Model(), kind));
      var i := 0;
      while i < |peerIds|
        invariant 0 <= i <= |peerIds|
        invariant peerIds == old(peerIds) && peerConns == old(peerConns)
        invariant remoteVideo == old(remoteVideo) && remoteAudio == old(remoteAudio)
        invariant audioTrack == old(audioTrack) && audioEnabled == old(audioEnabled) && isAudioMute == old(isAudioMute)
        invariant videoState == old(videoState) && videoTrack == old(videoTrack) && outbox == old(outbox)
        invariant kind == Video ==> audioSenders == old(audioSenders)
        invariant kind == Audio ==> videoSenders == old(videoSenders)
        invariant RemoveAll(peerIds[i..], peerConns, Fanout(Table(kind), calls, nextId)) == goal
      {
        RemoveStep(peerIds, i, peerConns, Fanout(Table(kind), calls, nextId));
        RemoveFor(peerIds[i].val, kind);
        i := i + 1;
      }
      assert peerIds[i..] == [];
    }

    /** The first part of `_createConnection(connid)`: `peers_con_ids[connid] = connid; peers_conns[connid] = conn`. */
    method Register(c: ConnId) returns (conn: Conn)
      modifies this
      ensures conn == Conn(old(nextId))
      ensures Model() == old(Model()).(peerIds := JsObject.Put(old(peerIds), c, Some(c)),
                                       peerConns := old(peerConns)[c := Some(conn)],
                                       calls := old(calls) + [NewPeerConnection(conn)],
                                       nextId := old(nextId) + 1)
    {
      conn := NewConnection();
      Remember(c, conn);
    }

    /** `new RTCPeerConnection(iceConfiguration)`. */
    method NewConnection() returns (conn: Conn)
      modifies this
      ensures conn == Conn(old(nextId))
      ensures Model() == old(Model()).(calls := old(calls) + [NewPeerConnection(conn)], nextId := old(nextId) + 1)
    {
      conn := Conn(nextId);
      calls, nextId := calls + [NewPeerConnection(conn)], nextId + 1;
    }

    /** `peers_con_ids[connid] = connid; peers_conns[connid] = conn`. */
    method Remember(c: ConnId, conn: Conn)
      modifies this
      ensures Model() == old(Model()).(peerIds := JsObject.Put(old(peerIds), c, Some(c)), peerConns := old(peerConns)[c := Some(conn)])
    {
      peerIds, peerConns := JsObject.Put(peerIds, c, Some(c)), peerConns[c := Some(conn)];
    }

    /** `_createConnection(connid)`; returns the new connection. */
    method CreateConnection(c: ConnId) returns (conn: Conn)
      modifies this
      ensures Model() == ClientSpec.CreateConnection(old(Model()), c)
      ensures conn == Conn(old(nextId))
    {
      conn := Register(c);
      if videoState != NoVideo && videoTrack.Some? {
        AddUpdateSenders(videoTrack.value, Video);
      }
    }

    /** `stream.getTracks().forEach(t => t.stop())`. */
    method StopTracks(stream: Option<seq<Track>>)
      modifies this
      ensures Model() == old(Model()).(calls := old(calls) + StopAll(stream))
    {
      if stream.Some? {
        var ts := stream.value;
        var i := 0;
        while i < |ts|
          invariant 0 <= i <= |ts|
          invariant Model() == old(Model()).(calls := calls)
          invariant |calls| == |old(calls)| + i && calls[..|old(calls)|] == old(calls)
          invariant forall j :: 0 <= j < i ==> calls[|old(calls)| + j] == Stop(ts[j])
        {
          calls := calls + [Stop(ts[i])];
          i := i + 1;
        }
        assert calls == old(calls) + StopAll(stream);
      }
    }

    /** The first three statements of `closeConnection(connid)`: forget the id and close its connection. */
    method Unregister(c: ConnId)
      modifies this
      ensures Model() == old(Model()).(peerIds := JsObject.Put(old(peerIds), c, None),
                                       peerConns := old(peerConns)[c := None],
                                       calls := old(calls) + (if ConnOf(old(peerConns), c).Some? then [Close(ConnOf(old(peerConns), c).value)] else []))
    {
      var conn := ConnOf(peerConns, c);
      var closeCall := if conn.Some? then [Close(conn.value)] else [];
      peerIds, peerConns, calls := JsObject.Put(peerIds, c, None), peerConns[c := None], calls + closeCall;
    }

    /** `_remoteAudioStreams[connid] = null; _remoteVideoStreams[connid] = null`. */
    method ForgetStreams(c: ConnId)
      modifies this
      ensures Model() == old(Model()).(remoteAudio := old(remoteAudio)[c := None], remoteVideo := old(remoteVideo)[c := None])
    {
      remoteAudio, remoteVideo := remoteAudio[c := None], remoteVideo[c := None];
    }

    /** `closeConnection(connid)`. */
    method CloseConnection(c: ConnId)
      modifies this
      ensures Model() == ClientSpec.CloseConnection(old(Model()), c)
    {
      var audio, video := StreamOf(remoteAudio, c), StreamOf(remoteVideo, c);
      Unregister(c);
      StopTracks(audio);
      StopTracks(video);
      ForgetStreams(c);
    }

    /** `_startAudio()`, with `dev` the outcome of getUserMedia. */
    method StartAudio(dev: Device)
      modifies this
      ensures Model() == ClientSpec.StartAudio(old(Model()), dev)
    {
      if dev == Granted(true) {
        var t := Track(nextId);
        nextId := nextId + 1;
        calls := calls + [Acquire(Microphone, t)];
        audioTrack := Some(t);
        audioEnabled := false;
      }
    }

    /** The mute/unmute button's click handler. */
    method ToggleMute(dev: Device)
      modifies this
      ensures Model() == ClientSpec.ToggleMute(old(Model()), dev)
    {
      if audioTrack.None? {
        StartAudio(dev);
      }
      if audioTrack.None? {
        return;
      }
      audioEnabled := !audioEnabled;
      if audioEnabled {
        AddUpdateSenders(audioTrack.value, Audio);
      } else {
        RemoveSenders(Audio);
      }
      isAudioMute := !audioEnabled;
    }

    /** `_clearVideoStream(_rtpVideoSenders)`. */
    method ClearVideoStream()
      modifies this
      ensures Model() == ClientSpec.ClearVideoStream(old(Model()))
    {
      if videoTrack.Some? {
        calls := calls + [Stop(videoTrack.value)];
        videoTrack := None;
        RemoveSenders(Video);
      }
    }

    /** The capture request of `_manageVideo(newState)`, granted with a track. */
    method AcquireVideo(newState: VideoState) returns (t: Track)
      modifies this
      ensures t == Track(old(nextId))
      ensures Model() == old(Model()).(calls := old(calls) + [Acquire(SourceFor(newState), t)], nextId := old(nextId) + 1)
    {
      t := Track(nextId);
      calls, nextId := calls + [Acquire(SourceFor(newState), t)], nextId + 1;
    }

    /** `_videoState = newState; _videoCamSSTrack = track`. */
    method SetVideo(newState: VideoState, track: Option<Track>)
      modifies this
      ensures Model() == old(Model()).(videoState := newState, videoTrack := track)
    {
      videoState, videoTrack := newState, track;
    }

    /** `_manageVideo(newState)` once the capture request has granted a track. */
    method InstallVideo(newState: VideoState)
      requires newState != NoVideo
      modifies this
      ensures Model() == ClientSpec.ManageVideo(old(Model()), newState, Granted(true))
    {
      var t := AcquireVideo(newState);
      ClearVideoStream();
      SetVideo(newState, Some(t));
      AddUpdateSenders(t, Video);
    }

    /** `_manageVideo(newState)`, with `dev` the outcome of the capture request. */
    method ManageVideo(newState: VideoState, dev: Device)
      modifies this
      ensures Model() == ClientSpec.ManageVideo(old(Model()), newState, dev)
    {
      if newState == NoVideo {
        videoState := newState;
        ClearVideoStream();
      } else if dev == Granted(true) {
        InstallVideo(newState);
      } else if dev == Granted(false) {
        ClearVideoStream();
        videoState := newState;
      }
    }

    /** The camera button's click handler. */
    method ToggleCamera(dev: Device)
      modifies this
      ensures Model() == ClientSpec.ToggleCamera(old(Model()), dev)
    {
      if videoState == Camera {
        ManageVideo(NoVideo, dev);
      } else {
        ManageVideo(Camera, dev);
      }
    }

    /** The screen-share button's click handler. */
    method ToggleScreenShare(dev: Device)
      modifies this
      ensures Model() == ClientSpec.ToggleScreenShare(old(Model()), dev)
    {
      if videoState == ScreenShare {
        ManageVideo(NoVideo, dev);
      } else {
        ManageVideo(ScreenShare, dev);
      }
    }

    /** The screen stream's `oninactive` callback. */
    method ScreenShareInactive()
      modifies this
      ensures Model() == ClientSpec.ScreenShareInactive(old(Model()))
    {
      ClearVideoStream();
    }

    /** A connection's `onicecandidate` callback. */
    method IceCandidateFound(c: ConnId, candidate: Option<Candidate>)
      modifies this
      ensures Model() == ClientSpec.IceCandidateFound(old(Model()), c, candidate)
    {
      if candidate.Some? {
        outbox := outbox + [Outgoing(IceMsg(candidate.value), c)];
      }
    }

    /** `_createOffer(connid)`, run by `onnegotiationneeded`. */
    method CreateOffer(c: ConnId)
      modifies this
      ensures Model() == ClientSpec.NegotiationNeeded(old(Model()), c)
    {
      var conn := ConnOf(peerConns, c);
      if conn.None? {
        return;
      }
      var offer := Sdp(nextId);
      nextId := nextId + 1;
      calls := calls + [Call.CreateOffer(conn.value, offer)];
      calls := calls + [SetLocalDescription(conn.value, offer)];
      outbox := outbox + [Outgoing(OfferMsg(offer), c)];
    }

    /** Empty a stream's track list one `removeTrack` at a time. */
    static method ClearTracks(stream: seq<Track>) returns (r: seq<Track>)
      ensures r == []
    {
      var ts := stream;
      r := stream;
      var i := 0;
      while i < |ts|
        invariant 0 <= i <= |ts|
        invariant forall x :: x in r ==> x in ts[i..]
      {
        r := Without(r, ts[i]);
        i := i + 1;
      }
      assert ts[i..] == [];
      FirstIsMember(r);
    }

    /** A connection's `ontrack` callback: the kind's stream now holds exactly the arriving track. */
    method TrackArrived(c: ConnId, t: Track, kind: Kind)
      modifies this
      ensures Model() == ClientSpec.TrackArrived(old(Model()), c, t, kind)
    {
      var video := if StreamOf(remoteVideo, c).None? then remoteVideo[c := Some([])] else remoteVideo;
      var audio := if StreamOf(remoteAudio, c).None? then remoteAudio[c := Some([])] else remoteAudio;
      ghost var want := ClientSpec.TrackArrived(Model(), c, t, kind);
      if kind == Video {
        var emptied := ClearTracks(StreamOf(video, c).value);
        assert emptied + [t] == [t];
        video := video[c := Some(emptied + [t])];
      } else {
        var emptied := ClearTracks(StreamOf(audio, c).value);
        assert emptied + [t] == [t];
        audio := audio[c := Some(emptied + [t])];
      }
      assert want == Model().(remoteVideo := video, remoteAudio := audio);
      remoteVideo, remoteAudio := video, audio;
    }

    /** One awaited call into the browser. */
    method Invoke(x: Call)
      modifies this
      ensures Model() == old(Model()).(calls := old(calls) + [x])
    {
      calls := calls + [x];
    }

    /** `if (!peers_conns[from_connid]) await _createConnection(from_connid)`. */
    method EnsureConnection(c: ConnId)
      modifies this
      ensures Model() == ClientSpec.EnsureConnection(old(Model()), c)
    {
      if ConnOf(peerConns, c).None? {
        var _ := CreateConnection(c);
      }
    }

    /** Accept `offer` on `conn` and send the answer back to `from`. */
    method Answer(conn: Conn, offer: Sdp, from: ConnId)
      modifies this
      ensures var answer := Sdp(old(nextId));
        Model() == old(Model()).(calls := old(calls) + [SetRemoteDescription(conn, offer), CreateAnswer(conn, answer), SetLocalDescription(conn, answer)],
                                 outbox := old(outbox) + [Outgoing(AnswerMsg(answer), from)],
                                 nextId := old(nextId) + 1)
    {
      var answer := Sdp(nextId);
      calls := calls + [SetRemoteDescription(conn, offer), CreateAnswer(conn, answer), SetLocalDescription(conn, answer)];
      outbox, nextId := outbox + [Outgoing(AnswerMsg(answer), from)], nextId + 1;
    }

    /** `_exchangeSDP(message, from_connid)`, on the parsed message. */
    method ExchangeSdp(msg: Message, from: ConnId)
      modifies this
      ensures Model() == ClientSpec.ExchangeSdp(old(Model()), msg, from)
    {
      if msg.answer.Some? {
        var conn := ConnOf(peerConns, from);
        if conn.Some? {
          Invoke(SetRemoteDescription(conn.value, msg.answer.value));
        }
      } else if msg.offer.Some? {
        EnsureConnection(from);
        Answer(ConnOf(peerConns, from).value, msg.offer.value, from);
      } else if msg.iceCandidate.Some? {
        EnsureConnection(from);
        Invoke(AddIceCandidate(ConnOf(peerConns, from).value, msg.iceCandidate.value));
      }
    }
  }
}
