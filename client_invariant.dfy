/**
 * The invariant of public/app.js's `WrtcHelper`, kept by every handler: the
 * two registries agree, `_isAudioMute` mirrors the microphone flag, and every
 * local video track except the current one has been stopped, so at most one
 * camera or screen track is ever live.  A second invariant says that while
 * there is a local video track every open connection's video slot holds a
 * sender.
 */
module ClientInvariant {
  import opened Optional
  import JsObject
  import opened ClientSpec
  import opened ClientFanout
  import opened ClientProperties

  predicate IsVideoAcquire(x: Call)
  {
    x.Acquire? && x.source != Microphone
  }

  /**
   * The log only grew; the previous video track, if it is no longer the
   * current one, was stopped; and every video acquisition among the new calls
   * is of the current track.  Then every other acquired video track is still
   * stopped.
   */
  lemma OtherVideoStoppedAfter(s: Session, r: Session)
    requires OtherVideoStopped(s) && s.calls <= r.calls
    requires s.videoTrack.Some? && Some(s.videoTrack.value) != r.videoTrack ==> Stop(s.videoTrack.value) in r.calls
    requires forall k :: |s.calls| <= k < |r.calls| && IsVideoAcquire(r.calls[k]) ==> Some(r.calls[k].track) == r.videoTrack
    ensures OtherVideoStopped(r)
  {
    forall i | 0 <= i < |r.calls| && r.calls[i].Acquire? && r.calls[i].source != Microphone
                && Some(r.calls[i].track) != r.videoTrack
      ensures Stop(r.calls[i].track) in r.calls
    {
      assert IsVideoAcquire(r.calls[i]);
      if i < |s.calls| {
        assert s.calls[i] == r.calls[i];
        if Some(s.calls[i].track) != s.videoTrack {
          var k :| 0 <= k < |s.calls| && s.calls[k] == Stop(s.calls[i].track);
          assert r.calls[k] == s.calls[k];
        }
      }
    }
  }

  /** The special case where the video track stays and no video acquisition is made. */
  lemma NoVideoAcquireKeeps(s: Session, r: Session)
    requires OtherVideoStopped(s) && s.calls <= r.calls && r.videoTrack == s.videoTrack
    requires forall k :: |s.calls| <= k < |r.calls| ==> !IsVideoAcquire(r.calls[k])
    ensures OtherVideoStopped(r)
  {
    OtherVideoStoppedAfter(s, r);
  }

  /** Both fan-outs keep the invariant. */
  lemma FanoutKeepsValid(s: Session, track: Track, kind: Kind, add: bool)
    requires Valid(s)
    ensures Valid(if add then AddUpdateSenders(s, track, kind) else RemoveSenders(s, kind))
  {
    var r := if add then AddUpdateSenders(s, track, kind) else RemoveSenders(s, kind);
    if add {
      AddUpdateSendersEffects(s, track, kind);
    } else {
      RemoveSendersEffects(s, kind);
    }
    RegistryOkSame(s, r);
    NoVideoAcquireKeeps(s, r);
  }

  lemma CreateConnectionKeepsValid(s: Session, c: ConnId)
    requires Valid(s)
    ensures Valid(CreateConnection(s, c))
  {
    var s1 := Register(s, c);
    RegisterEffects(s, c);
    NoVideoAcquireKeeps(s, s1);
    if s1.videoState != NoVideo && s1.videoTrack.Some? {
      FanoutKeepsValid(s1, s1.videoTrack.value, Video, true);
    }
  }

  lemma CloseConnectionKeepsValid(s: Session, c: ConnId)
    requires Valid(s)
    ensures Valid(CloseConnection(s, c))
  {
    var r := CloseConnection(s, c);
    RegisterKeepsRegistryOk(s, r, c, None, None);
    CloseCallsKinds(s, c);
    NoVideoAcquireKeeps(s, r);
  }

  lemma ToggleMuteKeepsValid(s: Session, dev: Device)
    requires Valid(s)
    ensures Valid(ToggleMute(s, dev))
  {
    var s1 := if s.audioTrack.None? then StartAudio(s, dev) else s;
    assert Valid(s1) by {
      RegistryOkSame(s, s1);
      NoVideoAcquireKeeps(s, s1);
    }
    if s1.audioTrack.Some? {
      var s2 := s1.(audioEnabled := !s1.audioEnabled, isAudioMute := s1.audioEnabled);
      assert Valid(s2) by {
        RegistryOkSame(s1, s2);
      }
      FanoutKeepsValid(s2, s2.audioTrack.value, Audio, s2.audioEnabled);
      var s3 := if s2.audioEnabled then AddUpdateSenders(s2, s2.audioTrack.value, Audio) else RemoveSenders(s2, Audio);
      assert ToggleMute(s, dev) == s3;
    }
  }

  lemma ClearVideoStreamKeepsValid(s: Session)
    requires Valid(s)
    ensures Valid(ClearVideoStream(s))
  {
    if s.videoTrack.Some? {
      var s1 := s.(videoTrack := None, calls := s.calls + [Stop(s.videoTrack.value)]);
      RegistryOkSame(s, s1);
      OtherVideoStoppedAfter(s, s1);
      FanoutKeepsValid(s1, s.videoTrack.value, Video, false);
    }
  }

  lemma VideoOffKeepsValid(s: Session)
    requires Valid(s)
    ensures Valid(ManageVideo(s, NoVideo, Denied))
  {
    var s0 := s.(videoState := NoVideo);
    RegistryOkSame(s, s0);
    ClearVideoStreamKeepsValid(s0);
  }

  lemma VideoWithoutTrackKeepsValid(s: Session, mode: VideoState)
    requires Valid(s) && mode != NoVideo
    ensures Valid(ManageVideo(s, mode, Granted(false)))
  {
    ClearVideoStreamKeepsValid(s);
    ManageVideoWithoutTrack(s, mode, Granted(false));
    var r := ClearVideoStream(s);
    RegistryOkSame(r, r.(videoState := mode));
  }

  lemma VideoOnKeepsValid(s: Session, mode: VideoState)
    requires Valid(s) && mode != NoVideo
    ensures Valid(ManageVideo(s, mode, Granted(true)))
  {
    var r := ManageVideo(s, mode, Granted(true));
    ManageVideoOn(s, mode);
    RegistryOkSame(s, r);
    OtherVideoStoppedAfter(s, r);
  }

  lemma ManageVideoKeepsValid(s: Session, mode: VideoState, dev: Device)
    requires Valid(s)
    ensures Valid(ManageVideo(s, mode, dev))
  {
    if mode == NoVideo {
      VideoOffKeepsValid(s);
      assert ManageVideo(s, mode, dev) == ManageVideo(s, NoVideo, Denied);
    } else if dev == Granted(false) {
      VideoWithoutTrackKeepsValid(s, mode);
    } else if dev == Granted(true) {
      VideoOnKeepsValid(s, mode);
    }
  }

  lemma AnswerKeepsValid(s: Session, msg: Message, from: ConnId)
    requires Valid(s) && msg.answer.Some?
    ensures Valid(ExchangeSdp(s, msg, from))
  {
    var r := ExchangeSdp(s, msg, from);
    assert r.peerIds == s.peerIds && r.peerConns == s.peerConns;
    RegistryOkSame(s, r);
    NoVideoAcquireKeeps(s, r);
  }

  lemma OfferKeepsValid(s: Session, msg: Message, from: ConnId)
    requires Valid(s) && msg.answer.None? && msg.offer.Some?
    ensures Valid(ExchangeSdp(s, msg, from))
  {
    var s1 := EnsureConnection(s, from);
    if !Live(s, from) {
      CreateConnectionKeepsValid(s, from);
    }
    var r := ExchangeSdp(s, msg, from);
    assert r.peerIds == s1.peerIds && r.peerConns == s1.peerConns && r.audioTrack == s1.audioTrack;
    RegistryOkSame(s1, r);
    NoVideoAcquireKeeps(s1, r);
  }

  lemma IceKeepsValid(s: Session, msg: Message, from: ConnId)
    requires Valid(s) && msg.answer.None? && msg.offer.None? && msg.iceCandidate.Some?
    ensures Valid(ExchangeSdp(s, msg, from))
  {
    var s1 := EnsureConnection(s, from);
    if !Live(s, from) {
      CreateConnectionKeepsValid(s, from);
    }
    var r := ExchangeSdp(s, msg, from);
    assert r.peerIds == s1.peerIds && r.peerConns == s1.peerConns && r.audioTrack == s1.audioTrack;
    RegistryOkSame(s1, r);
    NoVideoAcquireKeeps(s1, r);
  }

  lemma ExchangeSdpKeepsValid(s: Session, msg: Message, from: ConnId)
    requires Valid(s)
    ensures Valid(ExchangeSdp(s, msg, from))
  {
    if msg.answer.Some? {
      AnswerKeepsValid(s, msg, from);
    } else if msg.offer.Some? {
      OfferKeepsValid(s, msg, from);
    } else if msg.iceCandidate.Some? {
      IceKeepsValid(s, msg, from);
    }
  }

  lemma IceCandidateFoundKeepsValid(s: Session, c: ConnId, cand: Option<Candidate>)
    requires Valid(s)
    ensures Valid(IceCandidateFound(s, c, cand))
  {
    var r := IceCandidateFound(s, c, cand);
    assert r.calls == s.calls;
    RegistryOkSame(s, r);
  }

  lemma NegotiationNeededKeepsValid(s: Session, c: ConnId)
    requires Valid(s)
    ensures Valid(NegotiationNeeded(s, c))
  {
    var r := NegotiationNeeded(s, c);
    RegistryOkSame(s, r);
    NoVideoAcquireKeeps(s, r);
  }

  lemma TrackArrivedKeepsValid(s: Session, c: ConnId, t: Track, kind: Kind)
    requires Valid(s)
    ensures Valid(TrackArrived(s, c, t, kind))
  {
    var r := TrackArrived(s, c, t, kind);
    assert r.calls == s.calls;
    RegistryOkSame(s, r);
  }

  /** Every handler keeps the invariant. */
  lemma StepKeepsValid(s: Session, e: Event)
    requires Valid(s)
    ensures Valid(Step(s, e))
  {
    match e
    case CreateNewConnection(c) => CreateConnectionKeepsValid(s, c);
    case CloseExistingConnection(c) => CloseConnectionKeepsValid(s, c);
    case ClickMute(dev) => ToggleMuteKeepsValid(s, dev);
    case ClickCamera(dev) =>
      ManageVideoKeepsValid(s, if s.videoState == Camera then NoVideo else Camera, dev);
    case ClickScreenShare(dev) =>
      ManageVideoKeepsValid(s, if s.videoState == ScreenShare then NoVideo else ScreenShare, dev);
    case ScreenInactive => ClearVideoStreamKeepsValid(s);
    case IceFound(c, cand) => IceCandidateFoundKeepsValid(s, c, cand);
    case NegotiationNeededAt(c) => NegotiationNeededKeepsValid(s, c);
    case TrackFrom(c, t, kind) => TrackArrivedKeepsValid(s, c, t, kind);
    case Inbound(msg, from) => ExchangeSdpKeepsValid(s, msg, from);
  }

  lemma {:induction false} RunKeepsValid(s: Session, es: seq<Event>)
    requires Valid(s)
    ensures Valid(Run(s, es))
    decreases |es|
  {
    if es != [] {
      StepKeepsValid(s, es[0]);
      RunKeepsValid(Step(s, es[0]), es[1..]);
    }
  }

  /** The page starts in a valid state. */
  lemma InitValid()
    ensures Valid(Init())
  {
  }

  /** Every tracked video track except the current one has been stopped: at most one is live. */
  lemma AtMostOneLiveVideo(s: Session)
    requires Valid(s)
    ensures s.videoTrack.None? ==> LiveVideoTracks(s) == {}
    ensures s.videoTrack.Some? ==> LiveVideoTracks(s) <= {s.videoTrack.value}
    ensures |LiveVideoTracks(s)| <= 1
  {
    var cur := if s.videoTrack.Some? then {s.videoTrack.value} else {};
    assert LiveVideoTracks(s) <= cur;
    if s.videoTrack.Some? {
      if LiveVideoTracks(s) != {} {
        assert LiveVideoTracks(s) == cur;
      }
    }
  }

  // ---------------------------------------------------------------------
  // Video coverage: the local video track reaches every open connection.

  /**
   * While there is a local video track, video is on and every open
   * connection's video slot holds a sender.  After a reconnection that sender
   * may be one of the peer's previous connection (ReconnectKeepsStaleSender).
   */
  ghost predicate VideoCovered(s: Session)
  {
    s.videoTrack.Some? ==> s.videoState != NoVideo && forall c :: Live(s, c) ==> SenderOf(s.videoSenders, c).Some?
  }

  lemma CreateConnectionKeepsCovered(s: Session, c: ConnId)
    requires Valid(s) && VideoCovered(s)
    ensures VideoCovered(CreateConnection(s, c))
  {
    var s1 := Register(s, c);
    RegisterEffects(s, c);
    if s1.videoState != NoVideo && s1.videoTrack.Some? {
      AddUpdateSendersEffects(s1, s1.videoTrack.value, Video);
    }
  }

  lemma CloseConnectionKeepsCovered(s: Session, c: ConnId)
    requires VideoCovered(s)
    ensures VideoCovered(CloseConnection(s, c))
  {
    CloseConnectionEntries(s, c);
  }

  lemma ToggleMuteKeepsCovered(s: Session, dev: Device)
    requires Valid(s) && VideoCovered(s)
    ensures VideoCovered(ToggleMute(s, dev))
  {
    ToggleMuteEffects(s, dev);
  }

  lemma ManageVideoKeepsCovered(s: Session, mode: VideoState, dev: Device)
    requires Valid(s) && VideoCovered(s)
    ensures VideoCovered(ManageVideo(s, mode, dev))
  {
    if mode == NoVideo {
      ManageVideoOff(s, dev);
    } else if dev != Granted(true) {
      ManageVideoWithoutTrack(s, mode, dev);
    } else {
      ManageVideoOn(s, mode);
      var r := ManageVideo(s, mode, dev);
      assert forall c :: Live(r, c) == Live(s, c);
    }
  }

  lemma ScreenShareInactiveKeepsCovered(s: Session)
    requires Valid(s)
    ensures VideoCovered(ScreenShareInactive(s))
  {
    ClearVideoStreamEffects(s);
  }

  /** `r` has the connections and the video bookkeeping of `s`. */
  lemma SameVideoCovered(s: Session, r: Session)
    requires VideoCovered(s)
    requires r.peerConns == s.peerConns && r.videoSenders == s.videoSenders
    requires r.videoTrack == s.videoTrack && r.videoState == s.videoState
    ensures VideoCovered(r)
  {
    assert forall c :: Live(r, c) == Live(s, c);
  }

  lemma EnsureConnectionKeepsCovered(s: Session, c: ConnId)
    requires Valid(s) && VideoCovered(s)
    ensures VideoCovered(EnsureConnection(s, c))
  {
    if !Live(s, c) {
      CreateConnectionKeepsCovered(s, c);
    }
  }

  lemma OfferKeepsCovered(s: Session, msg: Message, from: ConnId)
    requires Valid(s) && VideoCovered(s) && msg.answer.None? && msg.offer.Some?
    ensures VideoCovered(ExchangeSdp(s, msg, from))
  {
    var s1 := EnsureConnection(s, from);
    EnsureConnectionKeepsCovered(s, from);
    SameVideoCovered(s1, ExchangeSdp(s, msg, from));
  }

  lemma IceKeepsCovered(s: Session, msg: Message, from: ConnId)
    requires Valid(s) && VideoCovered(s) && msg.answer.None? && msg.offer.None? && msg.iceCandidate.Some?
    ensures VideoCovered(ExchangeSdp(s, msg, from))
  {
    var s1 := EnsureConnection(s, from);
    EnsureConnectionKeepsCovered(s, from);
    SameVideoCovered(s1, ExchangeSdp(s, msg, from));
  }

  lemma ExchangeSdpKeepsCovered(s: Session, msg: Message, from: ConnId)
    requires Valid(s) && VideoCovered(s)
    ensures VideoCovered(ExchangeSdp(s, msg, from))
  {
    if msg.answer.Some? {
      SameVideoCovered(s, ExchangeSdp(s, msg, from));
    } else if msg.offer.Some? {
      OfferKeepsCovered(s, msg, from);
    } else if msg.iceCandidate.Some? {
      IceKeepsCovered(s, msg, from);
    }
  }

  /** Every handler keeps the video coverage. */
  lemma StepKeepsCovered(s: Session, e: Event)
    requires Valid(s) && VideoCovered(s)
    ensures VideoCovered(Step(s, e))
  {
    match e
    case CreateNewConnection(c) => CreateConnectionKeepsCovered(s, c);
    case CloseExistingConnection(c) => CloseConnectionKeepsCovered(s, c);
    case ClickMute(dev) => ToggleMuteKeepsCovered(s, dev);
    case ClickCamera(dev) =>
      ManageVideoKeepsCovered(s, if s.videoState == Camera then NoVideo else Camera, dev);
    case ClickScreenShare(dev) =>
      ManageVideoKeepsCovered(s, if s.videoState == ScreenShare then NoVideo else ScreenShare, dev);
    case ScreenInactive => ScreenShareInactiveKeepsCovered(s);
    case IceFound(c, cand) =>
    case NegotiationNeededAt(c) =>
    case TrackFrom(c, t, kind) =>
    case Inbound(msg, from) => ExchangeSdpKeepsCovered(s, msg, from);
  }

  lemma {:induction false} RunKeepsCovered(s: Session, es: seq<Event>)
    requires Valid(s) && VideoCovered(s)
    ensures VideoCovered(Run(s, es))
    decreases |es|
  {
    if es != [] {
      StepKeepsValid(s, es[0]);
      StepKeepsCovered(s, es[0]);
      RunKeepsCovered(Step(s, es[0]), es[1..]);
    }
  }

  /**
   * Whatever sequence of clicks, connection events and inbound messages the
   * page goes through, the invariant holds, at most one local video track is
   * live, and while there is one every open connection's video slot holds a
   * sender.
   */
  lemma Reachable(es: seq<Event>)
    ensures Valid(Run(Init(), es))
    ensures |LiveVideoTracks(Run(Init(), es))| <= 1
    ensures VideoCovered(Run(Init(), es))
  {
    InitValid();
    RunKeepsValid(Init(), es);
    RunKeepsCovered(Init(), es);
    AtMostOneLiveVideo(Run(Init(), es));
  }
}
