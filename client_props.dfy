/**
 * Properties of each handler of public/app.js's `WrtcHelper`, stated on the
 * session functions of ClientSpec.
 */
module ClientProperties {
  import opened Optional
  import JsObject
  import opened ClientSpec
  import opened ClientFanout

  /** The registry part of the invariant: all a fan-out needs. */
  ghost predicate RegistryOk(s: Session)
  {
    WellKeyed(s.peerIds) && RegistryAgrees(s)
  }

  lemma RegistryOkSame(s: Session, r: Session)
    requires RegistryOk(s) && r.peerIds == s.peerIds && r.peerConns == s.peerConns
    ensures RegistryOk(r)
  {
    assert forall c :: Live(r, c) == Live(s, c) && Registered(r, c) == Registered(s, c);
  }

  /** With a consistent registry, forEach over `peers_con_ids` visits exactly the open connections. */
  lemma VisitedIffLive(s: Session)
    requires RegistryOk(s)
    ensures forall c :: Visited(s.peerIds, c) <==> Live(s, c)
  {
    forall c ensures Visited(s.peerIds, c) <==> Live(s, c) {
      if Live(s, c) {
        assert Registered(s, c);
        var i :| 0 <= i < |s.peerIds| && s.peerIds[i] == JsObject.Prop(c, Some(c));
        assert s.peerIds[i].val == Some(c);
      }
      if Visited(s.peerIds, c) {
        var i :| 0 <= i < |s.peerIds| && s.peerIds[i].val == Some(c);
        assert s.peerIds[i].key == c;
        JsObject.GetAt(s.peerIds, i);
        assert Registered(s, c);
      }
    }
  }

  function Other(kind: Kind): Kind
  {
    if kind == Video then Audio else Video
  }

  /** `r` differs from `s` at most in the kind's sender table, the call log and the handle counter. */
  predicate OnlyFanoutChanged(s: Session, r: Session, kind: Kind)
  {
    r == WithFanout(s, kind, Fanout(SlotsOf(r, kind), r.calls, r.nextId))
  }

  /**
   * `_addUpdateSenders(track, kind)` (public/app.js:155-162) on a session:
   * afterwards every open connection's slot of that kind holds a sender; an
   * existing sender is kept and gets replaceTrack (after a reconnection it may
   * belong to the peer's previous connection, see ReconnectKeepsStaleSender);
   * an empty slot gets a new sender of that connection through addTrack; ids
   * without a connection keep their slot; exactly one call is made per open
   * connection, and the addTrack calls among them are exactly as many as the
   * empty slots.
   */
  lemma AddUpdateSendersEffects(s: Session, track: Track, kind: Kind)
    requires RegistryOk(s)
    ensures var r := AddUpdateSenders(s, track, kind);
      && OnlyFanoutChanged(s, r, kind) && s.calls <= r.calls
      && (forall c :: Live(s, c) ==> SenderOf(SlotsOf(r, kind), c).Some?)
      && (forall c :: Live(s, c) && SenderOf(SlotsOf(s, kind), c).Some? ==>
            SenderOf(SlotsOf(r, kind), c) == SenderOf(SlotsOf(s, kind), c)
            && ReplaceTrack(SenderOf(SlotsOf(s, kind), c).value, track) in r.calls[|s.calls|..])
      && (forall c :: Live(s, c) && SenderOf(SlotsOf(s, kind), c).None? ==>
            SenderOf(SlotsOf(r, kind), c).value.conn == ConnOf(s.peerConns, c).value
            && AddTrack(ConnOf(s.peerConns, c).value, track, SenderOf(SlotsOf(r, kind), c).value) in r.calls[|s.calls|..])
      && (forall c :: !Live(s, c) ==> SenderOf(SlotsOf(r, kind), c) == SenderOf(SlotsOf(s, kind), c))
      && (forall k :: |s.calls| <= k < |r.calls| ==> r.calls[k].AddTrack? || r.calls[k].ReplaceTrack?)
      && |r.calls| == |s.calls| + LiveCount(s.peerIds, s.peerConns)
      && AddTracks(r.calls) == AddTracks(s.calls) + AddCount(s.peerIds, s.peerConns, SlotsOf(s, kind))
  {
    VisitedIffLive(s);
    AddUpdateAllSlots(s.peerIds, s.peerConns, track, StartFanout(s, kind));
    AddUpdateAllCounts(s.peerIds, s.peerConns, track, StartFanout(s, kind));
  }

  /** Every open connection's sender of this kind, if it has one, was created on that connection. */
  ghost predicate SlotsOwned(s: Session, kind: Kind)
  {
    forall c :: Live(s, c) && SenderOf(SlotsOf(s, kind), c).Some? ==>
      SenderOf(SlotsOf(s, kind), c).value.conn == ConnOf(s.peerConns, c).value
  }

  /**
   * When no slot of the kind is stale, `_addUpdateSenders` leaves every open
   * connection with a sender created on that very connection.
   */
  lemma AddUpdateSendersOwned(s: Session, track: Track, kind: Kind)
    requires RegistryOk(s) && SlotsOwned(s, kind)
    ensures var r := AddUpdateSenders(s, track, kind);
      forall c :: Live(r, c) ==>
        SenderOf(SlotsOf(r, kind), c).Some? && SenderOf(SlotsOf(r, kind), c).value.conn == ConnOf(r.peerConns, c).value
  {
    AddUpdateSendersEffects(s, track, kind);
  }

  /**
   * `_removeSenders(kind)` (public/app.js:164-169) on a session: afterwards
   * no open connection has a sender of that kind, other slots are as they
   * were, removeTrack was called for every open connection that had a
   * sender, and every call made is a removeTrack of the sender some open id
   * held, on that id's connection.
   */
  lemma RemoveSendersEffects(s: Session, kind: Kind)
    requires RegistryOk(s)
    ensures var r := RemoveSenders(s, kind);
      && OnlyFanoutChanged(s, r, kind) && s.calls <= r.calls
      && (forall c :: Live(s, c) ==> SenderOf(SlotsOf(r, kind), c).None?)
      && (forall c :: !Live(s, c) ==> SenderOf(SlotsOf(r, kind), c) == SenderOf(SlotsOf(s, kind), c))
      && (forall c :: Live(s, c) && SenderOf(SlotsOf(s, kind), c).Some? ==>
            RemoveTrack(ConnOf(s.peerConns, c).value, SenderOf(SlotsOf(s, kind), c).value) in r.calls[|s.calls|..])
      && (forall k :: |s.calls| <= k < |r.calls| ==>
            && r.calls[k].RemoveTrack?
            && exists c :: ConnOf(s.peerConns, c) == Some(r.calls[k].conn) && SenderOf(SlotsOf(s, kind), c) == Some(r.calls[k].sender))
  {
    VisitedIffLive(s);
    RemoveAllSlots(s.peerIds, s.peerConns, StartFanout(s, kind));
  }

  // ---------------------------------------------------------------------
  // closeConnection (public/app.js:171-179)

  /**
   * `closeConnection(c)` leaves all four per-c entries null and every other
   * id's entries as they were.  Both sender tables are left exactly as
   * they were, c's slots included.
   */
  lemma CloseConnectionEntries(s: Session, c: ConnId)
    ensures JsObject.Get(CloseConnection(s, c).peerIds, c) == Some(None)
    ensures !Live(CloseConnection(s, c), c)
    ensures StreamOf(CloseConnection(s, c).remoteAudio, c).None?
    ensures StreamOf(CloseConnection(s, c).remoteVideo, c).None?
    ensures forall d :: d != c ==>
      && JsObject.Get(CloseConnection(s, c).peerIds, d) == JsObject.Get(s.peerIds, d)
      && ConnOf(CloseConnection(s, c).peerConns, d) == ConnOf(s.peerConns, d)
      && StreamOf(CloseConnection(s, c).remoteAudio, d) == StreamOf(s.remoteAudio, d)
      && StreamOf(CloseConnection(s, c).remoteVideo, d) == StreamOf(s.remoteVideo, d)
    ensures CloseConnection(s, c).videoSenders == s.videoSenders
    ensures CloseConnection(s, c).audioSenders == s.audioSenders
    ensures CloseConnection(s, c).outbox == s.outbox
  {
    CloseFields(s, c);
    var r := CloseConnection(s, c);
    forall d | d != c
      ensures && JsObject.Get(r.peerIds, d) == JsObject.Get(s.peerIds, d)
              && ConnOf(r.peerConns, d) == ConnOf(s.peerConns, d)
              && StreamOf(r.remoteAudio, d) == StreamOf(s.remoteAudio, d)
              && StreamOf(r.remoteVideo, d) == StreamOf(s.remoteVideo, d)
    {
    }
  }

  /** The fields `closeConnection(c)` writes, and those it leaves alone. */
  lemma CloseFields(s: Session, c: ConnId)
    ensures var r := CloseConnection(s, c);
      && r.peerIds == JsObject.Put(s.peerIds, c, None)
      && r.peerConns == s.peerConns[c := None]
      && r.remoteAudio == s.remoteAudio[c := None]
      && r.remoteVideo == s.remoteVideo[c := None]
      && r.videoSenders == s.videoSenders && r.audioSenders == s.audioSenders && r.outbox == s.outbox
  {
  }

  /**
   * The calls `closeConnection(c)` makes: close() on c's connection, once and
   * only if there is one, then stop() on every track of c's remote audio and
   * video streams, and nothing else.
   */
  lemma CloseConnectionCalls(s: Session, c: ConnId)
    ensures var r := CloseConnection(s, c);
      && s.calls <= r.calls
      && (Live(s, c) ==>
            && |r.calls| > |s.calls| && r.calls[|s.calls|] == Close(ConnOf(s.peerConns, c).value)
            && forall x :: x in r.calls[|s.calls| + 1..] ==> x.Stop?)
      && (!Live(s, c) ==> forall x :: x in r.calls[|s.calls|..] ==> x.Stop?)
      && (StreamOf(s.remoteAudio, c).Some? ==>
            forall t :: t in StreamOf(s.remoteAudio, c).value ==> Stop(t) in r.calls[|s.calls|..])
      && (StreamOf(s.remoteVideo, c).Some? ==>
            forall t :: t in StreamOf(s.remoteVideo, c).value ==> Stop(t) in r.calls[|s.calls|..])
  {
    var closeCall := if Live(s, c) then [Close(ConnOf(s.peerConns, c).value)] else [];
    var a := StopAll(StreamOf(s.remoteAudio, c));
    var v := StopAll(StreamOf(s.remoteVideo, c));
    CloseLogFacts(s.calls, closeCall, StreamOf(s.remoteAudio, c), StreamOf(s.remoteVideo, c));
    assert CloseConnection(s, c).calls == s.calls + closeCall + a + v;
  }

  /** The log `closeConnection` produces, as a plain sequence fact. */
  lemma CloseLogFacts(p: seq<Call>, closeCall: seq<Call>, audio: Option<seq<Track>>, video: Option<seq<Track>>)
    ensures var l := p + closeCall + StopAll(audio) + StopAll(video);
      && p <= l
      && l[|p|..] == closeCall + (StopAll(audio) + StopAll(video))
      && l[|p| + |closeCall|..] == StopAll(audio) + StopAll(video)
      && (forall x :: x in StopAll(audio) + StopAll(video) ==> x.Stop?)
      && (audio.Some? ==> forall t :: t in audio.value ==> Stop(t) in l[|p|..])
      && (video.Some? ==> forall t :: t in video.value ==> Stop(t) in l[|p|..])
  {
    SplitLog(p, closeCall, StopAll(audio) + StopAll(video));
    StopsCover(audio);
    StopsCover(video);
  }

  lemma SplitLog(p: seq<Call>, x: seq<Call>, y: seq<Call>)
    ensures p + x + y == p + (x + y)
    ensures (p + x + y)[|p|..] == x + y
    ensures (p + x + y)[|p| + |x|..] == y
  {
  }

  /** `StopAll` stops exactly the stream's tracks. */
  lemma StopsCover(stream: Option<seq<Track>>)
    ensures forall x :: x in StopAll(stream) ==> x.Stop?
    ensures stream.Some? ==> forall t :: t in stream.value ==> Stop(t) in StopAll(stream)
  {
    if stream.Some? {
      forall t | t in stream.value ensures Stop(t) in StopAll(stream) {
        var i :| 0 <= i < |stream.value| && stream.value[i] == t;
        assert StopAll(stream)[i] == Stop(t);
      }
    }
  }

  /**
   * `closeConnection` is idempotent: a second call on the same id changes
   * nothing, so in particular it calls no close() and stops no track.
   */
  lemma CloseConnectionIdempotent(s: Session, c: ConnId)
    ensures CloseConnection(CloseConnection(s, c), c) == CloseConnection(s, c)
  {
    var r := CloseConnection(s, c);
    var r2 := CloseConnection(r, c);
    JsObject.PutTwice(s.peerIds, c, None);
    CloseTwiceLog(s, c);
    CloseTwiceTables(s, c);
    assert r2 == r.(peerIds := r2.peerIds, peerConns := r2.peerConns, remoteAudio := r2.remoteAudio,
                    remoteVideo := r2.remoteVideo, calls := r2.calls);
  }

  /** A second `closeConnection(c)` finds nothing to close or stop. */
  lemma CloseTwiceLog(s: Session, c: ConnId)
    ensures CloseConnection(CloseConnection(s, c), c).calls == CloseConnection(s, c).calls
  {
    var r := CloseConnection(s, c);
    assert ConnOf(r.peerConns, c) == None && StreamOf(r.remoteAudio, c) == None && StreamOf(r.remoteVideo, c) == None;
    assert CloseConnection(r, c).calls == r.calls + [] + [] + [];
  }

  /** A second `closeConnection(c)` writes null where null already is. */
  lemma CloseTwiceTables(s: Session, c: ConnId)
    ensures var r := CloseConnection(s, c);
      && CloseConnection(r, c).peerConns == r.peerConns
      && CloseConnection(r, c).remoteAudio == r.remoteAudio
      && CloseConnection(r, c).remoteVideo == r.remoteVideo
  {
    NullTwice(s.peerConns, c);
    NullTwice(s.remoteAudio, c);
    NullTwice(s.remoteVideo, c);
  }

  lemma NullTwice<V>(m: map<ConnId, Option<V>>, c: ConnId)
    ensures m[c := None][c := None] == m[c := None]
  {
  }

  /** Every call `closeConnection` appends is a close() or a stop(). */
  lemma CloseCallsKinds(s: Session, c: ConnId)
    ensures var r := CloseConnection(s, c);
      && s.calls <= r.calls
      && forall k :: |s.calls| <= k < |r.calls| ==> r.calls[k].Close? || r.calls[k].Stop?
  {
    var closeCall := if Live(s, c) then [Close(ConnOf(s.peerConns, c).value)] else [];
    AppendedKinds(s.calls, closeCall, StopAll(StreamOf(s.remoteAudio, c)), StopAll(StreamOf(s.remoteVideo, c)));
  }

  lemma AppendedKinds(p: seq<Call>, x: seq<Call>, a: seq<Call>, v: seq<Call>)
    requires forall i :: 0 <= i < |x| ==> x[i].Close?
    requires forall i :: 0 <= i < |a| ==> a[i].Stop?
    requires forall i :: 0 <= i < |v| ==> v[i].Stop?
    ensures p <= p + x + a + v
    ensures forall k :: |p| <= k < |p + x + a + v| ==> (p + x + a + v)[k].Close? || (p + x + a + v)[k].Stop?
  {
    var l := p + x + a + v;
    forall k | |p| <= k < |l| ensures l[k].Close? || l[k].Stop? {
      if k < |p| + |x| { assert l[k] == x[k - |p|]; }
      else if k < |p| + |x| + |a| { assert l[k] == a[k - |p| - |x|]; }
      else { assert l[k] == v[k - |p| - |x| - |a|]; }
    }
  }

  // ---------------------------------------------------------------------
  // _createConnection (public/app.js:104-131)

  /**
   * The registration half of `_createConnection(c)`: c is registered in
   * `peers_con_ids` and `peers_conns` with a fresh connection, whose creation
   * is the one call made; no other id's registration and nothing else
   * changes.
   */
  lemma RegisterEffects(s: Session, c: ConnId)
    requires RegistryOk(s)
    ensures var r := Register(s, c);
      && RegistryOk(r) && Registered(r, c) && ConnOf(r.peerConns, c) == Some(Conn(s.nextId))
      && r.calls == s.calls + [NewPeerConnection(Conn(s.nextId))]
      && (forall d :: d != c ==>
            JsObject.Get(r.peerIds, d) == JsObject.Get(s.peerIds, d) && ConnOf(r.peerConns, d) == ConnOf(s.peerConns, d))
      && r.videoSenders == s.videoSenders && r.audioSenders == s.audioSenders
      && r.videoState == s.videoState && r.videoTrack == s.videoTrack && r.outbox == s.outbox
  {
    RegisterKeepsRegistryOk(s, Register(s, c), c, Some(c), Some(Conn(s.nextId)));
  }

  /**
   * `_createConnection(c)`: c ends registered with a fresh connection and no
   * other id's registration changes.  If video is on and there is a video
   * track, c ends with a video sender (a new one of its new connection when
   * its slot was empty); otherwise the video senders are untouched.  The
   * audio senders are never touched at creation.
   */
  lemma CreateConnectionEffects(s: Session, c: ConnId)
    requires RegistryOk(s)
    ensures var r := CreateConnection(s, c);
      && RegistryOk(r) && Registered(r, c) && ConnOf(r.peerConns, c) == Some(Conn(s.nextId))
      && |r.calls| > |s.calls| && s.calls <= r.calls && r.calls[|s.calls|] == NewPeerConnection(Conn(s.nextId))
      && (forall d :: d != c ==>
            JsObject.Get(r.peerIds, d) == JsObject.Get(s.peerIds, d) && ConnOf(r.peerConns, d) == ConnOf(s.peerConns, d))
      && (s.videoState != NoVideo && s.videoTrack.Some? ==> SenderOf(r.videoSenders, c).Some?)
      && (s.videoState != NoVideo && s.videoTrack.Some? && SenderOf(s.videoSenders, c).None? ==>
            SenderOf(r.videoSenders, c).value.conn == Conn(s.nextId))
      && (s.videoState == NoVideo || s.videoTrack.None? ==> r.videoSenders == s.videoSenders)
      && r.audioSenders == s.audioSenders
      && (forall x :: x in r.calls[|s.calls| + 1..] ==> x.AddTrack? || x.ReplaceTrack?)
      && r.videoState == s.videoState && r.videoTrack == s.videoTrack && r.outbox == s.outbox
  {
    var s1 := Register(s, c);
    RegisterEffects(s, c);
    assert Live(s1, c);
    if s1.videoState != NoVideo && s1.videoTrack.Some? {
      AddUpdateSendersEffects(s1, s1.videoTrack.value, Video);
      var r := AddUpdateSenders(s1, s1.videoTrack.value, Video);
      RegistryOkSame(s1, r);
      assert s1.calls <= r.calls;
      forall x | x in r.calls[|s.calls| + 1..] ensures x.AddTrack? || x.ReplaceTrack? {
        var k :| |s.calls| + 1 <= k < |r.calls| && r.calls[k] == x;
      }
    }
  }

  /** Writing `peers_con_ids[c]` and `peers_conns[c]` together keeps the registry consistent. */
  lemma RegisterKeepsRegistryOk(s: Session, r: Session, c: ConnId, v: Option<ConnId>, conn: Option<Conn>)
    requires RegistryOk(s)
    requires v == None || v == Some(c)
    requires v.None? <==> conn.None?
    requires r.peerIds == JsObject.Put(s.peerIds, c, v)
    requires r.peerConns == s.peerConns[c := conn]
    ensures RegistryOk(r)
    ensures v.Some? ==> Registered(r, c)
  {
    PutWellKeyed(s.peerIds, c, v);
    forall d ensures Live(r, d) <==> Registered(r, d) {
      if d == c {
        assert JsObject.Get(r.peerIds, c) == Some(v);
        assert ConnOf(r.peerConns, c) == conn;
      } else {
        assert JsObject.Get(r.peerIds, d) == JsObject.Get(s.peerIds, d);
        assert ConnOf(r.peerConns, d) == ConnOf(s.peerConns, d);
        assert Live(s, d) <==> Registered(s, d);
      }
    }
  }

  /** Assigning an id to itself or to null keeps `peers_con_ids` well keyed. */
  lemma PutWellKeyed(ids: seq<Entry>, c: ConnId, v: Option<ConnId>)
    requires WellKeyed(ids) && (v == None || v == Some(c))
    ensures WellKeyed(JsObject.Put(ids, c, v))
  {
    var r := JsObject.Put(ids, c, v);
    JsObject.PutDistinct(ids, c, v);
    forall i | 0 <= i < |r| ensures r[i].val == None || r[i].val == Some(r[i].key) {
      JsObject.GetAt(r, i);
      if r[i].key != c {
        assert i < |ids|;
        JsObject.GetAt(ids, i);
        assert ids[i].key == r[i].key;
      }
    }
  }

  // ---------------------------------------------------------------------
  // Audio (public/app.js:41-49, 96-102)

  /**
   * One click of the mute button.  Without a track and without a granted
   * microphone nothing changes.  The first successful click acquires a
   * track (created disabled) and enables it; later clicks keep the same track
   * and flip its flag, without asking for the device again.  Afterwards
   * `_isAudioMute` is the negation of the flag, and every open connection has
   * an audio sender exactly when the flag is on.  Video and the registry are
   * untouched.
   */
  lemma ToggleMuteEffects(s: Session, dev: Device)
    requires RegistryOk(s) && MuteAgrees(s)
    ensures var r := ToggleMute(s, dev);
      && (s.audioTrack.None? && dev != Granted(true) ==> r == s)
      && (s.audioTrack.None? && dev == Granted(true) ==>
            r.audioTrack == Some(Track(s.nextId)) && r.audioEnabled
            && |r.calls| > |s.calls| && r.calls[|s.calls|] == Acquire(Microphone, Track(s.nextId)))
      && (s.audioTrack.Some? ==>
            r.audioTrack == s.audioTrack && r.audioEnabled == !s.audioEnabled
            && forall k :: |s.calls| <= k < |r.calls| ==> !r.calls[k].Acquire?)
      && r.isAudioMute == !r.audioEnabled
      && (r.audioEnabled ==> forall c :: Live(r, c) ==> SenderOf(r.audioSenders, c).Some?)
      && (r.audioTrack.Some? && !r.audioEnabled ==> forall c :: Live(r, c) ==> SenderOf(r.audioSenders, c).None?)
      && r.peerIds == s.peerIds && r.peerConns == s.peerConns
      && r.videoSenders == s.videoSenders && r.videoTrack == s.videoTrack && r.videoState == s.videoState
      && s.calls <= r.calls
  {
    var s1 := if s.audioTrack.None? then StartAudio(s, dev) else s;
    if s1.audioTrack.Some? {
      var s2 := s1.(audioEnabled := !s1.audioEnabled);
      RegistryOkSame(s, s2);
      if s2.audioEnabled {
        AddUpdateSendersEffects(s2, s2.audioTrack.value, Audio);
      } else {
        RemoveSendersEffects(s2, Audio);
      }
    }
  }

  /** The mute button clicked once per device outcome in `devs`. */
  function MuteClicks(s: Session, devs: seq<Device>): Session
    decreases |devs|
  {
    if devs == [] then s else MuteClicks(ToggleMute(s, devs[0]), devs[1..])
  }

  /** A click while a microphone track exists keeps it, flips its flag and requests no device. */
  lemma MuteClickKeepsTrack(s: Session, dev: Device)
    requires s.audioTrack.Some?
    ensures var r := ToggleMute(s, dev);
      && r.audioTrack == s.audioTrack && r.audioEnabled == !s.audioEnabled
      && s.calls <= r.calls
      && forall k :: |s.calls| <= k < |r.calls| ==> !r.calls[k].Acquire?
  {
    var s2 := s.(audioEnabled := !s.audioEnabled);
    if s2.audioEnabled {
      AddUpdateAllSlots(s2.peerIds, s2.peerConns, s2.audioTrack.value, StartFanout(s2, Audio));
    } else {
      RemoveAllSlots(s2.peerIds, s2.peerConns, StartFanout(s2, Audio));
    }
  }

  /**
   * Once a microphone track exists, n clicks flip its flag n times and keep
   * the same track: the flag is the parity of the number of clicks, and no
   * click asks for the device again.
   */
  lemma {:induction false} MuteParity(s: Session, devs: seq<Device>)
    requires s.audioTrack.Some?
    ensures MuteClicks(s, devs).audioTrack == s.audioTrack
    ensures MuteClicks(s, devs).audioEnabled == if |devs| % 2 == 0 then s.audioEnabled else !s.audioEnabled
    ensures s.calls <= MuteClicks(s, devs).calls
    ensures forall k :: |s.calls| <= k < |MuteClicks(s, devs).calls| ==> !MuteClicks(s, devs).calls[k].Acquire?
    decreases |devs|
  {
    if devs != [] {
      var s1 := ToggleMute(s, devs[0]);
      MuteClickKeepsTrack(s, devs[0]);
      MuteParity(s1, devs[1..]);
      var r := MuteClicks(s, devs);
      assert r == MuteClicks(s1, devs[1..]);
      forall k | |s.calls| <= k < |r.calls| ensures !r.calls[k].Acquire? {
        if k < |s1.calls| {
          assert r.calls[k] == s1.calls[k];
        }
      }
    }
  }

  /**
   * Starting with no microphone track (as on page load), a granted first
   * click followed by any further clicks leaves the track enabled exactly when
   * the number of clicks is odd; the first click's request is the only one
   * made.
   */
  lemma MuteParityFromFirstClick(s: Session, more: seq<Device>)
    requires s.audioTrack.None?
    ensures MuteClicks(s, [Granted(true)] + more).audioTrack == Some(Track(s.nextId))
    ensures MuteClicks(s, [Granted(true)] + more).audioEnabled == (|[Granted(true)] + more| % 2 == 1)
    ensures var r := MuteClicks(s, [Granted(true)] + more);
      && s.calls <= r.calls && |r.calls| > |s.calls|
      && r.calls[|s.calls|] == Acquire(Microphone, Track(s.nextId))
      && forall k :: |s.calls| < k < |r.calls| ==> !r.calls[k].Acquire?
  {
    var a := StartAudio(s, Granted(true));
    var s1 := ToggleMute(s, Granted(true));
    assert s1 == ToggleMute(a, Granted(true));
    MuteClickKeepsTrack(a, Granted(true));
    assert ([Granted(true)] + more)[1..] == more;
    MuteParity(s1, more);
    var r := MuteClicks(s, [Granted(true)] + more);
    assert r == MuteClicks(s1, more);
    assert r.calls[|s.calls|] == a.calls[|s.calls|];
    forall k | |s.calls| < k < |r.calls| ensures !r.calls[k].Acquire? {
      if k < |s1.calls| {
        assert r.calls[k] == s1.calls[k];
      }
    }
  }

  /**
   * `_createConnection` catches up only the video sender (public/app.js:128):
   * a peer that connects after the microphone was unmuted gets no audio
   * sender, although the microphone is on.
   */
  lemma UnmuteThenConnect()
    ensures var s1 := ToggleMute(Init(), Granted(true));
      var s2 := CreateConnection(s1, "b");
      && s2.audioTrack.Some? && s2.audioEnabled && !s2.isAudioMute
      && Live(s2, "b") && SenderOf(s2.audioSenders, "b").None?
  {
    var s1 := ToggleMute(Init(), Granted(true));
    assert s1.peerIds == [] && s1.peerConns == map[] && s1.audioSenders == map[];
    assert RegistryOk(s1);
    CreateConnectionEffects(s1, "b");
  }

  // ---------------------------------------------------------------------
  // Video (public/app.js:51-94)

  /**
   * `_clearVideoStream`: with a track, stops it first, forgets it and
   * removes every open connection's video sender; without one, does nothing.
   */
  lemma ClearVideoStreamEffects(s: Session)
    requires RegistryOk(s)
    ensures var r := ClearVideoStream(s);
      && r.videoTrack.None? && r.videoState == s.videoState && s.calls <= r.calls
      && (s.videoTrack.None? ==> r == s)
      && (s.videoTrack.Some? ==>
            |r.calls| > |s.calls| && r.calls[|s.calls|] == Stop(s.videoTrack.value)
            && (forall c :: Live(s, c) ==> SenderOf(r.videoSenders, c).None?)
            && (forall k :: |s.calls| < k < |r.calls| ==> r.calls[k].RemoveTrack?))
      && r.peerIds == s.peerIds && r.peerConns == s.peerConns && r.audioSenders == s.audioSenders
      && (forall c :: !Live(s, c) ==> SenderOf(r.videoSenders, c) == SenderOf(s.videoSenders, c))
      && r.audioTrack == s.audioTrack && r.audioEnabled == s.audioEnabled && r.isAudioMute == s.isAudioMute
      && r.outbox == s.outbox
  {
    if s.videoTrack.Some? {
      var s1 := s.(videoTrack := None, calls := s.calls + [Stop(s.videoTrack.value)]);
      RegistryOkSame(s, s1);
      RemoveSendersEffects(s1, Video);
    }
  }

  /**
   * `_manageVideo(None)`: the state becomes None; a track that existed is
   * stopped, forgotten and its senders removed; otherwise the senders and
   * the log are untouched.
   */
  lemma ManageVideoOff(s: Session, dev: Device)
    requires RegistryOk(s)
    ensures var r := ManageVideo(s, NoVideo, dev);
      && r.videoState == NoVideo && r.videoTrack.None?
      && (s.videoTrack.Some? ==>
            |r.calls| > |s.calls| && r.calls[|s.calls|] == Stop(s.videoTrack.value)
            && forall c :: Live(s, c) ==> SenderOf(r.videoSenders, c).None?)
      && (s.videoTrack.None? ==> r.videoSenders == s.videoSenders && r.calls == s.calls)
  {
    RegistryOkSame(s, s.(videoState := NoVideo));
    ClearVideoStreamEffects(s.(videoState := NoVideo));
  }

  /**
   * `_manageVideo(Camera | ScreenShare)` when no new track comes: a refused
   * capture request changes nothing; a stream without a video track still
   * clears the old track and sets the state to the requested mode.
   */
  lemma ManageVideoWithoutTrack(s: Session, mode: VideoState, dev: Device)
    requires RegistryOk(s) && mode != NoVideo && dev != Granted(true)
    ensures dev.Denied? ==> ManageVideo(s, mode, dev) == s
    ensures dev.Granted? ==> ManageVideo(s, mode, dev) == ClearVideoStream(s).(videoState := mode)
    ensures ManageVideo(s, mode, dev).videoTrack.None? || dev.Denied?
  {
    ClearVideoStreamEffects(s);
  }

  /** Every member of a later suffix of a log is a member of an earlier one. */
  lemma SuffixMembers(l: seq<Call>, i: nat, j: nat)
    requires i <= j <= |l|
    ensures forall x :: x in l[j..] ==> x in l[i..]
  {
    forall x | x in l[j..] ensures x in l[i..] {
      var k :| j <= k < |l| && l[k] == x;
      assert l[i..][k - i] == x;
    }
  }

  /**
   * The second half of `_manageVideo(mode)` once a new track `t` exists:
   * the old track is stopped first, then `t` is stored and fanned out, so
   * every open connection's video slot holds a sender that was given `t`.
   */
  lemma InstallVideo(s: Session, t: Track, mode: VideoState)
    requires RegistryOk(s)
    ensures var r := AddUpdateSenders(ClearVideoStream(s).(videoState := mode, videoTrack := Some(t)), t, Video);
      && r.videoTrack == Some(t) && r.videoState == mode
      && s.calls <= r.calls
      && (s.videoTrack.Some? ==> |r.calls| > |s.calls| && r.calls[|s.calls|] == Stop(s.videoTrack.value))
      && (forall k :: |s.calls| <= k < |r.calls| ==> !r.calls[k].Acquire?)
      && (forall c :: Live(s, c) ==>
            SenderOf(r.videoSenders, c).Some?
            && (AddTrack(SenderOf(r.videoSenders, c).value.conn, t, SenderOf(r.videoSenders, c).value) in r.calls[|s.calls|..]
                || ReplaceTrack(SenderOf(r.videoSenders, c).value, t) in r.calls[|s.calls|..]))
      && r.audioSenders == s.audioSenders && r.peerIds == s.peerIds && r.peerConns == s.peerConns
  {
    ClearVideoStreamEffects(s);
    var s2 := ClearVideoStream(s).(videoState := mode, videoTrack := Some(t));
    RegistryOkSame(s, s2);
    AddUpdateSendersEffects(s2, t, Video);
    var r := AddUpdateSenders(s2, t, Video);
    assert s.calls <= s2.calls <= r.calls;
    SuffixMembers(r.calls, |s.calls|, |s2.calls|);
    assert forall c :: Live(s, c) == Live(s2, c);
    if s.videoTrack.Some? {
      assert r.calls[|s.calls|] == s2.calls[|s.calls|];
    }
  }

  /**
   * `_manageVideo(Camera | ScreenShare)` with a granted track: the
   * acquisition is the first call, the previous video track is stopped right
   * after it (before any sender is touched), the state becomes the requested
   * mode, the new track is the one stored, and every open connection's video
   * slot holds a sender that was given the new track (by addTrack or
   * replaceTrack).
   */
  lemma ManageVideoOn(s: Session, mode: VideoState)
    requires RegistryOk(s) && mode != NoVideo
    ensures var r := ManageVideo(s, mode, Granted(true));
      var t := Track(s.nextId);
      && r.videoState == mode && r.videoTrack == Some(t)
      && s.calls <= r.calls && |r.calls| > |s.calls|
      && r.calls[|s.calls|] == Acquire(SourceFor(mode), t)
      && (s.videoTrack.Some? ==> |r.calls| > |s.calls| + 1 && r.calls[|s.calls| + 1] == Stop(s.videoTrack.value))
      && (forall k :: |s.calls| < k < |r.calls| ==> !r.calls[k].Acquire?)
      && (forall c :: Live(s, c) ==>
            SenderOf(r.videoSenders, c).Some?
            && (AddTrack(SenderOf(r.videoSenders, c).value.conn, t, SenderOf(r.videoSenders, c).value) in r.calls[|s.calls|..]
                || ReplaceTrack(SenderOf(r.videoSenders, c).value, t) in r.calls[|s.calls|..]))
      && r.audioSenders == s.audioSenders && r.peerIds == s.peerIds && r.peerConns == s.peerConns
  {
    var t := Track(s.nextId);
    var s1 := s.(calls := s.calls + [Acquire(SourceFor(mode), t)], nextId := s.nextId + 1);
    RegistryOkSame(s, s1);
    InstallVideo(s1, t, mode);
    var r := AddUpdateSenders(ClearVideoStream(s1).(videoState := mode, videoTrack := Some(t)), t, Video);
    assert r == ManageVideo(s, mode, Granted(true));
    assert s.calls <= s1.calls <= r.calls;
    SuffixMembers(r.calls, |s.calls|, |s1.calls|);
    assert forall c :: Live(s, c) == Live(s1, c);
  }

  /**
   * Switching from camera to screen share (both granted): the camera track is
   * stopped, the screen track is the one stored, and every open connection's
   * video slot holds a sender.
   */
  lemma CameraThenScreenShare(s: Session)
    requires RegistryOk(s)
    ensures var s1 := ManageVideo(s, Camera, Granted(true));
      var r := ManageVideo(s1, ScreenShare, Granted(true));
      && Stop(Track(s.nextId)) in r.calls
      && r.videoTrack == Some(Track(s1.nextId)) && r.videoState == ScreenShare
      && forall c :: Live(s, c) ==> SenderOf(r.videoSenders, c).Some?
  {
    ManageVideoOn(s, Camera);
    var s1 := ManageVideo(s, Camera, Granted(true));
    RegistryOkSame(s, s1);
    ManageVideoOn(s1, ScreenShare);
    var r := ManageVideo(s1, ScreenShare, Granted(true));
    assert r.calls[|s1.calls| + 1] == Stop(Track(s.nextId));
    assert forall c :: Live(s, c) == Live(s1, c);
  }

  /**
   * The screen stream's `oninactive` clears the track but leaves
   * `_videoState` at ScreenShare, so a connection created afterwards gets no
   * video sender and the next screen-share click turns video off rather than
   * on.
   */
  lemma ScreenShareInactiveKeepsState(s: Session, c: ConnId, dev: Device)
    requires RegistryOk(s) && s.videoState == ScreenShare
    ensures var r := ScreenShareInactive(s);
      && r.videoState == ScreenShare && r.videoTrack.None?
      && CreateConnection(r, c).videoSenders == r.videoSenders
      && ToggleScreenShare(r, dev).videoState == NoVideo
  {
    ClearVideoStreamEffects(s);
  }

  // ---------------------------------------------------------------------
  // _exchangeSDP (public/app.js:140-153)

  /** Exactly one branch runs, chosen in the order answer, offer, iceCandidate. */
  lemma ExchangeSdpPriority(s: Session, msg: Message, from: ConnId)
    ensures msg.answer.Some? ==>
      ExchangeSdp(s, msg, from) == ExchangeSdp(s, Message(msg.answer, None, None), from)
    ensures msg.answer.None? && msg.offer.Some? ==>
      ExchangeSdp(s, msg, from) == ExchangeSdp(s, Message(None, msg.offer, None), from)
    ensures msg == Message(None, None, None) ==> ExchangeSdp(s, msg, from) == s
  {
  }

  /**
   * An answer is applied to the existing connection as its remote
   * description; for a missing connection nothing happens.  The registry and
   * the outbox never change.
   */
  lemma AnswerBranch(s: Session, answer: Sdp, from: ConnId)
    ensures var r := ExchangeSdp(s, Message(Some(answer), None, None), from);
      && r.peerIds == s.peerIds && r.peerConns == s.peerConns && r.outbox == s.outbox
      && (Live(s, from) ==> r.calls == s.calls + [SetRemoteDescription(ConnOf(s.peerConns, from).value, answer)])
      && (!Live(s, from) ==> r == s)
  {
  }

  /**
   * An offer creates the connection when it is missing, is applied as the
   * remote description, and is answered: exactly one message is emitted,
   * an answer addressed to the sender, whose description was stored as the
   * local one.
   */
  lemma OfferBranch(s: Session, offer: Sdp, from: ConnId)
    requires RegistryOk(s)
    ensures var r := ExchangeSdp(s, Message(None, Some(offer), None), from);
      var conn := ConnOf(r.peerConns, from).value;
      && Live(r, from) && Registered(r, from)
      && (Live(s, from) ==> r.peerConns == s.peerConns && r.peerIds == s.peerIds)
      && |r.outbox| == |s.outbox| + 1 && r.outbox[..|s.outbox|] == s.outbox
      && r.outbox[|s.outbox|].to == from && r.outbox[|s.outbox|].payload.AnswerMsg?
      && SetRemoteDescription(conn, offer) in r.calls
      && SetLocalDescription(conn, r.outbox[|s.outbox|].payload.sdp) in r.calls
  {
    if !Live(s, from) {
      CreateConnectionEffects(s, from);
    } else {
      VisitedIffLive(s);
    }
    var s1 := EnsureConnection(s, from);
    assert s1.outbox == s.outbox;
    var r := ExchangeSdp(s, Message(None, Some(offer), None), from);
    assert r.peerConns == s1.peerConns && r.peerIds == s1.peerIds;
    assert Registered(r, from);
  }

  /**
   * An ICE candidate creates the connection when it is missing and is then
   * handed to addIceCandidate; nothing is emitted.  A rejected
   * addIceCandidate is caught, so with an existing connection the only
   * change is the call itself.
   */
  lemma IceCandidateBranch(s: Session, cand: Candidate, from: ConnId)
    ensures var r := ExchangeSdp(s, Message(None, None, Some(cand)), from);
      && Live(r, from) && r.outbox == s.outbox
      && r.calls[|r.calls| - 1] == AddIceCandidate(ConnOf(r.peerConns, from).value, cand)
      && (Live(s, from) ==> r == s.(calls := s.calls + [AddIceCandidate(ConnOf(s.peerConns, from).value, cand)]))
  {
  }

  /**
   * Order-tolerant bootstrap: a candidate from an unknown peer that arrives
   * before its offer creates the connection, and the later offer reuses that
   * same connection instead of creating another.  The candidate is passed to
   * addIceCandidate on it and the offer is set as its remote description.
   */
  lemma CandidateBeforeOffer(s: Session, cand: Candidate, offer: Sdp, from: ConnId)
    requires !Live(s, from)
    ensures var s1 := ExchangeSdp(s, Message(None, None, Some(cand)), from);
      var s2 := ExchangeSdp(s1, Message(None, Some(offer), None), from);
      && ConnOf(s2.peerConns, from) == Some(Conn(s.nextId))
      && AddIceCandidate(Conn(s.nextId), cand) in s2.calls
      && SetRemoteDescription(Conn(s.nextId), offer) in s2.calls
      && s2.outbox == s.outbox + [Outgoing(AnswerMsg(Sdp(s1.nextId)), from)]
  {
    var s1 := ExchangeSdp(s, Message(None, None, Some(cand)), from);
    assert ConnOf(EnsureConnection(s, from).peerConns, from) == Some(Conn(s.nextId));
    assert ConnOf(s1.peerConns, from) == Some(Conn(s.nextId));
    assert s1.outbox == s.outbox;
    var s2 := ExchangeSdp(s1, Message(None, Some(offer), None), from);
    assert AddIceCandidate(Conn(s.nextId), cand) == s1.calls[|s1.calls| - 1];
    assert s1.calls <= s2.calls;
  }

  // ---------------------------------------------------------------------
  // Stale sender slots after a reconnection

  /**
   * `closeConnection` leaves the sender slots behind.  When the same peer is
   * connected again while the camera is on, `_addUpdateSenders` finds the old
   * sender in the slot and calls replaceTrack on it, so the new connection
   * gets no addTrack at all and the slot names a sender of the closed
   * connection.
   */
  lemma ReconnectKeepsStaleSender()
    ensures var s1 := CreateConnection(Init(), "b");
      var s2 := ManageVideo(s1, Camera, Granted(true));
      var s3 := CloseConnection(s2, "b");
      var s4 := CreateConnection(s3, "b");
      && Registered(s4, "b")
      && SenderOf(s4.videoSenders, "b").Some?
      && SenderOf(s4.videoSenders, "b").value.conn != ConnOf(s4.peerConns, "b").value
      && Close(SenderOf(s4.videoSenders, "b").value.conn) in s4.calls
      && (forall k :: 0 <= k < |s4.calls| && s4.calls[k].AddTrack? ==> s4.calls[k].conn != ConnOf(s4.peerConns, "b").value)
  {
    ReconnectScenario();
  }

  /** The concrete states of the reconnect scenario, one step at a time. */
  lemma ReconnectScenario()
    ensures var snd := Sender(2, Conn(0));
      var s2 := ManageVideo(CreateConnection(Init(), "b"), Camera, Granted(true));
      var s4 := CreateConnection(CloseConnection(s2, "b"), "b");
      && s4.peerIds == [JsObject.Prop("b", Some("b"))]
      && s4.peerConns == map["b" := Some(Conn(3))]
      && s4.videoSenders == map["b" := Some(snd)]
      && s4.videoTrack == Some(Track(1)) && s4.videoState == Camera
      && s4.calls == [NewPeerConnection(Conn(0)), Acquire(CameraInput, Track(1)), AddTrack(Conn(0), Track(1), snd),
                      Close(Conn(0)), NewPeerConnection(Conn(3)), ReplaceTrack(snd, Track(1))]
  {
    var snd := Sender(2, Conn(0));
    var s2 := ManageVideo(CreateConnection(Init(), "b"), Camera, Granted(true));
    CameraForOnePeer();
    var s3 := CloseConnection(s2, "b");
    assert s3.peerIds == [JsObject.Prop("b", None)];
    assert s3.peerConns == map["b" := None];
    assert s3.calls == s2.calls + [Close(Conn(0))] by {
      assert StreamOf(s2.remoteAudio, "b") == None && StreamOf(s2.remoteVideo, "b") == None;
    }
    var s4 := CreateConnection(s3, "b");
    var s31 := Register(s3, "b");
    assert s31.peerIds == [JsObject.Prop("b", Some("b"))];
    assert s31.peerConns == map["b" := Some(Conn(3))];
    assert s4 == AddUpdateSenders(s31, Track(1), Video);
  }

  /** The first two steps: peer b connected, then the camera turned on. */
  lemma CameraForOnePeer()
    ensures var s2 := ManageVideo(CreateConnection(Init(), "b"), Camera, Granted(true));
      && s2.peerIds == [JsObject.Prop("b", Some("b"))]
      && s2.peerConns == map["b" := Some(Conn(0))]
      && s2.videoSenders == map["b" := Some(Sender(2, Conn(0)))]
      && s2.remoteAudio == map[] && s2.remoteVideo == map[]
      && s2.videoTrack == Some(Track(1)) && s2.videoState == Camera && s2.nextId == 3
      && s2.calls == [NewPeerConnection(Conn(0)), Acquire(CameraInput, Track(1)), AddTrack(Conn(0), Track(1), Sender(2, Conn(0)))]
  {
    var s0 := Init();
    var s1 := CreateConnection(s0, "b");
    assert s1.peerIds == [JsObject.Prop("b", Some("b"))];
    assert s1 == s0.(peerIds := [JsObject.Prop("b", Some("b"))], peerConns := map["b" := Some(Conn(0))],
                     calls := [NewPeerConnection(Conn(0))], nextId := 1);
  }

  /**
   * In the same scenario, turning the camera off asks the new connection to
   * remove the sender the closed connection created.
   */
  lemma ReconnectThenCameraOff()
    ensures var s4 := CreateConnection(CloseConnection(ManageVideo(CreateConnection(Init(), "b"), Camera, Granted(true)), "b"), "b");
      RemoveTrack(Conn(3), Sender(2, Conn(0))) in ManageVideo(s4, NoVideo, Denied).calls
      && ConnOf(s4.peerConns, "b") == Some(Conn(3))
  {
    ReconnectScenario();
    var s4 := CreateConnection(CloseConnection(ManageVideo(CreateConnection(Init(), "b"), Camera, Granted(true)), "b"), "b");
    var s5 := ManageVideo(s4, NoVideo, Denied);
    assert s5.calls == s4.calls + [Stop(Track(1)), RemoveTrack(Conn(3), Sender(2, Conn(0)))];
  }
}
