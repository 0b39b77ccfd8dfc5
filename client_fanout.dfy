/**
 * What the two sender fan-outs of public/app.js (`_addUpdateSenders`,
 * `_removeSenders`) do, proved about their forEach folds.
 */
module ClientFanout {
  import opened Optional
  import JsObject
  import opened ClientSpec

  /** The slot of a visited id that has a live connection and had no sender. */
  predicate NeedsAdd(id: Option<ConnId>, conns: Conns, slots: Slots)
  {
    id.Some? && ConnOf(conns, id.value).Some? && SenderOf(slots, id.value).None?
  }

  /** Entries of `ids` whose id has a live connection. */
  function LiveCount(ids: seq<Entry>, conns: Conns): nat
    decreases |ids|
  {
    if ids == [] then 0
    else (if ids[0].val.Some? && ConnOf(conns, ids[0].val.value).Some? then 1 else 0)
         + LiveCount(ids[1..], conns)
  }

  /** Entries of `ids` whose id has a live connection and an empty slot. */
  function AddCount(ids: seq<Entry>, conns: Conns, slots: Slots): nat
    decreases |ids|
  {
    if ids == [] then 0
    else (if NeedsAdd(ids[0].val, conns, slots) then 1 else 0) + AddCount(ids[1..], conns, slots)
  }

  /** The number of addTrack calls in a log. */
  function AddTracks(cs: seq<Call>): nat
    decreases |cs|
  {
    if cs == [] then 0
    else AddTracks(cs[..|cs| - 1]) + (if cs[|cs| - 1].AddTrack? then 1 else 0)
  }

  /** AddUpdateOne touches only the slot of the id it visits, and only appends. */
  lemma AddUpdateOneFacts(id: Option<ConnId>, conns: Conns, track: Track, f: Fanout)
    ensures var g := AddUpdateOne(id, conns, track, f);
      && f.calls <= g.calls && f.next <= g.next
      && (forall d :: Some(d) != id ==> SenderOf(g.slots, d) == SenderOf(f.slots, d))
  {
  }

  /** `_addUpdateSenders` only appends to the log and only moves the allocator forward. */
  lemma {:induction false} AddUpdateAllGrows(ids: seq<Entry>, conns: Conns, track: Track, f: Fanout)
    ensures var r := AddUpdateAll(ids, conns, track, f);
      f.calls <= r.calls && f.next <= r.next
    decreases |ids|
  {
    if ids != [] {
      var g := AddUpdateOne(ids[0].val, conns, track, f);
      AddUpdateOneFacts(ids[0].val, conns, track, f);
      AddUpdateAllGrows(ids[1..], conns, track, g);
    }
  }

  /** Every call `_addUpdateSenders` makes is an addTrack or a replaceTrack. */
  lemma {:induction false} AddUpdateAllKinds(ids: seq<Entry>, conns: Conns, track: Track, f: Fanout)
    ensures var r := AddUpdateAll(ids, conns, track, f);
      forall k :: |f.calls| <= k < |r.calls| ==> r.calls[k].AddTrack? || r.calls[k].ReplaceTrack?
    decreases |ids|
  {
    var r := AddUpdateAll(ids, conns, track, f);
    if ids != [] {
      var g := AddUpdateOne(ids[0].val, conns, track, f);
      AddUpdateOneFacts(ids[0].val, conns, track, f);
      AddUpdateAllGrows(ids[1..], conns, track, g);
      AddUpdateAllKinds(ids[1..], conns, track, g);
      forall k | |f.calls| <= k < |g.calls| ensures r.calls[k].AddTrack? || r.calls[k].ReplaceTrack? {
        assert r.calls[k] == g.calls[k];
      }
    }
  }

  /**
   * `_addUpdateSenders` (public/app.js:155-162): afterwards every visited id
   * with a live connection has a sender; a slot that already had one keeps it
   * (its sender got replaceTrack); a slot that had none now holds a new sender
   * of that id's connection, created by an addTrack call; every other slot is
   * as it was; the log is only appended to, and only with addTrack and
   * replaceTrack calls.
   */
  lemma {:induction false} AddUpdateAllSlots(ids: seq<Entry>, conns: Conns, track: Track, f: Fanout)
    ensures var r := AddUpdateAll(ids, conns, track, f);
      && f.calls <= r.calls && f.next <= r.next
      && (forall c :: Visited(ids, c) && ConnOf(conns, c).Some? ==> SenderOf(r.slots, c).Some?)
      && (forall c :: SenderOf(f.slots, c).Some? ==> SenderOf(r.slots, c) == SenderOf(f.slots, c))
      && (forall c :: !(Visited(ids, c) && ConnOf(conns, c).Some?) ==> SenderOf(r.slots, c) == SenderOf(f.slots, c))
      && (forall c :: Visited(ids, c) && ConnOf(conns, c).Some? && SenderOf(f.slots, c).None? ==>
            SenderOf(r.slots, c).value.conn == ConnOf(conns, c).value
            && AddTrack(ConnOf(conns, c).value, track, SenderOf(r.slots, c).value) in r.calls[|f.calls|..])
      && (forall c :: Visited(ids, c) && ConnOf(conns, c).Some? && SenderOf(f.slots, c).Some? ==>
            ReplaceTrack(SenderOf(f.slots, c).value, track) in r.calls[|f.calls|..])
      && (forall k :: |f.calls| <= k < |r.calls| ==> r.calls[k].AddTrack? || r.calls[k].ReplaceTrack?)
    decreases |ids|
  {
    AddUpdateAllKinds(ids, conns, track, f);
    var r := AddUpdateAll(ids, conns, track, f);
    if ids != [] {
      var g := AddUpdateOne(ids[0].val, conns, track, f);
      AddUpdateOneFacts(ids[0].val, conns, track, f);
      AddUpdateAllSlots(ids[1..], conns, track, g);
      assert r == AddUpdateAll(ids[1..], conns, track, g);
      forall c | Visited(ids, c) && !Visited(ids[1..], c) ensures ids[0].val == Some(c) {
        var i :| 0 <= i < |ids| && ids[i].val == Some(c);
      }
      forall c | Visited(ids[1..], c) ensures Visited(ids, c) {
        var i :| 0 <= i < |ids[1..]| && ids[1..][i].val == Some(c);
        assert ids[i + 1] == ids[1..][i];
      }
      assert |f.calls| <= |g.calls| <= |r.calls|;
      forall x | x in g.calls[|f.calls|..] ensures x in r.calls[|f.calls|..] {
        var k :| |f.calls| <= k < |g.calls| && g.calls[k] == x;
        assert r.calls[k] == g.calls[k];
      }
      forall x | x in r.calls[|g.calls|..] ensures x in r.calls[|f.calls|..] {
        var k :| |g.calls| <= k < |r.calls| && r.calls[k] == x;
      }
    }
  }

  /** Counting the entries after the first ignores a slot that only the first can name. */
  lemma {:induction false} AddCountFrame(ids: seq<Entry>, conns: Conns, m1: Slots, m2: Slots)
    requires forall i :: 0 <= i < |ids| && ids[i].val.Some? ==> SenderOf(m1, ids[i].val.value) == SenderOf(m2, ids[i].val.value)
    ensures AddCount(ids, conns, m1) == AddCount(ids, conns, m2)
    decreases |ids|
  {
    if ids != [] {
      forall i | 0 <= i < |ids[1..]| && ids[1..][i].val.Some?
        ensures SenderOf(m1, ids[1..][i].val.value) == SenderOf(m2, ids[1..][i].val.value)
      {
        assert ids[1..][i] == ids[i + 1];
      }
      AddCountFrame(ids[1..], conns, m1, m2);
    }
  }

  /**
   * When `peers_con_ids` is well keyed, `_addUpdateSenders` makes exactly one
   * call per live connection, and exactly as many of them are addTrack calls
   * as there were live connections without a sender.
   */
  lemma {:induction false} AddUpdateAllCounts(ids: seq<Entry>, conns: Conns, track: Track, f: Fanout)
    requires WellKeyed(ids)
    ensures var r := AddUpdateAll(ids, conns, track, f);
      && |r.calls| == |f.calls| + LiveCount(ids, conns)
      && AddTracks(r.calls) == AddTracks(f.calls) + AddCount(ids, conns, f.slots)
    decreases |ids|
  {
    if ids != [] {
      var g := AddUpdateOne(ids[0].val, conns, track, f);
      var rest := ids[1..];
      assert WellKeyed(rest) by {
        forall i | 0 <= i < |rest| ensures rest[i].val == None || rest[i].val == Some(rest[i].key) {
          assert rest[i] == ids[i + 1];
        }
      }
      AddUpdateAllCounts(rest, conns, track, g);
      if ids[0].val.Some? && ConnOf(conns, ids[0].val.value).Some? {
        var c := ids[0].val.value;
        assert g.calls[..|g.calls| - 1] == f.calls;
        forall i | 0 <= i < |rest| && rest[i].val.Some?
          ensures SenderOf(g.slots, rest[i].val.value) == SenderOf(f.slots, rest[i].val.value)
        {
          assert rest[i] == ids[i + 1];
          assert ids[i + 1].key != ids[0].key;
        }
        AddCountFrame(rest, conns, g.slots, f.slots);
      }
    }
  }

  /** RemoveOne touches only the slot of the id it visits, and only appends. */
  lemma RemoveOneFacts(id: Option<ConnId>, conns: Conns, f: Fanout)
    ensures var g := RemoveOne(id, conns, f);
      && f.calls <= g.calls && g.next == f.next
      && (forall d :: Some(d) != id ==> SenderOf(g.slots, d) == SenderOf(f.slots, d))
      && (id.Some? ==> SenderOf(g.slots, id.value).None?)
  {
  }

  /** A removeTrack call for a connection and sender that some visited id held together. */
  ghost predicate Justified(call: Call, ids: seq<Entry>, conns: Conns, slots: Slots)
  {
    && call.RemoveTrack?
    && exists c :: Visited(ids, c) && ConnOf(conns, c) == Some(call.conn) && SenderOf(slots, c) == Some(call.sender)
  }

  /** `_removeSenders` only appends to the log and allocates nothing. */
  lemma {:induction false} RemoveAllGrows(ids: seq<Entry>, conns: Conns, f: Fanout)
    ensures var r := RemoveAll(ids, conns, f);
      f.calls <= r.calls && r.next == f.next
    decreases |ids|
  {
    if ids != [] {
      var g := RemoveOne(ids[0].val, conns, f);
      RemoveOneFacts(ids[0].val, conns, f);
      RemoveAllGrows(ids[1..], conns, g);
    }
  }

  /** Every call `_removeSenders` makes is a removeTrack of a visited id's sender on its connection. */
  lemma {:induction false} RemoveAllJustified(ids: seq<Entry>, conns: Conns, f: Fanout)
    ensures var r := RemoveAll(ids, conns, f);
      forall k :: |f.calls| <= k < |r.calls| ==> Justified(r.calls[k], ids, conns, f.slots)
    decreases |ids|
  {
    var r := RemoveAll(ids, conns, f);
    if ids != [] {
      var g := RemoveOne(ids[0].val, conns, f);
      RemoveOneFacts(ids[0].val, conns, f);
      RemoveAllGrows(ids[1..], conns, g);
      RemoveAllJustified(ids[1..], conns, g);
      forall k | |f.calls| <= k < |r.calls| ensures Justified(r.calls[k], ids, conns, f.slots) {
        if k < |g.calls| {
          assert r.calls[k] == g.calls[k];
          var c := ids[0].val.value;
          assert ids[0].val == Some(c);
          assert Visited(ids, c);
        } else {
          assert Justified(r.calls[k], ids[1..], conns, g.slots);
          var c :| Visited(ids[1..], c) && ConnOf(conns, c) == Some(r.calls[k].conn) && SenderOf(g.slots, c) == Some(r.calls[k].sender);
          var i :| 0 <= i < |ids[1..]| && ids[1..][i].val == Some(c);
          assert ids[i + 1] == ids[1..][i];
          assert Visited(ids, c);
        }
      }
    }
  }

  /**
   * `_removeSenders` (public/app.js:164-169): afterwards every visited slot
   * is null and every other slot is as it was; removeTrack was called for
   * every visited id that had both a sender and a connection, and every call
   * made is such a removeTrack.
   */
  lemma {:induction false} RemoveAllSlots(ids: seq<Entry>, conns: Conns, f: Fanout)
    ensures var r := RemoveAll(ids, conns, f);
      && f.calls <= r.calls && r.next == f.next
      && (forall c :: Visited(ids, c) ==> SenderOf(r.slots, c).None?)
      && (forall c :: !Visited(ids, c) ==> SenderOf(r.slots, c) == SenderOf(f.slots, c))
      && (forall c :: Visited(ids, c) && SenderOf(f.slots, c).Some? && ConnOf(conns, c).Some? ==>
            RemoveTrack(ConnOf(conns, c).value, SenderOf(f.slots, c).value) in r.calls[|f.calls|..])
      && (forall k :: |f.calls| <= k < |r.calls| ==> Justified(r.calls[k], ids, conns, f.slots))
    decreases |ids|
  {
    RemoveAllJustified(ids, conns, f);
    var r := RemoveAll(ids, conns, f);
    if ids != [] {
      var g := RemoveOne(ids[0].val, conns, f);
      RemoveOneFacts(ids[0].val, conns, f);
      RemoveAllSlots(ids[1..], conns, g);
      forall c | Visited(ids, c) && !Visited(ids[1..], c) ensures ids[0].val == Some(c) {
        var i :| 0 <= i < |ids| && ids[i].val == Some(c);
      }
      forall c | Visited(ids[1..], c) ensures Visited(ids, c) {
        var i :| 0 <= i < |ids[1..]| && ids[1..][i].val == Some(c);
        assert ids[i + 1] == ids[1..][i];
      }
      assert ids[0].val.Some? ==> Visited(ids, ids[0].val.value) by {
        if ids[0].val.Some? { assert ids[0].val == Some(ids[0].val.value); }
      }
      assert |f.calls| <= |g.calls| <= |r.calls|;
      forall x | x in g.calls[|f.calls|..] ensures x in r.calls[|f.calls|..] {
        var k :| |f.calls| <= k < |g.calls| && g.calls[k] == x;
        assert r.calls[k] == g.calls[k];
      }
      forall x | x in r.calls[|g.calls|..] ensures x in r.calls[|f.calls|..] {
        var k :| |g.calls| <= k < |r.calls| && r.calls[k] == x;
      }
    }
  }
}
