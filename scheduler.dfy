/**
 * The swap and wait scheduling of src/uxa/intel_dri.c over the screen state
 * of FrameEvents: exchanging a drawable's front and back buffers, queuing
 * a page flip or a one-frame vblank wait for a pending swap, the two
 * completion handlers, and I830DRI2ScheduleSwap and I830DRI2ScheduleWaitMSC.
 *
 * Every reply of the kernel (a frame-counter reading, a queued request
 * accepted or refused, the sequence a request was queued for, a spare
 * scan-out allocation) is an argument. "Armed" records are the ones a
 * kernel request (vblank or page flip) will hand back to a handler.
 */
module Scheduler {
  import opened Common
  import opened Msc
  import opened Dri2Geometry
  import opened Registry
  import opened FrameEvents

  // ---------------------------------------------------------------------
  // Records whose buffers can be exchanged
  // ---------------------------------------------------------------------

  /** A swap or flip record: alive, naming a front and a back buffer that are alive over pixmaps that are present. */
  predicate Ready(s: Screen, id: nat)
  {
    id in s.events && s.events[id].front.Some? && s.events[id].back.Some? &&
    s.events[id].front.value in s.buffers && s.events[id].back.value in s.buffers &&
    s.buffers[s.events[id].front.value].pixmap in s.pixmaps && s.buffers[s.events[id].back.value].pixmap in s.pixmaps
  }

  /** Under the bookkeeping, every live swap or flip record is ready. */
  lemma GoodSwapRecordIsReady(s: Screen, id: nat)
    requires Good(s) && id in s.events && s.events[id].kind != Dri2WaitMsc
    ensures Ready(s, id)
  {
    assert s.events[id].front.Some? && s.events[id].back.Some?;
    assert s.events[id].front.value in s.buffers && s.events[id].back.value in s.buffers;
  }

  /** Buffers `f` and `b` are alive over pixmaps that are present. */
  predicate Pair(s: Screen, f: nat, b: nat)
  {
    f in s.buffers && b in s.buffers && s.buffers[f].pixmap in s.pixmaps && s.buffers[b].pixmap in s.pixmaps
  }

  // ---------------------------------------------------------------------
  // I830DRI2ExchangeBuffers
  // ---------------------------------------------------------------------

  /**
   * I830DRI2ExchangeBuffers on front buffer `f` and back buffer `b`: the
   * front takes the back's name, the back is named after the front
   * pixmap's buffer object by pixmap_flink, which pins it for DRI2 when
   * the kernel grants the name (`flinkOk`) and gives name 0 and pins
   * nothing when it does not; the two
   * pixmaps swap their private parts (the new front marked busy 1, the new
   * back -1), and intel->front_buffer moves to the new front's buffer
   * object, dropping the reference on the old one and taking one on the new.
   */
  function ExchangeBuffers(s: Screen, f: nat, b: nat, flinkOk: bool): (r: Screen)
    requires Pair(s, f, b)
    ensures r.buffers.Keys == s.buffers.Keys && r.pixmaps.Keys == s.pixmaps.Keys
    ensures forall x | x in s.buffers :: r.buffers[x] == s.buffers[x].(name := r.buffers[x].name)
    ensures forall p | p in s.pixmaps :: r.pixmaps[p] == s.pixmaps[p].(priv := r.pixmaps[p].priv)
    ensures r == s.(buffers := r.buffers, pixmaps := r.pixmaps, frontBo := r.frontBo, boCalls := r.boCalls)
  {
    var fp, bp := s.buffers[f].pixmap, s.buffers[b].pixmap;
    var backName := if flinkOk then s.pixmaps[fp].priv.bo else 0;
    var pixmaps := ExchangePrivs(s.pixmaps, fp, bp, flinkOk);
    s.(buffers := ExchangeNames(s.buffers, f, b, backName), pixmaps := pixmaps, frontBo := pixmaps[fp].priv.bo,
       boCalls := s.boCalls + [BoUnref(s.frontBo), BoRef(pixmaps[fp].priv.bo)])
  }

  /** The names of an exchange: the front takes the back's name and the back takes `backName`. */
  function ExchangeNames(buffers: map<nat, Dri2Buffer>, f: nat, b: nat, backName: nat): (r: map<nat, Dri2Buffer>)
    requires f in buffers && b in buffers
    ensures r.Keys == buffers.Keys
    ensures forall x | x in buffers :: r[x] == buffers[x].(name := r[x].name)
  {
    var buffers1 := buffers[f := buffers[f].(name := buffers[b].name)];
    buffers1[b := buffers1[b].(name := backName)]
  }

  /**
   * The pixmaps of an exchange: the front pixmap is pinned for DRI2 when
   * its flink succeeds, then the two pixmaps trade private parts, the new
   * front marked busy 1 and the new back -1.
   */
  function ExchangePrivs(pixmaps: map<nat, Pixmap>, fp: nat, bp: nat, flinkOk: bool): (r: map<nat, Pixmap>)
    requires fp in pixmaps && bp in pixmaps
    ensures r.Keys == pixmaps.Keys
    ensures forall p | p in pixmaps :: r[p] == pixmaps[p].(priv := r[p].priv)
  {
    var flinked := if flinkOk then PinForDri2(pixmaps[fp]) else pixmaps[fp];
    var pixmaps1 := pixmaps[fp := flinked];
    var newFront := pixmaps1[bp].priv.(busy := 1);
    var newBack := pixmaps1[fp].priv.(busy := -1);
    var pixmaps2 := pixmaps1[fp := pixmaps1[fp].(priv := newFront)];
    pixmaps2[bp := pixmaps2[bp].(priv := newBack)]
  }

  /** A buffer whose name is the buffer object of the pixmap behind it. */
  predicate Named(s: Screen, x: nat)
    requires x in s.buffers && s.buffers[x].pixmap in s.pixmaps
  {
    s.buffers[x].name == s.pixmaps[s.buffers[x].pixmap].priv.bo
  }

  /**
   * For two buffers over two different pixmaps: the pixmaps trade buffer
   * objects and tiling, the new front is busy and the new back idle, the
   * front buffer takes the back's name and the back the front's old buffer
   * object (0 when the flink fails), the new back pixmap is pinned for
   * DRI2 exactly when the flink succeeds, the screen's front buffer object
   * becomes the old back's, and when the flink succeeds and the back
   * buffer's name followed its pixmap, both names follow their pixmaps
   * afterwards.
   */
  lemma ExchangeSwapsPixmaps(s: Screen, f: nat, b: nat, flinkOk: bool)
    requires Pair(s, f, b) && s.buffers[f].pixmap != s.buffers[b].pixmap
    ensures var r := ExchangeBuffers(s, f, b, flinkOk);
      var fp, bp := s.buffers[f].pixmap, s.buffers[b].pixmap;
      r.pixmaps[fp].priv.bo == s.pixmaps[bp].priv.bo && r.pixmaps[bp].priv.bo == s.pixmaps[fp].priv.bo &&
      r.pixmaps[fp].priv.tiling == s.pixmaps[bp].priv.tiling && r.pixmaps[bp].priv.tiling == s.pixmaps[fp].priv.tiling &&
      r.pixmaps[fp].priv.busy == 1 && r.pixmaps[bp].priv.busy == -1 &&
      r.buffers[f].name == s.buffers[b].name && r.buffers[b].name == (if flinkOk then s.pixmaps[fp].priv.bo else 0) &&
      r.pixmaps[bp].priv.pinned == (if flinkOk then s.pixmaps[fp].priv.pinned | PinDri2 else s.pixmaps[fp].priv.pinned) &&
      r.frontBo == s.pixmaps[bp].priv.bo &&
      r.boCalls == s.boCalls + [BoUnref(s.frontBo), BoRef(s.pixmaps[bp].priv.bo)] &&
      (forall p | p in s.pixmaps && p != fp && p != bp :: r.pixmaps[p] == s.pixmaps[p]) &&
      (forall x | x in s.buffers && x != f && x != b :: r.buffers[x] == s.buffers[x])
    ensures flinkOk && f != b && Named(s, b) ==>
      Named(ExchangeBuffers(s, f, b, flinkOk), f) && Named(ExchangeBuffers(s, f, b, flinkOk), b)
  {
  }

  /**
   * Exchanging twice gives every pixmap its buffer object back and hands
   * the scan-out back to the front pixmap's buffer object, whether or not
   * the flinks succeed; when both flinks succeed and both names followed
   * their pixmaps, both names are restored too.
   */
  lemma ExchangeTwiceRestores(s: Screen, f: nat, b: nat, flink1: bool, flink2: bool)
    requires Pair(s, f, b) && f != b && s.buffers[f].pixmap != s.buffers[b].pixmap
    ensures Pair(ExchangeBuffers(s, f, b, flink1), f, b)
    ensures var r := ExchangeBuffers(ExchangeBuffers(s, f, b, flink1), f, b, flink2);
      (forall p | p in s.pixmaps :: r.pixmaps[p].priv.bo == s.pixmaps[p].priv.bo) &&
      r.frontBo == s.pixmaps[s.buffers[f].pixmap].priv.bo &&
      (flink1 && flink2 && Named(s, f) && Named(s, b) ==> r.buffers == s.buffers)
  {
    var s1 := ExchangeBuffers(s, f, b, flink1);
    ExchangeSwapsPixmaps(s, f, b, flink1);
    assert Pair(s1, f, b);
    ExchangeSwapsPixmaps(s1, f, b, flink2);
    var r := ExchangeBuffers(s1, f, b, flink2);
    if flink1 && flink2 && Named(s, f) && Named(s, b) {
      assert r.buffers[f] == s.buffers[f] && r.buffers[b] == s.buffers[b];
    }
  }

  /** Exchanging keeps the bookkeeping: no count, record or request changes. */
  lemma ExchangeKeepsGood(s: Screen, f: nat, b: nat, flinkOk: bool)
    requires Good(s) && Pair(s, f, b)
    ensures Good(ExchangeBuffers(s, f, b, flinkOk)) && (NoLeak(s) ==> NoLeak(ExchangeBuffers(s, f, b, flinkOk)))
  {
    var r := ExchangeBuffers(s, f, b, flinkOk);
    assert Counted(r.buffers, r.events) by {
      forall x | x in r.buffers
        ensures r.buffers[x].refcnt >= RecordRefs(r.events, x) && r.buffers[x].refcnt > 0
      {
        assert r.buffers[x].refcnt == s.buffers[x].refcnt;
      }
    }
    assert PixmapsLive(r.buffers, r.pixmaps) by {
      forall x | x in r.buffers
        ensures r.buffers[x].pixmap in r.pixmaps
      {
        assert r.buffers[x].pixmap == s.buffers[x].pixmap;
      }
    }
  }

  // ---------------------------------------------------------------------
  // allocate_back_buffer
  // ---------------------------------------------------------------------

  /**
   * allocate_back_buffer: nothing to do when a spare back buffer exists;
   * otherwise a framebuffer of the screen's size is allocated (`reply`,
   * None when allocation fails) and kept only if its pitch and tiling are
   * the front buffer's; a mismatching one is unreferenced again.
   */
  function AllocateBackBuffer(s: Screen, reply: Option<Framebuffer>): (res: (bool, Screen))
    ensures res.0 <==> res.1.backBo.Some?
    ensures res.0 && s.backBo.None? ==>
      reply.Some? && res.1.backBo == Some(reply.value.bo) &&
      reply.value.pitch == s.mode.frontPitch && reply.value.tiling == s.mode.frontTiling
    ensures s.backBo.Some? ==> res == (true, s)
    ensures s.backBo.None? && reply.Some? && !res.0 ==> res.1 == s.(boCalls := s.boCalls + [BoUnref(reply.value.bo)])
    ensures res.1 == s.(backBo := res.1.backBo, boCalls := res.1.boCalls)
  {
    if s.backBo.Some? then (true, s)
    else if reply.None? then (false, s)
    else if reply.value.pitch != s.mode.frontPitch || reply.value.tiling != s.mode.frontTiling then
      (false, s.(boCalls := s.boCalls + [BoUnref(reply.value.bo)]))
    else (true, s.(backBo := Some(reply.value.bo)))
  }

  // ---------------------------------------------------------------------
  // queue_flip and queue_swap
  // ---------------------------------------------------------------------

  /** A record updated in one field. */
  function SetRecord(s: Screen, id: nat, e: FrameEvent): Screen
  {
    s.(events := s.events[id := e])
  }

  /** A record changed in fields no invariant reads, or from flip to swap, keeps the bookkeeping. */
  lemma RecordKeepsGood(s: Screen, id: nat, e: FrameEvent)
    requires Good(s) && id in s.events
    requires e.front == s.events[id].front && e.back == s.events[id].back
    requires e.client == s.events[id].client && e.drawable == s.events[id].drawable
    requires e.kind == Dri2WaitMsc <==> s.events[id].kind == Dri2WaitMsc
    ensures Good(SetRecord(s, id, e))
  {
    SameBuffersKeepsBuffers(s.events, s.buffers, s.armed, s.pixmaps, id, e);
    OwnerKept(s.clientLists, s.events, ClientSide, id, e);
    OwnerKept(s.drawableLists, s.events, DrawableSide, id, e);
  }

  /** Arming a live record keeps the bookkeeping, provided only swap and flip records wait on a page flip. */
  lemma ArmKeepsGood(s: Screen, id: nat, a: Armed)
    requires Good(s) && id in s.events && (a == OnFlip ==> s.events[id].kind != Dri2WaitMsc)
    ensures Good(s.(armed := s.armed[id := a]))
  {
  }

  /** Changing what a present pixmap holds keeps the bookkeeping. */
  lemma PixmapKeepsGood(s: Screen, p: nat, pm: Pixmap)
    requires Good(s) && p in s.pixmaps
    ensures Good(s.(pixmaps := s.pixmaps[p := pm]))
  {
    assert PixmapsLive(s.buffers, s.pixmaps[p := pm]) by {
      forall x | x in s.buffers
        ensures s.buffers[x].pixmap in s.pixmaps[p := pm]
      {
      }
    }
  }

  /**
   * The triple-buffering part of queue_flip once the spare back buffer is
   * there: the record keeps the current scan-out buffer (with a reference)
   * and the geometry it was made for, the front pixmap is given the spare
   * buffer, whose reference is dropped, and the spare slot is emptied; the
   * client may queue two swaps.
   */
  function TripleBuffer(s: Screen, id: nat, drawable: nat): (r: Screen)
    requires Ready(s, id) && s.backBo.Some?
    ensures Ready(r, id) && r.events.Keys == s.events.Keys && r.buffers == s.buffers && r.armed == s.armed
  {
    var e := s.events[id];
    var fp := s.buffers[e.front.value].pixmap;
    var kept := OldBuffer(s.frontBo, s.mode.virtualX, s.mode.virtualY, s.mode.frontPitch, s.mode.frontTiling);
    var spare := s.backBo.value;
    var s1 := SetRecord(s, id, e.(oldBuffer := Some(kept)));
    s1.(pixmaps := s1.pixmaps[fp := s1.pixmaps[fp].(priv := s1.pixmaps[fp].priv.(bo := spare))],
        boCalls := s.boCalls + [BoRef(s.frontBo), BoUnref(spare)],
        backBo := None,
        trace := s.trace + [SwapLimit(drawable, 2)])
  }

  /** Triple buffering keeps the bookkeeping. */
  lemma TripleBufferKeepsGood(s: Screen, id: nat, drawable: nat)
    requires Good(s) && Ready(s, id) && s.backBo.Some?
    ensures Good(TripleBuffer(s, id, drawable))
  {
    var e := s.events[id];
    var fp := s.buffers[e.front.value].pixmap;
    var kept := OldBuffer(s.frontBo, s.mode.virtualX, s.mode.virtualY, s.mode.frontPitch, s.mode.frontTiling);
    var s1 := SetRecord(s, id, e.(oldBuffer := Some(kept)));
    RecordKeepsGood(s, id, e.(oldBuffer := Some(kept)));
    PixmapKeepsGood(s1, fp, s1.pixmaps[fp].(priv := s1.pixmaps[fp].priv.(bo := s.backBo.value)));
  }

  /** The three conditions under which queue_flip goes ahead: a pipe, can_exchange, and the kernel taking the flip. */
  predicate FlipAccepted(s: Screen, id: nat, drawable: Drawable, pageflipOk: bool)
    requires Ready(s, id)
  {
    var e := s.events[id];
    drawable.crtc.Some? && pageflipOk &&
    CanExchange(s.flags, drawable, s.pixmaps[s.buffers[e.front.value].pixmap], s.pixmaps[s.buffers[e.back.value].pixmap])
  }

  /** What queue_flip does once the flip is queued: arm the record, triple buffer if it can, set the swap limit, exchange. */
  function FlipQueued(s: Screen, id: nat, drawable: nat, spare: Option<Framebuffer>, flinkOk: bool): Screen
    requires Ready(s, id)
  {
    var e := s.events[id];
    var s1 := s.(armed := s.armed[id := OnFlip]);
    var (spareOk, s2) := if s.flags.useTripleBuffer then AllocateBackBuffer(s1, spare) else (false, s1);
    var s3 := if spareOk then TripleBuffer(s2, id, drawable) else s2.(trace := s2.trace + [SwapLimit(drawable, 1)]);
    ExchangeBuffers(s3, e.front.value, e.back.value, flinkOk)
  }

  /**
   * queue_flip for record `id` on `drawable`: refused unless the drawable
   * is on a pipe, can_exchange holds for the record's buffers and the
   * kernel accepts the flip (`pageflipOk`). Once the flip is queued, with
   * triple buffering and a spare back buffer (allocated from `spare` if
   * needed) the old scan-out buffer is kept in the record and the swap
   * limit is 2, otherwise it is 1; then the buffers are exchanged.
   */
  function QueueFlip(s: Screen, id: nat, drawable: Drawable, pageflipOk: bool, spare: Option<Framebuffer>, flinkOk: bool): (res: (bool, Screen))
    requires Ready(s, id)
  {
    if FlipAccepted(s, id, drawable, pageflipOk) then (true, FlipQueued(s, id, drawable.id, spare, flinkOk)) else (false, s)
  }

  /**
   * A queued flip arms the record on the flip and keeps the records; the
   * swap limit becomes 2 exactly when triple buffering got a spare back
   * buffer, which then leaves the spare slot empty and the old scan-out
   * buffer in the record, and 1 otherwise.
   */
  lemma FlipQueuedSpec(s: Screen, id: nat, drawable: nat, spare: Option<Framebuffer>, flinkOk: bool)
    requires Ready(s, id)
    ensures var r := FlipQueued(s, id, drawable, spare, flinkOk);
      var tripled := s.flags.useTripleBuffer && AllocateBackBuffer(s, spare).0;
      r.armed == s.armed[id := OnFlip] && r.events.Keys == s.events.Keys &&
      (tripled ==> r.trace == s.trace + [SwapLimit(drawable, 2)] && r.backBo.None? && r.events[id].oldBuffer.Some?) &&
      (!tripled ==> r.trace == s.trace + [SwapLimit(drawable, 1)] && r.events == s.events)
  {
    var e := s.events[id];
    var s1 := s.(armed := s.armed[id := OnFlip]);
    var (spareOk, s2) := if s.flags.useTripleBuffer then AllocateBackBuffer(s1, spare) else (false, s1);
    assert spareOk == (s.flags.useTripleBuffer && AllocateBackBuffer(s, spare).0);
    assert s2 == s1.(backBo := s2.backBo, boCalls := s2.boCalls);
    var s3 := if spareOk then TripleBuffer(s2, id, drawable) else s2.(trace := s2.trace + [SwapLimit(drawable, 1)]);
    assert s3.armed == s1.armed && s3.events.Keys == s.events.Keys;
    assert FlipQueued(s, id, drawable, spare, flinkOk) == ExchangeBuffers(s3, e.front.value, e.back.value, flinkOk);
  }

  /** A queued flip keeps the bookkeeping. */
  lemma FlipQueuedKeepsGood(s: Screen, id: nat, drawable: nat, spare: Option<Framebuffer>, flinkOk: bool)
    requires Good(s) && Ready(s, id)
    ensures Good(FlipQueued(s, id, drawable, spare, flinkOk))
  {
    var e := s.events[id];
    var s1 := s.(armed := s.armed[id := OnFlip]);
    ArmKeepsGood(s, id, OnFlip);
    var (spareOk, s2) := if s.flags.useTripleBuffer then AllocateBackBuffer(s1, spare) else (false, s1);
    assert Good(s2);
    var s3 := if spareOk then TripleBuffer(s2, id, drawable) else s2.(trace := s2.trace + [SwapLimit(drawable, 1)]);
    if spareOk {
      TripleBufferKeepsGood(s2, id, drawable);
    }
    ExchangeKeepsGood(s3, e.front.value, e.back.value, flinkOk);
  }

  /**
   * queue_flip queues a flip exactly when the drawable is on a pipe,
   * can_exchange holds and the kernel accepts it, and then keeps the
   * bookkeeping; otherwise it changes nothing.
   */
  lemma QueueFlipSpec(s: Screen, id: nat, drawable: Drawable, pageflipOk: bool, spare: Option<Framebuffer>, flinkOk: bool)
    requires Good(s) && Ready(s, id)
    ensures var (ok, r) := QueueFlip(s, id, drawable, pageflipOk, spare, flinkOk);
      var e := s.events[id];
      (ok <==> drawable.crtc.Some? && pageflipOk &&
               CanExchange(s.flags, drawable, s.pixmaps[s.buffers[e.front.value].pixmap], s.pixmaps[s.buffers[e.back.value].pixmap])) &&
      (!ok ==> r == s) &&
      (ok ==> Good(r) && r == FlipQueued(s, id, drawable.id, spare, flinkOk))
  {
    if FlipAccepted(s, id, drawable, pageflipOk) {
      FlipQueuedKeepsGood(s, id, drawable.id, spare, flinkOk);
    }
  }

  /**
   * queue_swap for record `id` on `drawable`: refused when the drawable is
   * on no pipe or no queue entry can be had (`seqAllocated`); otherwise the
   * record becomes a plain swap, and a vblank for the next frame is asked
   * for. When the kernel refuses it (`vblankOk` false), the request is
   * dropped and the record, not armed, is left to the caller, which
   * deletes it; see QueueSwapAsWritten for the code as written.
   */
  function QueueSwap(s: Screen, id: nat, drawable: Drawable, seqAllocated: bool, vblankOk: bool): (res: (bool, Screen))
    requires id in s.events
  {
    if drawable.crtc.None? || !seqAllocated then (false, s)
    else
      var s1 := SetRecord(s, id, s.events[id].(kind := Dri2Swap));
      if !vblankOk then (false, s1)
      else (true, s1.(armed := s1.armed[id := NextFrame]))
  }

  /**
   * A queued swap arms the record for the next frame as a plain swap; a
   * refused one leaves the record alive, ready and unarmed.
   */
  lemma QueueSwapSpec(s: Screen, id: nat, drawable: Drawable, seqAllocated: bool, vblankOk: bool)
    requires Ready(s, id)
    ensures var (ok, r) := QueueSwap(s, id, drawable, seqAllocated, vblankOk);
      r.events.Keys == s.events.Keys && Ready(r, id) &&
      (ok <==> drawable.crtc.Some? && seqAllocated && vblankOk) &&
      (ok ==> r.armed == s.armed[id := NextFrame] && r.events[id].kind == Dri2Swap) &&
      (!ok ==> r.armed == s.armed)
  {
  }

  /** queue_swap keeps the bookkeeping, accepted or refused. */
  lemma QueueSwapKeepsGood(s: Screen, id: nat, drawable: Drawable, seqAllocated: bool, vblankOk: bool)
    requires Good(s) && id in s.events && s.events[id].kind != Dri2WaitMsc
    ensures Good(QueueSwap(s, id, drawable, seqAllocated, vblankOk).1)
  {
    if drawable.crtc.Some? && seqAllocated {
      var e := s.events[id].(kind := Dri2Swap);
      RecordKeepsGood(s, id, e);
      if vblankOk {
        ArmKeepsGood(SetRecord(s, id, e), id, NextFrame);
      }
    }
  }

  // ---------------------------------------------------------------------
  // The completion handlers
  // ---------------------------------------------------------------------

  /** Completing a swap by copying: blit back to front, tell the client, then delete the record. */
  function BlitAndComplete(s: Screen, id: nat, drawable: nat, stamp: Stamp): (r: Screen)
    requires Ready(s, id)
  {
    var e := s.events[id];
    var complete := SwapComplete(e.client, drawable, stamp, BlitComplete, if e.client.Some? then Some(e.callback) else None);
    DelFrameEvent(s.(trace := s.trace + [Blit(drawable, e.front.value, e.back.value), complete]), id)
  }

  /** What the rest of the system answers a re-armed flip record: the flip, spare-buffer and flink replies, then the vblank replies. */
  datatype Rearm = Rearm(pageflipOk: bool, spare: Option<Framebuffer>, flinkOk: bool, seqAllocated: bool, vblankOk: bool)

  /**
   * I830DRI2FrameEventHandler for record `id`, no longer armed, with the
   * reported frame and time, and `drawable` the result of looking up the
   * record's drawable (None when it is gone). A record without a drawable
   * is deleted silently. A flip record is flipped now if it still can be,
   * else re-armed for the next frame, else completed by a blit; a swap
   * record is completed by a blit; a wait record wakes its client, if the
   * client is still there. A record not re-armed is deleted.
   */
  function FrameEventHandler(s: Screen, id: nat, stamp: Stamp, drawable: Option<Drawable>, rearm: Rearm): Screen
    requires id in s.events && (s.events[id].kind != Dri2WaitMsc ==> Ready(s, id))
    requires drawable.Some? ==> drawable.value.id == s.events[id].drawable
  {
    var e := s.events[id];
    if e.drawable == NoDrawable || drawable.None? then DelFrameEvent(s, id)
    else match e.kind
      case Dri2Flip => FlipRecordDue(s, id, drawable.value, stamp, rearm)
      case Dri2Swap => BlitAndComplete(s, id, e.drawable, stamp)
      case Dri2WaitMsc =>
        var s1 := if e.client.Some? then s.(trace := s.trace + [WaitComplete(e.client.value, e.drawable, stamp)]) else s;
        DelFrameEvent(s1, id)
  }

  /** The flip branch of I830DRI2FrameEventHandler: flip now, else re-arm as a swap, else blit. */
  function FlipRecordDue(s: Screen, id: nat, drawable: Drawable, stamp: Stamp, rearm: Rearm): Screen
    requires Ready(s, id) && drawable.id == s.events[id].drawable
  {
    var (flipped, s1) := QueueFlip(s, id, drawable, rearm.pageflipOk, rearm.spare, rearm.flinkOk);
    if flipped then s1
    else
      var (swapped, s2) := QueueSwap(s, id, drawable, rearm.seqAllocated, rearm.vblankOk);
      if swapped then s2 else BlitAndComplete(s2, id, drawable.id, stamp)
  }

  /**
   * The frame handler handles the record exactly once: afterwards it is
   * either deleted or armed again, never both and never neither, so no
   * record is leaked; it is armed again only as a flip record whose
   * drawable still exists. No other record or request changes.
   */
  lemma FrameEventHandlerSpec(s: Screen, id: nat, stamp: Stamp, drawable: Option<Drawable>, rearm: Rearm)
    requires id in s.events && id !in s.armed && (s.events[id].kind != Dri2WaitMsc ==> Ready(s, id))
    requires drawable.Some? ==> drawable.value.id == s.events[id].drawable
    ensures var r := FrameEventHandler(s, id, stamp, drawable, rearm);
      (id in r.events <==> id in r.armed) &&
      (id in r.armed ==> s.events[id].kind == Dri2Flip && drawable.Some? && s.events[id].drawable != NoDrawable) &&
      r.armed - {id} == s.armed && r.events.Keys - {id} == s.events.Keys - {id} &&
      (s.events.Keys - {id} <= s.armed.Keys ==> NoLeak(r))
  {
    var e := s.events[id];
    if e.drawable != NoDrawable && drawable.Some? && e.kind == Dri2Flip {
      var (flipped, s1) := QueueFlip(s, id, drawable.value, rearm.pageflipOk, rearm.spare, rearm.flinkOk);
      if flipped {
        FlipQueuedSpec(s, id, drawable.value.id, rearm.spare, rearm.flinkOk);
      } else {
        QueueSwapSpec(s, id, drawable.value, rearm.seqAllocated, rearm.vblankOk);
      }
    }
  }

  /** The frame handler keeps the bookkeeping. */
  lemma FrameEventHandlerKeepsGood(s: Screen, id: nat, stamp: Stamp, drawable: Option<Drawable>, rearm: Rearm)
    requires Good(s) && id in s.events && id !in s.armed
    requires drawable.Some? ==> drawable.value.id == s.events[id].drawable
    ensures s.events[id].kind != Dri2WaitMsc ==> Ready(s, id)
    ensures Good(FrameEventHandler(s, id, stamp, drawable, rearm))
  {
    var e := s.events[id];
    if e.kind != Dri2WaitMsc {
      GoodSwapRecordIsReady(s, id);
    }
    if e.drawable == NoDrawable || drawable.None? {
      DelFrameEventKeepsGood(s, id);
    } else if e.kind == Dri2Flip {
      FlipRecordDueKeepsGood(s, id, drawable.value, stamp, rearm);
    } else if e.kind == Dri2Swap {
      BlitAndCompleteKeepsGood(s, id, e.drawable, stamp);
    } else {
      var s1 := if e.client.Some? then s.(trace := s.trace + [WaitComplete(e.client.value, e.drawable, stamp)]) else s;
      DelFrameEventKeepsGood(s1, id);
    }
  }

  /** The flip branch keeps the bookkeeping whichever way it goes. */
  lemma FlipRecordDueKeepsGood(s: Screen, id: nat, drawable: Drawable, stamp: Stamp, rearm: Rearm)
    requires Good(s) && Ready(s, id) && id !in s.armed && s.events[id].kind == Dri2Flip
    requires drawable.id == s.events[id].drawable
    ensures Good(FlipRecordDue(s, id, drawable, stamp, rearm))
  {
    var (flipped, s1) := QueueFlip(s, id, drawable, rearm.pageflipOk, rearm.spare, rearm.flinkOk);
    QueueFlipSpec(s, id, drawable, rearm.pageflipOk, rearm.spare, rearm.flinkOk);
    if !flipped {
      var (swapped, s2) := QueueSwap(s, id, drawable, rearm.seqAllocated, rearm.vblankOk);
      QueueSwapSpec(s, id, drawable, rearm.seqAllocated, rearm.vblankOk);
      QueueSwapKeepsGood(s, id, drawable, rearm.seqAllocated, rearm.vblankOk);
      if !swapped {
        BlitAndCompleteKeepsGood(s2, id, drawable.id, stamp);
      }
    }
  }

  /** Completing by a blit keeps the bookkeeping. */
  lemma BlitAndCompleteKeepsGood(s: Screen, id: nat, drawable: nat, stamp: Stamp)
    requires Good(s) && Ready(s, id) && id !in s.armed
    ensures Good(BlitAndComplete(s, id, drawable, stamp))
  {
    var e := s.events[id];
    var complete := SwapComplete(e.client, drawable, stamp, BlitComplete, if e.client.Some? then Some(e.callback) else None);
    DelFrameEventKeepsGood(s.(trace := s.trace + [Blit(drawable, e.front.value, e.back.value), complete]), id);
  }

  /**
   * I830DRI2FlipEventHandler for record `id`, no longer armed: when the
   * record's drawable still exists (`drawableFound`), a swap or flip record
   * reports a flip completion to its client, with the stamp replaced by
   * zeros when the reported frame is just short of the flip's target; then
   * the record is deleted.
   */
  function FlipEventHandler(s: Screen, id: nat, stamp: Stamp, drawableFound: bool): (r: Screen)
    requires id in s.events
    ensures id !in r.events && r.armed == s.armed
  {
    var e := s.events[id];
    var found := e.drawable != NoDrawable && drawableFound;
    var s1 := if found && e.kind != Dri2WaitMsc then
        s.(trace := s.trace + [SwapComplete(e.client, e.drawable, FlipCompletionStamp(stamp, e.frame), FlipComplete,
                                            if e.client.Some? then Some(e.callback) else None)])
      else s;
    DelFrameEvent(s1, id)
  }

  /**
   * The flip handler deletes the record and keeps the bookkeeping; it
   * reports a completion exactly when the drawable is still there and the
   * record is a swap or flip, and then never a frame just short of the
   * target.
   */
  lemma FlipEventHandlerSpec(s: Screen, id: nat, stamp: Stamp, drawableFound: bool)
    requires Good(s) && id in s.events && id !in s.armed
    ensures var r := FlipEventHandler(s, id, stamp, drawableFound); var e := s.events[id];
      Good(r) && (NoLeak(s.(armed := s.armed[id := OnFlip])) ==> NoLeak(r)) &&
      (e.drawable != NoDrawable && drawableFound && e.kind != Dri2WaitMsc ==>
         |r.trace| == |s.trace| + 1 && r.trace[|s.trace|].SwapComplete? && r.trace[|s.trace|].kind == FlipComplete &&
         r.trace[|s.trace|].requester == e.client && r.trace[|s.trace|].drawable == e.drawable &&
         r.trace[|s.trace|].stamp == FlipCompletionStamp(stamp, e.frame) &&
         var reported := r.trace[|s.trace|].stamp;
         reported == Stamp(0, 0, 0) || reported.frame >= e.frame || reported.frame + ImpossibleMscWindow <= e.frame) &&
      (!(e.drawable != NoDrawable && drawableFound && e.kind != Dri2WaitMsc) ==> r.trace == s.trace)
  {
    FlipEventHandlerKeepsGood(s, id, stamp, drawableFound);
    FlipEventHandlerReports(s, id, stamp, drawableFound);
  }

  /** The flip handler keeps the bookkeeping, and leaks no record when only its own was unarmed. */
  lemma FlipEventHandlerKeepsGood(s: Screen, id: nat, stamp: Stamp, drawableFound: bool)
    requires Good(s) && id in s.events && id !in s.armed
    ensures var r := FlipEventHandler(s, id, stamp, drawableFound);
      Good(r) && (NoLeak(s.(armed := s.armed[id := OnFlip])) ==> NoLeak(r))
  {
    var e := s.events[id];
    var found := e.drawable != NoDrawable && drawableFound;
    var s1 := if found && e.kind != Dri2WaitMsc then
        s.(trace := s.trace + [SwapComplete(e.client, e.drawable, FlipCompletionStamp(stamp, e.frame), FlipComplete,
                                            if e.client.Some? then Some(e.callback) else None)])
      else s;
    assert s1 == s.(trace := s1.trace);
    DelFrameEventKeepsGood(s1, id);
    assert DelFrameEvent(s1, id) == FlipEventHandler(s, id, stamp, drawableFound);
    FlipEventHandlerNoLeak(s, id, stamp, drawableFound);
  }

  /** Only the handler's own record was unarmed, and it is deleted. */
  lemma FlipEventHandlerNoLeak(s: Screen, id: nat, stamp: Stamp, drawableFound: bool)
    requires id in s.events
    ensures NoLeak(s.(armed := s.armed[id := OnFlip])) ==> NoLeak(FlipEventHandler(s, id, stamp, drawableFound))
  {
    var r := FlipEventHandler(s, id, stamp, drawableFound);
    assert r.events == s.events - {id} && r.armed == s.armed;
    if NoLeak(s.(armed := s.armed[id := OnFlip])) {
      DeletedLastUnarmed(s.events, s.armed, id, OnFlip);
    }
  }

  /** The flip handler's one completion, reported only for a swap or flip whose drawable is still there. */
  lemma FlipEventHandlerReports(s: Screen, id: nat, stamp: Stamp, drawableFound: bool)
    requires id in s.events
    ensures var r := FlipEventHandler(s, id, stamp, drawableFound); var e := s.events[id];
      (e.drawable != NoDrawable && drawableFound && e.kind != Dri2WaitMsc ==>
         |r.trace| == |s.trace| + 1 && r.trace[|s.trace|].SwapComplete? && r.trace[|s.trace|].kind == FlipComplete &&
         r.trace[|s.trace|].requester == e.client && r.trace[|s.trace|].drawable == e.drawable &&
         r.trace[|s.trace|].stamp == FlipCompletionStamp(stamp, e.frame) &&
         var reported := r.trace[|s.trace|].stamp;
         reported == Stamp(0, 0, 0) || reported.frame >= e.frame || reported.frame + ImpossibleMscWindow <= e.frame) &&
      (!(e.drawable != NoDrawable && drawableFound && e.kind != Dri2WaitMsc) ==> r.trace == s.trace)
  {
    var e := s.events[id];
    var found := e.drawable != NoDrawable && drawableFound;
    var s1 := if found && e.kind != Dri2WaitMsc then
        s.(trace := s.trace + [SwapComplete(e.client, e.drawable, FlipCompletionStamp(stamp, e.frame), FlipComplete,
                                            if e.client.Some? then Some(e.callback) else None)])
      else s;
    assert FlipEventHandler(s, id, stamp, drawableFound).trace == s1.trace;
  }

  /** The conversion of the kernel's 64-bit frame count and microseconds into the handlers' 32-bit frame, seconds and microseconds. */
  function EventStamp(msc: nat, usec: nat): (t: Stamp)
    ensures t.frame < 0x1_0000_0000 && t.usec < 1000000 && t.sec * 1000000 + t.usec == usec
  {
    Stamp(msc % 0x1_0000_0000, usec / 1000000, usec % 1000000)
  }

  /** intel_dri2_vblank_handler: the queued vblank request of record `id` fires, and the frame handler runs. */
  function VblankEvent(s: Screen, id: nat, msc: nat, usec: nat, drawable: Option<Drawable>, rearm: Rearm): Screen
    requires id in s.armed && s.armed[id] != OnFlip && id in s.events
    requires s.events[id].kind != Dri2WaitMsc ==> Ready(s, id)
    requires drawable.Some? ==> drawable.value.id == s.events[id].drawable
  {
    FrameEventHandler(s.(armed := s.armed - {id}), id, EventStamp(msc, usec), drawable, rearm)
  }

  /** I830DRI2FlipComplete: the queued flip of record `id` completes, and the flip handler runs. */
  function FlipEvent(s: Screen, id: nat, msc: nat, usec: nat, drawableFound: bool): Screen
    requires id in s.armed && s.armed[id] == OnFlip && id in s.events
  {
    FlipEventHandler(s.(armed := s.armed - {id}), id, EventStamp(msc, usec), drawableFound)
  }

  /** intel_dri2_vblank_abort and I830DRI2FlipAbort: a queued request is cancelled and its record deleted. */
  function Abort(s: Screen, id: nat): Screen
    requires id in s.armed && id in s.events
  {
    DelFrameEvent(s.(armed := s.armed - {id}), id)
  }

  /**
   * Every way a queued request ends (a vblank, a flip completion, a
   * cancellation) keeps the bookkeeping and leaks no record.
   */
  lemma DeliveryKeepsGood(s: Screen, id: nat, msc: nat, usec: nat, drawable: Option<Drawable>, rearm: Rearm)
    requires Good(s) && NoLeak(s) && id in s.armed
    requires drawable.Some? ==> drawable.value.id == s.events[id].drawable
    ensures id in s.events
    ensures s.events[id].kind != Dri2WaitMsc ==> Ready(s, id)
    ensures s.armed[id] != OnFlip ==> var r := VblankEvent(s, id, msc, usec, drawable, rearm); Good(r) && NoLeak(r)
    ensures s.armed[id] == OnFlip ==> var r := FlipEvent(s, id, msc, usec, drawable.Some?); Good(r) && NoLeak(r)
    ensures Good(Abort(s, id)) && NoLeak(Abort(s, id))
  {
    var s1 := s.(armed := s.armed - {id});
    assert Good(s1);
    if s.events[id].kind != Dri2WaitMsc {
      GoodSwapRecordIsReady(s, id);
    }
    DelFrameEventKeepsGood(s1, id);
    if s.armed[id] != OnFlip {
      FrameEventHandlerSpec(s1, id, EventStamp(msc, usec), drawable, rearm);
      FrameEventHandlerKeepsGood(s1, id, EventStamp(msc, usec), drawable, rearm);
    } else {
      FlipDeliveryKeepsGood(s, id, msc, usec, drawable.Some?);
    }
  }

  /** A flip completion keeps the bookkeeping and leaks no record, whether or not the drawable is still there. */
  lemma FlipDeliveryKeepsGood(s: Screen, id: nat, msc: nat, usec: nat, drawableFound: bool)
    requires Good(s) && NoLeak(s) && id in s.armed && s.armed[id] == OnFlip
    ensures id in s.events
    ensures Good(FlipEvent(s, id, msc, usec, drawableFound)) && NoLeak(FlipEvent(s, id, msc, usec, drawableFound))
  {
    var s1 := s.(armed := s.armed - {id});
    assert Good(s1);
    FlipEventHandlerSpec(s1, id, EventStamp(msc, usec), drawableFound);
  }
}
