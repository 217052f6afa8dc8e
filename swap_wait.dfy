/**
 * The two DRI2 entry points that queue work with the kernel:
 * I830DRI2ScheduleSwap and I830DRI2ScheduleWaitMSC. Each takes the
 * caller's target frame, divisor and remainder, and the kernel's and the
 * allocator's replies as arguments, and leaves the screen either with a
 * new record armed on a vblank or a flip, or with the request completed on
 * the spot and no record left behind.
 */
module SwapWait {
  import opened Common
  import opened Msc
  import opened Dri2Geometry
  import opened Registry
  import opened FrameEvents
  import opened Scheduler

  // ---------------------------------------------------------------------
  // I830DRI2ScheduleSwap
  // ---------------------------------------------------------------------

  /** A swap request: the client, its drawable, the two buffers, the target, divisor and remainder, and the completion callback. */
  datatype SwapCall = SwapCall(client: nat, drawable: Drawable, front: nat, back: nat,
                               target: nat, divisor: nat, remainder: nat, callback: nat)

  /**
   * What the rest of the system answers while a swap is scheduled: whether
   * the record can be allocated and its lists found or made, the frame
   * counter (None when it cannot be read), the answers queue_flip needs
   * (the page flip, a spare back buffer, and the flink of the exchange),
   * whether a queue entry can be had, and the sequence the kernel queued
   * the vblank for (None when it refuses the request).
   */
  datatype SwapReplies = SwapReplies(recordAllocated: bool, clientSlot: bool, drawableSlot: bool,
                                     counter: Option<nat>, pageflipOk: bool, spare: Option<Framebuffer>, flinkOk: bool,
                                     seqAllocated: bool, reply: Option<nat>)

  /** The record I830DRI2ScheduleSwap fills in for a swap. */
  function SwapRecord(call: SwapCall): FrameEvent
  {
    FrameEvent(Dri2Swap, Some(call.client), call.drawable.id, Some(call.front), Some(call.back), 0, call.callback, None)
  }

  /** The two server requests of the blit fallback: copy back to front, and report the swap as done at frame 0. */
  function FallbackActions(call: SwapCall): seq<Action>
  {
    [Blit(call.drawable.id, call.front, call.back),
     SwapComplete(Some(call.client), call.drawable.id, Stamp(0, 0, 0), BlitComplete, Some(call.callback))]
  }

  /** blit_fallback: copy, report the swap, and delete the record `rec` if one is still held. */
  function SwapFallback(s: Screen, call: SwapCall, rec: Option<nat>): (r: Screen)
    requires rec.Some? ==> rec.value in s.events
    ensures r.trace == s.trace + FallbackActions(call) && r.armed == s.armed
    ensures r.events == if rec.Some? then s.events - {rec.value} else s.events
  {
    var s1 := s.(trace := s.trace + FallbackActions(call));
    if rec.Some? then DelFrameEvent(s1, rec.value) else s1
  }

  /** Whether the drawable's two buffers can be exchanged; the swap is then done by a flip. */
  predicate Flippable(s: Screen, call: SwapCall)
    requires Pair(s, call.front, call.back)
  {
    CanExchange(s.flags, call.drawable, s.pixmaps[s.buffers[call.front].pixmap], s.pixmaps[s.buffers[call.back].pixmap])
  }

  /** Record `id` told the frame its vblank request will fire on, and armed with that request. */
  function ArmAtFrame(s: Screen, id: nat, frame: nat, a: Armed): (r: Screen)
    requires id in s.events
    ensures r.events == s.events[id := s.events[id].(frame := frame)] && r.armed == s.armed[id := a]
  {
    SetRecord(s, id, s.events[id].(frame := frame)).(armed := s.armed[id := a])
  }

  /** The record made a flip record when the buffers can be exchanged, and the swap limit set to 1. */
  function SwapPrepared(s: Screen, id: nat, call: SwapCall): (r: Screen)
    requires Ready(s, id) && Pair(s, call.front, call.back)
    ensures Ready(r, id) && r.events.Keys == s.events.Keys && r.armed == s.armed
  {
    var s1 := if Flippable(s, call) then SetRecord(s, id, s.events[id].(kind := Dri2Flip)) else s;
    s1.(trace := s1.trace + [SwapLimit(call.drawable.id, 1)])
  }

  /**
   * The part of I830DRI2ScheduleSwap after the frame counter read
   * `current`, for record `id`: a flip is queued at once when there is no
   * divisor, the target has been reached and queue_flip succeeds. Otherwise
   * the vblank request SwapRequest describes is queued; the result is the
   * frame the swap will show on, or 0 after the blit fallback. A refused
   * vblank request is cancelled, which deletes the record, before the
   * fallback.
   */
  function SwapQueued(s: Screen, id: nat, call: SwapCall, current: nat, replies: SwapReplies): (nat, Screen)
    requires Ready(s, id) && s.events[id].front == Some(call.front) && s.events[id].back == Some(call.back)
  {
    if call.divisor == 0 && current >= call.target && QueueFlip(s, id, call.drawable, replies.pageflipOk, replies.spare, replies.flinkOk).0 then
      (call.target, QueueFlip(s, id, call.drawable, replies.pageflipOk, replies.spare, replies.flinkOk).1)
    else SwapByVblank(s, id, call, current, replies)
  }

  /**
   * The vblank path of SwapQueued: the record is prepared, and the request
   * SwapRequest describes is queued, or, failing that, the swap falls back
   * to a blit.
   */
  function SwapByVblank(s: Screen, id: nat, call: SwapCall, current: nat, replies: SwapReplies): (nat, Screen)
    requires Ready(s, id) && Pair(s, call.front, call.back)
  {
    var flip := Flippable(s, call);
    var s1 := SwapPrepared(s, id, call);
    var req := SwapRequest(current, call.target, call.divisor, call.remainder, flip);
    if !replies.seqAllocated then (0, SwapFallback(s1, call, Some(id)))
    else if replies.reply.None? then (0, SwapFallback(DelFrameEvent(s1, id), call, None))
    else
      (replies.reply.value + FlipDelay(flip), SwapArmed(s, id, call, current, replies.reply.value))
  }

  /** The prepared record, told the frame the swap will show on, armed with the request SwapRequest describes. */
  function SwapArmed(s: Screen, id: nat, call: SwapCall, current: nat, reply: nat): Screen
    requires Ready(s, id) && Pair(s, call.front, call.back)
  {
    var flip := Flippable(s, call);
    SwapArmedAt(s, id, call, reply + FlipDelay(flip), SwapRequest(current, call.target, call.divisor, call.remainder, flip))
  }

  /** The prepared record, told the frame `shown`, armed with request `req`. */
  function SwapArmedAt(s: Screen, id: nat, call: SwapCall, shown: nat, req: VblankRequest): Screen
    requires Ready(s, id) && Pair(s, call.front, call.back)
  {
    ArmAtFrame(SwapPrepared(s, id, call), id, shown, AtFrame(req.sequence, req.nextOnMiss))
  }

  /**
   * I830DRI2ScheduleSwap: with the drawable on a pipe, a record linked to
   * the client and the drawable, holding a reference on each buffer, and a
   * frame-counter reading, the swap is queued by SwapQueued; failing any of
   * these it is completed at once by the blit fallback. Returns the new
   * target frame and the screen.
   */
  function ScheduleSwap(s: Screen, call: SwapCall, replies: SwapReplies): (nat, Screen)
    requires Pair(s, call.front, call.back) && call.drawable.id != NoDrawable
  {
    if call.drawable.crtc.None? || !replies.recordAllocated then (0, SwapFallback(s, call, None))
    else
      var (added, s1) := AddFrameEvent(s, SwapRecord(call), replies.clientSlot, replies.drawableSlot);
      if !added then (0, SwapFallback(s1, call, None))
      else if replies.counter.None? then (0, SwapFallback(s1, call, Some(s.nextEvent)))
      else SwapQueued(s1, s.nextEvent, call, replies.counter.value, replies)
  }

  /**
   * The outcome of SwapQueued: the direct flip arms the record on the flip
   * and keeps the target; a queued vblank arms the record on exactly the
   * request SwapRequest describes and returns the sequence the kernel gave
   * plus the flip delay, also stored in the record, which is a flip record
   * exactly when the buffers can be exchanged; otherwise the swap limit
   * was set and the blit fallback ran, leaving no record behind.
   */
  lemma SwapQueuedSpec(s: Screen, id: nat, call: SwapCall, current: nat, replies: SwapReplies)
    requires Ready(s, id) && s.events[id].front == Some(call.front) && s.events[id].back == Some(call.back)
    requires id !in s.armed
    ensures Pair(s, call.front, call.back)
    ensures var r := SwapQueued(s, id, call, current, replies);
      var direct := call.divisor == 0 && current >= call.target && QueueFlip(s, id, call.drawable, replies.pageflipOk, replies.spare, replies.flinkOk).0;
      var flip := Flippable(s, call);
      var req := SwapRequest(current, call.target, call.divisor, call.remainder, flip);
      (direct ==> r.0 == call.target && r.1.armed == s.armed[id := OnFlip] && r.1.events.Keys == s.events.Keys) &&
      (!direct && replies.seqAllocated && replies.reply.Some? ==>
         r.0 == replies.reply.value + FlipDelay(flip) &&
         r.1.armed == s.armed[id := AtFrame(req.sequence, req.nextOnMiss)] && r.1.events.Keys == s.events.Keys &&
         r.1.events[id].frame == r.0 && (r.1.events[id].kind == Dri2Flip <==> flip || s.events[id].kind == Dri2Flip) &&
         r.1.trace == s.trace + [SwapLimit(call.drawable.id, 1)]) &&
      (!direct && !(replies.seqAllocated && replies.reply.Some?) ==>
         r.0 == 0 && r.1.trace == s.trace + [SwapLimit(call.drawable.id, 1)] + FallbackActions(call) &&
         r.1.events == s.events - {id} && r.1.armed == s.armed)
  {
    var direct := call.divisor == 0 && current >= call.target && QueueFlip(s, id, call.drawable, replies.pageflipOk, replies.spare, replies.flinkOk).0;
    if direct {
      FlipQueuedSpec(s, id, call.drawable.id, replies.spare, replies.flinkOk);
    } else if replies.seqAllocated && replies.reply.Some? {
      SwapArmedShape(s, id, call, current, replies.reply.value);
    } else {
      SwapByVblankFallsBack(s, id, call, current, replies);
    }
  }

  /** An armed swap: the record shows the frame the swap will land on, and waits for SwapRequest's vblank. */
  lemma SwapArmedShape(s: Screen, id: nat, call: SwapCall, current: nat, reply: nat)
    requires Ready(s, id) && Pair(s, call.front, call.back)
    ensures var r := SwapArmed(s, id, call, current, reply);
      var flip := Flippable(s, call);
      var req := SwapRequest(current, call.target, call.divisor, call.remainder, flip);
      r.armed == s.armed[id := AtFrame(req.sequence, req.nextOnMiss)] && r.events.Keys == s.events.Keys &&
      r.events[id].frame == reply + FlipDelay(flip) && (r.events[id].kind == Dri2Flip <==> flip || s.events[id].kind == Dri2Flip) &&
      r.trace == s.trace + [SwapLimit(call.drawable.id, 1)]
  {
    var s1 := SwapPrepared(s, id, call);
    assert s1.events[id].kind == Dri2Flip <==> Flippable(s, call) || s.events[id].kind == Dri2Flip;
    assert s1.trace == s.trace + [SwapLimit(call.drawable.id, 1)];
  }

  /** A vblank swap whose request cannot be queued falls back to a blit and leaves no record. */
  lemma SwapByVblankFallsBack(s: Screen, id: nat, call: SwapCall, current: nat, replies: SwapReplies)
    requires Ready(s, id) && Pair(s, call.front, call.back) && id !in s.armed
    requires !(replies.seqAllocated && replies.reply.Some?)
    ensures var r := SwapByVblank(s, id, call, current, replies);
      r.0 == 0 && r.1.trace == s.trace + [SwapLimit(call.drawable.id, 1)] + FallbackActions(call) &&
      r.1.events == s.events - {id} && r.1.armed == s.armed
  {
    var s1 := SwapPrepared(s, id, call);
    assert s1.trace == s.trace + [SwapLimit(call.drawable.id, 1)];
  }

  /** Under the bookkeeping the next record id is fresh: no record and no request has it. */
  lemma FreshId(s: Screen)
    requires Good(s)
    ensures s.nextEvent !in s.events && s.nextEvent !in s.armed
  {
  }

  /** The blit fallback keeps the bookkeeping, and leaks no record once every other record is armed. */
  lemma SwapFallbackKeepsGood(s: Screen, call: SwapCall, rec: Option<nat>)
    requires Good(s) && (rec.Some? ==> rec.value in s.events && rec.value !in s.armed)
    ensures var r := SwapFallback(s, call, rec);
      Good(r) && (s.events.Keys - (if rec.Some? then {rec.value} else {}) <= s.armed.Keys ==> NoLeak(r))
  {
    if rec.Some? {
      DelFrameEventKeepsGood(s.(trace := s.trace + FallbackActions(call)), rec.value);
    }
  }

  /** Preparing the record for a vblank keeps the bookkeeping. */
  lemma SwapPreparedKeepsGood(s: Screen, id: nat, call: SwapCall)
    requires Good(s) && Ready(s, id) && Pair(s, call.front, call.back) && s.events[id].kind != Dri2WaitMsc
    ensures Good(SwapPrepared(s, id, call))
  {
    if Flippable(s, call) {
      RecordKeepsGood(s, id, s.events[id].(kind := Dri2Flip));
    }
  }

  /** Storing the frame in a record and arming it on a vblank keeps the bookkeeping. */
  lemma ArmAtFrameKeepsGood(s: Screen, id: nat, frame: nat, a: Armed)
    requires Good(s) && id in s.events && a != OnFlip
    ensures Good(ArmAtFrame(s, id, frame, a))
  {
    RecordKeepsGood(s, id, s.events[id].(frame := frame));
    ArmKeepsGood(SetRecord(s, id, s.events[id].(frame := frame)), id, a);
  }

  /** A refused vblank request cancelled, then the blit fallback: the bookkeeping is kept and the record gone. */
  lemma CancelledFallbackKeepsGood(s: Screen, id: nat, call: SwapCall)
    requires Good(s) && id in s.events && id !in s.armed
    ensures var r := SwapFallback(DelFrameEvent(s, id), call, None);
      Good(r) && (s.events.Keys - {id} <= s.armed.Keys ==> NoLeak(r))
  {
    DelFrameEventKeepsGood(s, id);
    SwapFallbackKeepsGood(DelFrameEvent(s, id), call, None);
  }

  /** Arming the prepared record on any frame and request keeps the bookkeeping. */
  lemma PreparedArmKeepsGood(s: Screen, id: nat, call: SwapCall, frame: nat, sequence: nat, nextOnMiss: bool)
    requires Good(s) && Ready(s, id) && Pair(s, call.front, call.back) && s.events[id].kind == Dri2Swap
    ensures Good(ArmAtFrame(SwapPrepared(s, id, call), id, frame, AtFrame(sequence, nextOnMiss)))
  {
    SwapPreparedKeepsGood(s, id, call);
    ArmAtFrameKeepsGood(SwapPrepared(s, id, call), id, frame, AtFrame(sequence, nextOnMiss));
  }

  /** Arming the prepared swap record keeps the bookkeeping, and leaks nothing once every other record is armed. */
  lemma SwapArmedAtKeepsGood(s: Screen, id: nat, call: SwapCall, shown: nat, req: VblankRequest)
    requires Good(s) && Ready(s, id) && Pair(s, call.front, call.back) && s.events[id].kind == Dri2Swap
    ensures Good(SwapArmedAt(s, id, call, shown, req))
    ensures s.events.Keys - {id} <= s.armed.Keys ==> NoLeak(SwapArmedAt(s, id, call, shown, req))
  {
    PreparedArmKeepsGood(s, id, call, shown, req.sequence, req.nextOnMiss);
  }

  /** The same for the request the swap actually queues. */
  lemma SwapArmedKeepsGood(s: Screen, id: nat, call: SwapCall, current: nat, reply: nat)
    requires Good(s) && Ready(s, id) && Pair(s, call.front, call.back) && s.events[id].kind == Dri2Swap
    ensures Good(SwapArmed(s, id, call, current, reply))
    ensures s.events.Keys - {id} <= s.armed.Keys ==> NoLeak(SwapArmed(s, id, call, current, reply))
  {
    SwapArmedAtKeepsGood(s, id, call, reply + FlipDelay(Flippable(s, call)),
                         SwapRequest(current, call.target, call.divisor, call.remainder, Flippable(s, call)));
    SwapArmedUnfolds(s, id, call, current, reply);
  }

  /** SwapArmed is SwapArmedAt at the frame and request of the prepared swap. */
  lemma SwapArmedUnfolds(s: Screen, id: nat, call: SwapCall, current: nat, reply: nat)
    requires Ready(s, id) && Pair(s, call.front, call.back)
    ensures SwapArmed(s, id, call, current, reply) == SwapArmedAt(s, id, call, reply + FlipDelay(Flippable(s, call)), SwapRequest(current, call.target, call.divisor, call.remainder, Flippable(s, call)))
  {
  }

  /** The vblank path of SwapQueued keeps the bookkeeping, and leaks no record once every other record is armed. */
  lemma SwapByVblankKeepsGood(s: Screen, id: nat, call: SwapCall, current: nat, replies: SwapReplies)
    requires Good(s) && Ready(s, id) && Pair(s, call.front, call.back)
    requires id !in s.armed && s.events[id].kind == Dri2Swap
    ensures Good(SwapByVblank(s, id, call, current, replies).1)
    ensures s.events.Keys - {id} <= s.armed.Keys ==> NoLeak(SwapByVblank(s, id, call, current, replies).1)
  {
    SwapPreparedKeepsGood(s, id, call);
    var s1 := SwapPrepared(s, id, call);
    if !replies.seqAllocated {
      SwapFallbackKeepsGood(s1, call, Some(id));
    } else if replies.reply.None? {
      CancelledFallbackKeepsGood(s1, id, call);
    } else {
      SwapArmedKeepsGood(s, id, call, current, replies.reply.value);
    }
  }

  /** SwapQueued keeps the bookkeeping and, when `id` was the only record not yet armed, leaks none. */
  lemma SwapQueuedKeepsGood(s: Screen, id: nat, call: SwapCall, current: nat, replies: SwapReplies)
    requires Good(s) && Ready(s, id) && s.events[id].front == Some(call.front) && s.events[id].back == Some(call.back)
    requires id !in s.armed && s.events[id].kind == Dri2Swap
    ensures var r := SwapQueued(s, id, call, current, replies).1;
      Good(r) && (s.events.Keys - {id} <= s.armed.Keys ==> NoLeak(r))
  {
    if call.divisor == 0 && current >= call.target && QueueFlip(s, id, call.drawable, replies.pageflipOk, replies.spare, replies.flinkOk).0 {
      QueueFlipSpec(s, id, call.drawable, replies.pageflipOk, replies.spare, replies.flinkOk);
      FlipQueuedSpec(s, id, call.drawable.id, replies.spare, replies.flinkOk);
    } else {
      SwapByVblankKeepsGood(s, id, call, current, replies);
    }
  }

  /**
   * The outcome of I830DRI2ScheduleSwap: without a pipe, a record, its
   * lists or a counter reading the swap is completed on the spot by a blit
   * reported at frame 0, and the target becomes 0; with a counter reading
   * the new record, `nextEvent`, is handled by SwapQueued.
   */
  lemma ScheduleSwapSpec(s: Screen, call: SwapCall, replies: SwapReplies)
    requires Pair(s, call.front, call.back) && call.drawable.id != NoDrawable && s.nextEvent !in s.events
    ensures var r := ScheduleSwap(s, call, replies);
      var armable := call.drawable.crtc.Some? && replies.recordAllocated &&
                     (call.client in s.clientLists || replies.clientSlot) &&
                     (call.drawable.id in s.drawableLists || replies.drawableSlot);
      (!armable ==> r.0 == 0 && r.1.trace == s.trace + FallbackActions(call) && r.1.events == s.events && r.1.armed == s.armed) &&
      (armable && replies.counter.None? ==>
         r.0 == 0 && r.1.trace == s.trace + FallbackActions(call) && r.1.events == s.events && r.1.armed == s.armed) &&
      (armable && replies.counter.Some? ==>
         var (added, s1) := AddFrameEvent(s, SwapRecord(call), replies.clientSlot, replies.drawableSlot);
         added && s1.events == s.events[s.nextEvent := SwapRecord(call)] && s1.armed == s.armed &&
         Ready(s1, s.nextEvent) && r == SwapQueued(s1, s.nextEvent, call, replies.counter.value, replies))
  {
    if call.drawable.crtc.Some? && replies.recordAllocated {
      AddFrameEventSpec(s, SwapRecord(call), replies.clientSlot, replies.drawableSlot);
      var (added, s1) := AddFrameEvent(s, SwapRecord(call), replies.clientSlot, replies.drawableSlot);
      if added && replies.counter.None? {
        assert s1.events - {s.nextEvent} == s.events;
      } else if added {
        assert Ready(s1, s.nextEvent);
      }
    }
  }

  /** I830DRI2ScheduleSwap keeps the bookkeeping and, between requests, leaks no record. */
  lemma ScheduleSwapKeepsGood(s: Screen, call: SwapCall, replies: SwapReplies)
    requires Good(s) && Pair(s, call.front, call.back) && call.drawable.id != NoDrawable
    ensures var r := ScheduleSwap(s, call, replies).1; Good(r) && (NoLeak(s) ==> NoLeak(r))
  {
    FreshId(s);
    if call.drawable.crtc.None? || !replies.recordAllocated {
      SwapFallbackKeepsGood(s, call, None);
    } else {
      AddFrameEventKeepsGood(s, SwapRecord(call), replies.clientSlot, replies.drawableSlot);
      var (added, s1) := AddFrameEvent(s, SwapRecord(call), replies.clientSlot, replies.drawableSlot);
      if !added {
        SwapFallbackKeepsGood(s1, call, None);
      } else {
        LinkedSwapKeepsGood(s, call, replies);
      }
    }
  }

  /** Once the swap record is linked, queueing the swap or falling back keeps the bookkeeping. */
  lemma LinkedSwapKeepsGood(s: Screen, call: SwapCall, replies: SwapReplies)
    requires Good(s) && Pair(s, call.front, call.back) && call.drawable.id != NoDrawable
    requires call.drawable.crtc.Some? && replies.recordAllocated
    requires AddFrameEvent(s, SwapRecord(call), replies.clientSlot, replies.drawableSlot).0
    ensures var r := ScheduleSwap(s, call, replies).1; Good(r) && (NoLeak(s) ==> NoLeak(r))
  {
    FreshId(s);
    AddFrameEventKeepsGood(s, SwapRecord(call), replies.clientSlot, replies.drawableSlot);
    var s1 := AddFrameEvent(s, SwapRecord(call), replies.clientSlot, replies.drawableSlot).1;
    var id := s.nextEvent;
    ScheduleSwapLinked(s, call, replies);
    if replies.counter.None? {
      SwapFallbackKeepsGood(s1, call, Some(id));
    } else {
      SwapQueuedKeepsGood(s1, id, call, replies.counter.value, replies);
    }
  }

  /** With the swap record linked under the next id, the swap is queued once the counter is read, and falls back otherwise. */
  lemma ScheduleSwapLinked(s: Screen, call: SwapCall, replies: SwapReplies)
    requires Pair(s, call.front, call.back) && call.drawable.id != NoDrawable
    requires call.drawable.crtc.Some? && replies.recordAllocated
    requires AddFrameEvent(s, SwapRecord(call), replies.clientSlot, replies.drawableSlot).0
    ensures var s1 := AddFrameEvent(s, SwapRecord(call), replies.clientSlot, replies.drawableSlot).1;
      var id := s.nextEvent;
      s1.events == s.events[id := SwapRecord(call)] && s1.armed == s.armed && Ready(s1, id) &&
      ScheduleSwap(s, call, replies) ==
        if replies.counter.None? then (0, SwapFallback(s1, call, Some(id)))
        else SwapQueued(s1, id, call, replies.counter.value, replies)
  {
  }

  /**
   * The swap request a queued vblank stands for is never for a frame
   * already past, asks for NEXTONMISS exactly when no flip is done, and on
   * the divisor path shows the swap after `current` on a frame matching
   * the remainder.
   */
  lemma SwapArmedInFuture(s: Screen, id: nat, call: SwapCall, current: nat, replies: SwapReplies)
    requires Ready(s, id) && s.events[id].front == Some(call.front) && s.events[id].back == Some(call.back)
    requires id !in s.armed
    ensures var r := SwapQueued(s, id, call, current, replies).1;
      id in r.armed && r.armed[id].AtFrame? ==>
        r.armed[id].sequence >= current && r.armed[id].nextOnMiss == !Flippable(s, call) &&
        (call.divisor > 0 && current >= (if Flippable(s, call) then FlipTarget(call.target) else call.target) ==>
           r.armed[id].sequence + FlipDelay(Flippable(s, call)) > current &&
           (r.armed[id].sequence + FlipDelay(Flippable(s, call))) % call.divisor == call.remainder % call.divisor)
  {
    SwapQueuedSpec(s, id, call, current, replies);
    SwapRequestSchedulesFutureFrame(current, call.target, call.divisor, call.remainder, Flippable(s, call));
  }

  // ---------------------------------------------------------------------
  // The divisor path as written
  // ---------------------------------------------------------------------

  /**
   * SwapQueued as the code is written: on the divisor path a refused
   * vblank request is not cancelled, so its queue entry stays while the
   * blit fallback deletes the record it points at.
   */
  function SwapQueuedAsWritten(s: Screen, id: nat, call: SwapCall, current: nat, replies: SwapReplies): (nat, Screen)
    requires Ready(s, id) && s.events[id].front == Some(call.front) && s.events[id].back == Some(call.back)
  {
    var flip := Flippable(s, call);
    if call.divisor > 0 && current >= (if flip then FlipTarget(call.target) else call.target) &&
       replies.seqAllocated && replies.reply.None? then
      var s1 := SwapPrepared(s, id, call);
      var req := SwapRequest(current, call.target, call.divisor, call.remainder, flip);
      (0, SwapFallback(s1.(armed := s1.armed[id := AtFrame(req.sequence, req.nextOnMiss)]), call, Some(id)))
    else SwapQueued(s, id, call, current, replies)
  }

  /**
   * On the divisor path with the vblank request refused, the code as
   * written leaves a queued request whose record has been deleted, which
   * breaks the bookkeeping; its cancellation or firing would then use the
   * freed record. The corrected SwapQueued leaves no request behind.
   */
  lemma SwapQueuedAsWrittenLeavesDanglingRequest(s: Screen, id: nat, call: SwapCall, current: nat, replies: SwapReplies)
    requires Ready(s, id) && s.events[id].front == Some(call.front) && s.events[id].back == Some(call.back)
    requires id !in s.armed
    requires call.divisor > 0 && current >= call.target && replies.seqAllocated && replies.reply.None?
    ensures var r := SwapQueuedAsWritten(s, id, call, current, replies).1;
      id in r.armed && id !in r.events && !Good(r)
    ensures var r := SwapQueued(s, id, call, current, replies).1;
      id !in r.armed && id !in r.events && r.armed == s.armed
  {
    assert call.target >= FlipTarget(call.target);
    SwapQueuedSpec(s, id, call, current, replies);
  }

  // ---------------------------------------------------------------------
  // queue_swap as written, inside the frame handler
  // ---------------------------------------------------------------------

  /**
   * queue_swap as the code is written: a refused vblank request is
   * cancelled, and the cancellation deletes the record, although
   * queue_swap then reports failure and its caller goes on with the record.
   */
  function QueueSwapAsWritten(s: Screen, id: nat, drawable: Drawable, seqAllocated: bool, vblankOk: bool): (res: (bool, Screen))
    requires id in s.events
  {
    if drawable.crtc.Some? && seqAllocated && !vblankOk then
      (false, DelFrameEvent(SetRecord(s, id, s.events[id].(kind := Dri2Swap)), id))
    else QueueSwap(s, id, drawable, seqAllocated, vblankOk)
  }

  /**
   * When the frame handler re-arms a flip record and the kernel refuses
   * the vblank request, queue_swap as written has already deleted the
   * record when it reports failure, so the blit fallback that follows in
   * the handler reads and deletes a freed record. The corrected queue_swap
   * leaves the record alive and unarmed for the handler to delete once.
   */
  lemma QueueSwapAsWrittenFreesBeforeFallback(s: Screen, id: nat, drawable: Drawable)
    requires id in s.events && drawable.crtc.Some?
    ensures var (ok, r) := QueueSwapAsWritten(s, id, drawable, true, false); !ok && id !in r.events
    ensures var (ok, r) := QueueSwap(s, id, drawable, true, false); !ok && id in r.events && r.armed == s.armed
  {
  }

  // ---------------------------------------------------------------------
  // I830DRI2ScheduleWaitMSC
  // ---------------------------------------------------------------------

  /** A wait request: the client, its drawable, and the target, divisor and remainder. */
  datatype WaitCall = WaitCall(client: nat, drawable: Drawable, target: nat, divisor: nat, remainder: nat)

  /** The replies a wait meets: record and lists, the frame counter, a queue entry, and the sequence the kernel queued. */
  datatype WaitReplies = WaitReplies(recordAllocated: bool, clientSlot: bool, drawableSlot: bool,
                                     counter: Option<nat>, seqAllocated: bool, reply: Option<nat>)

  /** The record I830DRI2ScheduleWaitMSC fills in. */
  function WaitRecord(call: WaitCall): FrameEvent
  {
    FrameEvent(Dri2WaitMsc, Some(call.client), call.drawable.id, None, None, 0, 0, None)
  }

  /** out_complete: the client's wait is reported done with frame `frame` and a zero time. */
  function WaitDone(s: Screen, call: WaitCall, frame: nat): Screen
  {
    s.(trace := s.trace + [WaitComplete(call.client, call.drawable.id, Stamp(frame, 0, 0))])
  }

  /**
   * The part of I830DRI2ScheduleWaitMSC after the frame counter read
   * `current`, for record `id`: the vblank WaitRequest describes is
   * queued and the client blocked; without a queue entry the record is
   * deleted and the wait reported done at the caller's target; a refused
   * request is cancelled, which deletes the record, and the wait reported
   * done at the target, clamped to `current` when there is no divisor or
   * the target is ahead.
   */
  function WaitQueued(s: Screen, id: nat, call: WaitCall, current: nat, replies: WaitReplies): Screen
    requires id in s.events
  {
    var nearPath := call.divisor == 0 || current < call.target;
    var req := WaitRequest(current, call.target, call.divisor, call.remainder);
    if !replies.seqAllocated then WaitDone(DelFrameEvent(s, id), call, call.target)
    else if replies.reply.None? then WaitDone(DelFrameEvent(s, id), call, if nearPath then req else call.target)
    else WaitArmed(s, id, call, replies.reply.value, req)
  }

  /** Record `id` told the frame `frame` and armed, without NEXTONMISS, on frame `req`; the client is blocked. */
  function WaitArmed(s: Screen, id: nat, call: WaitCall, frame: nat, req: nat): Screen
    requires id in s.events
  {
    var s1 := ArmAtFrame(s, id, frame, AtFrame(req, false));
    s1.(trace := s1.trace + [BlockClient(call.client, call.drawable.id)])
  }

  /**
   * I830DRI2ScheduleWaitMSC: with the drawable on a pipe, a record linked
   * to the client and the drawable, and a frame-counter reading, the wait
   * is queued by WaitQueued; failing these it is reported done at once,
   * deleting the record if one was made.
   */
  function ScheduleWaitMsc(s: Screen, call: WaitCall, replies: WaitReplies): Screen
    requires call.drawable.id != NoDrawable
  {
    if call.drawable.crtc.None? || !replies.recordAllocated then WaitDone(s, call, call.target)
    else
      var (added, s1) := AddFrameEvent(s, WaitRecord(call), replies.clientSlot, replies.drawableSlot);
      if !added then WaitDone(s1, call, call.target)
      else if replies.counter.None? then WaitDone(DelFrameEvent(s1, s.nextEvent), call, call.target)
      else WaitQueued(s1, s.nextEvent, call, replies.counter.value, replies)
  }

  /** Arming a wait record keeps the bookkeeping, and leaks nothing once every other record is armed. */
  lemma WaitArmedKeepsGood(s: Screen, id: nat, call: WaitCall, frame: nat, req: nat)
    requires Good(s) && id in s.events && s.events[id].kind == Dri2WaitMsc
    ensures Good(WaitArmed(s, id, call, frame, req))
    ensures s.events.Keys - {id} <= s.armed.Keys ==> NoLeak(WaitArmed(s, id, call, frame, req))
  {
    ArmAtFrameKeepsGood(s, id, frame, AtFrame(req, false));
  }

  /** WaitQueued keeps the bookkeeping and, when `id` was the only record not yet armed, leaks none. */
  lemma WaitQueuedKeepsGood(s: Screen, id: nat, call: WaitCall, current: nat, replies: WaitReplies)
    requires Good(s) && id in s.events && id !in s.armed && s.events[id].kind == Dri2WaitMsc
    ensures Good(WaitQueued(s, id, call, current, replies))
    ensures s.events.Keys - {id} <= s.armed.Keys ==> NoLeak(WaitQueued(s, id, call, current, replies))
  {
    if replies.seqAllocated && replies.reply.Some? {
      WaitArmedKeepsGood(s, id, call, replies.reply.value, WaitRequest(current, call.target, call.divisor, call.remainder));
    } else {
      DelFrameEventKeepsGood(s, id);
    }
  }

  /**
   * What WaitQueued leaves: with a queued request the record is armed,
   * without NEXTONMISS, on the frame WaitRequest gives, which is never in
   * the past and on the divisor path is the next frame after `current`
   * matching the remainder, and the client is blocked; otherwise the
   * record is gone and the wait is reported done.
   */
  lemma WaitQueuedSpec(s: Screen, id: nat, call: WaitCall, current: nat, replies: WaitReplies)
    requires id in s.events
    ensures var r := WaitQueued(s, id, call, current, replies);
      replies.seqAllocated && replies.reply.Some? ==>
        var req := WaitRequest(current, call.target, call.divisor, call.remainder);
        r.armed == s.armed[id := AtFrame(req, false)] && r.events == s.events[id := s.events[id].(frame := replies.reply.value)] &&
        r.trace == s.trace + [BlockClient(call.client, call.drawable.id)] &&
        req >= current &&
        (call.divisor > 0 && current >= call.target ==> req > current && req % call.divisor == call.remainder % call.divisor)
    ensures var r := WaitQueued(s, id, call, current, replies);
      !(replies.seqAllocated && replies.reply.Some?) ==>
        r.armed == s.armed && r.events == s.events - {id} && |r.trace| == |s.trace| + 1 &&
        r.trace[|s.trace|].WaitComplete? && r.trace[|s.trace|].client == call.client
  {
    WaitRequestSchedulesFutureFrame(current, call.target, call.divisor, call.remainder);
  }

  /** Whether ScheduleWaitMsc gets as far as queuing a vblank request for the wait. */
  predicate WaitBlocks(s: Screen, call: WaitCall, replies: WaitReplies)
  {
    call.drawable.crtc.Some? && replies.recordAllocated &&
    (call.client in s.clientLists || replies.clientSlot) &&
    (call.drawable.id in s.drawableLists || replies.drawableSlot) &&
    replies.counter.Some? && replies.seqAllocated && replies.reply.Some?
  }

  /** A wait that gets its request queued blocks the client on a new record armed as WaitQueuedSpec describes. */
  lemma ScheduleWaitMscBlocks(s: Screen, call: WaitCall, replies: WaitReplies)
    requires call.drawable.id != NoDrawable && s.nextEvent !in s.events && WaitBlocks(s, call, replies)
    ensures var r := ScheduleWaitMsc(s, call, replies);
      var req := WaitRequest(replies.counter.value, call.target, call.divisor, call.remainder);
      r.armed == s.armed[s.nextEvent := AtFrame(req, false)] &&
      r.events == s.events[s.nextEvent := WaitRecord(call).(frame := replies.reply.value)] &&
      r.trace == s.trace + [BlockClient(call.client, call.drawable.id)]
  {
    AddFrameEventSpec(s, WaitRecord(call), replies.clientSlot, replies.drawableSlot);
    var s1 := AddFrameEvent(s, WaitRecord(call), replies.clientSlot, replies.drawableSlot).1;
    WaitQueuedSpec(s1, s.nextEvent, call, replies.counter.value, replies);
  }

  /** Once its record `id` is linked, a wait that gets no queued request deletes the record and is reported done. */
  lemma WaitLinkedCompletes(s: Screen, id: nat, call: WaitCall, replies: WaitReplies)
    requires id in s.events && !(replies.counter.Some? && replies.seqAllocated && replies.reply.Some?)
    ensures var r := if replies.counter.None? then WaitDone(DelFrameEvent(s, id), call, call.target)
                     else WaitQueued(s, id, call, replies.counter.value, replies);
      r.armed == s.armed && r.events == s.events - {id} && |r.trace| == |s.trace| + 1 &&
      r.trace[|s.trace|].WaitComplete? && r.trace[|s.trace|].client == call.client
  {
    if replies.counter.Some? {
      WaitQueuedSpec(s, id, call, replies.counter.value, replies);
    }
  }

  /** What a wait that is reported done at once leaves: no new record or request, and one completion for the client. */
  predicate CompletedAtOnce(s: Screen, r: Screen, call: WaitCall)
  {
    r.armed == s.armed && r.events == s.events && |r.trace| == |s.trace| + 1 &&
    r.trace[|s.trace|].WaitComplete? && r.trace[|s.trace|].client == call.client
  }

  /** A wait whose record was linked but got no queued request is reported done, the record deleted again. */
  lemma LinkedWaitCompletes(s: Screen, call: WaitCall, replies: WaitReplies)
    requires call.drawable.id != NoDrawable && s.nextEvent !in s.events && !WaitBlocks(s, call, replies)
    requires call.drawable.crtc.Some? && replies.recordAllocated
    requires AddFrameEvent(s, WaitRecord(call), replies.clientSlot, replies.drawableSlot).0
    ensures CompletedAtOnce(s, ScheduleWaitMsc(s, call, replies), call)
  {
    AddFrameEventSpec(s, WaitRecord(call), replies.clientSlot, replies.drawableSlot);
    var s1 := AddFrameEvent(s, WaitRecord(call), replies.clientSlot, replies.drawableSlot).1;
    WaitLinkedCompletes(s1, s.nextEvent, call, replies);
    assert s1.events - {s.nextEvent} == s.events;
  }

  /** Any other wait is reported done to its client at once, and no record or request is left behind. */
  lemma ScheduleWaitMscCompletes(s: Screen, call: WaitCall, replies: WaitReplies)
    requires call.drawable.id != NoDrawable && s.nextEvent !in s.events && !WaitBlocks(s, call, replies)
    ensures var r := ScheduleWaitMsc(s, call, replies);
      r.armed == s.armed && r.events == s.events && |r.trace| == |s.trace| + 1 &&
      r.trace[|s.trace|].WaitComplete? && r.trace[|s.trace|].client == call.client
  {
    if call.drawable.crtc.Some? && replies.recordAllocated &&
       AddFrameEvent(s, WaitRecord(call), replies.clientSlot, replies.drawableSlot).0 {
      LinkedWaitCompletes(s, call, replies);
    }
  }

  /** Once the wait's record is linked, the rest of I830DRI2ScheduleWaitMSC keeps the bookkeeping and leaks nothing new. */
  lemma LinkedWaitKeepsGood(s: Screen, call: WaitCall, replies: WaitReplies)
    requires Good(s) && call.drawable.id != NoDrawable && call.drawable.crtc.Some? && replies.recordAllocated
    requires AddFrameEvent(s, WaitRecord(call), replies.clientSlot, replies.drawableSlot).0
    ensures var r := ScheduleWaitMsc(s, call, replies); Good(r) && (NoLeak(s) ==> NoLeak(r))
  {
    FreshId(s);
    var id := s.nextEvent;
    AddFrameEventKeepsGood(s, WaitRecord(call), replies.clientSlot, replies.drawableSlot);
    var s1 := AddFrameEvent(s, WaitRecord(call), replies.clientSlot, replies.drawableSlot).1;
    if replies.counter.Some? {
      WaitQueuedKeepsGood(s1, id, call, replies.counter.value, replies);
    } else {
      DelFrameEventKeepsGood(s1, id);
    }
  }

  /** I830DRI2ScheduleWaitMSC keeps the bookkeeping and, between requests, leaks no record. */
  lemma ScheduleWaitMscKeepsGood(s: Screen, call: WaitCall, replies: WaitReplies)
    requires Good(s) && call.drawable.id != NoDrawable
    ensures var r := ScheduleWaitMsc(s, call, replies); Good(r) && (NoLeak(s) ==> NoLeak(r))
  {
    if call.drawable.crtc.Some? && replies.recordAllocated {
      if AddFrameEvent(s, WaitRecord(call), replies.clientSlot, replies.drawableSlot).0 {
        LinkedWaitKeepsGood(s, call, replies);
      } else {
        AddFrameEventKeepsGood(s, WaitRecord(call), replies.clientSlot, replies.drawableSlot);
      }
    }
  }

  /**
   * The frame a wait is reported done at when it cannot be queued: the
   * caller's target, except that a refused request with no divisor or a
   * target still ahead reports the target clamped to `current`.
   */
  lemma WaitDoneFrame(s: Screen, call: WaitCall, replies: WaitReplies)
    requires call.drawable.id != NoDrawable && call.drawable.crtc.Some? && replies.recordAllocated
    requires AddFrameEvent(s, WaitRecord(call), replies.clientSlot, replies.drawableSlot).0
    requires replies.counter.Some? && replies.seqAllocated && replies.reply.None?
    ensures var r := ScheduleWaitMsc(s, call, replies); var current := replies.counter.value;
      r.trace[|r.trace| - 1] ==
        WaitComplete(call.client, call.drawable.id,
                     Stamp(if call.divisor == 0 || current < call.target then ClampToCurrent(current, call.target) else call.target, 0, 0))
  {
  }
}
