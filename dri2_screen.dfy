/**
 * The DRI2 screen state of src/uxa/intel_dri.c as the driver holds it: one
 * object whose record table, per-client and per-drawable lists, buffer
 * reference counts and spare back buffer the entry points and the kernel's
 * event handlers update in place. Each method is proved to leave the
 * screen exactly as the value-level function of FrameEvents, Scheduler or
 * SwapWait describes, and to keep the bookkeeping Good describes.
 */
module Dri2Screens {
  import opened Common
  import opened Dri2Geometry
  import opened Registry
  import opened FrameEvents
  import opened Scheduler
  import opened SwapWait

  class Dri2Screen {
    var events: map<nat, FrameEvent>
    var clientLists: map<nat, seq<nat>>
    var drawableLists: map<nat, seq<nat>>
    var armed: map<nat, Armed>
    var buffers: map<nat, Dri2Buffer>
    var pixmaps: map<nat, Pixmap>
    var frontBo: nat
    var backBo: Option<nat>
    var mode: ScreenMode
    var flags: ScreenFlags
    var boCalls: seq<BoCall>
    var trace: seq<Action>
    var nextEvent: nat

    /** The screen as a value. */
    function State(): Screen
      reads this
    {
      Screen(events, clientLists, drawableLists, armed, buffers, pixmaps, frontBo, backBo, mode, flags, boCalls, trace, nextEvent)
    }

    /** A screen with no records, buffers or lists yet. */
    constructor (mode: ScreenMode, flags: ScreenFlags, frontBo: nat, pixmaps: map<nat, Pixmap>)
      ensures State() == Initial(mode, flags, frontBo, pixmaps)
      ensures Good(State()) && NoLeak(State())
    {
      events := map[];
      clientLists := map[];
      drawableLists := map[];
      armed := map[];
      buffers := map[];
      this.pixmaps := pixmaps;
      this.frontBo := frontBo;
      backBo := None;
      this.mode := mode;
      this.flags := flags;
      boCalls := [];
      trace := [];
      nextEvent := 0;
    }

    /** Takes over a whole new screen computed by one of the value-level operations. */
    method Load(r: Screen)
      modifies this
      ensures State() == r
    {
      LoadRecords(r);
      LoadBuffers(r);
      LoadRest(r);
    }

    /** The frame-event records and the lists that link them. */
    method LoadRecords(r: Screen)
      modifies this
      ensures events == r.events && clientLists == r.clientLists && drawableLists == r.drawableLists && armed == r.armed
      ensures buffers == old(buffers) && pixmaps == old(pixmaps) && frontBo == old(frontBo) && backBo == old(backBo)
      ensures mode == old(mode) && flags == old(flags) && boCalls == old(boCalls) && trace == old(trace) && nextEvent == old(nextEvent)
    {
      events := r.events;
      clientLists := r.clientLists;
      drawableLists := r.drawableLists;
      armed := r.armed;
    }

    /** The DRI2 buffers, the pixmaps and the front and back buffer objects. */
    method LoadBuffers(r: Screen)
      modifies this
      ensures buffers == r.buffers && pixmaps == r.pixmaps && frontBo == r.frontBo && backBo == r.backBo
      ensures events == old(events) && clientLists == old(clientLists) && drawableLists == old(drawableLists) && armed == old(armed)
      ensures mode == old(mode) && flags == old(flags) && boCalls == old(boCalls) && trace == old(trace) && nextEvent == old(nextEvent)
    {
      buffers := r.buffers;
      pixmaps := r.pixmaps;
      frontBo := r.frontBo;
      backBo := r.backBo;
    }

    /** The screen mode and flags, the buffer-object calls, the trace and the next record id. */
    method LoadRest(r: Screen)
      modifies this
      ensures mode == r.mode && flags == r.flags && boCalls == r.boCalls && trace == r.trace && nextEvent == r.nextEvent
      ensures events == old(events) && clientLists == old(clientLists) && drawableLists == old(drawableLists) && armed == old(armed)
      ensures buffers == old(buffers) && pixmaps == old(pixmaps) && frontBo == old(frontBo) && backBo == old(backBo)
    {
      mode := r.mode;
      flags := r.flags;
      boCalls := r.boCalls;
      trace := r.trace;
      nextEvent := r.nextEvent;
    }

    // -------------------------------------------------------------------
    // Buffers
    // -------------------------------------------------------------------

    /** The end of I830DRI2CreateBuffer: the new buffer gets one reference and its pixmap is pinned for DRI2. */
    method CreateBuffer(b: nat, attachment: Attachment, pixmap: nat, named: bool)
      requires Good(State()) && b !in buffers && pixmap in pixmaps
      modifies this
      ensures State() == FrameEvents.CreateBuffer(old(State()), b, attachment, pixmap, named)
      ensures Good(State()) && (old(NoLeak(State())) ==> NoLeak(State()))
    {
      CreateBufferKeepsGood(State(), b, attachment, pixmap, named);
      if named {
        var bo := pixmaps[pixmap].priv.bo;
        pixmaps := pixmaps[pixmap := PinForDri2(pixmaps[pixmap])];
        buffers := buffers[b := Dri2Buffer(attachment, bo, pixmap, 1)];
      }
    }

    /** I830DRI2ReferenceBuffer: the count goes up by one. */
    method ReferenceBuffer(b: nat)
      requires Good(State()) && b in buffers
      modifies this
      ensures State() == FrameEvents.ReferenceBuffer(old(State()), b)
      ensures buffers[b].refcnt == old(buffers[b].refcnt) + 1
      ensures Good(State()) && (old(NoLeak(State())) ==> NoLeak(State()))
    {
      ReferenceBufferKeepsGood(State(), b);
      var buffer := buffers[b];
      buffer := buffer.(refcnt := buffer.refcnt + 1);
      buffers := buffers[b := buffer];
    }

    /** The count of buffer `b` goes down by one, and the buffer is freed when it reaches zero. */
    method Unreference(b: nat) returns (freed: bool)
      requires b in buffers
      modifies this
      ensures buffers == Release(old(buffers), b)
      ensures freed <==> old(buffers[b].refcnt) == 1
      ensures State() == old(State()).(buffers := buffers)
    {
      var buffer := buffers[b];
      buffer := buffer.(refcnt := buffer.refcnt - 1);
      if buffer.refcnt == 0 {
        buffers := buffers - {b};
        freed := true;
      } else {
        buffers := buffers[b := buffer];
        freed := false;
      }
    }

    /**
     * I830DRI2DestroyBuffer for one of the X server's references: the
     * buffer is freed exactly when that was its last reference, and then
     * no pending record names it.
     */
    method DestroyBuffer(b: nat) returns (freed: bool)
      requires Good(State()) && b in buffers && buffers[b].refcnt > RecordRefs(events, b)
      modifies this
      ensures State() == FrameEvents.DestroyBuffer(old(State()), b)
      ensures freed <==> b !in buffers
      ensures freed ==> forall id | id in events :: Holds(events[id], b) == 0
      ensures Good(State()) && (old(NoLeak(State())) ==> NoLeak(State()))
    {
      DestroyBufferKeepsGood(State(), b);
      freed := Unreference(b);
    }

    // -------------------------------------------------------------------
    // The record registry
    // -------------------------------------------------------------------

    /**
     * i830_dri2_add_frame_event and the references the new record takes:
     * `ok` tells whether the record was linked into both lists, under the
     * id `id`.
     */
    method AddFrameEvent(e: FrameEvent, clientSlot: bool, drawableSlot: bool) returns (ok: bool, id: nat)
      requires Good(State()) && e.client.Some? && e.drawable != NoDrawable
      requires e.front.Some? ==> e.front.value in buffers
      requires e.back.Some? ==> e.back.value in buffers
      requires (e.kind == Dri2WaitMsc <==> e.front.None?) && (e.front.None? <==> e.back.None?)
      modifies this
      ensures (ok, State()) == FrameEvents.AddFrameEvent(old(State()), e, clientSlot, drawableSlot)
      ensures id == old(nextEvent) && (ok ==> id in events && id !in old(events))
      ensures Good(State())
    {
      AddFrameEventKeepsGood(State(), e, clientSlot, drawableSlot);
      ok, id := Link(e, clientSlot, drawableSlot);
    }

    /** The list and count updates of AddFrameEvent. */
    method Link(e: FrameEvent, clientSlot: bool, drawableSlot: bool) returns (ok: bool, id: nat)
      requires e.client.Some? && e.drawable != NoDrawable
      modifies this
      ensures (ok, State()) == FrameEvents.AddFrameEvent(old(State()), e, clientSlot, drawableSlot)
      ensures id == old(nextEvent)
    {
      id := nextEvent;
      ok := FindLists(e, clientSlot, drawableSlot);
      if ok {
        Insert(e);
      }
    }

    /** The lookups of the client's and the drawable's lists, each created when missing and a slot can be had. */
    method FindLists(e: FrameEvent, clientSlot: bool, drawableSlot: bool) returns (ok: bool)
      requires e.client.Some? && e.drawable != NoDrawable
      modifies this
      ensures var hasClient := e.client.value in old(clientLists) || clientSlot;
        ok == (hasClient && (e.drawable in old(drawableLists) || drawableSlot)) &&
        clientLists == (if e.client.value in old(clientLists) || !clientSlot then old(clientLists)
                        else old(clientLists)[e.client.value := []]) &&
        drawableLists == (if !hasClient || e.drawable in old(drawableLists) || !drawableSlot then old(drawableLists)
                          else old(drawableLists)[e.drawable := []])
      ensures State() == old(State()).(clientLists := clientLists, drawableLists := drawableLists)
    {
      var c := e.client.value;
      if c !in clientLists && !clientSlot {
        return false;
      }
      if c !in clientLists {
        clientLists := clientLists[c := []];
      }
      if e.drawable !in drawableLists && !drawableSlot {
        return false;
      }
      if e.drawable !in drawableLists {
        drawableLists := drawableLists[e.drawable := []];
      }
      ok := true;
    }

    /** The record joins the heads of both lists under the next id and references its buffers. */
    method Insert(e: FrameEvent)
      requires e.client.Some? && e.client.value in clientLists && e.drawable in drawableLists
      modifies this
      ensures var id, c := old(nextEvent), e.client.value;
        State() == old(State()).(events := old(events)[id := e], clientLists := old(clientLists)[c := [id] + old(clientLists)[c]],
                                 drawableLists := old(drawableLists)[e.drawable := [id] + old(drawableLists)[e.drawable]],
                                 buffers := ReferenceRecord(old(buffers), e), nextEvent := id + 1)
    {
      var id, c := nextEvent, e.client.value;
      events := events[id := e];
      clientLists := clientLists[c := [id] + clientLists[c]];
      drawableLists := drawableLists[e.drawable := [id] + drawableLists[e.drawable]];
      TakeReference(e.front);
      TakeReference(e.back);
      nextEvent := id + 1;
    }

    /** I830DRI2ReferenceBuffer on the buffer a record field names, if it is still there. */
    method TakeReference(field: Option<nat>)
      modifies this
      ensures buffers == ReferenceField(old(buffers), field)
      ensures State() == old(State()).(buffers := buffers)
    {
      if field.Some? && field.value in buffers {
        var b := field.value;
        buffers := buffers[b := buffers[b].(refcnt := buffers[b].refcnt + 1)];
      }
    }

    /** Unreference on the buffer a record field names, if it is still there. */
    method DropReference(field: Option<nat>)
      modifies this
      ensures buffers == ReleaseField(old(buffers), field)
      ensures State() == old(State()).(buffers := buffers)
    {
      if field.Some? && field.value in buffers {
        var _ := Unreference(field.value);
      }
    }

    /**
     * i830_dri2_del_frame_event for a record no queued request points at:
     * it leaves its lists, drops its buffer references, and its old
     * scan-out buffer is handed back as the spare or unreferenced.
     */
    method DelFrameEvent(id: nat)
      requires Good(State()) && id in events && id !in armed
      modifies this
      ensures State() == FrameEvents.DelFrameEvent(old(State()), id)
      ensures Good(State()) && (old(NoLeak(State())) ==> NoLeak(State()))
    {
      DelFrameEventKeepsGood(State(), id);
      Unlink(id);
    }

    /** The list and count updates of DelFrameEvent. */
    method Unlink(id: nat)
      requires id in events
      modifies this
      ensures State() == FrameEvents.DelFrameEvent(old(State()), id)
    {
      var e := events[id];
      TakeOffLists(e, id);
      DropReference(e.front);
      DropReference(e.back);
      events := events - {id};
      if e.oldBuffer.Some? {
        if HandsBack(backBo, mode, e.oldBuffer.value) {
          backBo := Some(e.oldBuffer.value.bo);
        } else {
          boCalls := boCalls + [BoUnref(e.oldBuffer.value.bo)];
        }
      }
    }

    /** The two list_del calls of i830_dri2_del_frame_event. */
    method TakeOffLists(e: FrameEvent, id: nat)
      modifies this
      ensures clientLists == Registry.Unlink(old(clientLists), Owner(e, ClientSide), id)
      ensures drawableLists == Registry.Unlink(old(drawableLists), Owner(e, DrawableSide), id)
      ensures State() == old(State()).(clientLists := clientLists, drawableLists := drawableLists)
    {
      if e.client.Some? && e.client.value in clientLists {
        clientLists := clientLists[e.client.value := Without(clientLists[e.client.value], id)];
      }
      if e.drawable != NoDrawable && e.drawable in drawableLists {
        drawableLists := drawableLists[e.drawable := Without(drawableLists[e.drawable], id)];
      }
    }

    /**
     * i830_dri2_frame_event_client_gone: the records on the client's list
     * are taken off it from the head, each forgetting its client, and the
     * list is freed.
     */
    method ClientGone(c: nat)
      requires Good(State()) && c in clientLists
      modifies this
      ensures State() == FrameEvents.ClientGone(old(State()), c)
      ensures Good(State()) && (old(NoLeak(State())) ==> NoLeak(State()))
    {
      ClientGoneKeepsGood(State(), c);
      UnlistClient(c);
    }

    /** The loop of ClientGone, on a list of live records. */
    method UnlistClient(c: nat)
      requires ClientListLive(State(), c)
      modifies this
      ensures State() == FrameEvents.ClientGone(old(State()), c)
    {
      ghost var goal := FrameEvents.ClientGone(State(), c);
      while clientLists[c] != []
        invariant ClientListLive(State(), c)
        invariant FrameEvents.ClientGone(State(), c) == goal
        decreases |clientLists[c]|
      {
        var id := clientLists[c][0];
        events := events[id := Disown(events[id], ClientSide)];
        clientLists := clientLists[c := clientLists[c][1..]];
      }
      clientLists := clientLists - {c};
    }

    /**
     * i830_dri2_frame_event_drawable_gone: the records on the drawable's
     * list are taken off it from the head, each forgetting its drawable,
     * and the list is freed.
     */
    method DrawableGone(d: nat)
      requires Good(State()) && d in drawableLists
      modifies this
      ensures State() == FrameEvents.DrawableGone(old(State()), d)
      ensures Good(State()) && (old(NoLeak(State())) ==> NoLeak(State()))
    {
      DrawableGoneKeepsGood(State(), d);
      UnlistDrawable(d);
    }

    /** The loop of DrawableGone, on a list of live records. */
    method UnlistDrawable(d: nat)
      requires DrawableListLive(State(), d)
      modifies this
      ensures State() == FrameEvents.DrawableGone(old(State()), d)
    {
      ghost var goal := FrameEvents.DrawableGone(State(), d);
      while drawableLists[d] != []
        invariant DrawableListLive(State(), d)
        invariant FrameEvents.DrawableGone(State(), d) == goal
        decreases |drawableLists[d]|
      {
        var id := drawableLists[d][0];
        events := events[id := Disown(events[id], DrawableSide)];
        drawableLists := drawableLists[d := drawableLists[d][1..]];
      }
      drawableLists := drawableLists - {d};
    }

    // -------------------------------------------------------------------
    // Exchanging buffers
    // -------------------------------------------------------------------

    /**
     * I830DRI2ExchangeBuffers: the two buffers trade names (the back's new
     * name is 0 when the kernel refuses the flink, `flinkOk` false) and the
     * two pixmaps trade their private parts in place, and the screen's
     * front buffer object follows the new front.
     */
    method ExchangeBuffers(f: nat, b: nat, flinkOk: bool)
      requires Good(State()) && Pair(State(), f, b)
      modifies this
      ensures State() == Scheduler.ExchangeBuffers(old(State()), f, b, flinkOk)
      ensures Good(State()) && (old(NoLeak(State())) ==> NoLeak(State()))
    {
      ExchangeKeepsGood(State(), f, b, flinkOk);
      Exchange(f, b, flinkOk);
    }

    /** The swaps of ExchangeBuffers. */
    method Exchange(f: nat, b: nat, flinkOk: bool)
      requires Pair(State(), f, b)
      modifies this
      ensures State() == Scheduler.ExchangeBuffers(old(State()), f, b, flinkOk)
    {
      var fp, bp := buffers[f].pixmap, buffers[b].pixmap;
      var name := if flinkOk then pixmaps[fp].priv.bo else 0;
      RenameBuffers(f, b, name);
      TradePrivs(fp, bp, flinkOk);
      boCalls := boCalls + [BoUnref(frontBo), BoRef(pixmaps[fp].priv.bo)];
      frontBo := pixmaps[fp].priv.bo;
    }

    /** The front buffer takes the back's name, and the back buffer takes `name`, in place. */
    method RenameBuffers(f: nat, b: nat, name: nat)
      requires f in buffers && b in buffers
      modifies this
      ensures State() == old(State()).(buffers := ExchangeNames(old(buffers), f, b, name))
    {
      buffers := buffers[f := buffers[f].(name := buffers[b].name)];
      buffers := buffers[b := buffers[b].(name := name)];
    }

    /**
     * pixmap_flink's pin on the front pixmap when the flink succeeds, then
     * the two pixmaps trade their private parts in place.
     */
    method TradePrivs(fp: nat, bp: nat, flinkOk: bool)
      requires fp in pixmaps && bp in pixmaps
      modifies this
      ensures State() == old(State()).(pixmaps := ExchangePrivs(old(pixmaps), fp, bp, flinkOk))
    {
      if flinkOk {
        pixmaps := pixmaps[fp := PinForDri2(pixmaps[fp])];
      }
      var tmp := pixmaps[fp].priv;
      pixmaps := pixmaps[fp := pixmaps[fp].(priv := pixmaps[bp].priv.(busy := 1))];
      pixmaps := pixmaps[bp := pixmaps[bp].(priv := tmp.(busy := -1))];
    }

    // -------------------------------------------------------------------
    // Requests and their delivery
    // -------------------------------------------------------------------

    /**
     * I830DRI2ScheduleSwap: `target` is the frame reported back to the
     * client, and the screen is left as SwapWait.ScheduleSwap describes.
     */
    method ScheduleSwap(call: SwapCall, replies: SwapReplies) returns (target: nat)
      requires Good(State()) && Pair(State(), call.front, call.back) && call.drawable.id != NoDrawable
      modifies this
      ensures (target, State()) == SwapWait.ScheduleSwap(old(State()), call, replies)
      ensures Good(State()) && (old(NoLeak(State())) ==> NoLeak(State()))
    {
      ScheduleSwapKeepsGood(State(), call, replies);
      var r := SwapWait.ScheduleSwap(State(), call, replies);
      target := r.0;
      Load(r.1);
    }

    /** I830DRI2ScheduleWaitMSC: the screen is left as SwapWait.ScheduleWaitMsc describes. */
    method ScheduleWaitMsc(call: WaitCall, replies: WaitReplies)
      requires Good(State()) && call.drawable.id != NoDrawable
      modifies this
      ensures State() == SwapWait.ScheduleWaitMsc(old(State()), call, replies)
      ensures Good(State()) && (old(NoLeak(State())) ==> NoLeak(State()))
    {
      ScheduleWaitMscKeepsGood(State(), call, replies);
      Load(SwapWait.ScheduleWaitMsc(State(), call, replies));
    }

    /** intel_dri2_vblank_handler for the queued vblank request of record `id`. */
    method VblankEvent(id: nat, msc: nat, usec: nat, drawable: Option<Drawable>, rearm: Rearm)
      requires Good(State()) && NoLeak(State()) && id in armed && armed[id] != OnFlip
      requires drawable.Some? ==> id in events && drawable.value.id == events[id].drawable
      modifies this
      ensures old(id in events) && State() == Scheduler.VblankEvent(old(State()), id, msc, usec, drawable, rearm)
      ensures Good(State()) && NoLeak(State())
    {
      DeliveryKeepsGood(State(), id, msc, usec, drawable, rearm);
      Load(Scheduler.VblankEvent(State(), id, msc, usec, drawable, rearm));
    }

    /** I830DRI2FlipComplete for the queued flip of record `id`. */
    method FlipEvent(id: nat, msc: nat, usec: nat, drawableFound: bool)
      requires Good(State()) && NoLeak(State()) && id in armed && armed[id] == OnFlip
      modifies this
      ensures old(id in events) && State() == Scheduler.FlipEvent(old(State()), id, msc, usec, drawableFound)
      ensures Good(State()) && NoLeak(State())
    {
      FlipDeliveryKeepsGood(State(), id, msc, usec, drawableFound);
      Load(Scheduler.FlipEvent(State(), id, msc, usec, drawableFound));
    }

    /** intel_dri2_vblank_abort and I830DRI2FlipAbort: the request is forgotten and its record deleted. */
    method Abort(id: nat)
      requires Good(State()) && NoLeak(State()) && id in armed
      modifies this
      ensures old(id in events) && State() == Scheduler.Abort(old(State()), id)
      ensures Good(State()) && NoLeak(State())
    {
      DeliveryKeepsGood(State(), id, 0, 0, None, Rearm(false, None, false, false, false));
      armed := armed - {id};
      Unlink(id);
    }
  }
}
