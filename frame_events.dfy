/**
 * The DRI2 swap and wait scheduler of src/uxa/intel_dri.c as one object:
 * the pending frame-event records and the per-client and per-drawable lists
 * they are linked into, the DRI2 buffers and their reference counts, the
 * pixmaps behind those buffers, the screen's front and spare back buffer
 * objects, and what the kernel's vblank and page-flip queues will deliver.
 *
 * The kernel, the X server and libdrm are reached only through the
 * arguments of the methods: each call's reply (an allocation that may
 * fail, a counter reading, a vblank reply) is a parameter, and what the
 * driver hands to the server (a blit, a swap or wait completion, a client
 * block, a swap limit) is appended to `trace`, while libdrm reference calls
 * on buffer objects are appended to `boCalls`.
 */
module FrameEvents {
  import opened Common
  import opened Msc
  import opened Dri2Geometry
  import opened Registry

  /**
   * What will deliver a record's event: a vblank request queued for an
   * absolute frame (moved to the next vblank when missed, if so asked), a
   * vblank request for the next frame, or a queued page flip.
   */
  datatype Armed = AtFrame(sequence: nat, nextOnMiss: bool) | NextFrame | OnFlip

  /** A DRI2 buffer: its attachment, its global name, the pixmap behind it, and the reference count of its private part. */
  datatype Dri2Buffer = Dri2Buffer(attachment: Attachment, name: nat, pixmap: nat, refcnt: int)

  /** How a swap was carried out, as reported to the client. */
  datatype CompleteKind = BlitComplete | FlipComplete

  /** What the driver asks of the X server. */
  datatype Action =
    | Blit(drawable: nat, front: nat, back: nat)
    | SwapComplete(requester: Option<nat>, drawable: nat, stamp: Stamp, kind: CompleteKind, callback: Option<nat>)
    | WaitComplete(client: nat, drawable: nat, stamp: Stamp)
    | BlockClient(client: nat, drawable: nat)
    | SwapLimit(drawable: nat, limit: nat)

  /** A libdrm reference-count call on a buffer object. */
  datatype BoCall = BoRef(bo: nat) | BoUnref(bo: nat)

  /** A framebuffer allocation's reply: the buffer object, its pitch and its tiling. */
  datatype Framebuffer = Framebuffer(bo: nat, pitch: nat, tiling: nat)

  /** The screen's size and the front buffer's pitch and tiling. */
  datatype ScreenMode = ScreenMode(virtualX: nat, virtualY: nat, frontPitch: nat, frontTiling: nat)

  // ---------------------------------------------------------------------
  // The invariants, stated over values
  // ---------------------------------------------------------------------

  /**
   * Each buffer's count covers one reference per record field naming it
   * (the rest are the X server's), and is positive.
   */
  ghost predicate Counted(buffers: map<nat, Dri2Buffer>, events: map<nat, FrameEvent>)
  {
    forall b | b in buffers :: buffers[b].refcnt >= RecordRefs(events, b) && buffers[b].refcnt > 0
  }

  /** Every buffer a record names is alive. */
  ghost predicate Held(buffers: map<nat, Dri2Buffer>, events: map<nat, FrameEvent>)
  {
    forall id | id in events ::
      (events[id].front.Some? ==> events[id].front.value in buffers) &&
      (events[id].back.Some? ==> events[id].back.value in buffers)
  }

  /** Swap and flip records name both buffers; wait records name none. */
  ghost predicate Shaped(events: map<nat, FrameEvent>)
  {
    forall id | id in events ::
      (events[id].kind == Dri2WaitMsc <==> events[id].front.None?) &&
      (events[id].front.None? <==> events[id].back.None?)
  }

  /** Every armed request points at a live record, and only swap and flip records are armed on a page flip. */
  ghost predicate ArmedLive(armed: map<nat, Armed>, events: map<nat, FrameEvent>)
  {
    armed.Keys <= events.Keys &&
    forall id | id in armed && armed[id] == OnFlip :: events[id].kind != Dri2WaitMsc
  }

  /** Every buffer's pixmap exists. */
  ghost predicate PixmapsLive(buffers: map<nat, Dri2Buffer>, pixmaps: map<nat, Pixmap>)
  {
    forall b | b in buffers :: buffers[b].pixmap in pixmaps
  }

  // ---------------------------------------------------------------------
  // Dropping buffer references
  // ---------------------------------------------------------------------

  /** I830DRI2DestroyBuffer on the buffer map: the count drops by one and the buffer is freed when it reaches zero. */
  function Release(buffers: map<nat, Dri2Buffer>, b: nat): (r: map<nat, Dri2Buffer>)
    requires b in buffers
    ensures b in r <==> buffers[b].refcnt != 1
    ensures b in r ==> r[b] == buffers[b].(refcnt := buffers[b].refcnt - 1)
    ensures forall x | x != b :: (x in r <==> x in buffers) && (x in r ==> r[x] == buffers[x])
  {
    if buffers[b].refcnt == 1 then buffers - {b}
    else buffers[b := buffers[b].(refcnt := buffers[b].refcnt - 1)]
  }

  /** Release when a record field names a buffer, nothing otherwise. */
  function ReleaseField(buffers: map<nat, Dri2Buffer>, field: Option<nat>): map<nat, Dri2Buffer>
  {
    if field.Some? && field.value in buffers then Release(buffers, field.value) else buffers
  }

  /** The buffer map after i830_dri2_del_frame_event dropped a record's front and then its back reference. */
  function ReleaseRecord(buffers: map<nat, Dri2Buffer>, e: FrameEvent): map<nat, Dri2Buffer>
  {
    ReleaseField(ReleaseField(buffers, e.front), e.back)
  }

  /**
   * When every buffer the record names has at least the record's own
   * references, releasing them lowers each count by the record's references
   * and frees exactly the buffers whose count reaches zero.
   */
  lemma {:induction false} ReleaseRecordShape(buffers: map<nat, Dri2Buffer>, e: FrameEvent)
    requires forall x | Holds(e, x) > 0 :: x in buffers && buffers[x].refcnt >= Holds(e, x)
    requires forall x | x in buffers :: buffers[x].refcnt > 0
    ensures forall x ::
      (x in ReleaseRecord(buffers, e) <==> x in buffers && buffers[x].refcnt != Holds(e, x)) &&
      (x in ReleaseRecord(buffers, e) ==> ReleaseRecord(buffers, e)[x] == buffers[x].(refcnt := buffers[x].refcnt - Holds(e, x)))
  {
    var b1 := ReleaseField(buffers, e.front);
    forall x
      ensures (x in ReleaseRecord(buffers, e) <==> x in buffers && buffers[x].refcnt != Holds(e, x)) &&
        (x in ReleaseRecord(buffers, e) ==> ReleaseRecord(buffers, e)[x] == buffers[x].(refcnt := buffers[x].refcnt - Holds(e, x)))
    {
      if e.front == Some(x) && e.back == Some(x) {
        assert x in b1 && b1[x].refcnt == buffers[x].refcnt - 1;
      } else if e.front == Some(x) {
        assert Holds(e, x) == 1;
      } else if e.back == Some(x) {
        assert Holds(e, x) == 1 && x in b1 && b1[x] == buffers[x];
      } else {
        assert Holds(e, x) == 0;
      }
    }
  }

  /** Deleting a counted, held record keeps the remaining counts right and the remaining records' buffers alive. */
  lemma {:induction false} ReleaseKeepsCounts(buffers: map<nat, Dri2Buffer>, events: map<nat, FrameEvent>, id: nat)
    requires Counted(buffers, events) && Held(buffers, events) && id in events
    ensures Counted(ReleaseRecord(buffers, events[id]), events - {id})
    ensures Held(ReleaseRecord(buffers, events[id]), events - {id})
  {
    var e := events[id];
    var ev := events - {id};
    forall x | Holds(e, x) > 0
      ensures x in buffers && buffers[x].refcnt >= Holds(e, x)
    {
      RecordRefsAtLeast(events, id, x);
    }
    assert forall x | x in buffers :: buffers[x].refcnt > 0;
    ReleaseRecordShape(buffers, e);
    var r := ReleaseRecord(buffers, e);
    forall x | x in r
      ensures r[x].refcnt >= RecordRefs(ev, x) && r[x].refcnt > 0
    {
      RecordRefsRemove(events, id, x);
    }
    forall id2 | id2 in ev
      ensures (ev[id2].front.Some? ==> ev[id2].front.value in r) &&
        (ev[id2].back.Some? ==> ev[id2].back.value in r)
    {
      if ev[id2].front.Some? {
        var x := ev[id2].front.value;
        RecordRefsAtLeast(ev, id2, x);
        RecordRefsRemove(events, id, x);
      }
      if ev[id2].back.Some? {
        var x := ev[id2].back.value;
        RecordRefsAtLeast(ev, id2, x);
        RecordRefsRemove(events, id, x);
      }
    }
  }

  // ---------------------------------------------------------------------
  // Taking buffer references
  // ---------------------------------------------------------------------

  /** I830DRI2ReferenceBuffer on the buffer map. */
  function Reference(buffers: map<nat, Dri2Buffer>, b: nat): (r: map<nat, Dri2Buffer>)
    requires b in buffers
    ensures r.Keys == buffers.Keys
    ensures r[b] == buffers[b].(refcnt := buffers[b].refcnt + 1)
    ensures forall x | x in buffers && x != b :: r[x] == buffers[x]
  {
    buffers[b := buffers[b].(refcnt := buffers[b].refcnt + 1)]
  }

  /** Reference when a record field names a buffer, nothing otherwise. */
  function ReferenceField(buffers: map<nat, Dri2Buffer>, field: Option<nat>): (r: map<nat, Dri2Buffer>)
    ensures r.Keys == buffers.Keys
  {
    if field.Some? && field.value in buffers then Reference(buffers, field.value) else buffers
  }

  /** The buffer map after a new record took its front and then its back reference. */
  function ReferenceRecord(buffers: map<nat, Dri2Buffer>, e: FrameEvent): (r: map<nat, Dri2Buffer>)
    ensures r.Keys == buffers.Keys
  {
    ReferenceField(ReferenceField(buffers, e.front), e.back)
  }

  /** Taking a record's references changes the pixmap of neither of its buffers. */
  lemma ReferenceRecordKeepsPixmaps(buffers: map<nat, Dri2Buffer>, e: FrameEvent)
    ensures e.front.Some? && e.front.value in buffers ==>
      ReferenceRecord(buffers, e)[e.front.value].pixmap == buffers[e.front.value].pixmap
    ensures e.back.Some? && e.back.value in buffers ==>
      ReferenceRecord(buffers, e)[e.back.value].pixmap == buffers[e.back.value].pixmap
  {
  }

  /** Taking a record's references raises each count by exactly the record's references. */
  lemma {:induction false} ReferenceRecordShape(buffers: map<nat, Dri2Buffer>, e: FrameEvent)
    requires forall x | Holds(e, x) > 0 :: x in buffers
    ensures ReferenceRecord(buffers, e).Keys == buffers.Keys
    ensures forall x | x in buffers :: ReferenceRecord(buffers, e)[x] == buffers[x].(refcnt := buffers[x].refcnt + Holds(e, x))
  {
    var b1 := ReferenceField(buffers, e.front);
    forall x | x in buffers
      ensures ReferenceRecord(buffers, e)[x] == buffers[x].(refcnt := buffers[x].refcnt + Holds(e, x))
    {
      if e.front == Some(x) && e.back == Some(x) {
        assert b1[x].refcnt == buffers[x].refcnt + 1;
      } else if e.front == Some(x) {
        assert Holds(e, x) == 1;
      } else if e.back == Some(x) {
        assert Holds(e, x) == 1 && b1[x] == buffers[x];
      } else {
        assert Holds(e, x) == 0;
      }
    }
  }

  /** A new record whose buffers are alive keeps the counts right once it has taken its references. */
  lemma {:induction false} ReferenceKeepsCounts(buffers: map<nat, Dri2Buffer>,   events: map<nat, FrameEvent>, id: nat, e: FrameEvent)
    requires Counted(buffers, events) && Held(buffers, events) && id !in events
    requires e.front.Some? ==> e.front.value in buffers
    requires e.back.Some? ==> e.back.value in buffers
    ensures Counted(ReferenceRecord(buffers, e), events[id := e])
    ensures Held(ReferenceRecord(buffers, e), events[id := e])
  {
    ReferenceRecordShape(buffers, e);
    forall x | x in buffers
      ensures RecordRefs(events[id := e], x) == RecordRefs(events, x) + Holds(e, x)
    {
      RecordRefsInsert(events, id, e, x);
    }
  }

  /** Whether i830_dri2_del_frame_event hands a flip's old scan-out buffer back as the spare back buffer. */
  predicate HandsBack(backBo: Option<nat>, mode: ScreenMode, old_: OldBuffer)
  {
    backBo.None? && old_.width == mode.virtualX && old_.height == mode.virtualY &&
    old_.pitch == mode.frontPitch && old_.tiling == mode.frontTiling
  }

  /** What pixmap_flink does to the pixmap it names: its buffer object is pinned for DRI2, nothing else changes. */
  function PinForDri2(p: Pixmap): (r: Pixmap)
    ensures r.priv.pinned & PinDri2 == PinDri2
    ensures r.priv.pinned & !PinDri2 == p.priv.pinned & !PinDri2
    ensures r == p.(priv := r.priv) && r.priv == p.priv.(pinned := r.priv.pinned)
  {
    p.(priv := p.priv.(pinned := p.priv.pinned | PinDri2))
  }

  // ---------------------------------------------------------------------
  // The bookkeeping, and what each step does to it
  // ---------------------------------------------------------------------

  /** Records and owner lists in step, no list for the absent drawable, and record ids below the next one handed out. */
  ghost predicate Listed(events: map<nat, FrameEvent>, clientLists: map<nat, seq<nat>>, drawableLists: map<nat, seq<nat>>, nextEvent: nat)
  {
    Linked(clientLists, events, ClientSide) && Linked(drawableLists, events, DrawableSide) &&
    NoDrawable !in drawableLists && forall id | id in events :: id < nextEvent
  }

  /** Buffer counts cover the records' references, buffers of pending records are alive, and every buffer's pixmap is present. */
  ghost predicate BuffersKept(buffers: map<nat, Dri2Buffer>, events: map<nat, FrameEvent>, pixmaps: map<nat, Pixmap>)
  {
    Counted(buffers, events) && Held(buffers, events) && PixmapsLive(buffers, pixmaps)
  }

  /** Everything every operation keeps. */
  ghost predicate Invariant(events: map<nat, FrameEvent>, clientLists: map<nat, seq<nat>>, drawableLists: map<nat, seq<nat>>,
                            nextEvent: nat, buffers: map<nat, Dri2Buffer>, armed: map<nat, Armed>, pixmaps: map<nat, Pixmap>)
  {
    Listed(events, clientLists, drawableLists, nextEvent) &&
    BuffersKept(buffers, events, pixmaps) && Shaped(events) && ArmedLive(armed, events)
  }

  /** Dropping one reference the X server holds keeps the counts, and frees the buffer only when no record names it. */
  lemma ServerUnrefKeepsCounts(buffers: map<nat, Dri2Buffer>, events: map<nat, FrameEvent>, pixmaps: map<nat, Pixmap>, b: nat)
    requires BuffersKept(buffers, events, pixmaps) && b in buffers && buffers[b].refcnt > RecordRefs(events, b)
    ensures BuffersKept(Release(buffers, b), events, pixmaps)
    ensures b !in Release(buffers, b) ==> forall id | id in events :: Holds(events[id], b) == 0
  {
    RecordRefsZero(events, b);
  }

  /** A new buffer with the X server's single reference, over a present pixmap, keeps the buffer bookkeeping. */
  lemma NewBufferKeepsBuffers(buffers: map<nat, Dri2Buffer>, events: map<nat, FrameEvent>, pixmaps: map<nat, Pixmap>,
                              b: nat, buffer: Dri2Buffer, pixmaps': map<nat, Pixmap>)
    requires BuffersKept(buffers, events, pixmaps) && b !in buffers
    requires buffer.refcnt == 1 && buffer.pixmap in pixmaps' && pixmaps.Keys <= pixmaps'.Keys
    ensures BuffersKept(buffers[b := buffer], events, pixmaps')
  {
    RecordRefsZero(events, b);
  }

  /** get_resource creating the empty list of a client or drawable that had none keeps the lists in step. */
  lemma NewListKeepsListed(events: map<nat, FrameEvent>, clientLists: map<nat, seq<nat>>, drawableLists: map<nat, seq<nat>>,
                           nextEvent: nat, c: nat, d: nat)
    requires Listed(events, clientLists, drawableLists, nextEvent) && d != NoDrawable
    ensures c !in clientLists ==> Listed(events, clientLists[c := []], drawableLists, nextEvent)
    ensures d !in drawableLists ==> Listed(events, clientLists, drawableLists[d := []], nextEvent)
  {
    if c !in clientLists {
      AddEmpty(clientLists, events, ClientSide, c);
    }
    if d !in drawableLists {
      AddEmpty(drawableLists, events, DrawableSide, d);
    }
  }

  /** i830_dri2_add_frame_event: a fresh record put at the head of its client's and its drawable's lists keeps them in step. */
  lemma {:induction false} LinkKeepsListed(events: map<nat, FrameEvent>, clientLists: map<nat, seq<nat>>,
                                           drawableLists: map<nat, seq<nat>>, nextEvent: nat, e: FrameEvent)
    requires Listed(events, clientLists, drawableLists, nextEvent)
    requires e.client.Some? && e.drawable != NoDrawable
    ensures Listed(events[nextEvent := e],
                   clientLists[e.client.value := [nextEvent] + ListOf(clientLists, e.client.value)],
                   drawableLists[e.drawable := [nextEvent] + ListOf(drawableLists, e.drawable)], nextEvent + 1)
  {
    assert nextEvent !in events;
    LinkNew(clientLists, events, ClientSide, nextEvent, e);
    LinkNew(drawableLists, events, DrawableSide, nextEvent, e);
  }

  /** A new record whose buffers are alive, having taken its references, keeps the buffer bookkeeping. */
  lemma AddKeepsBuffers(events: map<nat, FrameEvent>, buffers: map<nat, Dri2Buffer>,
                        pixmaps: map<nat, Pixmap>, id: nat, e: FrameEvent)
    requires BuffersKept(buffers, events, pixmaps) && id !in events
    requires e.front.Some? ==> e.front.value in buffers
    requires e.back.Some? ==> e.back.value in buffers
    ensures BuffersKept(ReferenceRecord(buffers, e), events[id := e], pixmaps)
  {
    ReferenceKeepsCounts(buffers, events, id, e);
    var r := ReferenceRecord(buffers, e);
    assert PixmapsLive(r, pixmaps) by {
      forall x | x in r
        ensures r[x].pixmap in pixmaps
      {
        assert r[x].pixmap == buffers[x].pixmap;
      }
    }
  }

  /** A new, well-shaped record keeps the shapes and the armed requests. */
  lemma AddKeepsShapes(events: map<nat, FrameEvent>, armed: map<nat, Armed>, id: nat, e: FrameEvent)
    requires Shaped(events) && ArmedLive(armed, events) && id !in events
    requires (e.kind == Dri2WaitMsc <==> e.front.None?) && (e.front.None? <==> e.back.None?)
    ensures Shaped(events[id := e]) && ArmedLive(armed, events[id := e])
  {
  }

  /** Unlinking and forgetting a record keeps the lists in step. */
  lemma {:induction false} DeleteKeepsListed(events: map<nat, FrameEvent>, clientLists: map<nat, seq<nat>>,
                                             drawableLists: map<nat, seq<nat>>, nextEvent: nat, id: nat)
    requires Listed(events, clientLists, drawableLists, nextEvent) && id in events
    ensures Listed(events - {id}, Unlink(clientLists, Owner(events[id], ClientSide), id),
                   Unlink(drawableLists, Owner(events[id], DrawableSide), id), nextEvent)
  {
    UnlinkRecord(clientLists, events, ClientSide, id);
    UnlinkRecord(drawableLists, events, DrawableSide, id);
  }

  /** i830_dri2_del_frame_event on a record no request points at keeps the bookkeeping. */
  lemma {:induction false} DeleteKeepsInvariant(events: map<nat, FrameEvent>, clientLists: map<nat, seq<nat>>,
                                                drawableLists: map<nat, seq<nat>>, nextEvent: nat,
                                                buffers: map<nat, Dri2Buffer>, armed: map<nat, Armed>,
                                                pixmaps: map<nat, Pixmap>, id: nat)
    requires Invariant(events, clientLists, drawableLists, nextEvent, buffers, armed, pixmaps)
    requires id in events && id !in armed
    ensures Invariant(events - {id}, Unlink(clientLists, Owner(events[id], ClientSide), id),
                      Unlink(drawableLists, Owner(events[id], DrawableSide), id), nextEvent,
                      ReleaseRecord(buffers, events[id]), armed, pixmaps)
  {
    DeleteKeepsListed(events, clientLists, drawableLists, nextEvent, id);
    DeleteKeepsBuffers(buffers, events, pixmaps, id);
  }

  /** Releasing a deleted record's buffers keeps the buffer bookkeeping. */
  lemma {:induction false} DeleteKeepsBuffers(buffers: map<nat, Dri2Buffer>, events: map<nat, FrameEvent>,
                                              pixmaps: map<nat, Pixmap>, id: nat)
    requires BuffersKept(buffers, events, pixmaps) && id in events
    ensures BuffersKept(ReleaseRecord(buffers, events[id]), events - {id}, pixmaps)
  {
    ReleaseKeepsCounts(buffers, events, id);
    assert forall x | x in buffers :: buffers[x].refcnt > 0;
    forall x | Holds(events[id], x) > 0
      ensures x in buffers && buffers[x].refcnt >= Holds(events[id], x)
    {
      RecordRefsAtLeast(events, id, x);
    }
    ReleaseRecordShape(buffers, events[id]);
  }

  /** Owner-list half of one step of i830_dri2_frame_event_client_gone. */
  lemma {:induction false} DisownClientKeepsListed(events: map<nat, FrameEvent>, clientLists: map<nat, seq<nat>>,
                                                   drawableLists: map<nat, seq<nat>>, nextEvent: nat, c: nat)
    requires Listed(events, clientLists, drawableLists, nextEvent)
    requires c in clientLists && clientLists[c] != []
    ensures clientLists[c][0] in events && events[clientLists[c][0]].client == Some(c)
    ensures var id := clientLists[c][0];
      Listed(events[id := Disown(events[id], ClientSide)], clientLists[c := clientLists[c][1..]], drawableLists, nextEvent)
  {
    var id := clientLists[c][0];
    DisownHead(clientLists, events, ClientSide, c);
    OwnerKept(drawableLists, events, DrawableSide, id, Disown(events[id], ClientSide));
  }

  /** Owner-list half of one step of i830_dri2_frame_event_drawable_gone. */
  lemma {:induction false} DisownDrawableKeepsListed(events: map<nat, FrameEvent>, clientLists: map<nat, seq<nat>>,
                                                     drawableLists: map<nat, seq<nat>>, nextEvent: nat, d: nat)
    requires Listed(events, clientLists, drawableLists, nextEvent)
    requires d in drawableLists && drawableLists[d] != []
    ensures drawableLists[d][0] in events && events[drawableLists[d][0]].drawable == d
    ensures var id := drawableLists[d][0];
      Listed(events[id := Disown(events[id], DrawableSide)], clientLists, drawableLists[d := drawableLists[d][1..]], nextEvent)
  {
    var id := drawableLists[d][0];
    DisownHead(drawableLists, events, DrawableSide, d);
    OwnerKept(clientLists, events, ClientSide, id, Disown(events[id], DrawableSide));
  }

  /** A record changed in its owners only, or in fields no invariant reads, keeps the buffer bookkeeping, the shapes and the armed requests. */
  lemma {:induction false} SameBuffersKeepsBuffers(events: map<nat, FrameEvent>, buffers: map<nat, Dri2Buffer>,
                                                   armed: map<nat, Armed>, pixmaps: map<nat, Pixmap>, id: nat, e: FrameEvent)
    requires BuffersKept(buffers, events, pixmaps) && Shaped(events) && ArmedLive(armed, events) && id in events
    requires e.front == events[id].front && e.back == events[id].back
    requires e.kind == Dri2WaitMsc <==> events[id].kind == Dri2WaitMsc
    ensures BuffersKept(buffers, events[id := e], pixmaps) && Shaped(events[id := e]) && ArmedLive(armed, events[id := e])
  {
    var ev := events[id := e];
    forall b
      ensures RecordRefs(ev, b) == RecordRefs(events, b)
    {
      SameHoldings(ev, events, b);
    }
  }

  /** One step of i830_dri2_frame_event_client_gone keeps the bookkeeping. */
  lemma DisownClientKeepsInvariant(events: map<nat, FrameEvent>, clientLists: map<nat, seq<nat>>,
                                   drawableLists: map<nat, seq<nat>>, nextEvent: nat,
                                   buffers: map<nat, Dri2Buffer>, armed: map<nat, Armed>,
                                   pixmaps: map<nat, Pixmap>, c: nat)
    requires Invariant(events, clientLists, drawableLists, nextEvent, buffers, armed, pixmaps)
    requires c in clientLists && clientLists[c] != []
    ensures clientLists[c][0] in events && events[clientLists[c][0]].client == Some(c)
    ensures var id := clientLists[c][0];
      Invariant(events[id := Disown(events[id], ClientSide)], clientLists[c := clientLists[c][1..]], drawableLists, nextEvent,
                buffers, armed, pixmaps)
  {
    DisownClientKeepsListed(events, clientLists, drawableLists, nextEvent, c);
    var id := clientLists[c][0];
    SameBuffersKeepsBuffers(events, buffers, armed, pixmaps, id, Disown(events[id], ClientSide));
  }

  /** One step of i830_dri2_frame_event_drawable_gone keeps the bookkeeping. */
  lemma DisownDrawableKeepsInvariant(events: map<nat, FrameEvent>, clientLists: map<nat, seq<nat>>,
                                     drawableLists: map<nat, seq<nat>>, nextEvent: nat,
                                     buffers: map<nat, Dri2Buffer>, armed: map<nat, Armed>,
                                     pixmaps: map<nat, Pixmap>, d: nat)
    requires Invariant(events, clientLists, drawableLists, nextEvent, buffers, armed, pixmaps)
    requires d in drawableLists && drawableLists[d] != []
    ensures drawableLists[d][0] in events && events[drawableLists[d][0]].drawable == d
    ensures var id := drawableLists[d][0];
      Invariant(events[id := Disown(events[id], DrawableSide)], clientLists, drawableLists[d := drawableLists[d][1..]],
                nextEvent, buffers, armed, pixmaps)
  {
    DisownDrawableKeepsListed(events, clientLists, drawableLists, nextEvent, d);
    var id := drawableLists[d][0];
    SameBuffersKeepsBuffers(events, buffers, armed, pixmaps, id, Disown(events[id], DrawableSide));
  }

  /** Freeing a client resource whose list is empty keeps the bookkeeping; no record names that client. */
  lemma DropClientKeepsInvariant(events: map<nat, FrameEvent>, clientLists: map<nat, seq<nat>>,
                                 drawableLists: map<nat, seq<nat>>, nextEvent: nat,
                                 buffers: map<nat, Dri2Buffer>, armed: map<nat, Armed>, pixmaps: map<nat, Pixmap>, c: nat)
    requires Invariant(events, clientLists, drawableLists, nextEvent, buffers, armed, pixmaps)
    requires c in clientLists && clientLists[c] == []
    ensures Invariant(events, clientLists - {c}, drawableLists, nextEvent, buffers, armed, pixmaps)
    ensures forall id | id in events :: events[id].client != Some(c)
  {
    DropEmpty(clientLists, events, ClientSide, c);
  }

  /** Freeing a drawable resource whose list is empty keeps the bookkeeping; no record names that drawable. */
  lemma DropDrawableKeepsInvariant(events: map<nat, FrameEvent>, clientLists: map<nat, seq<nat>>,
                                   drawableLists: map<nat, seq<nat>>, nextEvent: nat,
                                   buffers: map<nat, Dri2Buffer>, armed: map<nat, Armed>, pixmaps: map<nat, Pixmap>, d: nat)
    requires Invariant(events, clientLists, drawableLists, nextEvent, buffers, armed, pixmaps)
    requires d in drawableLists && drawableLists[d] == []
    ensures Invariant(events, clientLists, drawableLists - {d}, nextEvent, buffers, armed, pixmaps)
    ensures forall id | id in events :: events[id].drawable != d
  {
    DropEmpty(drawableLists, events, DrawableSide, d);
  }

  // ---------------------------------------------------------------------
  // The screen's DRI2 state, and the buffer and registry steps on it
  // ---------------------------------------------------------------------

  /**
   * Everything the DRI2 code of one screen keeps: the live records and the
   * lists they are linked into, the requests queued with the kernel, the
   * DRI2 buffers and the pixmaps behind them, intel->front_buffer and
   * intel->back_buffer, the screen mode and flags, the libdrm reference
   * calls and server requests made so far, and the next record id.
   */
  datatype Screen = Screen(
    events: map<nat, FrameEvent>, clientLists: map<nat, seq<nat>>, drawableLists: map<nat, seq<nat>>,
    armed: map<nat, Armed>, buffers: map<nat, Dri2Buffer>, pixmaps: map<nat, Pixmap>,
    frontBo: nat, backBo: Option<nat>, mode: ScreenMode, flags: ScreenFlags,
    boCalls: seq<BoCall>, trace: seq<Action>, nextEvent: nat)

  /** The bookkeeping every step keeps. */
  ghost predicate Good(s: Screen)
  {
    Invariant(s.events, s.clientLists, s.drawableLists, s.nextEvent, s.buffers, s.armed, s.pixmaps)
  }

  /** Between X requests every live record waits for a vblank or a flip, so some kernel event will free it. */
  ghost predicate NoLeak(s: Screen)
  {
    s.events.Keys <= s.armed.Keys
  }
  /** A record that was the only unarmed one leaves no leak behind once it is deleted. */
  lemma DeletedLastUnarmed(events: map<nat, FrameEvent>, armed: map<nat, Armed>, id: nat, a: Armed)
    requires events.Keys <= armed[id := a].Keys
    ensures (events - {id}).Keys <= armed.Keys
  {
  }


  /** A screen with no records, buffers or lists yet. */
  function Initial(mode: ScreenMode, flags: ScreenFlags, frontBo: nat, pixmaps: map<nat, Pixmap>): (s: Screen)
    ensures Good(s) && NoLeak(s)
    ensures s.events == map[] && s.buffers == map[] && s.backBo == None && s.frontBo == frontBo
  {
    Screen(map[], map[], map[], map[], map[], pixmaps, frontBo, None, mode, flags, [], [], 0)
  }

  /**
   * The end of I830DRI2CreateBuffer: a new buffer over `pixmap` starts
   * with one reference, the X server's, and is named by flinking the
   * pixmap's buffer object, which pins it for DRI2. When naming fails
   * (`named` false) no buffer is created.
   */
  function CreateBuffer(s: Screen, b: nat, attachment: Attachment, pixmap: nat, named: bool): (r: Screen)
    requires b !in s.buffers && pixmap in s.pixmaps
    ensures b in r.buffers <==> named
    ensures named ==> r.buffers[b] == Dri2Buffer(attachment, s.pixmaps[pixmap].priv.bo, pixmap, 1)
    ensures r.pixmaps.Keys == s.pixmaps.Keys
    ensures named ==> r.pixmaps[pixmap].priv.pinned & PinDri2 == PinDri2
    ensures r.buffers - {b} == s.buffers && r.events == s.events && r.armed == s.armed
  {
    if !named then s
    else s.(pixmaps := s.pixmaps[pixmap := PinForDri2(s.pixmaps[pixmap])],
            buffers := s.buffers[b := Dri2Buffer(attachment, s.pixmaps[pixmap].priv.bo, pixmap, 1)])
  }

  /** Creating a buffer keeps the bookkeeping. */
  lemma CreateBufferKeepsGood(s: Screen, b: nat, attachment: Attachment, pixmap: nat, named: bool)
    requires Good(s) && b !in s.buffers && pixmap in s.pixmaps
    ensures Good(CreateBuffer(s, b, attachment, pixmap, named))
    ensures NoLeak(s) ==> NoLeak(CreateBuffer(s, b, attachment, pixmap, named))
  {
    if named {
      NewBufferKeepsBuffers(s.buffers, s.events, s.pixmaps, b, Dri2Buffer(attachment, s.pixmaps[pixmap].priv.bo, pixmap, 1),
                            s.pixmaps[pixmap := PinForDri2(s.pixmaps[pixmap])]);
    }
  }

  /** I830DRI2ReferenceBuffer: one more reference. */
  function ReferenceBuffer(s: Screen, b: nat): Screen
    requires b in s.buffers
  {
    s.(buffers := Reference(s.buffers, b))
  }

  /** A further reference keeps the bookkeeping, and the buffer's count only grows. */
  lemma ReferenceBufferKeepsGood(s: Screen, b: nat)
    requires Good(s) && b in s.buffers
    ensures Good(ReferenceBuffer(s, b)) && (NoLeak(s) ==> NoLeak(ReferenceBuffer(s, b)))
    ensures ReferenceBuffer(s, b).buffers[b].refcnt == s.buffers[b].refcnt + 1
  {
  }

  /** I830DRI2DestroyBuffer: one reference fewer, and the buffer is freed when that was the last one. */
  function DestroyBuffer(s: Screen, b: nat): Screen
    requires b in s.buffers
  {
    s.(buffers := Release(s.buffers, b))
  }

  /**
   * The X server dropping one of its own references keeps the bookkeeping:
   * the buffer is freed exactly when its count reaches zero, and then no
   * pending record names it, since the records' references are still
   * counted.
   */
  lemma DestroyBufferKeepsGood(s: Screen, b: nat)
    requires Good(s) && b in s.buffers && s.buffers[b].refcnt > RecordRefs(s.events, b)
    ensures Good(DestroyBuffer(s, b)) && (NoLeak(s) ==> NoLeak(DestroyBuffer(s, b)))
    ensures b !in DestroyBuffer(s, b).buffers <==> s.buffers[b].refcnt == 1
    ensures b !in DestroyBuffer(s, b).buffers ==> forall id | id in s.events :: Holds(s.events[id], b) == 0
  {
    ServerUnrefKeepsCounts(s.buffers, s.events, s.pixmaps, b);
  }

  /**
   * i830_dri2_add_frame_event for a new record `e`, which gets the id
   * `nextEvent`, followed on success by the I830DRI2ReferenceBuffer calls
   * on the buffers it names. get_resource finds the list of the record's
   * client (and then of its drawable), or creates an empty one when the
   * server grants a new resource (`clientSlot`, `drawableSlot`). When the
   * drawable's list cannot be had, the record leaves the client's list
   * again, though a client list created for it stays, empty.
   */
  function AddFrameEvent(s: Screen, e: FrameEvent, clientSlot: bool, drawableSlot: bool): (res: (bool, Screen))
    requires e.client.Some? && e.drawable != NoDrawable
    ensures res.1.armed == s.armed && res.1.pixmaps == s.pixmaps && res.1.trace == s.trace && res.1.boCalls == s.boCalls
    ensures res.1.frontBo == s.frontBo && res.1.backBo == s.backBo && res.1.mode == s.mode && res.1.flags == s.flags
    ensures res.0 ==> res.1.events == s.events[s.nextEvent := e] && res.1.nextEvent == s.nextEvent + 1 &&
                      res.1.buffers.Keys == s.buffers.Keys &&
                      (e.front.Some? && e.front.value in s.buffers ==> res.1.buffers[e.front.value].pixmap == s.buffers[e.front.value].pixmap) &&
                      (e.back.Some? && e.back.value in s.buffers ==> res.1.buffers[e.back.value].pixmap == s.buffers[e.back.value].pixmap)
    ensures !res.0 ==> res.1.events == s.events && res.1.buffers == s.buffers && res.1.nextEvent == s.nextEvent
  {
    var c := e.client.value;
    if c !in s.clientLists && !clientSlot then (false, s)
    else
      var cl := if c in s.clientLists then s.clientLists else s.clientLists[c := []];
      if e.drawable !in s.drawableLists && !drawableSlot then (false, s.(clientLists := cl))
      else
        var dl := if e.drawable in s.drawableLists then s.drawableLists else s.drawableLists[e.drawable := []];
        var id := s.nextEvent;
        ReferenceRecordKeepsPixmaps(s.buffers, e);
        (true, s.(events := s.events[id := e], clientLists := cl[c := [id] + cl[c]],
                  drawableLists := dl[e.drawable := [id] + dl[e.drawable]],
                  buffers := ReferenceRecord(s.buffers, e), nextEvent := id + 1))
  }

  /**
   * Adding a record links it into both its client's and its drawable's
   * list, or into neither: it succeeds exactly when both lists exist or
   * can be created, and on failure no record and no list entry is added.
   */
  lemma AddFrameEventSpec(s: Screen, e: FrameEvent, clientSlot: bool, drawableSlot: bool)
    requires e.client.Some? && e.drawable != NoDrawable
    ensures var (ok, r) := AddFrameEvent(s, e, clientSlot, drawableSlot);
      var id := s.nextEvent;
      (ok <==> (e.client.value in s.clientLists || clientSlot) && (e.drawable in s.drawableLists || drawableSlot)) &&
      (ok ==> id in r.clientLists[e.client.value] && id in r.drawableLists[e.drawable]) &&
      (!ok ==> r.drawableLists == s.drawableLists &&
               forall k | k in r.clientLists :: k in s.clientLists ==> r.clientLists[k] == s.clientLists[k])
  {
  }

  /** Adding a well-shaped record whose buffers are alive keeps the bookkeeping; the new id is fresh. */
  lemma AddFrameEventKeepsGood(s: Screen, e: FrameEvent, clientSlot: bool, drawableSlot: bool)
    requires Good(s) && e.client.Some? && e.drawable != NoDrawable
    requires e.front.Some? ==> e.front.value in s.buffers
    requires e.back.Some? ==> e.back.value in s.buffers
    requires (e.kind == Dri2WaitMsc <==> e.front.None?) && (e.front.None? <==> e.back.None?)
    ensures s.nextEvent !in s.events && Good(AddFrameEvent(s, e, clientSlot, drawableSlot).1)
  {
    var c := e.client.value;
    var id := s.nextEvent;
    NewListKeepsListed(s.events, s.clientLists, s.drawableLists, id, c, e.drawable);
    var cl := if c in s.clientLists then s.clientLists else s.clientLists[c := []];
    if (c in s.clientLists || clientSlot) && (e.drawable in s.drawableLists || drawableSlot) {
      NewListKeepsListed(s.events, cl, s.drawableLists, id, c, e.drawable);
      var dl := if e.drawable in s.drawableLists then s.drawableLists else s.drawableLists[e.drawable := []];
      AddKeepsInvariant(s.events, cl, dl, id, s.buffers, s.armed, s.pixmaps, e);
    }
  }

  /** A fresh, well-shaped record linked at the head of both its lists, having taken its references, keeps the bookkeeping. */
  lemma AddKeepsInvariant(events: map<nat, FrameEvent>, clientLists: map<nat, seq<nat>>,
                          drawableLists: map<nat, seq<nat>>, nextEvent: nat,
                          buffers: map<nat, Dri2Buffer>, armed: map<nat, Armed>,
                          pixmaps: map<nat, Pixmap>, e: FrameEvent)
    requires Invariant(events, clientLists, drawableLists, nextEvent, buffers, armed, pixmaps)
    requires e.client.Some? && e.client.value in clientLists && e.drawable != NoDrawable && e.drawable in drawableLists
    requires e.front.Some? ==> e.front.value in buffers
    requires e.back.Some? ==> e.back.value in buffers
    requires (e.kind == Dri2WaitMsc <==> e.front.None?) && (e.front.None? <==> e.back.None?)
    ensures Invariant(events[nextEvent := e],
                      clientLists[e.client.value := [nextEvent] + clientLists[e.client.value]],
                      drawableLists[e.drawable := [nextEvent] + drawableLists[e.drawable]], nextEvent + 1,
                      ReferenceRecord(buffers, e), armed, pixmaps)
  {
    LinkKeepsListed(events, clientLists, drawableLists, nextEvent, e);
    assert ListOf(clientLists, e.client.value) == clientLists[e.client.value];
    assert ListOf(drawableLists, e.drawable) == drawableLists[e.drawable];
    assert nextEvent !in events;
    AddKeepsBuffers(events, buffers, pixmaps, nextEvent, e);
    AddKeepsShapes(events, armed, nextEvent, e);
  }

  /**
   * i830_dri2_del_frame_event: the record leaves the lists of its client
   * and drawable (if it still has them), drops its references on its front
   * and back buffers, and its old scan-out buffer, if any, goes back as the
   * spare back buffer when there is none and the screen still has the size,
   * pitch and tiling that buffer was made for; otherwise its reference is
   * dropped.
   */
  function DelFrameEvent(s: Screen, id: nat): (r: Screen)
    requires id in s.events
    ensures id !in r.events && r.events == s.events - {id}
    ensures r.armed == s.armed && r.pixmaps == s.pixmaps && r.trace == s.trace && r.nextEvent == s.nextEvent
    ensures r.frontBo == s.frontBo && r.mode == s.mode && r.flags == s.flags
  {
    ReturnOldBuffer(DropRecord(s, id), s.events[id].oldBuffer)
  }

  /** The record leaves its lists and drops its buffer references. */
  function DropRecord(s: Screen, id: nat): (r: Screen)
    requires id in s.events
    ensures r == s.(events := r.events, clientLists := r.clientLists, drawableLists := r.drawableLists, buffers := r.buffers)
    ensures r.events == s.events - {id}
  {
    var e := s.events[id];
    s.(events := s.events - {id},
       clientLists := Unlink(s.clientLists, Owner(e, ClientSide), id),
       drawableLists := Unlink(s.drawableLists, Owner(e, DrawableSide), id),
       buffers := ReleaseRecord(s.buffers, e))
  }

  /** The record's old scan-out buffer becomes the spare back buffer when HandsBack allows, and is unreferenced otherwise. */
  function ReturnOldBuffer(s: Screen, ob: Option<OldBuffer>): (r: Screen)
    ensures r == s.(backBo := r.backBo, boCalls := r.boCalls)
    ensures ob.None? ==> r == s
    ensures ob.Some? && HandsBack(s.backBo, s.mode, ob.value) ==> r.backBo == Some(ob.value.bo) && r.boCalls == s.boCalls
    ensures ob.Some? && !HandsBack(s.backBo, s.mode, ob.value) ==>
      r.backBo == s.backBo && r.boCalls == s.boCalls + [BoUnref(ob.value.bo)]
  {
    if ob.None? then s
    else if HandsBack(s.backBo, s.mode, ob.value) then s.(backBo := Some(ob.value.bo))
    else s.(boCalls := s.boCalls + [BoUnref(ob.value.bo)])
  }

  /**
   * Deleting a record no queued request points at keeps the bookkeeping:
   * no list holds the record any more, each buffer's count drops by the
   * record's references and a buffer is freed exactly when its count
   * reaches zero, and the old scan-out buffer is handed back exactly when
   * HandsBack holds and is unreferenced otherwise.
   */
  lemma DelFrameEventSpec(s: Screen, id: nat)
    requires Good(s) && id in s.events && id !in s.armed
    ensures var r := DelFrameEvent(s, id);
      Good(r) && (NoLeak(s) ==> NoLeak(r)) &&
      (forall k | k in r.clientLists :: id !in r.clientLists[k]) &&
      (forall k | k in r.drawableLists :: id !in r.drawableLists[k])
    ensures var r := DelFrameEvent(s, id); var e := s.events[id];
      forall b | b in s.buffers ::
        (b in r.buffers <==> s.buffers[b].refcnt != Holds(e, b)) &&
        (b in r.buffers ==> r.buffers[b].refcnt == s.buffers[b].refcnt - Holds(e, b))
    ensures var r := DelFrameEvent(s, id); var e := s.events[id];
      (e.oldBuffer.None? ==> r.backBo == s.backBo && r.boCalls == s.boCalls) &&
      (e.oldBuffer.Some? && HandsBack(s.backBo, s.mode, e.oldBuffer.value) ==>
         r.backBo == Some(e.oldBuffer.value.bo) && r.boCalls == s.boCalls) &&
      (e.oldBuffer.Some? && !HandsBack(s.backBo, s.mode, e.oldBuffer.value) ==>
         r.backBo == s.backBo && r.boCalls == s.boCalls + [BoUnref(e.oldBuffer.value.bo)])
  {
    DelFrameEventKeepsGood(s, id);
    UnlinkRecord(s.clientLists, s.events, ClientSide, id);
    UnlinkRecord(s.drawableLists, s.events, DrawableSide, id);
    ReleaseRecordCounts(s.buffers, s.events, id);
  }

  /** Deleting a record no queued request points at keeps the bookkeeping. */
  lemma DelFrameEventKeepsGood(s: Screen, id: nat)
    requires Good(s) && id in s.events && id !in s.armed
    ensures var r := DelFrameEvent(s, id); Good(r) && (NoLeak(s) ==> NoLeak(r))
  {
    DeleteKeepsInvariant(s.events, s.clientLists, s.drawableLists, s.nextEvent, s.buffers, s.armed, s.pixmaps, id);
  }

  /** Releasing a counted record drops each buffer's count by the record's references. */
  lemma {:induction false} ReleaseRecordCounts(buffers: map<nat, Dri2Buffer>, events: map<nat, FrameEvent>, id: nat)
    requires Counted(buffers, events) && Held(buffers, events) && id in events
    ensures var r := ReleaseRecord(buffers, events[id]); var e := events[id];
      forall b | b in buffers ::
        (b in r <==> buffers[b].refcnt != Holds(e, b)) &&
        (b in r ==> r[b].refcnt == buffers[b].refcnt - Holds(e, b))
  {
    forall x | Holds(events[id], x) > 0
      ensures x in buffers && buffers[x].refcnt >= Holds(events[id], x)
    {
      RecordRefsAtLeast(events, id, x);
    }
    ReleaseRecordShape(buffers, events[id]);
  }

  /** Every record on `l`, from the head on, forgets its owner on `side`. */
  function DisownAll(events: map<nat, FrameEvent>, l: seq<nat>, side: Side): map<nat, FrameEvent>
    requires forall id | id in l :: id in events
  {
    if l == [] then events
    else DisownAll(events[l[0] := Disown(events[l[0]], side)], l[1..], side)
  }

  /** DisownAll keeps the ids, and changes exactly the records on the list. */
  lemma {:induction false} DisownAllShape(events: map<nat, FrameEvent>, l: seq<nat>, side: Side)
    requires forall id | id in l :: id in events
    ensures var r := DisownAll(events, l, side);
      r.Keys == events.Keys &&
      forall id | id in events :: r[id] == if id in l then Disown(events[id], side) else events[id]
  {
    if l != [] {
      var e1 := events[l[0] := Disown(events[l[0]], side)];
      DisownAllShape(e1, l[1..], side);
      forall id | id in events
        ensures id in l <==> id == l[0] || id in l[1..]
      {
        if id in l && id != l[0] {
          var i :| 0 <= i < |l| && l[i] == id;
          assert l[1..][i - 1] == id;
        }
      }
    }
  }

  /** The ids on the list of client `c`, all of them live records. */
  predicate ClientListLive(s: Screen, c: nat)
  {
    c in s.clientLists && forall id | id in s.clientLists[c] :: id in s.events
  }

  /** The ids on the list of drawable `d`, all of them live records. */
  predicate DrawableListLive(s: Screen, d: nat)
  {
    d in s.drawableLists && forall id | id in s.drawableLists[d] :: id in s.events
  }

  /**
   * i830_dri2_frame_event_client_gone: every record on the client's list,
   * from the head on, leaves it and forgets its client, and the list is
   * freed.
   */
  function ClientGone(s: Screen, c: nat): Screen
    requires ClientListLive(s, c)
    decreases |s.clientLists[c]|
  {
    var l := s.clientLists[c];
    if l == [] then s.(clientLists := s.clientLists - {c})
    else ClientGone(s.(events := s.events[l[0] := Disown(s.events[l[0]], ClientSide)],
                       clientLists := s.clientLists[c := l[1..]]), c)
  }

  /** What ClientGone does to the records, read off the list: each record on it forgets its client, and nothing else changes. */
  lemma ClientGoneShape(s: Screen, c: nat)
    requires ClientListLive(s, c)
    ensures var r := ClientGone(s, c);
      r == s.(events := r.events, clientLists := s.clientLists - {c}) && r.events.Keys == s.events.Keys &&
      forall id | id in s.events ::
        r.events[id] == if id in s.clientLists[c] then Disown(s.events[id], ClientSide) else s.events[id]
  {
    ClientGoneDisowns(s, c);
    DisownAllShape(s.events, s.clientLists[c], ClientSide);
  }

  /** ClientGone is DisownAll over the list, which is then freed. */
  lemma {:induction false} ClientGoneDisowns(s: Screen, c: nat)
    requires ClientListLive(s, c)
    ensures ClientGone(s, c) == s.(events := DisownAll(s.events, s.clientLists[c], ClientSide), clientLists := s.clientLists - {c})
    decreases |s.clientLists[c]|
  {
    var l := s.clientLists[c];
    if l != [] {
      var s1 := s.(events := s.events[l[0] := Disown(s.events[l[0]], ClientSide)], clientLists := s.clientLists[c := l[1..]]);
      ClientGoneDisowns(s1, c);
      assert s1.clientLists - {c} == s.clientLists - {c};
    }
  }


  /** ClientGone keeps the bookkeeping, one list entry at a time. */
  lemma {:induction false} ClientGoneKeepsInvariant(s: Screen, c: nat)
    requires Good(s) && c in s.clientLists
    ensures ClientListLive(s, c)
    ensures Good(ClientGone(s, c))
    decreases |s.clientLists[c]|
  {
    var l := s.clientLists[c];
    if l == [] {
      DropClientKeepsInvariant(s.events, s.clientLists, s.drawableLists, s.nextEvent, s.buffers, s.armed, s.pixmaps, c);
    } else {
      DisownClientKeepsInvariant(s.events, s.clientLists, s.drawableLists, s.nextEvent, s.buffers, s.armed, s.pixmaps, c);
      var s1 := s.(events := s.events[l[0] := Disown(s.events[l[0]], ClientSide)], clientLists := s.clientLists[c := l[1..]]);
      ClientGoneKeepsInvariant(s1, c);
    }
  }

  /**
   * A client going away keeps the bookkeeping; exactly the records that
   * named the client forget it, nothing else about any record changes,
   * and the client's list is gone.
   */
  lemma ClientGoneKeepsGood(s: Screen, c: nat)
    requires Good(s) && c in s.clientLists
    ensures ClientListLive(s, c)
    ensures var r := ClientGone(s, c);
      Good(r) && (NoLeak(s) ==> NoLeak(r)) &&
      r.clientLists == s.clientLists - {c} && r.events.Keys == s.events.Keys &&
      (forall id | id in s.events ::
         r.events[id] == if s.events[id].client == Some(c) then Disown(s.events[id], ClientSide) else s.events[id]) &&
      r == s.(events := r.events, clientLists := r.clientLists)
  {
    ClientGoneKeepsInvariant(s, c);
    ClientGoneShape(s, c);
    var r := ClientGone(s, c);
    forall id | id in s.events
      ensures r.events[id] == if s.events[id].client == Some(c) then Disown(s.events[id], ClientSide) else s.events[id]
    {
      assert id in s.clientLists[c] <==> Owner(s.events[id], ClientSide) == Some(c);
    }
  }

  /**
   * i830_dri2_frame_event_drawable_gone: every record on the drawable's
   * list, from the head on, leaves it and forgets its drawable, and the
   * list is freed.
   */
  function DrawableGone(s: Screen, d: nat): Screen
    requires DrawableListLive(s, d)
    decreases |s.drawableLists[d]|
  {
    var l := s.drawableLists[d];
    if l == [] then s.(drawableLists := s.drawableLists - {d})
    else DrawableGone(s.(events := s.events[l[0] := Disown(s.events[l[0]], DrawableSide)],
                         drawableLists := s.drawableLists[d := l[1..]]), d)
  }

  /** What DrawableGone does to the records, read off the list: each record on it forgets its drawable, and nothing else changes. */
  lemma DrawableGoneShape(s: Screen, d: nat)
    requires DrawableListLive(s, d)
    ensures var r := DrawableGone(s, d);
      r == s.(events := r.events, drawableLists := s.drawableLists - {d}) && r.events.Keys == s.events.Keys &&
      forall id | id in s.events ::
        r.events[id] == if id in s.drawableLists[d] then Disown(s.events[id], DrawableSide) else s.events[id]
  {
    DrawableGoneDisowns(s, d);
    DisownAllShape(s.events, s.drawableLists[d], DrawableSide);
  }

  /** DrawableGone is DisownAll over the list, which is then freed. */
  lemma {:induction false} DrawableGoneDisowns(s: Screen, d: nat)
    requires DrawableListLive(s, d)
    ensures DrawableGone(s, d) == s.(events := DisownAll(s.events, s.drawableLists[d], DrawableSide), drawableLists := s.drawableLists - {d})
    decreases |s.drawableLists[d]|
  {
    var l := s.drawableLists[d];
    if l != [] {
      var s1 := s.(events := s.events[l[0] := Disown(s.events[l[0]], DrawableSide)], drawableLists := s.drawableLists[d := l[1..]]);
      DrawableGoneDisowns(s1, d);
      assert s1.drawableLists - {d} == s.drawableLists - {d};
    }
  }


  /** DrawableGone keeps the bookkeeping, one list entry at a time. */
  lemma {:induction false} DrawableGoneKeepsInvariant(s: Screen, d: nat)
    requires Good(s) && d in s.drawableLists
    ensures DrawableListLive(s, d)
    ensures Good(DrawableGone(s, d))
    decreases |s.drawableLists[d]|
  {
    var l := s.drawableLists[d];
    if l == [] {
      DropDrawableKeepsInvariant(s.events, s.clientLists, s.drawableLists, s.nextEvent, s.buffers, s.armed, s.pixmaps, d);
    } else {
      DisownDrawableKeepsInvariant(s.events, s.clientLists, s.drawableLists, s.nextEvent, s.buffers, s.armed, s.pixmaps, d);
      var s1 := s.(events := s.events[l[0] := Disown(s.events[l[0]], DrawableSide)], drawableLists := s.drawableLists[d := l[1..]]);
      DrawableGoneKeepsInvariant(s1, d);
    }
  }

  /**
   * A drawable going away keeps the bookkeeping; exactly the records that
   * named the drawable forget it, nothing else about any record changes,
   * and the drawable's list is gone.
   */
  lemma DrawableGoneKeepsGood(s: Screen, d: nat)
    requires Good(s) && d in s.drawableLists
    ensures DrawableListLive(s, d)
    ensures var r := DrawableGone(s, d);
      Good(r) && (NoLeak(s) ==> NoLeak(r)) &&
      r.drawableLists == s.drawableLists - {d} && r.events.Keys == s.events.Keys &&
      (forall id | id in s.events ::
         r.events[id] == if s.events[id].drawable == d then Disown(s.events[id], DrawableSide) else s.events[id]) &&
      r == s.(events := r.events, drawableLists := r.drawableLists)
  {
    DrawableGoneKeepsInvariant(s, d);
    DrawableGoneShape(s, d);
    var r := DrawableGone(s, d);
    forall id | id in s.events
      ensures r.events[id] == if s.events[id].drawable == d then Disown(s.events[id], DrawableSide) else s.events[id]
    {
      assert d != NoDrawable;
      assert id in s.drawableLists[d] <==> Owner(s.events[id], DrawableSide) == Some(d);
    }
  }
}
