# intel DRI2 scheduling and Xv ports, in Dafny

This project models three parts of the Intel X.Org video driver and proves
properties of them:

- **The DRI2 swap and wait scheduler of the UXA back end** (`src/uxa/intel_dri.c`).
  - It covers the frame-event records and their per-client and per-drawable
    resource lists.
  - It covers DRI2 buffers and their reference counts, including the
    references that frame events take.
  - For swaps it covers the choice between flip, exchange and blit, and the
    swap-target arithmetic with divisor and remainder.
  - It covers WaitMSC, the vblank and flip event handlers, the abort callback
    and the GetMSC query.
  - It covers the driver-name option parsing: the `namecmp` comparison, the
    `is_level` test and `dri_driver_name`.
  - It covers the scan-line wait window of the copy path, the stencil buffer
    sizing, and the test whether two pixmaps can be exchanged.
- **The Xv sprite port of the SNA back end** (`src/sna/sna_video_sprite.c`).
  - It covers the port attributes, the colour-key value and mask, the update
    of the colour key and colour space when the plane is shown or hidden,
    and the destination box in CRTC coordinates.
  - It covers source rounding, `query_image_attributes` and adaptor setup.
- **The Xv textured port of the SNA back end** (`src/sna/sna_video_textured.c`).
  - It covers the port attributes, `best_size`, `query_image_attributes`
    over every supported format, and adaptor setup for each hardware
    generation.

## How the model is built

The DRI2 screen is a value. `FrameEvents.Screen` holds:

- the records keyed by id;
- the client and drawable lists, as lists of record ids;
- the armed kernel requests;
- the buffers and pixmaps;
- the front and back buffer objects;
- a trace of replies and requests sent to the X server;
- the libdrm reference calls.

Each driver entry point is a transition function on a `Screen`.
`FrameEvents.Good` is the bookkeeping every transition keeps:

- every record is on its owner's lists;
- every buffer reference count is at least the references that records hold on it;
- every armed request names a live record.

`FrameEvents.NoLeak` says that between X requests every live record waits
for a kernel event. The class `Dri2Screens.Dri2Screen` holds the same state
in fields. Each of its methods changes those fields in place and is proved
to end in the state the transition function gives.

Kernel and server replies are parameters: vblank counters, sequence
allocation, the result of a flip ioctl, and whether a drawable still exists.
Every branch on a reply is modelled.

The Xv ports are classes whose attribute fields are updated in place.
`query_image_attributes` writes into caller arrays, and it is a method over
`array?<int>` that is proved against a layout function. Lemmas state that
the planes of each layout tile the buffer.

## Model

| member | source | states |
|---|---|---|
| Msc.CrtcSelectAddressesPipe | src/uxa/intel_dri.c:97-105 | the vblank request bits crtc_select builds for a pipe decode back to that pipe |
| Msc.ClampToCurrent | src/uxa/intel_dri.c:1178-1179 | a target already in the past is moved up to the current frame and never below either value |
| Msc.FlipTarget | src/uxa/intel_dri.c:1146-1152 | a flip is requested one frame before a non-zero target, a zero target stays zero |
| Msc.SwapDivisorTargetShape | src/uxa/intel_dri.c:1214-1229 | the divisor target is a multiple of the divisor plus the remainder, in the current period or the next one |
| Msc.SwapDivisorTargetIsFirst | src/uxa/intel_dri.c:1214-1229 | no frame strictly between the current frame and the divisor target matches the remainder |
| Msc.SwapDivisorTargetIsNextMatch | src/uxa/intel_dri.c:1214-1229 | the divisor target is in the future, matches the remainder, and is the first such frame |
| Msc.WaitAgreesWithSwap | src/uxa/intel_dri.c:1401-1410 | WaitMSC computes the same divisor target as ScheduleSwap |
| Msc.WaitDivisorTargetIsNextMatch | src/uxa/intel_dri.c:1401-1410 | the WaitMSC divisor target is in the future and matches the remainder |
| Msc.SwapRequestSchedulesFutureFrame | src/uxa/intel_dri.c:1146-1236 | a swap never asks for a past frame; with a divisor and a passed target the frame shown matches the remainder; otherwise the clamped target is asked for; only blits ask for the next frame on a miss |
| Msc.WaitRequestSchedulesFutureFrame | src/uxa/intel_dri.c:1357-1416 | a wait never asks for a past frame and with a passed target and a divisor waits for the next matching frame |
| Msc.GetMsc | src/uxa/intel_dri.c:1277-1306 | an undisplayed drawable or a failed counter read reports the current time and frame 0, otherwise the kernel counter |
| Msc.FlipCompletionStamp | src/uxa/intel_dri.c:1032-1051 | a flip completion stamp reported in the window just before its target is replaced by zeros; a stamp at or past the target, or far enough before it, is passed through unchanged |
| Dri2Geometry.Align64 | src/uxa/intel_dri.c:344-345 | rounding up to 64 gives the least multiple of 64 not below the value |
| Dri2Geometry.CreateBufferPixmap | src/uxa/intel_dri.c:290-360 | the pixmap request for each attachment: none for an unknown attachment with 3D tiling; a stencil buffer is 64-aligned in width, ALIGN((height + 1) / 2, 64) tall, double depth and untiled; other attachments keep the drawable size and depth; with 3D tiling, depth-like buffers are Y-tiled when the hardware has Y tiling (else X) and colour and accumulation buffers are X-tiled |
| Dri2Geometry.CopyRegionWait | src/uxa/intel_dri.c:425-498 | a scan-line wait is emitted exactly when the VT is owned, the target is the scan-out, swap waits are on, the generation is below 6 and a CRTC covers the box, and the wait is then the CRTC's scan-line window for the box |
| Dri2Geometry.ScanlineWindowClampsToPipe | src/uxa/intel_dri.c:450-477 | the wait window is the box clipped to the CRTC in CRTC coordinates; a full-height window ends two lines early before gen 4 and waits for vblank from gen 4 on |
| Dri2Geometry.InterlacedWindowIsHalved | src/uxa/intel_dri.c:479-483 | on an interlaced mode both window bounds are halved and nothing else changes |
| Dri2Geometry.CanExchange | src/uxa/intel_dri.c:832-881 | two buffers can be exchanged exactly when the VT is owned, the drawable is on a CRTC and can flip, no shadow is used, page flipping is on, sizes, depths and tiling agree and the front is pinned only for scan-out and DRI2 |
| DriOptions.Canonical | src/uxa/intel_dri.c:1465-1486 | the canonical form namecmp compares has no separators and no upper-case letters and is no longer than the name |
| DriOptions.NameCmpZeroIff | src/uxa/intel_dri.c:1454-1490 | namecmp returns zero exactly when the two names are equal once separators are dropped and case is folded |
| DriOptions.NameCmpLoop | src/uxa/intel_dri.c:1454-1490 | the pointer loop of namecmp returns the value of the comparison of the canonical forms |
| DriOptions.NameCmpEmptyAsymmetry | src/uxa/intel_dri.c:1458-1463 | an empty first name compares unequal to "_" while "_" compares equal to the empty name |
| DriOptions.SkipSeparators | src/uxa/intel_dri.c:1465-1469 | skipping separators stops at the end or at a non-separator and leaves the canonical form of the rest unchanged |
| DriOptions.CompareFrom | src/uxa/intel_dri.c:1473-1489 | the comparison loop returns the comparison of the canonical forms of the two remaining strings |
| DriOptions.StrToUL | src/uxa/intel_dri.c:1517 | strtoul consumes nothing and yields zero exactly when no digit of the base follows the sign and prefix; otherwise it consumes the maximal digit run and yields its value, negated modulo 2^64 after a minus sign; never exceeds ULONG_MAX |
| DriOptions.ULongOf | src/uxa/intel_dri.c:1517 | an overflowing value saturates at ULONG_MAX and a negated value wraps modulo 2^64 |
| DriOptions.IsLevel | src/uxa/intel_dri.c:1492-1523 | is_level leaves the option untouched when it answers yes, a missing option is a level, and otherwise the rest is a suffix of the option |
| DriOptions.NumericLevel | src/uxa/intel_dri.c:1517-1522 | the numeric branch of is_level answers yes only with the whole option and otherwise returns a suffix |
| DriOptions.LevelWordsAreLevels | src/uxa/intel_dri.c:1498-1515 | an option naming one of the level words is a level |
| DriOptions.WholeNumberIsLevel | src/uxa/intel_dri.c:1517-1519 | an option that is entirely a non-zero number is a level |
| DriOptions.NumberColonPrefixIsSkipped | src/uxa/intel_dri.c:1520-1522 | a number followed by a colon is not a level and the driver name starts after the colon |
| DriOptions.OtherOptionsAreNotLevels | src/uxa/intel_dri.c:1517-1522 | an option whose number is zero or not followed by a colon is not a level and is used whole |
| DriOptions.DefaultDriverName | src/uxa/intel_dri.c:1538-1545 | the default driver is i830 or i915 before gen 3, i915 for gen 3 and i965 from gen 4 |
| DriOptions.DriDriverName | src/uxa/intel_dri.c:1534-1548 | an absent option or a level selects the generation's default name; any other option names the driver by the text left after its number-colon prefix |
| DriOptions.LevelWordSelectsDefault | src/uxa/intel_dri.c:1534-1540 | every spelling of a level word selects the default driver name |
| DriOptions.WholeNumberSelectsDefault | src/uxa/intel_dri.c:1534-1540 | an option that is entirely a non-zero number selects the default driver name |
| DriOptions.PrefixedDriverName | src/uxa/intel_dri.c:1534-1548 | the option "1:i965" selects the driver i965 |
| DriOptions.WrappedNumberIsNotLevel | src/uxa/intel_dri.c:1517-1522 | the option "4294967296" is not a level because its value truncates to zero in an unsigned int |
| Registry.Disown | src/uxa/intel_dri.c:619-620 | disowning a record clears one owner and keeps every other field |
| Registry.LinkNew | src/uxa/intel_dri.c:688-696 | adding a new record at the head of its owner's list keeps every record on its owner's list |
| Registry.UnlinkRecord | src/uxa/intel_dri.c:704-705 | removing a record from its owner's list keeps the lists consistent and leaves the id on no list |
| Registry.DisownHead | src/uxa/intel_dri.c:613-621 | the head of a resource list is a record owned by that resource, and disowning it and dropping it from the list keeps the lists consistent |
| Registry.DropEmpty | src/uxa/intel_dri.c:613-622 | an emptied resource list can be dropped because no record names its owner any more |
| Registry.AddEmpty | src/uxa/intel_dri.c:602-604 | a new empty resource list keeps the lists consistent |
| Registry.RecordRefsInsert | src/uxa/intel_dri.c:1129-1130 | adding a record adds its buffer references to the count of references held by records |
| Registry.RecordRefsRemove | src/uxa/intel_dri.c:707-710 | removing a record subtracts its buffer references from that count |
| FrameEvents.Release | src/uxa/intel_dri.c:383-396 | releasing a buffer frees it on its last reference and otherwise decrements only its count |
| FrameEvents.ReleaseKeepsCounts | src/uxa/intel_dri.c:707-710 | releasing the buffers of a deleted record keeps every count at least the references the remaining records hold |
| FrameEvents.Reference | src/uxa/intel_dri.c:543-549 | taking a reference increments one buffer's count and changes nothing else |
| FrameEvents.ReferenceKeepsCounts | src/uxa/intel_dri.c:1129-1130 | referencing the buffers of a new record keeps the counts consistent with the records |
| FrameEvents.PinForDri2 | src/uxa/intel_dri.c:125-138 | pinning sets the DRI2 pin bit and keeps every other pin bit and field |
| FrameEvents.ServerUnrefKeepsCounts | src/uxa/intel_dri.c:383-396 | a server unreference that leaves the records' references covered keeps the counts consistent, and a freed buffer is held by no record |
| FrameEvents.CreateBuffer | src/uxa/intel_dri.c:363-380 | a named buffer starts with one reference on a DRI2-pinned pixmap, and a failed flink creates nothing |
| FrameEvents.CreateBufferKeepsGood | src/uxa/intel_dri.c:363-380 | creating a buffer keeps the screen invariant and the no-leak property |
| FrameEvents.ReferenceBufferKeepsGood | src/uxa/intel_dri.c:543-549 | a server reference increments the count by one and keeps the invariant |
| FrameEvents.DestroyBufferKeepsGood | src/uxa/intel_dri.c:383-396 | destroying a buffer keeps the invariant; the buffer goes exactly on its last reference and is then held by no record |
| FrameEvents.AddFrameEvent | src/uxa/intel_dri.c:679-699 | a successful add inserts the record under the next id and references its buffers; a failed add keeps records and buffers |
| FrameEvents.AddFrameEventSpec | src/uxa/intel_dri.c:679-699 | the add succeeds exactly when both resource lists exist or can be made, and then the new id is on both lists |
| FrameEvents.AddFrameEventKeepsGood | src/uxa/intel_dri.c:679-699 | adding a record keeps the screen invariant and the new id was free |
| FrameEvents.DelFrameEvent | src/uxa/intel_dri.c:702-727 | deleting a record removes exactly that record and keeps everything the deletion does not touch |
| FrameEvents.DelFrameEventSpec | src/uxa/intel_dri.c:702-727 | deleting keeps the invariant; the id leaves every list; each held buffer loses the record's references; the old back buffer is handed back or released |
| FrameEvents.DelFrameEventKeepsGood | src/uxa/intel_dri.c:702-727 | deleting an unarmed record keeps the invariant and the no-leak property |
| FrameEvents.DropRecord | src/uxa/intel_dri.c:704-710 | dropping a record changes only the records, lists and buffers and removes exactly that record |
| FrameEvents.ReturnOldBuffer | src/uxa/intel_dri.c:712-724 | an old back buffer becomes the spare when the spare slot is free and the mode still matches, and is released otherwise |
| FrameEvents.ReleaseRecordCounts | src/uxa/intel_dri.c:707-710 | releasing a record's buffers lowers each count by that record's references and frees exactly the buffers reaching zero |
| FrameEvents.ClientGoneShape | src/uxa/intel_dri.c:609-625 | a departing client's records lose their client and nothing else changes apart from the removed list |
| FrameEvents.ClientGoneDisowns | src/uxa/intel_dri.c:609-625 | the list walk equals disowning every record on the client's list at once |
| FrameEvents.ClientGoneKeepsGood | src/uxa/intel_dri.c:609-625 | a client's departure keeps the invariant and disowns exactly the records whose client it was |
| FrameEvents.DrawableGoneShape | src/uxa/intel_dri.c:628-644 | a destroyed drawable's records lose their drawable and nothing else changes apart from the removed list |
| FrameEvents.DrawableGoneDisowns | src/uxa/intel_dri.c:628-644 | the list walk equals disowning every record on the drawable's list at once |
| FrameEvents.DrawableGoneKeepsGood | src/uxa/intel_dri.c:628-644 | a drawable's destruction keeps the invariant and disowns exactly the records on that drawable |
| Scheduler.GoodSwapRecordIsReady | src/uxa/intel_dri.c:779-784 | every swap or flip record of a consistent screen holds live front and back buffers with live pixmaps |
| Scheduler.ExchangeBuffers | src/uxa/intel_dri.c:758-777 | an exchange changes only buffer names, pixmap private data, the front buffer object and the reference calls, with pixmap_flink's success or failure as an input |
| Scheduler.ExchangeNames | src/uxa/intel_dri.c:766-768 | the name swap changes only the names of the buffers |
| Scheduler.ExchangePrivs | src/uxa/intel_dri.c:728-750 | the private-data swap changes only the private parts of the pixmaps |
| Scheduler.ExchangeKeepsGood | src/uxa/intel_dri.c:758-777 | exchanging buffers keeps the invariant and the no-leak property |
| Scheduler.ExchangeSwapsPixmaps | src/uxa/intel_dri.c:730-777 | an exchange swaps the buffer objects and tiling of the two pixmaps and marks them busy; the front buffer takes the back's name and the back buffer the front pixmap's buffer object, or name 0 when the flink fails (intel_dri.c:130-134); the pixmap that becomes the back is pinned for DRI2 exactly when the flink succeeds; the front reference moves and all other pixmaps and buffers are left alone |
| Scheduler.ExchangeTwiceRestores | src/uxa/intel_dri.c:730-777 | exchanging twice restores every pixmap's buffer object and the screen's front buffer object whatever the flinks answer, and, when both flinks succeed and the buffers were named after their pixmaps, every buffer |
| Scheduler.AllocateBackBuffer | src/uxa/intel_dri.c:805-829 | a spare back buffer is kept; a new one is taken only if its pitch and tiling match the front; a mismatch is released |
| Scheduler.TripleBuffer | src/uxa/intel_dri.c:905-919 | triple buffering keeps the record ready and changes no record keys, buffers or armed requests |
| Scheduler.TripleBufferKeepsGood | src/uxa/intel_dri.c:905-919 | triple buffering keeps the invariant |
| Scheduler.FlipQueuedSpec | src/uxa/intel_dri.c:898-926 | a queued flip arms the record on the flip; with a spare buffer it keeps the old back buffer and allows two pending swaps, otherwise one |
| Scheduler.FlipQueuedKeepsGood | src/uxa/intel_dri.c:898-926 | queueing a flip keeps the invariant |
| Scheduler.QueueFlipSpec | src/uxa/intel_dri.c:884-927 | a flip is queued exactly when the drawable is on a CRTC, the ioctl succeeds and the buffers can be exchanged; otherwise nothing changes |
| Scheduler.QueueSwapSpec | src/uxa/intel_dri.c:930-959 | a swap is queued for the next frame exactly when a CRTC, a sequence and the vblank request all succeed; otherwise nothing is armed |
| Scheduler.QueueSwapKeepsGood | src/uxa/intel_dri.c:930-959 | queueing a swap keeps the invariant on every path |
| Scheduler.FrameEventHandlerSpec | src/uxa/intel_dri.c:961-1009 | after a vblank event the record is gone unless it was re-armed on a flip, and no other record or request changes |
| Scheduler.FrameEventHandlerKeepsGood | src/uxa/intel_dri.c:961-1009 | handling a vblank event keeps the invariant |
| Scheduler.FlipRecordDueKeepsGood | src/uxa/intel_dri.c:981-994 | a flip that is due keeps the invariant whether it flips or falls back |
| Scheduler.BlitAndCompleteKeepsGood | src/uxa/intel_dri.c:985-992 | blitting, completing and deleting a record keeps the invariant |
| Scheduler.FlipEventHandler | src/uxa/intel_dri.c:1011-1066 | the flip handler always deletes the record and arms nothing |
| Scheduler.FlipEventHandlerSpec | src/uxa/intel_dri.c:1011-1066 | the flip handler keeps the invariant, reports one flip completion to the requesting client for a live drawable, whose stamp is the kernel stamp passed through FlipCompletionStamp against the target, and reports nothing otherwise |
| Scheduler.FlipEventHandlerReports | src/uxa/intel_dri.c:1026-1056 | for a live drawable the flip handler reports exactly one flip completion to the requester, whose stamp is the kernel stamp passed through FlipCompletionStamp against the target; for a missing drawable it reports nothing |
| Scheduler.EventStamp | src/uxa/intel_dri.c:108-115 | a kernel time splits into seconds and microseconds and the frame is taken modulo 2^32 |
| Scheduler.DeliveryKeepsGood | src/uxa/intel_dri.c:108-123 | delivering or aborting any armed request keeps the invariant and the no-leak property |
| Scheduler.FlipDeliveryKeepsGood | src/uxa/intel_dri.c:787-802 | delivering a flip event keeps the invariant and the no-leak property |
| SwapWait.SwapFallback | src/uxa/intel_dri.c:1253-1259 | the blit fallback blits, completes the swap at once and deletes the record if there is one |
| SwapWait.SwapFallbackKeepsGood | src/uxa/intel_dri.c:1253-1259 | the fallback keeps the invariant and leaves no unarmed record |
| SwapWait.SwapQueuedSpec | src/uxa/intel_dri.c:1141-1259 | an immediate flip returns the target; an armed vblank returns the frame the swap appears on; any failure falls back to a blit and deletes the record |
| SwapWait.SwapQueuedKeepsGood | src/uxa/intel_dri.c:1141-1259 | every path after the record is linked keeps the invariant and leaves no unarmed record |
| SwapWait.CancelledFallbackKeepsGood | src/uxa/intel_dri.c:1193-1195 | cancelling the record and then falling back keeps the invariant |
| SwapWait.ScheduleSwapSpec | src/uxa/intel_dri.c:1089-1260 | without a CRTC, record or counter the swap falls back at once with no record; otherwise it links one record and continues |
| SwapWait.ScheduleSwapKeepsGood | src/uxa/intel_dri.c:1089-1260 | ScheduleSwap keeps the invariant and the no-leak property |
| SwapWait.SwapArmedInFuture | src/uxa/intel_dri.c:1163-1236 | an armed swap never asks for a past frame and with a divisor lands on a matching frame |
| SwapWait.SwapQueuedAsWrittenLeavesDanglingRequest | src/uxa/intel_dri.c:1239-1245 | as written, a failed final vblank request on the divisor path frees the record while its sequence stays armed |
| SwapWait.QueueSwapAsWrittenFreesBeforeFallback | src/uxa/intel_dri.c:953-955 | as written, a failed vblank request in the queued swap deletes the record before the caller falls back |
| SwapWait.WaitQueuedSpec | src/uxa/intel_dri.c:1357-1442 | a wait that arms blocks the client until a future matching frame; a failed request completes the client at once and deletes the record |
| SwapWait.WaitQueuedKeepsGood | src/uxa/intel_dri.c:1348-1442 | the wait after linking keeps the invariant and leaves no unarmed record |
| SwapWait.ScheduleWaitMscBlocks | src/uxa/intel_dri.c:1315-1436 | when every request succeeds one record is added, armed at the wait frame, and the client is blocked |
| SwapWait.ScheduleWaitMscCompletes | src/uxa/intel_dri.c:1315-1443 | when any request fails no record remains and the client is completed at once |
| SwapWait.ScheduleWaitMscKeepsGood | src/uxa/intel_dri.c:1315-1443 | ScheduleWaitMSC keeps the invariant and the no-leak property |
| SwapWait.WaitDoneFrame | src/uxa/intel_dri.c:1368-1386 | a failed counter-relative wait completes the client with the clamped target frame |
| Dri2Screens.Dri2Screen.CreateBuffer | src/uxa/intel_dri.c:267-381 | creating a buffer updates the screen fields as the transition function does and keeps the invariant |
| Dri2Screens.Dri2Screen.ReferenceBuffer | src/uxa/intel_dri.c:543-549 | the reference count goes up by one and the invariant is kept |
| Dri2Screens.Dri2Screen.DestroyBuffer | src/uxa/intel_dri.c:383-396 | the buffer is freed exactly on its last reference, is then held by no record, and the invariant is kept |
| Dri2Screens.Dri2Screen.AddFrameEvent | src/uxa/intel_dri.c:679-699 | the record is linked under the next id as the transition function says and the invariant is kept |
| Dri2Screens.Dri2Screen.FindLists | src/uxa/intel_dri.c:683-694 | the owner lists are found or created, and nothing is created for the drawable once the client list cannot be |
| Dri2Screens.Dri2Screen.DelFrameEvent | src/uxa/intel_dri.c:702-727 | the record is deleted as the transition function says and the invariant is kept |
| Dri2Screens.Dri2Screen.ClientGone | src/uxa/intel_dri.c:609-625 | the client's list is walked and removed in place as the transition function says, keeping the invariant |
| Dri2Screens.Dri2Screen.DrawableGone | src/uxa/intel_dri.c:628-644 | the drawable's list is walked and removed in place as the transition function says, keeping the invariant |
| Dri2Screens.Dri2Screen.ExchangeBuffers | src/uxa/intel_dri.c:758-777 | the exchange updates pixmaps, buffers and the front object in place, as Scheduler.ExchangeBuffers gives for the flink's answer, and keeps the invariant |
| Dri2Screens.Dri2Screen.Exchange | src/uxa/intel_dri.c:758-777 | the in-place steps of the exchange end in the state Scheduler.ExchangeBuffers gives for the flink's answer |
| Dri2Screens.Dri2Screen.RenameBuffers | src/uxa/intel_dri.c:766-768 | the names are swapped in place as Scheduler.ExchangeNames gives and no other field changes |
| Dri2Screens.Dri2Screen.TradePrivs | src/uxa/intel_dri.c:728-750 | the flink pin and the private-data swap happen in place as Scheduler.ExchangePrivs gives and no other field changes |
| Dri2Screens.Dri2Screen.ScheduleSwap | src/uxa/intel_dri.c:1089-1260 | the swap returns the transition function's target and state and keeps the invariant and the no-leak property |
| Dri2Screens.Dri2Screen.ScheduleWaitMsc | src/uxa/intel_dri.c:1315-1443 | the wait reaches the transition function's state and keeps the invariant and the no-leak property |
| Dri2Screens.Dri2Screen.VblankEvent | src/uxa/intel_dri.c:108-115 | a vblank event reaches the handler's state and keeps the invariant and the no-leak property |
| Dri2Screens.Dri2Screen.FlipEvent | src/uxa/intel_dri.c:787-794 | a flip event reaches the flip handler's state and keeps the invariant and the no-leak property |
| Dri2Screens.Dri2Screen.Abort | src/uxa/intel_dri.c:118-123 | aborting an armed request deletes its record and keeps the invariant and the no-leak property |
| Xv.RoundUpEven | src/sna/sna_video_textured.c:301 | rounding up to even gives the least even value not below the input |
| Xv.RoundUpFour | src/sna/sna_video_textured.c:316 | rounding up to four gives the least multiple of four not below the input |
| Xv.OnePlaneTiles | src/sna/sna_video_textured.c:345-358 | a packed layout is one plane of h rows of the pitch, ending at the size |
| Xv.WriteOnePlane | src/sna/sna_video_textured.c:345-358 | the method writes the pitch of the packed layout into the caller's array, touches no other slot, and returns its size |
| Xv.WriteTwoPlanes | src/sna/sna_video_textured.c:331-344 | the method writes the NV12 pitches and offsets into the caller's arrays, touches no other slot, and returns the size |
| Xv.TwoPlanesTile | src/sna/sna_video_textured.c:331-344 | the NV12 planes tile the buffer with a shared pitch that is a multiple of four and at least the width |
| TexturedVideo.SetThenGet | src/sna/sna_video_textured.c:100-147 | a value set within range is read back; an out-of-range value is refused with BadValue and an unknown attribute with BadMatch, leaving the port unchanged; other attributes are unaffected |
| TexturedVideo.SetKeepsInRange | src/sna/sna_video_textured.c:100-128 | setting an attribute keeps every attribute within its range |
| TexturedVideo.GetAnswers | src/sna/sna_video_textured.c:131-147 | a known attribute is answered with a value that setting again leaves unchanged; an unknown one is refused |
| TexturedVideo.TexturedPort.SetAttribute | src/sna/sna_video_textured.c:100-128 | the port's fields change as SetAttr says and stay in range |
| TexturedVideo.TexturedPort.GetAttribute | src/sna/sna_video_textured.c:131-147 | the port answers as GetAttr says |
| TexturedVideo.InitialAttrs | src/sna/sna_video_textured.c:462-466 | a new port is in range with colour space 1 and syncs to vblank unless the option disables it |
| TexturedVideo.BestSizeBounds | src/sna/sna_video_textured.c:150-161 | the best size is the drawable size unless the video is more than twice as large, in which case it is at most half the video size |
| TexturedVideo.QueryClamps | src/sna/sna_video_textured.c:292-368 | the width is clamped to the maximum and rounded to even, and the height is too for planar formats |
| TexturedVideo.QuerySizeFits | src/sna/sna_video_textured.c:292-368 | every layout size fits in a signed 32-bit int |
| TexturedVideo.QueryImageAttributes | src/sna/sna_video_textured.c:292-368 | the method writes each format's pitches and offsets into the caller's arrays, leaves other slots alone, and returns the clamped size and byte count |
| TexturedVideo.PlanarLayout | src/sna/sna_video_textured.c:313-330 | YV12 and I420 are three planes tiling the buffer, with chroma pitches equal and all pitches multiples of four |
| TexturedVideo.WriteThreePlanes | src/sna/sna_video_textured.c:313-330 | the method writes the three-plane pitches and offsets, touches no other slot, and returns the size |
| TexturedVideo.Nv12Layout | src/sna/sna_video_textured.c:331-344 | NV12 is a full luma plane and a half-height chroma plane with one shared pitch |
| TexturedVideo.PackedLayout | src/sna/sna_video_textured.c:305-358 | a packed format is one plane whose pitch is one, two or four bytes per pixel |
| TexturedVideo.XvMCLayout | src/sna/sna_video_textured.c:359-364 | the XvMC format reports a 4-byte buffer |
| TexturedVideo.SetupGrows | src/sna/sna_video_textured.c:398-442 | later generations get at least as many ports and every earlier image format; the format gates by generation |
| TexturedVideo.Setup | src/sna/sna_video_textured.c:370-490 | an adaptor is offered exactly when the depth is not 8, video is available, the GPU is not wedged and allocation succeeds, and it starts in range |
| SpriteVideo.ToCrtcShape | src/sna/sna_video_sprite.c:213-259 | the box in CRTC coordinates stays well formed, swaps width and height for a quarter turn, and ignores the reflection bits |
| SpriteVideo.UpdateDstBoxToCrtcCoords | src/sna/sna_video_sprite.c:213-259 | the box is updated in place to its CRTC coordinates |
| SpriteVideo.ToCrtcUndo | src/sna/sna_video_sprite.c:226-257 | a quarter turn followed by three quarter turns, or two half turns, restores the box |
| SpriteVideo.PackBytes | src/sna/sna_video_sprite.c:298-304 | packing a top byte and three channel bytes is undone by reading each byte back |
| SpriteVideo.PackWithin | src/sna/sna_video_sprite.c:272-304 | a packed key whose channels lie inside the channel masks lies inside the packed mask |
| SpriteVideo.CkeyMaskChanTopBits | src/sna/sna_video_sprite.c:292-295 | a channel mask selects the top weight bits of its byte |
| SpriteVideo.CkeyValueDepth8 | src/sna/sna_video_sprite.c:272-290 | at depth 8 the key's low byte fills all three channels and the top byte is clear |
| SpriteVideo.CkeyValueChanWithin | src/sna/sna_video_sprite.c:261-270 | a channel field that fits its weight moves to the top of its byte and lies inside the channel mask |
| SpriteVideo.DefaultColorKeyFits | src/sna/sna_video_sprite.c:783-800 | the default colour key fits the screen depth, and a fitting VideoKey or ColorKey option is used unchanged |
| SpriteVideo.DefaultColorKeyExamples | src/sna/sna_video_sprite.c:793-799 | the key computed from the channel layout at depths 24 and 16 |
| SpriteVideo.SetThenGet | src/sna/sna_video_sprite.c:150-194 | a set value is read back, booleans as 0 or 1; a key or colour space change marks every output for update; an unknown attribute is refused unchanged |
| SpriteVideo.SetKeepsNormalised | src/sna/sna_video_sprite.c:150-176 | setting keeps the booleans normalised and never changes whether a colour key is used |
| SpriteVideo.ShowSends | src/sna/sna_video_sprite.c:322-360 | showing on a plane sends the colour key and colour space exactly when they changed for it, clears those marks and drops the key after a double failure |
| SpriteVideo.ShowTwice | src/sna/sna_video_sprite.c:322-360 | showing twice on one plane sends nothing the second time |
| SpriteVideo.NoKeyStaysOff | src/sna/sna_video_sprite.c:322-349 | once the colour key is off no show sends one and no attribute turns it back on |
| SpriteVideo.SetKeyThenShow | src/sna/sna_video_sprite.c:322-349 | after setting the key the next show sends its value and mask with the flag for the always-on-top setting |
| SpriteVideo.HideThenShow | src/sna/sna_video_sprite.c:108-124 | after hiding a plane the next show resends the colour key |
| SpriteVideo.InitialAttrs | src/sna/sna_video_sprite.c:911-930 | a new port holds the given key with the key in use, normalised booleans, and every output marked for a key and colour space update |
| SpriteVideo.SpritePort.SetAttribute | src/sna/sna_video_sprite.c:150-176 | the port's fields change as SetAttr says |
| SpriteVideo.SpritePort.GetAttribute | src/sna/sna_video_sprite.c:178-194 | the port answers as GetAttr says |
| SpriteVideo.SpritePort.HideOn | src/sna/sna_video_sprite.c:108-124 | hiding adds the plane to the outputs due a key update and changes nothing else |
| SpriteVideo.SpritePort.ShowOn | src/sna/sna_video_sprite.c:308-360 | showing updates the port and returns the key and colour space requests as Show says |
| SpriteVideo.BestSize | src/sna/sna_video_sprite.c:196-210 | the best size is the drawable size when the hardware or the render path can scale, otherwise the video size; SpriteVideo.BestSizeAvoidsScaling states what this buys put_image |
| SpriteVideo.NeedScaling | src/sna/sna_video_sprite.c:488-495 | scaling is needed exactly for NV12 or when the source and destination sizes differ; SpriteVideo.BestSizeAvoidsScaling relates it to the best size |
| SpriteVideo.BestSizeAvoidsScaling | src/sna/sna_video_sprite.c:638-639 | on a plane that cannot scale, a non-NV12 frame put at the best size needs no scaling when the GPU cannot scale either, and with the GPU's video path put_image scales exactly when the frame is NV12 or the drawable size differs from the video size |
| SpriteVideo.SourceRounding | src/sna/sna_video_sprite.c:571-584 | the source box is the 16.16 clip rounded outwards, and the image box is that box widened to even bounds |
| SpriteVideo.QueryLayout | src/sna/sna_video_sprite.c:724-781 | each format's layout: RGB formats report the pitch with a 4-byte size; NV12 is two planes; AYUV has a pitch of four bytes per pixel; the rest are even-sized packed planes |
| SpriteVideo.QueryNv12 | src/sna/sna_video_sprite.c:749-762 | NV12 is two planes with a shared pitch and an even height |
| SpriteVideo.QueryAyuv | src/sna/sna_video_sprite.c:763-768 | AYUV is one plane with a pitch of four bytes per pixel |
| SpriteVideo.QueryPacked | src/sna/sna_video_sprite.c:769-777 | packed YUV formats are one plane of two bytes per pixel with even sides |
| SpriteVideo.EvenStore | src/sna/sna_video_sprite.c:770-771 | storing an evened side in 16 bits gives an even value within one of the input unless it wraps |
| SpriteVideo.QueryImageAttributes | src/sna/sna_video_sprite.c:724-781 | the method writes each format's pitches and offsets into the caller's arrays, leaves other slots alone, and returns the size |
| SpriteVideo.Least | src/sna/sna_video_sprite.c:813-820 | the least plane count is at most the bound and every count, and is the bound or one of the counts |
| SpriteVideo.HasSprites | src/sna/sna_video_sprite.c:802-824 | the loop returns the least sprite count over the CRTCs, or 0 without CRTCs |
| SpriteVideo.ImageTableContents | src/sna/sna_video_sprite.c:82-89 | the image table always has YUY2, UYVY and RGB888, has no duplicates, and adds AYUV, NV12 and RGB565 by capability |
| SpriteVideo.Setup | src/sna/sna_video_sprite.c:826-943 | an adaptor is offered exactly when there are sprites and allocation succeeds, with one port per sprite, the capability image table and the default key |

## Left out

- Kernel, libdrm and X server calls are parameters of the transition functions. These include the vblank and flip ioctls, the sequence allocator, buffer allocation, flink, and `DRI2SwapComplete`/`DRI2WaitMSCComplete`. Their replies, success or failure, are inputs; their effects are recorded in a trace.
- `intel_drm_queue_alloc`, `intel_drm_abort_seq` and the CRTC helpers live in intel_display.c, which is not part of this model. Aborting a sequence is taken to run the abort callback, which deletes the record.
- The frame-counter conversion between MSC and kernel sequence numbers is taken as the identity. The 64-bit wrap of the MSC and the 32-bit wrap of the kernel sequence are not modelled, except in `EventStamp`.
- `intel_set_pixmap_bo` and the back-buffer framebuffer creation are reduced to the bookkeeping they change: the buffer object, the tiling and the reference calls.
- Logging, the rate-limited error messages and `xf86DrvMsg` are left out.
- The four scheduler entry methods of `Dri2Screens.Dri2Screen` (`ScheduleSwap`, `ScheduleWaitMsc`, `VblankEvent`, `FlipEvent`) assign the state computed by their transition function as a whole. They do not update it field by field, so in-place ordering within those paths is not captured.
- `Dri2Geometry.CreateBufferPixmap` gives the pixmap request only. Pixmap creation and screen-pixmap reuse are parameters.
- The X-server copy, blit and region code called by `I830DRI2CopyRegion` is left out. Only the scan-line wait decision is modelled.
- `sna_video.h`, `intel_module.c` and `compat-api.h` are not part of this model. Image formats are constructors of a `Fourcc` datatype. Whether a format is planar is a parameter.
- The sprite port's `SETPLANE` and colour-key ioctls, framebuffer creation and the width/height swap for rotated frames are left out. The requests the port would send are returned as values.
- The render paths of both ports, `put_image`, and the textured port's stop and put-image are left out. These include video upload, clipping through `xf86XVClipVideoHelper` and the render pipeline.
- `sna_video_sprite_stop` is modelled only as the per-plane hide (`SpritePort.HideOn`). The loop over CRTCs is left out.
- The sprite port's brightness, contrast and gamma atoms, and the adaptor's registration fields (names, encodings, function pointers), are left out.
- `SpriteVideo.UpdateDstBoxToCrtcCoords` uses unbounded integers. The `short` fields of `BoxRec` and their truncation are not modelled.
- `SpriteVideo.QueryImageAttributes` computes the size without the signed 32-bit bound. The RGB pitch is a parameter because the source takes it from the framebuffer layer.
- `SpriteVideo.CkeyValueChanWithin`: containment of the key in the mask is proved per channel. The whole-word statement for the packed key and mask follows from `PackWithin` and `PackBytes`, but it is not stated as one lemma.
- `Scheduler.QueueSwap`, `SwapWait.SwapQueued` and the entry points built on them (`SwapWait.ScheduleSwap`, `Scheduler.FrameEventHandler`, `Dri2Screens.Dri2Screen.ScheduleSwap`, `Dri2Screens.Dri2Screen.VblankEvent`) follow the corrected behaviour of the two rows under "## Findings", not the code as written at src/uxa/intel_dri.c:953-955 and 1239-1245. Their rows cite those lines, but the as-written behaviour is modelled only by `SwapWait.QueueSwapAsWritten` and `SwapWait.SwapQueuedAsWritten`.
- `DriOptions.Compare` takes the difference of Dafny characters, which are unsigned code points. C's `char` is signed on x86, so for a byte of 0x80 or more the sign of the source's difference is the opposite. Only whether the result is zero is used by `is_level`, and `DriOptions.CompareZeroIff` states that part exactly.
- `gettime_us` is the parameter `now` of `Msc.GetMsc`.
- The output bit masks of the sprite port are modelled as sets of plane indices.

## Findings

| source | as written | input that shows it | evidently intended | confidence | as-written member | corrected member |
|---|---|---|---|---|---|---|
| src/uxa/intel_dri.c:1239-1245 | on the divisor path, a failed final vblank request jumps to the blit fallback without aborting the allocated sequence; the fallback frees the record while the sequence still refers to it | a swap with a divisor, a target already passed, a sequence allocated and the final vblank request failing | abort the sequence, or drop its reference, before the fallback frees the record | not executed | SwapWait.SwapQueuedAsWrittenLeavesDanglingRequest | SwapWait.SwapQueuedKeepsGood |
| src/uxa/intel_dri.c:953-955 | the queued swap aborts its sequence on a vblank failure, and the abort callback deletes the record; the frame-event handler then blits, completes and deletes the same record again (lines 981-992) | a due flip record whose flip is refused and whose next-frame vblank request then fails | drop the sequence without deleting the record, so the caller's fallback is the only deletion | not executed | SwapWait.QueueSwapAsWrittenFreesBeforeFallback | Scheduler.QueueSwapKeepsGood |
