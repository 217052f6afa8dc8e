/**
 * The bookkeeping facts behind the pending frame-event records of
 * src/uxa/intel_dri.c, stated over plain values so that the scheduler's
 * methods can rely on them:
 *
 *  - every record is on the list of the resource that owns it (its client,
 *    its drawable) and on no other, and every list holds only records that
 *    name its owner (`Linked`);
 *  - a DRI2 buffer's reference count is the references the X server holds
 *    plus one for every record field (front or back) naming the buffer
 *    (`RecordRefs`).
 */
module Registry {
  import opened Common

  // ---------------------------------------------------------------------
  // Frame-event records
  // ---------------------------------------------------------------------

  /** What a pending record will do when its event arrives. */
  datatype EventKind = Dri2Swap | Dri2Flip | Dri2WaitMsc

  /** The scan-out buffer a triple-buffered flip replaced, and the screen geometry it was made for. */
  datatype OldBuffer = OldBuffer(bo: nat, width: nat, height: nat, pitch: nat, tiling: nat)

  /** The XID that stands for no drawable. */
  const NoDrawable: nat := 0

  /**
   * A pending frame event (DRI2FrameEventRec): its kind, the client that
   * asked (None once the client is gone), the drawable (NoDrawable once it
   * is gone), the DRI2 buffers it holds references on, the frame it
   * targets, the client's completion callback, and the old scan-out buffer
   * of a triple-buffered flip.
   */
  datatype FrameEvent = FrameEvent(
    kind: EventKind, client: Option<nat>, drawable: nat,
    front: Option<nat>, back: Option<nat>,
    frame: nat, callback: nat, oldBuffer: Option<OldBuffer>)

  // ---------------------------------------------------------------------
  // Owner lists
  // ---------------------------------------------------------------------

  /** The two kinds of resource a record is listed under: its client and its drawable. */
  datatype Side = ClientSide | DrawableSide

  /** The resource on `side` that still owns the record, if any. */
  function Owner(e: FrameEvent, side: Side): Option<nat>
  {
    match side
      case ClientSide => e.client
      case DrawableSide => if e.drawable == NoDrawable then None else Some(e.drawable)
  }

  /** The record once the resource on `side` has gone: that owner is forgotten, nothing else changes. */
  function Disown(e: FrameEvent, side: Side): (r: FrameEvent)
    ensures Owner(r, side) == None
    ensures forall other: Side | other != side :: Owner(r, other) == Owner(e, other)
    ensures r.kind == e.kind && r.front == e.front && r.back == e.back && r.frame == e.frame
    ensures r.callback == e.callback && r.oldBuffer == e.oldBuffer
  {
    match side
      case ClientSide => e.(client := None)
      case DrawableSide => e.(drawable := NoDrawable)
  }

  /**
   * `lists` maps each resource on `side` to the ids on its list: each list
   * is free of duplicates and holds live records that resource owns, and
   * every record with an owner on `side` is on that owner's list.
   */
  ghost predicate Linked(lists: map<nat, seq<nat>>, events: map<nat, FrameEvent>, side: Side)
  {
    (forall k | k in lists :: NoDup(lists[k])) &&
    (forall k, id | k in lists && id in lists[k] :: id in events && Owner(events[id], side) == Some(k)) &&
    (forall id | id in events && Owner(events[id], side).Some? ::
       Owner(events[id], side).value in lists && id in lists[Owner(events[id], side).value])
  }

  /** The list of `k`, empty when `k` has no list yet. */
  function ListOf(lists: map<nat, seq<nat>>, k: nat): seq<nat>
  {
    if k in lists then lists[k] else []
  }

  /** list_add: a new record goes to the head of its owner's list, creating the list if needed. */
  lemma {:induction false} LinkNew(lists: map<nat, seq<nat>>, events: map<nat, FrameEvent>, side: Side, id: nat, e: FrameEvent)
    requires Linked(lists, events, side) && id !in events && Owner(e, side).Some?
    ensures var k := Owner(e, side).value;
      Linked(lists[k := [id] + ListOf(lists, k)], events[id := e], side)
  {
    var k := Owner(e, side).value;
    var lists', events' := lists[k := [id] + ListOf(lists, k)], events[id := e];
    assert id !in ListOf(lists, k);
    forall k2 | k2 in lists'
      ensures NoDup(lists'[k2])
    {
      if k2 == k {
        var l := ListOf(lists, k);
        forall i, j | 0 <= i < j < |lists'[k]|
          ensures lists'[k][i] != lists'[k][j]
        {
          if i > 0 {
            assert lists'[k][i] == l[i - 1] && lists'[k][j] == l[j - 1];
          } else {
            assert lists'[k][j] == l[j - 1];
          }
        }
      }
    }
    forall k2, x | k2 in lists' && x in lists'[k2]
      ensures x in events' && Owner(events'[x], side) == Some(k2)
    {
      if k2 == k && x != id {
        assert x in ListOf(lists, k);
      }
    }
  }

  /** A record whose owner on `side` stays the same may change in every other way. */
  lemma OwnerKept(lists: map<nat, seq<nat>>, events: map<nat, FrameEvent>, side: Side, id: nat, e: FrameEvent)
    requires Linked(lists, events, side) && id in events && Owner(e, side) == Owner(events[id], side)
    ensures Linked(lists, events[id := e], side)
  {
  }

  /** list_del of a record from the list of its owner, if it has one. */
  function Unlink(lists: map<nat, seq<nat>>, owner: Option<nat>, id: nat): map<nat, seq<nat>>
  {
    if owner.Some? && owner.value in lists then lists[owner.value := Without(lists[owner.value], id)] else lists
  }

  /** Unlinking a live record and forgetting it keeps the lists and the records in step; no list names it any more. */
  lemma {:induction false} UnlinkRecord(lists: map<nat, seq<nat>>, events: map<nat, FrameEvent>, side: Side, id: nat)
    requires Linked(lists, events, side) && id in events
    ensures Linked(Unlink(lists, Owner(events[id], side), id), events - {id}, side)
    ensures forall k | k in Unlink(lists, Owner(events[id], side), id) :: id !in Unlink(lists, Owner(events[id], side), id)[k]
  {
    var lists' := Unlink(lists, Owner(events[id], side), id);
    forall k, x | k in lists' && x in lists'[k]
      ensures x in events - {id} && Owner((events - {id})[x], side) == Some(k)
    {
      assert x in lists[k];
    }
  }

  /** One step of the owner-gone loop: the head of the owner's list forgets that owner and leaves the list. */
  lemma {:induction false} DisownHead(lists: map<nat, seq<nat>>, events: map<nat, FrameEvent>, side: Side, k: nat)
    requires Linked(lists, events, side) && k in lists && lists[k] != []
    ensures lists[k][0] in events && Owner(events[lists[k][0]], side) == Some(k)
    ensures var id := lists[k][0];
      Linked(lists[k := lists[k][1..]], events[id := Disown(events[id], side)], side)
  {
    var id := lists[k][0];
    var lists', events' := lists[k := lists[k][1..]], events[id := Disown(events[id], side)];
    assert NoDup(lists[k]);
    forall k2 | k2 in lists'
      ensures NoDup(lists'[k2])
    {
      if k2 == k {
        forall i, j | 0 <= i < j < |lists'[k]|
          ensures lists'[k][i] != lists'[k][j]
        {
          assert lists'[k][i] == lists[k][i + 1] && lists'[k][j] == lists[k][j + 1];
        }
      }
    }
    forall k2, x | k2 in lists' && x in lists'[k2]
      ensures x in events' && Owner(events'[x], side) == Some(k2)
    {
      if k2 == k {
        assert x in lists[k];
        var i :| 0 < i < |lists[k]| && lists[k][i] == x;
        assert x != id;
      }
    }
    forall x | x in events' && Owner(events'[x], side).Some?
      ensures Owner(events'[x], side).value in lists' && x in lists'[Owner(events'[x], side).value]
    {
      if Owner(events'[x], side).value == k {
        assert x != id;
        var i :| 0 <= i < |lists[k]| && lists[k][i] == x;
        assert i > 0 && lists'[k][i - 1] == x;
      }
    }
  }

  /** Once an owner's list is empty, dropping the owner's resource keeps the lists in step; no record names that owner. */
  lemma DropEmpty(lists: map<nat, seq<nat>>, events: map<nat, FrameEvent>, side: Side, k: nat)
    requires Linked(lists, events, side) && k in lists && lists[k] == []
    ensures Linked(lists - {k}, events, side)
    ensures forall id | id in events :: Owner(events[id], side) != Some(k)
  {
  }

  /** get_resource creating an empty list for a new owner keeps the lists in step. */
  lemma AddEmpty(lists: map<nat, seq<nat>>, events: map<nat, FrameEvent>, side: Side, k: nat)
    requires Linked(lists, events, side) && k !in lists
    ensures Linked(lists[k := []], events, side)
  {
  }

  // ---------------------------------------------------------------------
  // References records hold on DRI2 buffers
  // ---------------------------------------------------------------------

  /** The records whose front field names buffer `b`. */
  ghost function FrontHolders(events: map<nat, FrameEvent>, b: nat): set<nat>
  {
    set id | id in events && events[id].front == Some(b)
  }

  /** The records whose back field names buffer `b`. */
  ghost function BackHolders(events: map<nat, FrameEvent>, b: nat): set<nat>
  {
    set id | id in events && events[id].back == Some(b)
  }

  /** The references the pending records hold on buffer `b`: one per field naming it. */
  ghost function RecordRefs(events: map<nat, FrameEvent>, b: nat): nat
  {
    |FrontHolders(events, b)| + |BackHolders(events, b)|
  }

  /** The references one record holds on buffer `b`. */
  function Holds(e: FrameEvent, b: nat): nat
  {
    (if e.front == Some(b) then 1 else 0) + (if e.back == Some(b) then 1 else 0)
  }

  /** A new record joins the front holders of `b` exactly when its front field names `b`. */
  lemma FrontHoldersInsert(events: map<nat, FrameEvent>, id: nat, e: FrameEvent, b: nat)
    requires id !in events
    ensures FrontHolders(events[id := e], b) ==
      if e.front == Some(b) then FrontHolders(events, b) + {id} else FrontHolders(events, b)
  {
  }

  /** A new record joins the back holders of `b` exactly when its back field names `b`. */
  lemma BackHoldersInsert(events: map<nat, FrameEvent>, id: nat, e: FrameEvent, b: nat)
    requires id !in events
    ensures BackHolders(events[id := e], b) ==
      if e.back == Some(b) then BackHolders(events, b) + {id} else BackHolders(events, b)
  {
  }

  /** A new record adds its own references. */
  lemma {:induction false} RecordRefsInsert(events: map<nat, FrameEvent>, id: nat, e: FrameEvent, b: nat)
    requires id !in events
    ensures RecordRefs(events[id := e], b) == RecordRefs(events, b) + Holds(e, b)
  {
    FrontHoldersInsert(events, id, e, b);
    BackHoldersInsert(events, id, e, b);
    assert id !in FrontHolders(events, b) && id !in BackHolders(events, b);
  }

  /** A removed record takes its references with it. */
  lemma {:induction false} RecordRefsRemove(events: map<nat, FrameEvent>, id: nat, b: nat)
    requires id in events
    ensures RecordRefs(events - {id}, b) + Holds(events[id], b) == RecordRefs(events, b)
  {
    var ev := events - {id};
    assert events == ev[id := events[id]];
    RecordRefsInsert(ev, id, events[id], b);
  }

  /** Replacing a record changes the count by the difference of what the two versions hold. */
  lemma RecordRefsReplace(events: map<nat, FrameEvent>, id: nat, e: FrameEvent, b: nat)
    requires id in events
    ensures RecordRefs(events[id := e], b) + Holds(events[id], b) == RecordRefs(events, b) + Holds(e, b)
  {
    RecordRefsRemove(events, id, b);
    assert events[id := e] == (events - {id})[id := e];
    RecordRefsInsert(events - {id}, id, e, b);
  }

  /** No record holds `b` exactly when the records hold no reference on it. */
  lemma {:induction false} RecordRefsZero(events: map<nat, FrameEvent>, b: nat)
    ensures RecordRefs(events, b) == 0 <==> forall id | id in events :: Holds(events[id], b) == 0
  {
    if forall id | id in events :: Holds(events[id], b) == 0 {
      assert FrontHolders(events, b) == {};
      assert BackHolders(events, b) == {};
    } else {
      var id :| id in events && Holds(events[id], b) != 0;
      RecordRefsAtLeast(events, id, b);
    }
  }

  /** A record holding `b` is counted: the records' references on `b` are at least its own. */
  lemma RecordRefsAtLeast(events: map<nat, FrameEvent>, id: nat, b: nat)
    requires id in events
    ensures RecordRefs(events, b) >= Holds(events[id], b)
  {
    RecordRefsRemove(events, id, b);
  }

  /** Two record maps with the same records holding the same buffers count the same references. */
  lemma {:induction false} SameHoldings(ev1: map<nat, FrameEvent>, ev2: map<nat, FrameEvent>, b: nat)
    requires ev1.Keys == ev2.Keys
    requires forall id | id in ev1 :: ev1[id].front == ev2[id].front && ev1[id].back == ev2[id].back
    ensures RecordRefs(ev1, b) == RecordRefs(ev2, b)
  {
    assert FrontHolders(ev1, b) == FrontHolders(ev2, b);
    assert BackHolders(ev1, b) == BackHolders(ev2, b);
  }
}
