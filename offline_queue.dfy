/** The offline operation queue: queued Firebase mutations persisted under the
    "queue" preference key. The preference store is a field holding the
    decoded list (None when the key is absent); the random UUID and the clock
    are parameters of enqueue, and the processor's verdicts are a function. */
module OfflineQueue {
  import opened Wrappers
  import Sorting

  datatype Operation = Insert | Update | Delete

  datatype DataType = TransactionData | InvestmentData | NoteData | StudentData
                    | EventData | WTLessonData | RegistrationData

  datatype QueueItem = QueueItem(id: string, operation: Operation, dataType: DataType,
                                 jsonData: Option<string>, timestamp: int)

  /** `removeIf { it.id in ids }`: the items whose id is not in `ids`, in order. */
  function Surviving(q: seq<QueueItem>, ids: set<string>): (r: seq<QueueItem>)
    ensures |r| <= |q|
    ensures forall i :: 0 <= i < |r| ==> r[i].id !in ids && r[i] in q
    ensures forall i :: 0 <= i < |q| && q[i].id !in ids ==> q[i] in r
  {
    if q == [] then []
    else if q[0].id in ids then Surviving(q[1..], ids)
    else [q[0]] + Surviving(q[1..], ids)
  }

  lemma {:induction false} SurvivingNone(q: seq<QueueItem>)
    ensures Surviving(q, {}) == q
  {
    if q != [] {
      SurvivingNone(q[1..]);
    }
  }

  /** The items whose id is not in `ids`. */
  function Unremoved(ids: set<string>): QueueItem -> bool {
    (x: QueueItem) => x.id !in ids
  }

  /** Removal keeps the other items in their queue order: it is `filter`
      on the id. */
  lemma {:induction false} SurvivingIsFilter(q: seq<QueueItem>, ids: set<string>)
    ensures Surviving(q, ids) == Sorting.Filter(q, Unremoved(ids))
  {
    if q != [] {
      SurvivingIsFilter(q[1..], ids);
      Sorting.HeadStep(q, Unremoved(ids));
    }
  }

  /** Every item whose id is not removed stays as often as it was queued;
      removed ones are all gone. */
  lemma SurvivingCount(q: seq<QueueItem>, ids: set<string>, x: QueueItem)
    ensures multiset(Surviving(q, ids))[x] == if x.id in ids then 0 else multiset(q)[x]
  {
    SurvivingIsFilter(q, ids);
    Sorting.FilterCount(q, Unremoved(ids), x);
  }

  /** Removing one set of ids and then another removes their union. */
  lemma {:induction false} SurvivingTwice(q: seq<QueueItem>, a: set<string>, b: set<string>)
    ensures Surviving(Surviving(q, a), b) == Surviving(q, a + b)
  {
    if q != [] {
      SurvivingTwice(q[1..], a, b);
    }
  }

  /** The ids of the items of `done` that the processor accepted. */
  function SucceededIds(done: seq<QueueItem>, succeeds: QueueItem -> bool): (ids: set<string>)
    ensures forall id :: id in ids <==> exists i :: 0 <= i < |done| && done[i].id == id && succeeds(done[i])
  {
    if done == [] then {}
    else
      var last := done[|done| - 1];
      var ids := SucceededIds(done[..|done| - 1], succeeds);
      assert forall i :: 0 <= i < |done| - 1 ==> done[..|done| - 1][i] == done[i];
      ids + (if succeeds(last) then {last.id} else {})
  }

  lemma SucceededIdsStep(q: seq<QueueItem>, succeeds: QueueItem -> bool, i: int)
    requires 0 <= i < |q|
    ensures SucceededIds(q[..i + 1], succeeds)
      == SucceededIds(q[..i], succeeds) + (if succeeds(q[i]) then {q[i].id} else {})
  {
    assert q[..i + 1][..i] == q[..i];
  }

  /** One more processed item: its id is removed as well when it succeeded. */
  lemma SurvivingStep(q: seq<QueueItem>, succeeds: QueueItem -> bool, i: int)
    requires 0 <= i < |q|
    ensures var before := Surviving(q, SucceededIds(q[..i], succeeds));
      Surviving(q, SucceededIds(q[..i + 1], succeeds))
        == if succeeds(q[i]) then Surviving(before, {q[i].id}) else before
  {
    SucceededIdsStep(q, succeeds, i);
    if succeeds(q[i]) {
      SurvivingTwice(q, SucceededIds(q[..i], succeeds), {q[i].id});
    } else {
      assert SucceededIds(q[..i + 1], succeeds) == SucceededIds(q[..i], succeeds);
    }
  }

  /** No two queued items share an id (each id is a fresh UUID). */
  predicate UniqueIds(q: seq<QueueItem>) {
    forall i, j :: 0 <= i < j < |q| ==> q[i].id != q[j].id
  }

  /** With unique ids, processing keeps exactly the items whose processing failed. */
  lemma UniqueIdsSurvivors(q: seq<QueueItem>, succeeds: QueueItem -> bool, k: int)
    requires UniqueIds(q) && 0 <= k < |q|
    ensures q[k] in Surviving(q, SucceededIds(q, succeeds)) <==> !succeeds(q[k])
  {
    var r := Surviving(q, SucceededIds(q, succeeds));
    if q[k] in r {
      var i :| 0 <= i < |r| && r[i] == q[k];
    }
  }

  class OfflineQueue {
    /** The stored "queue" value; None when the key is absent. */
    var stored: Option<seq<QueueItem>>

    constructor (initial: Option<seq<QueueItem>>)
      ensures stored == initial
    {
      stored := initial;
    }

    /** getQueue: an absent key reads as the empty list. */
    function GetQueue(): (q: seq<QueueItem>)
      reads this
      ensures stored.None? ==> q == []
      ensures stored.Some? ==> q == stored.value
    {
      stored.GetOr([])
    }

    /** enqueue: one new item at the end, the rest in their order. */
    method Enqueue(dataType: DataType, operation: Operation, jsonData: Option<string>,
                   uuid: string, now: int)
      modifies this
      ensures GetQueue() == old(GetQueue()) + [QueueItem(uuid, operation, dataType, jsonData, now)]
    {
      var queueItem := QueueItem(uuid, operation, dataType, jsonData, now);
      var queue := GetQueue();
      queue := queue + [queueItem];
      stored := Some(queue);
    }

    /** removeOperation: drops every item with that id; the others keep their order. */
    method RemoveOperation(id: string)
      modifies this
      ensures stored == Some(Surviving(old(GetQueue()), {id}))
    {
      var queue := GetQueue();
      queue := Surviving(queue, {id});
      stored := Some(queue);
    }

    /** clearQueue removes the key. */
    method ClearQueue()
      modifies this
      ensures stored == None && GetQueue() == []
    {
      stored := None;
    }

    /** The body of processQueue's loop: the item is removed when the
        processor accepts it. */
    method ProcessItem(item: QueueItem, succeeds: QueueItem -> bool)
      modifies this
      ensures GetQueue() == if succeeds(item) then Surviving(old(GetQueue()), {item.id}) else old(GetQueue())
    {
      var success := succeeds(item);
      if success {
        RemoveOperation(item.id);
      }
    }

    /** processQueue, run to completion on one thread: every item the
        processor accepts is removed by id, in queue order; an empty queue is
        left untouched. */
    method ProcessQueue(succeeds: QueueItem -> bool)
      modifies this
      ensures old(GetQueue()) == [] ==> stored == old(stored)
      ensures GetQueue() == Surviving(old(GetQueue()), SucceededIds(old(GetQueue()), succeeds))
    {
      var queue := GetQueue();
      if queue == [] {
        return;
      }
      var i := 0;
      SurvivingNone(queue);
      while i < |queue|
        invariant 0 <= i <= |queue|
        invariant GetQueue() == Surviving(queue, SucceededIds(queue[..i], succeeds))
      {
        SurvivingStep(queue, succeeds, i);
        ProcessItem(queue[i], succeeds);
        i := i + 1;
      }
      assert queue[..i] == queue;
    }
  }
}
