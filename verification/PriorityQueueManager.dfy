/** The priority queues' own methods, proved against the lanes of `ServiceModel`. */
module PriorityQueueManager {
  import opened Basics
  import opened JobModel
  import opened ServiceModel

  /**
    `queues` are the `asyncio.Queue`s; `hands` is the local variable in which each worker keeps the job it
    dequeued. `lanes` completes both with the history.
   */
  class PriorityQueueManager {
    const highLimit: int
    const mediumLimit: int
    const lowLimit: int
    var queues: map<Priority, seq<string>>
    var hands: map<Priority, Option<string>>
    ghost var lanes: map<Priority, Lane>

    function Limit(p: Priority): int
    {
      match p case High => highLimit case Medium => mediumLimit case Low => lowLimit
    }

    ghost predicate Valid()
      reads this
    {
      forall p: Priority ::
        && p in queues && p in hands && p in lanes
        && lanes[p].queue == queues[p] && lanes[p].hand == hands[p]
    }

    constructor (high: int, medium: int, low: int)
      ensures Valid() && lanes == INIT.lanes
      ensures Limit(High) == high && Limit(Medium) == medium && Limit(Low) == low
    {
      highLimit, mediumLimit, lowLimit := high, medium, low;
      queues := map[High := [], Medium := [], Low := []];
      hands := map[High := None, Medium := None, Low := None];
      lanes := INIT.lanes;
      new;
      forall p: Priority
        ensures p in queues && p in hands && p in lanes
      {
        assert p == High || p == Medium || p == Low;
      }
    }

    /** `put_nowait`: a queue without a positive limit is never full. */
    method EnqueueJob(id: string, p: Priority) returns (ok: bool)
      requires Valid()
      modifies this
      ensures Valid()
      ensures ok <==> !IsFull(old(lanes)[p], Limit(p))
      ensures ok <==> Limit(p) <= 0 || |old(queues)[p]| < Limit(p)
      ensures queues == if ok then old(queues)[p := old(queues)[p] + [id]] else old(queues)
      ensures lanes == if ok then old(lanes)[p := Enqueued(old(lanes)[p], id)] else old(lanes)
    {
      if 0 < Limit(p) <= |queues[p]| {
        return false;
      }
      queues := queues[p := queues[p] + [id]];
      lanes := lanes[p := Enqueued(lanes[p], id)];
      ok := true;
    }

    /** A worker that holds nothing takes the oldest id of its queue, or nothing when the wait times out. */
    method DequeueJob(p: Priority) returns (id: Option<string>)
      requires Valid() && hands[p] == None
      modifies this
      ensures Valid()
      ensures id.None? <==> old(queues)[p] == []
      ensures id.Some? ==> id.value == old(queues)[p][0] && queues == old(queues)[p := old(queues)[p][1..]]
      ensures id.None? ==> queues == old(queues)
      ensures lanes == if id.Some? then old(lanes)[p := Popped(old(lanes)[p])] else old(lanes)
      ensures hands[p] == id
    {
      if queues[p] == [] {
        return None;
      }
      id := Some(queues[p][0]);
      queues := queues[p := queues[p][1..]];
      hands := hands[p := id];
      lanes := lanes[p := Popped(lanes[p])];
    }

    /** The worker's loop goes round and overwrites the variable. */
    method LetGo(p: Priority)
      requires Valid()
      modifies this
      ensures Valid()
      ensures lanes == old(lanes)[p := old(lanes)[p].(hand := None)]
    {
      hands := hands[p := None];
      lanes := lanes[p := lanes[p].(hand := None)];
    }
  }
}
