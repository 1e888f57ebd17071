/** The page-side services that only hand an `[endpoint, query]` pair to a
    worker-side service: they build the argument array and go through
    `WorkerService.call`, passing the canceller on. */
module Forwarding {
  import opened ObjectGraph
  import opened Serializer
  import opened Dispatcher

  /** The argument array `[endpoint, query]`. */
  function EndpointAndQuery(endpoint: string, query: string): (s: Shape)
    ensures s.isArray && |s.values| == 2
    ensures s.values[0] == Primitive(endpoint) && s.values[1] == Primitive(query)
  {
    Shape(true, [Primitive(endpoint), Primitive(query)])
  }

  /** `workerService.call(service, methodName, [endpoint, query], canceller)`:
      a fresh array is allocated on the page heap and one request carrying it
      goes to the worker under the round-robin cursor. */
  method CallWithEndpoint(workers: WorkerService, heap: ObjectGraph, service: string, methodName: string,
                          endpoint: string, query: string, arrayProto: Constructor, withCanceller: bool)
    returns (id: nat, args: Value)
    requires workers.Valid() && workers.poolSize > 0
    requires heap.Valid() && Carrying(heap.metas, Mark) == {}
    modifies workers, heap
    ensures workers.Valid() && heap.Valid() && Carrying(heap.metas, Mark) == {}
    ensures args.Object? && args.ref !in old(heap.shapes)
    ensures heap.shapes == old(heap.shapes)[args.ref := EndpointAndQuery(endpoint, query)]
    ensures heap.metas == AfterWalk(heap.shapes, old(heap.metas)[args.ref := Meta("", false, arrayProto)], args, Tag(heap.stamps))
    ensures id == old(|workers.deferreds|) && workers.deferreds == old(workers.deferreds) + [true]
    ensures workers.outboxes == old(workers.outboxes)[old(workers.currentWorker) :=
              old(workers.outboxes[workers.currentWorker]) + [Request(id, service, methodName, args)]]
    ensures workers.currentWorker == (old(workers.currentWorker) + 1) % workers.poolSize
    ensures workers.cancellers == if withCanceller then old(workers.cancellers)[id := One(old(workers.currentWorker))] else old(workers.cancellers)
    ensures workers.events == old(workers.events)
  {
    var r := heap.Allocate(EndpointAndQuery(endpoint, query), arrayProto);
    assert Carrying(heap.metas, Mark) == {} by {
      forall n | n in heap.metas
        ensures !heap.metas[n].mark
      {
        if n != r {
          assert n !in Carrying(old(heap.metas), Mark);
        }
      }
    }
    args := Object(r);
    id := workers.Call(heap, service, methodName, args, withCanceller);
  }
}
