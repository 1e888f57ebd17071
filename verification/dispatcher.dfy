/** The page side of the worker bridge (`WorkerService`): requests go out to a
    pool of workers, round-robin for `call` and to every worker for
    `callAll`; replies come back and settle the pending request they name.

    Posting a message appends it to the outbox of the worker it goes to.
    A reply arriving is a call of `OnReply`. Settling a request (resolve,
    reject, notify) and a local `$broadcast` are appended to `events`. The
    value a message carries is the one `savePrototypes` returns; the value
    a reply carries lives in the graph the structured clone built for it. */
module Dispatcher {
  import opened Wrappers
  import opened ObjectGraph
  import opened Serializer

  datatype Message =
    | Request(id: nat, service: string, methodName: string, args: Value)
    | Cancel(id: nat)
    | Broadcast(name: string, args: Value)

  /** A message a worker posts back: a broadcast, or an event about request
      `id` ("success", "failure", or any other name for a progress update). */
  datatype Reply =
    | BroadcastReply(name: string, args: Value)
    | Settlement(event: string, id: nat, data: Value)

  /** What the page observes: a `$rootScope.$broadcast`, or a pending
      request's deferred being resolved, rejected or notified. */
  datatype PageEvent =
    | Broadcasted(name: string, args: Value)
    | Resolved(id: nat, value: Value)
    | Rejected(id: nat, value: Value)
    | Notified(id: nat, value: Value)

  /** The workers a request's cancel message goes to when its canceller fires. */
  datatype CancelTarget = One(worker: nat) | All

  /** The request id a message carries; broadcasts carry none. */
  function IdOf(m: Message): int {
    if m.Broadcast? then -1 else m.id
  }

  /** The cursor after `k` calls made from cursor `c` in a pool of `n`. */
  function CursorAfter(c: nat, n: nat, k: nat): nat
    requires n > 0
  {
    if k == 0 then c else (CursorAfter(c, n, k - 1) + 1) % n
  }

  /** The workers the next `n` calls go to, in order. */
  function Schedule(c: nat, n: nat): (s: seq<nat>)
    requires n > 0
    ensures |s| == n && forall k :: 0 <= k < n ==> s[k] == CursorAfter(c, n, k)
  {
    seq(n, k requires 0 <= k => CursorAfter(c, n, k))
  }

  /** From any valid cursor, `n` consecutive calls go to `n` different
      workers, so each worker of the pool gets exactly one of them. */
  lemma {:induction false} RoundRobinCoversPool(c: nat, n: nat)
    requires c < n
    ensures forall k :: 0 <= k < n ==> CursorAfter(c, n, k) == if c + k < n then c + k else c + k - n
    ensures forall i, j :: 0 <= i < j < n ==> CursorAfter(c, n, i) != CursorAfter(c, n, j)
    ensures forall w :: 0 <= w < n ==> w in Schedule(c, n)
  {
    forall k | 0 <= k < n
      ensures CursorAfter(c, n, k) == if c + k < n then c + k else c + k - n
    {
      CursorClosedForm(c, n, k);
    }
    forall w | 0 <= w < n
      ensures w in Schedule(c, n)
    {
      var k := if c <= w then w - c else w + n - c;
      CursorClosedForm(c, n, k);
      assert Schedule(c, n)[k] == w;
    }
  }

  /** One step of the cursor inside the pool. */
  lemma NextCursor(x: nat, n: nat)
    requires x < n
    ensures (x + 1) % n == if x + 1 < n then x + 1 else 0
  {
  }

  lemma {:induction false} CursorClosedForm(c: nat, n: nat, k: nat)
    requires c < n && k < n
    ensures CursorAfter(c, n, k) == if c + k < n then c + k else c + k - n
  {
    if k > 0 {
      CursorClosedForm(c, n, k - 1);
      NextCursor(CursorAfter(c, n, k - 1), n);
    }
  }

  class WorkerService {
    /** `workerServicePrototypeMappingConfiguration`. */
    const registry: map<string, Constructor>
    /** `workerThreads`: the number of workers in the pool. */
    const poolSize: nat
    /** `deferreds`: one slot per request ever made; `true` while its entry
        has not been deleted. */
    var deferreds: seq<bool>
    var currentWorker: nat
    var outboxes: seq<seq<Message>>
    /** The cancellers registered by requests and not yet fired. */
    var cancellers: map<nat, CancelTarget>
    var events: seq<PageEvent>

    ghost predicate Valid()
      reads this
    {
      && |outboxes| == poolSize
      && (if poolSize == 0 then currentWorker == 0 else currentWorker < poolSize)
      && (forall id :: id in cancellers ==> id < |deferreds| && (cancellers[id].One? ==> cancellers[id].worker < poolSize))
      && (forall w, k :: 0 <= w < |outboxes| && 0 <= k < |outboxes[w]| ==> IdOf(outboxes[w][k]) < |deferreds|)
    }

    constructor (registry: map<string, Constructor>, workerThreads: nat)
      ensures Valid() && this.registry == registry && poolSize == workerThreads
      ensures deferreds == [] && currentWorker == 0 && cancellers == map[] && events == []
      ensures |outboxes| == workerThreads && forall w :: 0 <= w < workerThreads ==> outboxes[w] == []
    {
      this.registry := registry;
      poolSize := workerThreads;
      deferreds := [];
      currentWorker := 0;
      outboxes := seq(workerThreads, _ => []);
      cancellers := map[];
      events := [];
    }

    /** `workers.forEach(w => w.postMessage(m))`. */
    method PostToAll(m: Message)
      requires Valid() && IdOf(m) < |deferreds|
      modifies this`outboxes
      ensures Valid() && |outboxes| == poolSize
      ensures forall w :: 0 <= w < poolSize ==> outboxes[w] == old(outboxes[w]) + [m]
    {
      var w := 0;
      while w < poolSize
        invariant 0 <= w <= poolSize && |outboxes| == poolSize
        invariant forall j :: 0 <= j < w ==> outboxes[j] == old(outboxes[j]) + [m]
        invariant forall j :: w <= j < poolSize ==> outboxes[j] == old(outboxes[j])
        invariant Valid()
      {
        outboxes := outboxes[w := outboxes[w] + [m]];
        w := w + 1;
      }
    }

    /** `worker.postMessage(m)`. */
    method PostTo(worker: nat, m: Message)
      requires Valid() && worker < poolSize && IdOf(m) < |deferreds|
      modifies this`outboxes
      ensures Valid() && outboxes == old(outboxes)[worker := old(outboxes[worker]) + [m]]
    {
      outboxes := outboxes[worker := outboxes[worker] + [m]];
    }

    /** A new deferred for the next request id, and its canceller, which
        sends the cancel message to `target`, when the caller passed one. */
    method NewDeferred(target: CancelTarget, withCanceller: bool) returns (id: nat)
      requires Valid() && (target.One? ==> target.worker < poolSize)
      modifies this`deferreds, this`cancellers
      ensures Valid()
      ensures id == old(|deferreds|) && deferreds == old(deferreds) + [true]
      ensures cancellers == if withCanceller then old(cancellers)[id := target] else old(cancellers)
    {
      deferreds := deferreds + [true];
      id := |deferreds| - 1;
      if withCanceller {
        cancellers := cancellers[id := target];
      }
    }

    /** `worker.postMessage` of request `id`, its arguments passed through
        `savePrototypes` first. */
    method SendRequest(heap: ObjectGraph, worker: nat, id: nat, service: string, methodName: string, args: Value)
      requires Valid() && worker < poolSize && id < |deferreds|
      requires heap.Valid() && (args.Object? ==> args.ref in heap.shapes) && Carrying(heap.metas, Mark) == {}
      modifies this`outboxes, heap`metas
      ensures Valid() && heap.Valid() && Carrying(heap.metas, Mark) == {}
      ensures heap.metas == AfterWalk(heap.shapes, old(heap.metas), args, Tag(heap.stamps))
      ensures outboxes == old(outboxes)[worker := old(outboxes[worker]) + [Request(id, service, methodName, args)]]
    {
      var saved := SavePrototypes(heap, args);
      PostTo(worker, Request(id, service, methodName, saved));
    }

    /** `call`: a new request, posted to the worker under the cursor, which
        then moves on to the next worker of the pool. The request's id is
        the number of requests made before it, so ids are never reused. */
    method Call(heap: ObjectGraph, service: string, methodName: string, args: Value, withCanceller: bool) returns (id: nat)
      requires Valid() && poolSize > 0
      requires heap.Valid() && (args.Object? ==> args.ref in heap.shapes) && Carrying(heap.metas, Mark) == {}
      modifies this, heap`metas
      ensures Valid() && heap.Valid() && Carrying(heap.metas, Mark) == {}
      ensures heap.metas == AfterWalk(heap.shapes, old(heap.metas), args, Tag(heap.stamps))
      ensures id == old(|deferreds|) && deferreds == old(deferreds) + [true]
      ensures forall w, k :: 0 <= w < |old(outboxes)| && 0 <= k < |old(outboxes)[w]| ==> IdOf(old(outboxes)[w][k]) < id
      ensures outboxes == old(outboxes)[old(currentWorker) := old(outboxes[currentWorker]) + [Request(id, service, methodName, args)]]
      ensures currentWorker == (old(currentWorker) + 1) % poolSize
      ensures cancellers == if withCanceller then old(cancellers)[id := One(old(currentWorker))] else old(cancellers)
      ensures events == old(events)
    {
      var worker := currentWorker;
      id := NewDeferred(One(worker), withCanceller);
      currentWorker := (currentWorker + 1) % poolSize;
      SendRequest(heap, worker, id, service, methodName, args);
    }

    /** `callAll`: a new request, posted to every worker of the pool. */
    method CallAll(heap: ObjectGraph, service: string, methodName: string, args: Value, withCanceller: bool) returns (id: nat)
      requires Valid()
      requires heap.Valid() && (args.Object? ==> args.ref in heap.shapes) && Carrying(heap.metas, Mark) == {}
      modifies this, heap`metas
      ensures Valid() && heap.Valid() && Carrying(heap.metas, Mark) == {}
      ensures heap.metas == AfterWalk(heap.shapes, old(heap.metas), args, Tag(heap.stamps))
      ensures id == old(|deferreds|) && deferreds == old(deferreds) + [true]
      ensures forall w, k :: 0 <= w < |old(outboxes)| && 0 <= k < |old(outboxes)[w]| ==> IdOf(old(outboxes)[w][k]) < id
      ensures |outboxes| == poolSize
      ensures forall w :: 0 <= w < poolSize ==> outboxes[w] == old(outboxes[w]) + [Request(id, service, methodName, args)]
      ensures currentWorker == old(currentWorker)
      ensures cancellers == if withCanceller then old(cancellers)[id := All] else old(cancellers)
      ensures events == old(events)
    {
      id := NewDeferred(All, withCanceller);
      var saved := SavePrototypes(heap, args);
      PostToAll(Request(id, service, methodName, saved));
    }

    /** `$broadcast`: the event is posted to every worker of the pool, the
        arguments being saved anew for each worker. With no worker nothing is
        saved; otherwise the repeated saves leave what one save leaves. */
    method BroadcastToWorkers(heap: ObjectGraph, name: string, args: Value)
      requires Valid()
      requires heap.Valid() && (args.Object? ==> args.ref in heap.shapes) && Carrying(heap.metas, Mark) == {}
      modifies this`outboxes, heap`metas
      ensures Valid() && heap.Valid() && Carrying(heap.metas, Mark) == {}
      ensures heap.metas == if poolSize == 0 then old(heap.metas) else AfterWalk(heap.shapes, old(heap.metas), args, Tag(heap.stamps))
      ensures |outboxes| == poolSize
      ensures forall w :: 0 <= w < poolSize ==> outboxes[w] == old(outboxes[w]) + [Broadcast(name, args)]
    {
      var w := 0;
      while w < poolSize
        invariant 0 <= w <= poolSize && |outboxes| == poolSize
        invariant forall j :: 0 <= j < w ==> outboxes[j] == old(outboxes[j]) + [Broadcast(name, args)]
        invariant forall j :: w <= j < poolSize ==> outboxes[j] == old(outboxes[j])
        invariant Valid() && heap.Valid() && Carrying(heap.metas, Mark) == {}
        invariant heap.metas == if w == 0 then old(heap.metas) else AfterWalk(heap.shapes, old(heap.metas), args, Tag(heap.stamps))
      {
        PostBroadcast(heap, w, name, args);
        if w > 0 {
          SaveIdempotent(heap.shapes, old(heap.metas), args, heap.stamps);
        }
        w := w + 1;
      }
    }

    /** `worker.postMessage` of a broadcast, its arguments passed through
        `savePrototypes` first. */
    method PostBroadcast(heap: ObjectGraph, worker: nat, name: string, args: Value)
      requires Valid() && worker < poolSize
      requires heap.Valid() && (args.Object? ==> args.ref in heap.shapes) && Carrying(heap.metas, Mark) == {}
      modifies this`outboxes, heap`metas
      ensures Valid() && heap.Valid() && Carrying(heap.metas, Mark) == {}
      ensures heap.metas == AfterWalk(heap.shapes, old(heap.metas), args, Tag(heap.stamps))
      ensures outboxes == old(outboxes)[worker := old(outboxes[worker]) + [Broadcast(name, args)]]
    {
      var saved := SavePrototypes(heap, args);
      PostTo(worker, Broadcast(name, saved));
    }

    /** The canceller of request `id` resolving: a cancel message goes to
        the worker (or workers) the request went to, and the pending entry is
        deleted, whether or not the request has settled in the meantime. */
    method FireCanceller(id: nat)
      requires Valid() && id in cancellers
      modifies this`outboxes, this`deferreds, this`cancellers
      ensures Valid()
      ensures deferreds == old(deferreds)[id := false]
      ensures cancellers == old(cancellers) - {id}
      ensures |outboxes| == poolSize
      ensures forall w :: 0 <= w < poolSize ==>
                outboxes[w] == if old(cancellers[id]) == All || old(cancellers[id]) == One(w) then old(outboxes[w]) + [Cancel(id)] else old(outboxes[w])
    {
      match cancellers[id] {
        case One(worker) =>
          outboxes := outboxes[worker := outboxes[worker] + [Cancel(id)]];
        case All =>
          PostToAll(Cancel(id));
      }
      deferreds := deferreds[id := false];
      cancellers := cancellers - {id};
    }

    /** The `message` listener on each worker. A broadcast is re-broadcast on
        the page with its arguments restored. An event about a pending request
        settles it: "success" and "failure" delete the entry and then resolve
        or reject it, any other event notifies it and keeps it. An event about
        a request with no entry is ignored. When restoring the payload finds
        an unknown tag, the listener throws before settling anything, after
        the entry was already deleted. */
    method OnReply(reply: Reply, arrived: ObjectGraph) returns (outcome: Result<()>)
      requires Valid()
      requires arrived.Valid() && Carrying(arrived.metas, Mark) == {}
      requires Payload(reply).Object? ==> Payload(reply).ref in arrived.shapes
      modifies this`deferreds, this`events, arrived`metas
      ensures Valid()
      ensures Live(old(deferreds), reply) ==>
                && (outcome.Ok? <==> AllTagsKnown(arrived.shapes, old(arrived.metas), Payload(reply), registry))
                && (outcome.Ok? ==> arrived.metas == AfterWalk(arrived.shapes, old(arrived.metas), Payload(reply), Restore(registry)))
      ensures !Live(old(deferreds), reply) ==> outcome.Ok? && arrived.metas == old(arrived.metas)
      ensures deferreds == if Retires(old(deferreds), reply) then old(deferreds)[reply.id := false] else old(deferreds)
      ensures events == if Live(old(deferreds), reply) && outcome.Ok? then old(events) + [EventOf(reply)] else old(events)
    {
      match reply
      case BroadcastReply(name, args) =>
        var restored := RestorePrototypes(arrived, registry, args);
        if restored.Error? {
          return Error(restored.message);
        }
        events := events + [Broadcasted(name, restored.value)];
        outcome := Ok(());
      case Settlement(event, id, data) =>
        if id < |deferreds| && deferreds[id] {
          if event == "success" || event == "failure" {
            deferreds := deferreds[id := false];
          }
          var restored := RestorePrototypes(arrived, registry, data);
          if restored.Error? {
            return Error(restored.message);
          }
          var settled := if event == "success" then Resolved(id, restored.value)
                         else if event == "failure" then Rejected(id, restored.value)
                         else Notified(id, restored.value);
          events := events + [settled];
        }
        outcome := Ok(());
    }
  }

  /** The value a reply carries. */
  function Payload(reply: Reply): Value {
    match reply
    case BroadcastReply(_, args) => args
    case Settlement(_, _, data) => data
  }

  /** Whether the listener acts on the reply: broadcasts always, events only
      while their request has an entry. */
  predicate Live(deferreds: seq<bool>, reply: Reply) {
    reply.BroadcastReply? || (reply.id < |deferreds| && deferreds[reply.id])
  }

  /** Whether the reply deletes its request's entry. */
  predicate Retires(deferreds: seq<bool>, reply: Reply) {
    Live(deferreds, reply) && reply.Settlement? && (reply.event == "success" || reply.event == "failure")
  }

  /** What the page observes when it acts on a reply. */
  function EventOf(reply: Reply): PageEvent {
    match reply
    case BroadcastReply(name, args) => Broadcasted(name, args)
    case Settlement(event, id, data) =>
      if event == "success" then Resolved(id, data)
      else if event == "failure" then Rejected(id, data)
      else Notified(id, data)
  }
}
