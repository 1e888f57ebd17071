/** The worker side of the bridge (`WorkerWorkerService`): messages from the
    page are routed to a local broadcast, a cancellation or a service call,
    and each call's settlement goes back to the page as a reply.

    A message from the page arrives as a call of `OnMessage`, with the
    worker's heap, in which its arguments arrive, and with what the called
    service method returned. The settling of a call's promise arrives as a
    call of `Settle`. Posting to the page appends to `posted`. A local
    `$broadcast` is appended to `broadcasts`. */
module DispatchTarget {
  import opened Wrappers
  import opened Text
  import opened ObjectGraph
  import opened Serializer
  import opened Dispatcher

  // ---------------------------------------------------------------------
  // stripFunctions

  /** A JavaScript value as `stripFunctions` sees it: a tree, the own
      enumerable properties of an object in `for..in` order. */
  datatype JsValue =
    | Undefined
    | Null
    | Bool(b: bool)
    | Number(n: int)
    | Str(s: string)
    | Func
    | Obj(props: seq<Prop>)
    | Arr(elems: seq<JsValue>)

  datatype Prop = Prop(key: string, value: JsValue)

  /** `typeof x === 'object'`, which holds of `null` too. */
  predicate IsObjectType(x: JsValue) {
    x.Null? || x.Obj? || x.Arr?
  }

  /** No function anywhere in the value. */
  predicate NoFunctions(x: JsValue) {
    match x
    case Func => false
    case Obj(props) => forall i :: 0 <= i < |props| ==> NoFunctions(props[i].value)
    case Arr(elems) => forall i :: 0 <= i < |elems| ==> NoFunctions(elems[i])
    case _ => true
  }

  /** `stripFunctions` as written: the result is always a fresh plain object
      holding the `for..in` entries of its argument, function-valued ones
      dropped and object-valued ones (`null` among them) stripped in turn. A
      string's entries are its characters under "0", "1", ...; an array's are
      its elements under the same keys; any other primitive has none. */
  function StripFunctionsAsWritten(x: JsValue): (r: JsValue)
    ensures r.Obj? && NoFunctions(r)
    decreases x, 1
  {
    match x
    case Obj(props) => Obj(StripPropsAsWritten(x, 0))
    case Arr(elems) => Obj(StripElemsAsWritten(x, 0))
    case Str(s) => Obj(CharProps(s, 0))
    case _ => Obj([])
  }

  /** One entry of the loop: an object-valued entry is stripped, a function
      dropped, anything else copied. */
  function StripPropsAsWritten(x: JsValue, i: nat): (r: seq<Prop>)
    requires x.Obj? && i <= |x.props|
    ensures forall k :: 0 <= k < |r| ==> NoFunctions(r[k].value)
    decreases x, 0, |x.props| - i
  {
    if i == |x.props| then []
    else
      var p := x.props[i];
      var rest := StripPropsAsWritten(x, i + 1);
      if IsObjectType(p.value) then [Prop(p.key, StripFunctionsAsWritten(p.value))] + rest
      else if p.value.Func? then rest
      else [p] + rest
  }

  function StripElemsAsWritten(x: JsValue, i: nat): (r: seq<Prop>)
    requires x.Arr? && i <= |x.elems|
    ensures forall k :: 0 <= k < |r| ==> NoFunctions(r[k].value)
    decreases x, 0, |x.elems| - i
  {
    if i == |x.elems| then []
    else
      var e := x.elems[i];
      var rest := StripElemsAsWritten(x, i + 1);
      if IsObjectType(e) then [Prop(NatToDecimal(i), StripFunctionsAsWritten(e))] + rest
      else if e.Func? then rest
      else [Prop(NatToDecimal(i), e)] + rest
  }

  function CharProps(s: string, i: nat): (r: seq<Prop>)
    requires i <= |s|
    ensures |r| == |s| - i
    ensures forall k :: 0 <= k < |r| ==> r[k] == Prop(NatToDecimal(i + k), Str([s[i + k]]))
    decreases |s| - i
  {
    if i == |s| then [] else [Prop(NatToDecimal(i), Str([s[i]]))] + CharProps(s, i + 1)
  }

  /** `stripFunctions` as intended: functions are dropped from objects and
      arrays at every depth, and every other value keeps its kind. */
  function StripFunctions(x: JsValue): (r: JsValue)
    ensures NoFunctions(r)
    ensures NoFunctions(x) ==> r == x
    ensures x.Obj? <==> r.Obj?
    ensures x.Arr? <==> r.Arr?
    decreases x, 1
  {
    match x
    case Obj(props) => Obj(StripProps(x, 0))
    case Arr(elems) => Arr(StripElems(x, 0))
    case Func => Undefined
    case _ => x
  }

  function StripProps(x: JsValue, i: nat): (r: seq<Prop>)
    requires x.Obj? && i <= |x.props|
    ensures forall k :: 0 <= k < |r| ==> NoFunctions(r[k].value)
    ensures (forall k :: i <= k < |x.props| ==> NoFunctions(x.props[k].value)) ==> r == x.props[i..]
    decreases x, 0, |x.props| - i
  {
    if i == |x.props| then []
    else
      var p := x.props[i];
      var rest := StripProps(x, i + 1);
      if p.value.Func? then rest else [Prop(p.key, StripFunctions(p.value))] + rest
  }

  function StripElems(x: JsValue, i: nat): (r: seq<JsValue>)
    requires x.Arr? && i <= |x.elems|
    ensures forall k :: 0 <= k < |r| ==> NoFunctions(r[k])
    ensures (forall k :: i <= k < |x.elems| ==> NoFunctions(x.elems[k])) ==> r == x.elems[i..]
    decreases x, 0, |x.elems| - i
  {
    if i == |x.elems| then []
    else
      var e := x.elems[i];
      var rest := StripElems(x, i + 1);
      if e.Func? then rest else [StripFunctions(e)] + rest
  }

  /** A string rejection, which holds no function, comes back from the code
      as an object of its characters, and `null` as an empty object; the
      intended stripping leaves both as they are. */
  lemma StripAsWrittenRebuildsPrimitives()
    ensures NoFunctions(Str("no")) && NoFunctions(Null)
    ensures StripFunctionsAsWritten(Str("no")) == Obj([Prop("0", Str("n")), Prop("1", Str("o"))])
    ensures StripFunctions(Str("no")) == Str("no")
    ensures StripFunctionsAsWritten(Null) == Obj([]) && StripFunctions(Null) == Null
  {
    assert NatToDecimal(0) == "0" && NatToDecimal(1) == "1";
  }

  // ---------------------------------------------------------------------
  // WorkerWorkerService

  /** A value a call's promise is rejected with. */
  datatype Thrown =
    | ErrorInstance(name: string, message: string, stack: string)   // `instanceof Error`
    | Other(value: JsValue)

  /** The settling of a call's promise: its success, failure and progress
      handlers. */
  datatype Settlement = Succeeded(value: Value) | Failed(error: Thrown) | Progressed(value: Value)

  /** What the called service method did: return a promise (anything with
      a `then`), return another value, which is wrapped in a resolved
      promise, or throw before returning. */
  datatype Returned = Thenable | Plain(value: Value) | Threw(message: string)

  /** The `data` of a reply: a saved value of the worker's heap, the fields of
      an `Error`, or the stripped copy of another rejection value. */
  datatype ReplyData = Saved(value: Value) | ErrorFields(name: string, message: string, stack: string) | Stripped(copy: JsValue)

  /** A message the worker posts to the page. */
  datatype Posted =
    | BroadcastUp(name: string, args: Value)
    | Event(event: string, id: nat, data: ReplyData)

  /** A service method applied to the restored arguments and the canceller
      promise of request `id`. */
  datatype Invocation = Invocation(id: nat, service: string, methodName: string, args: Value)

  predicate Final(p: Posted) {
    p.Event? && (p.event == "success" || p.event == "failure")
  }

  class WorkerWorkerService {
    /** `workerServicePrototypeMappingConfiguration` of the worker. */
    const registry: map<string, Constructor>
    /** The requests whose canceller is in the `cancellers` table. */
    var cancellers: set<nat>
    /** The requests whose canceller was resolved, in order. */
    var cancelled: seq<nat>
    var invocations: seq<Invocation>
    /** The requests whose promise has not settled yet. */
    var awaiting: set<nat>
    var posted: seq<Posted>
    var broadcasts: seq<(string, Value)>

    constructor (registry: map<string, Constructor>)
      ensures this.registry == registry
      ensures cancellers == {} && cancelled == [] && invocations == [] && awaiting == {} && posted == [] && broadcasts == []
    {
      this.registry := registry;
      cancellers, cancelled, invocations, awaiting, posted, broadcasts := {}, [], [], {}, [], [];
    }

    /** `$broadcast` from the worker: the arguments are saved and posted. */
    method BroadcastToPage(heap: ObjectGraph, name: string, args: Value)
      requires heap.Valid() && (args.Object? ==> args.ref in heap.shapes) && Carrying(heap.metas, Mark) == {}
      modifies this`posted, heap`metas
      ensures heap.Valid() && Carrying(heap.metas, Mark) == {}
      ensures heap.metas == AfterWalk(heap.shapes, old(heap.metas), args, Tag(heap.stamps))
      ensures posted == old(posted) + [BroadcastUp(name, args)]
    {
      var saved := SavePrototypes(heap, args);
      posted := posted + [BroadcastUp(name, saved)];
    }

    /** `onMessage`. A message without an id is broadcast locally with its
        arguments restored. A cancel resolves and drops the request's
        canceller if there is one. A request registers a canceller, restores
        its arguments and applies the service method; a value that is not a
        promise settles at once as a success. Restoring fails, as the code
        throws, on an unknown tag: nothing is broadcast or called then, and a
        request's canceller stays registered. A service method that throws
        leaves its canceller registered, awaits and posts nothing, and the
        exception leaves `onMessage`. */
    method OnMessage(m: Message, heap: ObjectGraph, returned: Returned) returns (outcome: Result<()>)
      requires heap.Valid() && Carrying(heap.metas, Mark) == {}
      requires (m.Broadcast? || m.Request?) && m.args.Object? ==> m.args.ref in heap.shapes
      requires m.Request? && returned.Plain? && returned.value.Object? ==> returned.value.ref in heap.shapes
      modifies this`cancellers, this`cancelled, this`invocations, this`awaiting, this`posted, this`broadcasts, heap`metas
      ensures heap.Valid()
      ensures m.Cancel? ==>
                && outcome.Ok? && heap.metas == old(heap.metas)
                && cancellers == old(cancellers) - {m.id}
                && cancelled == (if m.id in old(cancellers) then old(cancelled) + [m.id] else old(cancelled))
                && invocations == old(invocations) && awaiting == old(awaiting) && posted == old(posted) && broadcasts == old(broadcasts)
      ensures m.Broadcast? ==>
                && (outcome.Ok? <==> AllTagsKnown(heap.shapes, old(heap.metas), m.args, registry))
                && (outcome.Ok? ==> heap.metas == AfterWalk(heap.shapes, old(heap.metas), m.args, Restore(registry)))
                && broadcasts == (if outcome.Ok? then old(broadcasts) + [(m.name, m.args)] else old(broadcasts))
                && cancellers == old(cancellers) && cancelled == old(cancelled) && invocations == old(invocations)
                && awaiting == old(awaiting) && posted == old(posted)
      ensures m.Request? ==>
                && cancelled == old(cancelled) && broadcasts == old(broadcasts)
                && (!AllTagsKnown(heap.shapes, old(heap.metas), m.args, registry) ==>
                      && outcome.Error?
                      && cancellers == old(cancellers) + {m.id} && invocations == old(invocations)
                      && awaiting == old(awaiting) && posted == old(posted))
                && (AllTagsKnown(heap.shapes, old(heap.metas), m.args, registry) ==>
                      && invocations == old(invocations) + [Invocation(m.id, m.service, m.methodName, m.args)]
                      && heap.metas == (if returned.Plain?
                                        then AfterWalk(heap.shapes, AfterWalk(heap.shapes, old(heap.metas), m.args, Restore(registry)),
                                                       returned.value, Tag(heap.stamps))
                                        else AfterWalk(heap.shapes, old(heap.metas), m.args, Restore(registry))))
                && (AllTagsKnown(heap.shapes, old(heap.metas), m.args, registry) && returned.Thenable? ==>
                      && outcome.Ok?
                      && cancellers == old(cancellers) + {m.id} && awaiting == old(awaiting) + {m.id} && posted == old(posted))
                && (AllTagsKnown(heap.shapes, old(heap.metas), m.args, registry) && returned.Threw? ==>
                      && outcome == Error(returned.message)
                      && cancellers == old(cancellers) + {m.id} && awaiting == old(awaiting) && posted == old(posted))
                && (AllTagsKnown(heap.shapes, old(heap.metas), m.args, registry) && returned.Plain? ==>
                      && outcome.Ok?
                      && cancellers == old(cancellers) - {m.id} && awaiting == old(awaiting) - {m.id}
                      && posted == old(posted) + [Event("success", m.id, Saved(returned.value))])
    {
      match m
      case Broadcast(name, args) =>
        var restored := RestorePrototypes(heap, registry, args);
        if restored.Error? {
          return Error(restored.message);
        }
        broadcasts := broadcasts + [(name, restored.value)];
        outcome := Ok(());
      case Cancel(id) =>
        var registered := id in cancellers;
        cancellers := cancellers - {id};
        if registered {
          cancelled := cancelled + [id];
        }
        outcome := Ok(());
      case Request(id, service, methodName, args) =>
        outcome := Invoke(id, service, methodName, args, heap, returned);
    }

    /** The request branch of `onMessage`: the canceller is registered, the
        arguments restored and the service method applied to them. */
    method Invoke(id: nat, service: string, methodName: string, args: Value, heap: ObjectGraph, returned: Returned)
      returns (outcome: Result<()>)
      requires heap.Valid() && Carrying(heap.metas, Mark) == {}
      requires args.Object? ==> args.ref in heap.shapes
      requires returned.Plain? && returned.value.Object? ==> returned.value.ref in heap.shapes
      modifies this`cancellers, this`invocations, this`awaiting, this`posted, heap`metas
      ensures heap.Valid()
      ensures !AllTagsKnown(heap.shapes, old(heap.metas), args, registry) ==>
                && outcome.Error?
                && cancellers == old(cancellers) + {id} && invocations == old(invocations)
                && awaiting == old(awaiting) && posted == old(posted)
      ensures AllTagsKnown(heap.shapes, old(heap.metas), args, registry) ==>
                && invocations == old(invocations) + [Invocation(id, service, methodName, args)]
                && heap.metas == (if returned.Plain?
                                  then AfterWalk(heap.shapes, AfterWalk(heap.shapes, old(heap.metas), args, Restore(registry)),
                                                 returned.value, Tag(heap.stamps))
                                  else AfterWalk(heap.shapes, old(heap.metas), args, Restore(registry)))
      ensures AllTagsKnown(heap.shapes, old(heap.metas), args, registry) && returned.Thenable? ==>
                && outcome.Ok?
                && cancellers == old(cancellers) + {id} && awaiting == old(awaiting) + {id} && posted == old(posted)
      ensures AllTagsKnown(heap.shapes, old(heap.metas), args, registry) && returned.Threw? ==>
                && outcome == Error(returned.message)
                && cancellers == old(cancellers) + {id} && awaiting == old(awaiting) && posted == old(posted)
      ensures AllTagsKnown(heap.shapes, old(heap.metas), args, registry) && returned.Plain? ==>
                && outcome.Ok?
                && cancellers == old(cancellers) - {id} && awaiting == old(awaiting) - {id}
                && posted == old(posted) + [Event("success", id, Saved(returned.value))]
    {
      cancellers := cancellers + {id};
      var restored := RestorePrototypes(heap, registry, args);
      if restored.Error? {
        return Error(restored.message);
      }
      AfterWalkKeepsMarks(heap.shapes, old(heap.metas), args, Restore(registry));
      invocations := invocations + [Invocation(id, service, methodName, restored.value)];
      outcome := Await(id, returned, heap);
    }

    /** What follows the call of the service method: an exception leaves
        everything as it is, a promise is awaited, and any other value is
        wrapped in a resolved promise, so that it settles as a success. */
    method Await(id: nat, returned: Returned, heap: ObjectGraph) returns (outcome: Result<()>)
      requires heap.Valid() && Carrying(heap.metas, Mark) == {}
      requires returned.Plain? && returned.value.Object? ==> returned.value.ref in heap.shapes
      modifies this`cancellers, this`awaiting, this`posted, heap`metas
      ensures heap.Valid()
      ensures returned.Threw? ==>
                && outcome == Error(returned.message) && heap.metas == old(heap.metas)
                && cancellers == old(cancellers) && awaiting == old(awaiting) && posted == old(posted)
      ensures returned.Thenable? ==>
                && outcome.Ok? && heap.metas == old(heap.metas)
                && cancellers == old(cancellers) && awaiting == old(awaiting) + {id} && posted == old(posted)
      ensures returned.Plain? ==>
                && outcome.Ok? && heap.metas == AfterWalk(heap.shapes, old(heap.metas), returned.value, Tag(heap.stamps))
                && cancellers == old(cancellers) - {id} && awaiting == old(awaiting) - {id}
                && posted == old(posted) + [Event("success", id, Saved(returned.value))]
    {
      match returned
      case Threw(message) =>
        outcome := Error(message);
      case Thenable =>
        awaiting := awaiting + {id};
        outcome := Ok(());
      case Plain(value) =>
        awaiting := awaiting + {id};
        outcome := Settle(id, Succeeded(value), heap);
    }

    /** The handlers of request `id`'s promise. A promise settles once: a
        success or a failure drops the canceller and posts exactly one final
        reply, after which the handlers never run again; progress posts an
        update and keeps everything else. An `Error` goes back as its name,
        message and stack and is thrown again; any other rejection value goes
        back stripped of functions. */
    method Settle(id: nat, s: Settlement, heap: ObjectGraph) returns (outcome: Result<()>)
      requires heap.Valid() && Carrying(heap.metas, Mark) == {}
      requires (s.Succeeded? || s.Progressed?) && s.value.Object? ==> s.value.ref in heap.shapes
      modifies this`cancellers, this`awaiting, this`posted, heap`metas
      ensures heap.Valid() && Carrying(heap.metas, Mark) == {}
      ensures id !in old(awaiting) ==>
                outcome.Ok? && heap.metas == old(heap.metas)
                && cancellers == old(cancellers) && awaiting == old(awaiting) && posted == old(posted)
      ensures id in old(awaiting) && s.Progressed? ==>
                && outcome.Ok? && heap.metas == AfterWalk(heap.shapes, old(heap.metas), s.value, Tag(heap.stamps))
                && cancellers == old(cancellers) && awaiting == old(awaiting)
                && posted == old(posted) + [Event("update", id, Saved(s.value))]
      ensures id in old(awaiting) && !s.Progressed? ==>
                && cancellers == old(cancellers) - {id} && awaiting == old(awaiting) - {id}
                && |posted| == |old(posted)| + 1 && posted[..|old(posted)|] == old(posted)
                && Final(posted[|old(posted)|]) && posted[|old(posted)|].id == id
      ensures id in old(awaiting) && s.Succeeded? ==>
                && outcome.Ok? && heap.metas == AfterWalk(heap.shapes, old(heap.metas), s.value, Tag(heap.stamps))
                && posted == old(posted) + [Event("success", id, Saved(s.value))]
      ensures id in old(awaiting) && s.Failed? ==>
                && heap.metas == old(heap.metas)
                && (outcome.Error? <==> s.error.ErrorInstance?)
                && posted == old(posted) + [Event("failure", id,
                     match s.error
                     case ErrorInstance(name, message, stack) => ErrorFields(name, message, stack)
                     case Other(x) => Stripped(StripFunctions(x)))]
    {
      if id !in awaiting {
        return Ok(());
      }
      match s
      case Succeeded(v) =>
        awaiting := awaiting - {id};
        cancellers := cancellers - {id};
        var saved := SavePrototypes(heap, v);
        posted := posted + [Event("success", id, Saved(saved))];
        outcome := Ok(());
      case Failed(e) =>
        awaiting := awaiting - {id};
        cancellers := cancellers - {id};
        match e {
          case ErrorInstance(name, message, stack) =>
            posted := posted + [Event("failure", id, ErrorFields(name, message, stack))];
            outcome := Error(message);
          case Other(x) =>
            posted := posted + [Event("failure", id, Stripped(StripFunctions(x)))];
            outcome := Ok(());
        }
      case Progressed(v) =>
        var saved := SavePrototypes(heap, v);
        posted := posted + [Event("update", id, Saved(saved))];
        outcome := Ok(());
    }
  }

  // ---------------------------------------------------------------------
  // StateWorkerService

  /** The state a worker holds for its services, set from the page. */
  class StateWorkerService<S> {
    var state: Option<S>

    constructor ()
      ensures state == None
    {
      state := None;
    }

    method SetState(s: S)
      modifies this
      ensures state == Some(s)
    {
      state := Some(s);
    }
  }
}
