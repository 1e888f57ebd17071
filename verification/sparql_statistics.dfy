/** The statistics services: the worker files the rows of the class and
    property statistics queries into insertion-ordered maps (`FMap`), and the
    page-side service forwards endpoint and query to it. The values are the
    literal texts of the SPARQL answer; nothing is parsed. */
module SparqlStatistics {
  import opened Wrappers
  import opened Dict
  import opened ObjectGraph
  import opened Serializer
  import opened Dispatcher
  import opened Forwarding

  /** A row of the class statistics query. */
  datatype ClassRow = ClassRow(id: string, instances: string)

  /** A row of the property statistics query; `?classId` is optional. */
  datatype PropertyRow = PropertyRow(classId: Option<string>, propertyId: string,
                                     subjects: string, values: string, min: string, max: string)

  /** `new PropertyStatistics(subjects, values, min, max)`. */
  datatype PropertyStatistics = PropertyStatistics(subjects: string, values: string, min: string, max: string)

  // ---------------------------------------------------------------------
  // A run of `set` calls

  /** `d.set(k, v)` for each pair in order. */
  function SetAll<V>(d: Dict<V>, pairs: seq<(string, V)>): (r: Dict<V>)
    ensures d.Valid() ==> r.Valid()
  {
    if pairs == [] then d
    else
      var last := pairs[|pairs| - 1];
      SetAll(d, pairs[..|pairs| - 1]).Set(last.0, last.1)
  }

  lemma SetAllSnoc<V>(d: Dict<V>, pairs: seq<(string, V)>, pair: (string, V))
    ensures SetAll(d, pairs + [pair]) == SetAll(d, pairs).Set(pair.0, pair.1)
  {
    assert (pairs + [pair])[..|pairs|] == pairs;
  }

  /** The index of the last pair for `k`, or -1. */
  function LastFor<V>(pairs: seq<(string, V)>, k: string): (r: int)
    ensures -1 <= r < |pairs|
    ensures r >= 0 ==> pairs[r].0 == k
    ensures forall j :: r < j < |pairs| ==> pairs[j].0 != k
  {
    if pairs == [] then -1
    else if pairs[|pairs| - 1].0 == k then |pairs| - 1
    else LastFor(pairs[..|pairs| - 1], k)
  }

  /** After a run of `set` calls a key is present when it was before or was
      set, and holds the value it was set to last. */
  lemma {:induction false} LastSetWins<V>(d: Dict<V>, pairs: seq<(string, V)>, k: string)
    ensures var r := SetAll(d, pairs);
            var last := LastFor(pairs, k);
            && (k in r.entries <==> k in d.entries || last >= 0)
            && (last >= 0 ==> r.entries[k] == pairs[last].1)
            && (last < 0 && k in d.entries ==> r.entries[k] == d.entries[k])
  {
    if pairs != [] {
      var init := pairs[..|pairs| - 1];
      LastSetWins(d, init, k);
      if pairs[|pairs| - 1].0 != k {
        assert LastFor(pairs, k) == LastFor(init, k);
      }
    }
  }

  // ---------------------------------------------------------------------
  // getClassStatistics

  function ClassPairs(rows: seq<ClassRow>): (pairs: seq<(string, string)>)
    ensures |pairs| == |rows|
    ensures forall i :: 0 <= i < |rows| ==> pairs[i] == (rows[i].id, rows[i].instances)
  {
    seq(|rows|, i requires 0 <= i < |rows| => (rows[i].id, rows[i].instances))
  }

  /** `SparqlStatisticsWorkerService.getClassStatistics` once the answer has
      arrived. */
  method GetClassStatistics(rows: seq<ClassRow>) returns (ret: Dict<string>)
    ensures ret == SetAll(Empty(), ClassPairs(rows))
  {
    ret := Empty();
    var i := 0;
    while i < |rows|
      invariant 0 <= i <= |rows|
      invariant ret == SetAll(Empty(), ClassPairs(rows)[..i])
    {
      assert ClassPairs(rows)[..i + 1][..i] == ClassPairs(rows)[..i];
      ret := ret.Set(rows[i].id, rows[i].instances);
      i := i + 1;
    }
    assert ClassPairs(rows)[..i] == ClassPairs(rows);
  }

  /** Each class counted by some row maps to the count of the last row for
      it; nothing else is in the map. */
  lemma ClassStatisticsLastWins(rows: seq<ClassRow>, id: string)
    ensures var ret := SetAll(Empty(), ClassPairs(rows));
            var last := LastFor(ClassPairs(rows), id);
            && (id in ret.entries <==> last >= 0)
            && (last >= 0 ==> rows[last].id == id && ret.entries[id] == rows[last].instances
                              && forall j :: last < j < |rows| ==> rows[j].id != id)
  {
    LastSetWins(Empty(), ClassPairs(rows), id);
  }

  // ---------------------------------------------------------------------
  // getPropertyStatistics

  /** The key a row is filed under: its class, or '' when it has none. */
  function ClassKey(row: PropertyRow): (k: string)
    ensures row.classId.None? ==> k == ""
    ensures row.classId.Some? ==> k == row.classId.value
  {
    if row.classId.Some? then row.classId.value else ""
  }

  /** The `set` the row makes on its class's inner map. */
  function Entry(row: PropertyRow): (e: (string, PropertyStatistics))
    ensures e.0 == row.propertyId
    ensures e.1.subjects == row.subjects && e.1.values == row.values && e.1.min == row.min && e.1.max == row.max
  {
    (row.propertyId, PropertyStatistics(row.subjects, row.values, row.min, row.max))
  }

  /** The `set`s the first `n` rows make under class key `g`, in order. */
  function EntriesUnder(rows: seq<PropertyRow>, n: nat, g: string): seq<(string, PropertyStatistics)>
    requires n <= |rows|
  {
    if n == 0 then []
    else EntriesUnder(rows, n - 1, g) + if ClassKey(rows[n - 1]) == g then [Entry(rows[n - 1])] else []
  }

  /** The first `n` rows filed one by one: `goc` fetches the class's inner
      map, creating an empty one the first time, and the row is `set` on it. */
  function Filed(rows: seq<PropertyRow>, n: nat): Dict<Dict<PropertyStatistics>>
    requires n <= |rows|
  {
    if n == 0 then Empty()
    else
      var d := Filed(rows, n - 1);
      var row := rows[n - 1];
      var inner := if ClassKey(row) in d.entries then d.entries[ClassKey(row)] else Empty();
      d.Set(ClassKey(row), inner.Set(Entry(row).0, Entry(row).1))
  }

  /** Filing a row adds its class key and no other. */
  lemma FiledStep(rows: seq<PropertyRow>, n: nat)
    requires 0 < n <= |rows|
    ensures Filed(rows, n).entries.Keys == Filed(rows, n - 1).entries.Keys + {ClassKey(rows[n - 1])}
  {
  }

  /** A class key is present exactly when some row is filed under it. */
  lemma {:induction false} FiledKeys(rows: seq<PropertyRow>, n: nat, g: string)
    requires n <= |rows|
    ensures g in Filed(rows, n).entries <==> EntriesUnder(rows, n, g) != []
  {
    if n > 0 {
      FiledKeys(rows, n - 1, g);
      FiledStep(rows, n);
      var under := EntriesUnder(rows, n, g);
      if ClassKey(rows[n - 1]) == g {
        assert under[|under| - 1] == Entry(rows[n - 1]);
      } else {
        assert under == EntriesUnder(rows, n - 1, g);
      }
    }
  }

  /** Each class key present holds one map that every row filed under it
      was set on, in order; a key is present exactly when some row is filed
      under it. */
  lemma {:induction false} FiledByClass(rows: seq<PropertyRow>, n: nat, g: string)
    requires n <= |rows|
    ensures g in Filed(rows, n).entries <==> EntriesUnder(rows, n, g) != []
    ensures g in Filed(rows, n).entries ==> Filed(rows, n).entries[g] == SetAll(Empty(), EntriesUnder(rows, n, g))
  {
    FiledKeys(rows, n, g);
    if n > 0 {
      FiledByClass(rows, n - 1, g);
      var row := rows[n - 1];
      var before := EntriesUnder(rows, n - 1, g);
      if ClassKey(row) == g {
        SetAllSnoc(Empty(), before, Entry(row));
        assert EntriesUnder(rows, n, g) == before + [Entry(row)];
      } else {
        assert EntriesUnder(rows, n, g) == before;
      }
    }
  }

  /** `SparqlStatisticsWorkerService.getPropertyStatistics` once the answer
      has arrived. */
  method GetPropertyStatistics(rows: seq<PropertyRow>) returns (ret: Dict<Dict<PropertyStatistics>>)
    ensures ret == Filed(rows, |rows|)
  {
    ret := Empty();
    var i := 0;
    while i < |rows|
      invariant 0 <= i <= |rows|
      invariant ret == Filed(rows, i)
    {
      var b := rows[i];
      var key := if b.classId.Some? then b.classId.value else "";
      // `goc`: the map already filed under the key, or a new one that is
      // filed under it; the `set` below is made on that map.
      var inner := ret.Get(key).GetOr(Empty());
      ret := ret.Set(key, inner.Set(b.propertyId, PropertyStatistics(b.subjects, b.values, b.min, b.max)));
      i := i + 1;
    }
  }

  /** A property's statistics under a class are those of the last row for
      that class and property. */
  lemma PropertyStatisticsLastWins(rows: seq<PropertyRow>, g: string, p: string)
    ensures var r := Filed(rows, |rows|);
            var entries := EntriesUnder(rows, |rows|, g);
            var last := LastFor(entries, p);
            && (g in r.entries && p in r.entries[g].entries <==> last >= 0)
            && (last >= 0 ==> r.entries[g].entries[p] == entries[last].1)
  {
    FiledByClass(rows, |rows|, g);
    LastSetWins(Empty(), EntriesUnder(rows, |rows|, g), p);
  }

  // ---------------------------------------------------------------------
  // The page side

  /** `SparqlStatisticsService.getClassStatistics`, with the configuration's
      `endpoint` and `classStatisticsQuery`. */
  method ForwardClassStatistics(workers: WorkerService, heap: ObjectGraph, endpoint: string, classStatisticsQuery: string,
                                arrayProto: Constructor, withCanceller: bool)
    returns (id: nat, args: Value)
    requires workers.Valid() && workers.poolSize > 0
    requires heap.Valid() && Carrying(heap.metas, Mark) == {}
    modifies workers, heap
    ensures workers.Valid() && heap.Valid() && Carrying(heap.metas, Mark) == {}
    ensures args.Object? && args.ref !in old(heap.shapes)
    ensures heap.shapes == old(heap.shapes)[args.ref := EndpointAndQuery(endpoint, classStatisticsQuery)]
    ensures heap.metas == AfterWalk(heap.shapes, old(heap.metas)[args.ref := Meta("", false, arrayProto)], args, Tag(heap.stamps))
    ensures id == old(|workers.deferreds|) && workers.deferreds == old(workers.deferreds) + [true]
    ensures workers.currentWorker == (old(workers.currentWorker) + 1) % workers.poolSize
    ensures workers.outboxes == old(workers.outboxes)[old(workers.currentWorker) :=
              old(workers.outboxes[workers.currentWorker]) + [Request(id, "sparqlStatisticsWorkerService", "getClassStatistics", args)]]
    ensures workers.cancellers == if withCanceller then old(workers.cancellers)[id := One(old(workers.currentWorker))] else old(workers.cancellers)
    ensures workers.events == old(workers.events)
  {
    id, args := CallWithEndpoint(workers, heap, "sparqlStatisticsWorkerService", "getClassStatistics",
                                 endpoint, classStatisticsQuery, arrayProto, withCanceller);
  }

  /** `SparqlStatisticsService.getPropertyStatistics`, with the
      configuration's `endpoint` and `propertyStatisticsQuery`. */
  method ForwardPropertyStatistics(workers: WorkerService, heap: ObjectGraph, endpoint: string, propertyStatisticsQuery: string,
                                   arrayProto: Constructor, withCanceller: bool)
    returns (id: nat, args: Value)
    requires workers.Valid() && workers.poolSize > 0
    requires heap.Valid() && Carrying(heap.metas, Mark) == {}
    modifies workers, heap
    ensures workers.Valid() && heap.Valid() && Carrying(heap.metas, Mark) == {}
    ensures args.Object? && args.ref !in old(heap.shapes)
    ensures heap.shapes == old(heap.shapes)[args.ref := EndpointAndQuery(endpoint, propertyStatisticsQuery)]
    ensures heap.metas == AfterWalk(heap.shapes, old(heap.metas)[args.ref := Meta("", false, arrayProto)], args, Tag(heap.stamps))
    ensures id == old(|workers.deferreds|) && workers.deferreds == old(workers.deferreds) + [true]
    ensures workers.currentWorker == (old(workers.currentWorker) + 1) % workers.poolSize
    ensures workers.outboxes == old(workers.outboxes)[old(workers.currentWorker) :=
              old(workers.outboxes[workers.currentWorker]) + [Request(id, "sparqlStatisticsWorkerService", "getPropertyStatistics", args)]]
    ensures workers.cancellers == if withCanceller then old(workers.cancellers)[id := One(old(workers.currentWorker))] else old(workers.cancellers)
    ensures workers.events == old(workers.events)
  {
    id, args := CallWithEndpoint(workers, heap, "sparqlStatisticsWorkerService", "getPropertyStatistics",
                                 endpoint, propertyStatisticsQuery, arrayProto, withCanceller);
  }
}
