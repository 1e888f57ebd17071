# Fibra worker bridge and data transforms, in Dafny

Fibra is a browser application for building linked-data projects: it queries
SPARQL endpoints, shows the classes and items it finds in palettes and
tables, and writes projects out as Turtle. Its queries run in Web Workers.
A page-side `WorkerService` sends each call to a worker and settles a
deferred when the reply arrives. A worker-side `WorkerWorkerService` runs
the requested service method and posts its outcome back. Values that cross
between the two are prepared by a prototype-preserving serializer, which
tags objects with their class name and restores their prototypes from a
registry on the other side.

This project models that bridge and the data transforms built on it:

- the object graph and the serializer's strip, save and restore walks;
- the structured clone between the two sides and the registry factory;
- the page dispatcher (round-robin `call`, `callAll`, `$broadcast`,
  cancellers, the reply listener) and the worker dispatcher (`onMessage`,
  settling a promise, `stripFunctions`, the state service);
- the SPARQL tree and statistics services, and the page services that
  forward to them;
- the items reducer;
- both palettes (grouping, label sort, displayed types, filter, circle
  initials, padding);
- the explore table's property lists;
- the Turtle writers of citables and projects, with the document joiner;
- the UUID generator;
- the built-in endpoint configuration.

Every module is a Dafny `module` in one file:

- **Shared helpers.** `Wrappers` (Option and Result), `Text` (numerals,
  `parseInt`, `split`/`join`, `indexOf`, `substring`, `toUpperCase`) and
  `Dict` (insertion-ordered maps, standing for `d3.map`, `Map` and plain
  objects used as dictionaries).
- **Bridge.** `ObjectGraph`, `Serializer`, `Transfer`, `Registry`,
  `Dispatcher`, `DispatchTarget` and `Forwarding`.
- **Services.** `SparqlTree` and `SparqlStatistics`.
- **Components.** `ItemsReducer`, `PaletteRules`, `Grouping`, `LabelSort`,
  `Palette`, `ConstructPalette`, `FirstSeen` and `ExploreTable`.
- **Writers and configuration.** `Turtle`, `Projects`, `Uuid` and
  `Configuration`.

Objects the source updates in place are classes:

- the heap (`ObjectGraph.ObjectGraph`);
- the two dispatchers;
- the palette and table controllers;
- the Turtle builder;
- the configuration objects.

Loops are methods with invariants, each proved against a function of its
inputs. Pure rules are functions with lemmas about them.

## Model

| member | source | states |
|---|---|---|
| Serializer.StripFrom | app/services/worker-service/worker-service.ts:49-67 | the shared recursion of the strip walks removes the attribute exactly from the objects reachable through objects carrying it; shapes and every other attribute stay |
| Serializer.StripAttribute | app/services/worker-service/worker-service.ts:49-67 | the strip walk's final attributes are `AfterStrip` of the old ones: the attribute is gone from everything reachable through carriers, nothing else changed |
| Serializer.StripMarks | app/services/worker-service/worker-service.ts:49-57 | `stripMarks` removes `__mark` from the value and from everything reachable through marked objects, and from nothing else |
| Serializer.StripPrototypes | app/services/worker-service/worker-service.ts:59-67 | `stripPrototypes` removes `__className` from the value and from everything reachable through tagged objects, and from nothing else |
| Serializer.AfterStripFromBareRoot | app/services/worker-service/worker-service.ts:50 | a strip that starts at a value without the attribute changes nothing |
| Serializer.AfterStripIdempotent | app/services/worker-service/worker-service.ts:49-67 | stripping twice leaves what stripping once leaves |
| Serializer.TagFor | app/services/worker-service/worker-service.ts:78-89 | the tag of a non-array object: none for a plain unstamped `Object`; its `__name`, or else its constructor name, when its class has methods; "Object" otherwise |
| Serializer.Step | app/services/worker-service/worker-service.ts:185-190 | on one object, restore fails exactly on a tag the registry lacks; otherwise it sets the registered prototype and clears the tag; the save step sets `TagFor` |
| Serializer.MarkWalk | app/services/worker-service/worker-service.ts:180-194 | the marked recursion: either every reachable object is visited with the step applied, or it stops at a reachable object whose step failed; objects not entered are unchanged |
| Serializer.VisitKids | app/services/worker-service/worker-service.ts:183-192 | the loop over array elements or own property values visits them in order and keeps the walk's invariants |
| Serializer.Enter | app/services/worker-service/worker-service.ts:181-190 | entering an object marks it and applies the step, leaving it marked but otherwise unchanged when the step fails |
| Serializer.WalkMarksReachable | app/services/worker-service/worker-service.ts:180-194 | a walk that did not stop, from an unmarked graph, marks exactly the objects reachable from the value |
| Serializer.WalkThenStrip | app/services/worker-service/worker-service.ts:174-178 | the `stripMarks` after a completed walk removes every mark and keeps what the walk did |
| Serializer.SaveIdempotent | app/services/worker-service/worker-service.ts:69-94 | saving twice leaves what saving once leaves |
| Serializer.SavePrototypes | app/services/worker-service/worker-service.ts:69-94 | corrected save: every object reachable from the value carries the tag its class rule gives it, no marks remain, shapes are unchanged |
| Serializer.SaveAsWrittenLoopsOnSelfReference | app/services/worker-service/worker-service.ts:74-93 | the save walk as written never finishes on a plain object that references itself, for any recursion depth |
| Serializer.SaveAsWrittenStopsAtEarlierTag | app/services/worker-service/worker-service.ts:75 | the save walk as written stops at an object still tagged from an earlier save and leaves the class-with-methods object below it untagged |
| Serializer.RestoreWalkKnewTags | app/services/worker-service/worker-service.ts:185-187 | a restore walk that did not stop found every reachable tag in the registry |
| Serializer.RestoreWalkFailed | app/services/worker-service/worker-service.ts:187 | a restore walk that stopped did so at a reachable object whose tag the registry lacks |
| Serializer.RestorePrototypes | app/services/worker-service/worker-service.ts:174-194 | restore fails with "Unknown prototype " + tag exactly when some reachable object has an unregistered tag; on success every reachable object has its registered prototype, no tag and no mark |
| Transfer.StructuredClone | app/services/worker-service/worker-service.ts:165-170 | `postMessage` gives the receiver a fresh heap of the same objects: an array keeps its attributes; an object of a built-in class (a `Date`) is rebuilt with its own prototype, without tag, mark or added properties; every other object keeps its properties, tag and mark and arrives plain |
| Transfer.ClonedReach | app/services/worker-service/worker-service.ts:165-170 | whatever is reachable in the copy was reachable in the original |
| Transfer.RoundTripObject | app/services/worker-service/worker-service.ts:69-94 | one object's save tag survives the clone, or is dropped with a built-in object, and the restore step gives the object the prototype it needs; only a class with methods whose objects are copied as plain objects needs its tag registered |
| Transfer.TransferredGraph | app/services/worker-service/worker-service.ts:174-194 | after save and clone, restore succeeds on the receiving graph and gives every object reachable there its arrived prototype, a built-in object keeping its own with no registry entry |
| Transfer.Transfer | app/services/worker-service/worker-service.ts:165-178 | when every class with methods that is not built in is registered, the value sent through save, clone and restore arrives with each reachable object's prototype as intended, with no tags or marks; the sender's objects keep their save tags |
| Transfer.DateArrivesIntact | app/models/citable.ts:69 | a registered object holding a `Date`, as every `Citable` does: the save walk tags the `Date` "Date", which no registry entry names, and it still arrives as a `Date` with no tag |
| Registry.Literal | app/services/worker-service/prototype-mapping-configuration.ts:20-41 | the object literal maps each listed name to its class, with keys in listing order |
| Registry.ListedNamesDistinct | app/services/worker-service/prototype-mapping-configuration.ts:20-41 | the twenty listed names are distinct and non-empty, and none is "Object" |
| Registry.StampNames | app/services/worker-service/prototype-mapping-configuration.ts:42-43 | each listed class gets its key as `__name`; no other constructor's stamp changes |
| Registry.PrototypesOf | app/services/worker-service/prototype-mapping-configuration.ts:45-48 | the second loop maps every name, in the same order, to its class's prototype |
| Registry.BuildPrototypeMappings | app/services/worker-service/prototype-mapping-configuration.ts:19-48 | the factory maps each listed name, then "Object", to its class; listed classes are stamped with their names, while `Object` is registered unstamped |
| Registry.PrototypeMappingConfiguration | app/services/worker-service/prototype-mapping-configuration.ts:19-48 | the factory over the twenty listed classes: twenty-one keys, the listed ones stamped |
| Registry.RegistryServesTransfer | app/services/worker-service/prototype-mapping-configuration.ts:19-48 | the registry gives the serializer what a round trip needs: each listed class with methods is tagged with its name, which resolves back to it, and "Object" resolves to the plain prototype |
| Dispatcher.Schedule | app/services/worker-service/worker-service.ts:156-157 | the workers the next n calls go to: call k goes to where the cursor stands after k calls |
| Dispatcher.RoundRobinCoversPool | app/services/worker-service/worker-service.ts:157 | from any valid cursor, as many consecutive calls as there are workers go to distinct workers, so each worker gets exactly one |
| Dispatcher.CursorClosedForm | app/services/worker-service/worker-service.ts:157 | after k calls the cursor is (c + k) mod n |
| Dispatcher.WorkerService.constructor | app/services/worker-service/worker-service.ts:97-105 | a pool of `workerThreads` workers with empty outboxes, cursor 0, no deferreds and no cancellers |
| Dispatcher.WorkerService.PostToAll | app/services/worker-service/worker-service.ts:149 | the message is appended to every worker's outbox, and to nothing else |
| Dispatcher.WorkerService.PostTo | app/services/worker-service/worker-service.ts:165-170 | the message is appended to the one worker's outbox |
| Dispatcher.WorkerService.NewDeferred | app/services/worker-service/worker-service.ts:133-135 | the new deferred's id is the number of earlier requests; a canceller is registered exactly when the caller passed one |
| Dispatcher.WorkerService.SendRequest | app/services/worker-service/worker-service.ts:165-170 | the request goes to the worker with its arguments saved |
| Dispatcher.WorkerService.Call | app/services/worker-service/worker-service.ts:152-172 | `call`: a fresh id, one request to the worker under the cursor, the cursor advanced mod the pool size, a canceller for that worker when given; nothing else changes |
| Dispatcher.WorkerService.CallAll | app/services/worker-service/worker-service.ts:132-151 | `callAll`: a fresh id, the same request to every worker, a canceller for all workers when given, cursor unchanged |
| Dispatcher.WorkerService.BroadcastToWorkers | app/services/worker-service/worker-service.ts:128-130 | `$broadcast`: the event is posted to every worker, and the heap ends as after one save, or untouched when there are no workers |
| Dispatcher.WorkerService.PostBroadcast | app/services/worker-service/worker-service.ts:129 | one worker receives the broadcast, with its arguments saved |
| Dispatcher.WorkerService.FireCanceller | app/services/worker-service/worker-service.ts:142-148 | a fired canceller sends a cancel to the worker or workers of its request and deletes the pending entry, settled or not |
| Dispatcher.WorkerService.OnReply | app/services/worker-service/worker-service.ts:106-124 | a broadcast is re-broadcast on the page; a reply for a pending request settles it (success and failure retire the entry, update keeps it); a stale reply does nothing; a restore failure is the error |
| DispatchTarget.StripFunctionsAsWritten | app/services/worker-service/worker-service.ts:212-218 | `stripFunctions` as written always returns a plain object of the argument's `for..in` entries, dropping functions and stripping object-valued entries, `null` included |
| DispatchTarget.StripPropsAsWritten | app/services/worker-service/worker-service.ts:214-216 | one entry of that loop: object-valued entries stripped, functions dropped, the rest copied |
| DispatchTarget.StripFunctions | app/services/worker-service/worker-service.ts:212-218 | corrected `stripFunctions`: the result holds no function, and every non-function value keeps its kind |
| DispatchTarget.StripAsWrittenRebuildsPrimitives | app/services/worker-service/worker-service.ts:212-218 | as written, a string turns into an object of its characters and `null` into an empty object; the corrected version leaves both unchanged |
| DispatchTarget.WorkerWorkerService.constructor | app/services/worker-service/worker-service.ts:209-229 | a worker-side service with the given registry, no cancellers and nothing posted |
| DispatchTarget.WorkerWorkerService.BroadcastToPage | app/services/worker-service/worker-service.ts:219-226 | the worker's `$broadcast` posts one broadcast whose arguments are saved |
| DispatchTarget.WorkerWorkerService.OnMessage | app/services/worker-service/worker-service.ts:230-265 | a message without an id is broadcast locally with its arguments restored, or fails on an unknown tag; a cancel resolves and drops its canceller; a request is handled as `Invoke` states; the heap's attributes end as the restore (and a settling save) leaves them |
| DispatchTarget.WorkerWorkerService.Invoke | app/services/worker-service/worker-service.ts:239-263 | a request registers its canceller first; an unknown tag fails before the method is applied and leaves the canceller; otherwise the method is applied to the restored arguments and its outcome handled as `Await` states, the heap ending as after the restore and any save |
| DispatchTarget.WorkerWorkerService.Await | app/services/worker-service/worker-service.ts:242-263 | a method that throws leaves the canceller, posts nothing and the exception propagates; a promise is awaited; any other value settles at once as a success with its value saved |
| DispatchTarget.WorkerWorkerService.Settle | app/services/worker-service/worker-service.ts:248-263 | success or failure drops the canceller and posts exactly one final reply, errors by name, message and stack, other rejections function-stripped; progress posts an update; a settled promise never posts again |
| DispatchTarget.StateWorkerService.constructor | app/services/worker-service/worker-service.ts:290-291 | a state service with no state set |
| DispatchTarget.StateWorkerService.SetState | app/services/worker-service/worker-service.ts:292-294 | `setState` replaces the state with the one given |
| Forwarding.EndpointAndQuery | app/components/sparql-tree-service.ts:43 | the argument array is `[endpoint, query]` |
| Forwarding.CallWithEndpoint | app/components/sparql-tree-service.ts:42-44 | a fresh `[endpoint, query]` array is allocated and saved, then sent as one request to the worker under the cursor, which advances mod the pool size, with a fresh deferred and the canceller passed on |
| SparqlTree.ForwardGetTree | app/components/sparql-tree-service.ts:42-44 | the page `getTree` is one `call` to `sparqlTreeWorkerService.getTree` with `[endpoint, query]`: the array allocated and saved, one deferred added, the cursor advanced |
| SparqlTree.LabelOf | app/components/sparql-tree-service.ts:56-59 | a row labels its class when it has `classLabel` (or, in the newer version, `prefLabel`), and `prefLabel` wins |
| SparqlTree.Relabelled | app/components/sparql-tree-service.ts:56-59 | a row's labels replace its class's node with a new one and touch no other class |
| SparqlTree.RelabelledNode | app/components/sparql-tree-service.ts:56-59 | after a row's labels, its class has a fresh node with the label `LabelOf` picks, and every other node is unchanged |
| SparqlTree.CountInstances | app/components/sparql-tree-service.ts:60-61 | a row with `instances` sets its class's count to `parseInt(instances, 10)`; a class without a node is the error |
| SparqlTree.CountedNode | app/components/sparql-tree-service.ts:60-61 | counting touches only the row's class, and only when the row counts |
| SparqlTree.AddParent | app/components/sparql-tree-service.ts:64-65 | `parents[child][parent] = true`, creating the inner set first when absent |
| SparqlTree.AddParentAdds | app/components/sparql-tree-service.ts:64-65 | adding a parent adds that one pair and no other |
| SparqlTree.Linked | app/components/sparql-tree-service.ts:62-71 | the parent sets after a row's `subClass` and `superClass` columns |
| SparqlTree.LinkedAdds | app/components/sparql-tree-service.ts:62-71 | a row adds exactly the parent links its two columns name |
| SparqlTree.Step | app/components/sparql-tree-service.ts:55-72 | one row of the `forEach`: labels, count and parent links, failing exactly when the count fails |
| SparqlTree.Collect | app/components/sparql-tree-service.ts:55-72 | the first n rows read in order; the first failing row fails the whole |
| SparqlTree.NodeExists | app/components/sparql-tree-service.ts:56-59 | a class has a node exactly when some row labels it |
| SparqlTree.CollectedNodes | app/components/sparql-tree-service.ts:56-61 | a class's node is the one its last labelling row made, with that row's label, the last later count, and no children |
| SparqlTree.CollectFails | app/components/sparql-tree-service.ts:60-61 | the rows are rejected exactly when some row counts a class that no row up to and including it has labelled |
| SparqlTree.RowFails | app/components/sparql-tree-service.ts:60-61 | after rows that went through, the next row fails exactly when it counts an unlabelled class |
| SparqlTree.CollectedParents | app/components/sparql-tree-service.ts:62-71 | `p` is in the parent set of `k` exactly when some row links `k` to `p` |
| SparqlTree.ParentSetsOf | app/components/sparql-tree-service.ts:62-71 | a class has a parent set exactly when some row gives it a parent |
| SparqlTree.RootsMembers | app/components/sparql-tree-service.ts:75 | the roots are exactly the classes without a parent set, in class order |
| SparqlTree.ChildrenMembers | app/components/sparql-tree-service.ts:75-76 | the children of `p` are exactly the classes whose parent set holds `p` |
| SparqlTree.ChildrenOnce | app/components/sparql-tree-service.ts:75-76 | a class appears among a parent's children at most once |
| SparqlTree.Adopt | app/components/sparql-tree-service.ts:75-76 | the inner loop pushes the class's node onto the children of each of its parents; a parent without a node is the error |
| SparqlTree.Place | app/components/sparql-tree-service.ts:74-77 | one turn of the outer loop makes the class a root or a child of each of its parents |
| SparqlTree.BuildForest | app/components/sparql-tree-service.ts:73-78 | the roots are the classes without parents, in order; each node's children are the classes recorded under it, in order; it fails exactly when a parent has no node |
| SparqlTree.ReadRow | app/components/sparql-tree-service.ts:55-72 | the body of the `forEach` equals `Step` on the row |
| SparqlTree.CollectRows | app/components/sparql-tree-service.ts:55-72 | the `forEach` over all rows equals `Collect` of them |
| SparqlTree.ReadNext | app/components/sparql-tree-service.ts:55-72 | reading row i continues what the rows before it left |
| SparqlTree.CollectNext | app/components/sparql-tree-service.ts:55-72 | collecting one more row is one more `Step` |
| SparqlTree.StaysFailed | app/components/sparql-tree-service.ts:55-72 | once a row fails, later rows do not change the error |
| SparqlTree.GetTree | app/components/sparql-tree-service.ts:50-81 | the worker `getTree` reads the rows and then builds the forest, failing exactly as those do |
| SparqlTree.RootsOfRows | app/components/sparql-tree-service.ts:56-77 | the roots are exactly the labelled classes that no row gives a parent |
| SparqlTree.ChildrenOfRows | app/components/sparql-tree-service.ts:56-77 | the children of `p` are exactly the labelled classes some row puts under `p`, each once |
| SparqlStatistics.SetAll | app/services/sparql-statistics-service.ts:60-67 | `d.set(k, v)` for each pair in order |
| SparqlStatistics.LastFor | app/services/sparql-statistics-service.ts:60-67 | the index of the last pair for a key, or -1 |
| SparqlStatistics.LastSetWins | app/services/sparql-statistics-service.ts:60-67 | after a run of `set`s a key is present when it was before or was set, and holds the value set last |
| SparqlStatistics.ClassPairs | app/services/sparql-statistics-service.ts:60-67 | one (class, instances) pair per row, in order |
| SparqlStatistics.GetClassStatistics | app/services/sparql-statistics-service.ts:60-67 | the worker `getClassStatistics` gives the map the rows' `set`s leave |
| SparqlStatistics.ClassStatisticsLastWins | app/services/sparql-statistics-service.ts:60-67 | each class some row counts maps to the count of its last row; nothing else is in the map |
| SparqlStatistics.ClassKey | app/services/sparql-statistics-service.ts:72 | a row is filed under its class, or under '' when it has none |
| SparqlStatistics.Entry | app/services/sparql-statistics-service.ts:73 | the `set` a row makes on its class's inner map |
| SparqlStatistics.FiledKeys | app/services/sparql-statistics-service.ts:68-75 | a class key is present exactly when some row is filed under it |
| SparqlStatistics.FiledByClass | app/services/sparql-statistics-service.ts:68-75 | each present class key holds one map, on which every row filed under it was set in order |
| SparqlStatistics.GetPropertyStatistics | app/services/sparql-statistics-service.ts:68-75 | the worker `getPropertyStatistics` gives the nested map the rows' `goc`/`set`s leave |
| SparqlStatistics.PropertyStatisticsLastWins | app/services/sparql-statistics-service.ts:68-75 | a property's statistics under a class are those of the last row for that class and property |
| SparqlStatistics.ForwardClassStatistics | app/services/sparql-statistics-service.ts:49-51 | the page `getClassStatistics` is one `call` with `[endpoint, classStatisticsQuery]`: the array allocated and saved, one deferred added, the cursor advanced |
| SparqlStatistics.ForwardPropertyStatistics | app/services/sparql-statistics-service.ts:52-54 | the page `getPropertyStatistics` is one `call` with `[endpoint, propertyStatisticsQuery]`: the array allocated and saved, one deferred added, the cursor advanced |
| ItemsReducer.Display | app/reducers/items.ts:8-26 | DISPLAY_ITEMS: the loop over copies of the list and index gives the state `Displayed` describes after every payload item |
| ItemsReducer.DisplayOneConsistent | app/reducers/items.ts:12-15 | one pass keeps the index consistent with the list |
| ItemsReducer.DisplayOneKeeps | app/reducers/items.ts:12-15 | one pass keeps the list first and every indexed item, and indexes the item's value |
| ItemsReducer.DisplayedKeeps | app/reducers/items.ts:8-26 | DISPLAY_ITEMS keeps the displayed items first and in order, keeps every indexed item, and indexes every payload value |
| ItemsReducer.DisplayedConsistent | app/reducers/items.ts:8-26 | DISPLAY_ITEMS keeps the index consistent with the list |
| ItemsReducer.DisplayOneAppends | app/reducers/items.ts:11-20 | the list grows by one exactly when the item's value is new, and a pushed item takes its own coordinates only when both are non-zero |
| ItemsReducer.DisplayTwiceChangesNothing | app/reducers/items.ts:8-26 | displaying the same items again, with any coordinates, changes nothing |
| ItemsReducer.KnownChangesNothing | app/reducers/items.ts:12 | items whose values are all indexed change nothing |
| ItemsReducer.IndexOf | app/reducers/items.ts:39 | `indexOf`: the first position of the item, or -1 when absent |
| ItemsReducer.SpliceOne | app/reducers/items.ts:39 | `splice(k, 1)`: removes position k, with -1 removing the last item |
| ItemsReducer.Hide | app/reducers/items.ts:34-45 | HIDE_ITEM: an indexed value's item is spliced out and unindexed; an unknown value changes nothing |
| ItemsReducer.HideRemovesItem | app/reducers/items.ts:34-45 | on a consistent state, HIDE_ITEM removes exactly the hidden value's item and keeps the others in order |
| ItemsReducer.HideKeepsConsistent | app/reducers/items.ts:34-45 | HIDE_ITEM keeps the index consistent with the list |
| ItemsReducer.Reduce | app/reducers/items.ts:3-50 | the reducer: DISPLAY_ITEMS and HIDE_ITEM as above; every other action returns the state unchanged |
| PaletteRules.FindType | app/components/palette-component/palette-component.ts:150 | `filter(...)[0]`: the first type with that id, or none |
| PaletteRules.DisplayTypesGrow | app/components/palette-component/palette-component.ts:148-158 | `addItem` only appends to the displayed types, never beyond two and never repeating one; when there was room, a known item type ends up displayed |
| PaletteRules.UnknownTypeChangesNothing | app/components/palette-component/palette-component.ts:148-158 | an item type that names no type leaves the displayed types unchanged |
| PaletteRules.DisplayedIffListed | app/components/palette-component/palette-component.ts:355 | with a consistent index, a circle is marked displayed exactly when an item with its value is displayed |
| PaletteRules.FilteredMeansAbsent | app/components/palette-component/palette-component.ts:356 | a circle is filtered exactly when a filter is set and, ignoring ASCII case, occurs nowhere in the label |
| PaletteRules.FilterKeepsMatches | app/components/palette-component/palette-component.ts:356 | no filter hides nothing, and a label never hides under a filter equal to any part of it |
| PaletteRules.DrawnFromGroups | app/components/palette-component/palette-component.ts:192-198 | an item is drawn exactly when a group other than '' holds it |
| PaletteRules.PaddingShrinks | app/components/palette-component/palette-component.ts:199 | the padding is 4, 2 or 1 and never grows with the number of items |
| Palette.FirstProperty | app/components/palette-component/palette-component.ts:389 | `filter(p => p.value === v)[0]`: the first property with that value, or none |
| Palette.Classified | app/components/palette-component/palette-component.ts:389-410 | the item as `mergeItems` leaves it |
| Palette.ClassifiedFields | app/components/palette-component/palette-component.ts:389-410 | placed items carry their group value, group label and type; others get '', "No type defined" and ''; classifying twice changes nothing |
| Palette.PlacedAsClassified | app/components/palette-component/palette-component.ts:395-405 | a placed item goes under its group value, as its classified self, heading a new group with its group label |
| Palette.MergedTreeGroups | app/components/palette-component/palette-component.ts:380-425 | the merged tree has a group for exactly the group values of placed items, in first-seen order; each is open, headed by its first item's label, and holds its items sorted by label |
| Palette.UnderMeans | app/components/palette-component/palette-component.ts:389-405 | an item is under g exactly when it is placed and its group value is g |
| Palette.RemergeSame | app/components/palette-component/palette-component.ts:108-109 | merging items `mergeItems` already classified gives the same placements, so `rebuild` after `query` redraws the same tree |
| Palette.GatheredValues | app/components/palette-component/palette-component.ts:413-418 | the grouping values collected are every property value exactly once, in first-seen order |
| Palette.GatheredLabels | app/components/palette-component/palette-component.ts:413-418 | each grouping property collected carries the label of the first property with its value |
| Palette.GroupingPropertiesListed | app/components/palette-component/palette-component.ts:413-418 | the grouping properties offered list every property value of the items exactly once, in first-seen order, each labelled as first seen |
| Palette.InitialsOfWords | app/components/palette-component/palette-component.ts:336-337 | a label of two or more words gives the upper-cased first letters of the first two |
| Palette.InitialsOfWord | app/components/palette-component/palette-component.ts:338-339 | a one-word label of at least two characters gives its first two characters unchanged |
| Palette.InitialsFail | app/components/palette-component/palette-component.ts:335-341 | the initials throw exactly for a label that is one space or starts with two spaces |
| Palette.PaletteController.constructor | app/components/palette-component/palette-component.ts:88-92 | the controller starts grouping by type, with only the closed '' group "No type defined" |
| Palette.PaletteController.MergeItems | app/components/palette-component/palette-component.ts:380-425 | `mergeItems` returns and keeps the tree `MergedTree` gives, the grouping properties first-seen, and the classified items |
| Palette.PaletteController.PlaceItem | app/components/palette-component/palette-component.ts:395-405 | an item with a group and a type is added to its group, creating it when absent; any other item changes nothing |
| Palette.PaletteController.CollectProperties | app/components/palette-component/palette-component.ts:413-418 | the inner loop appends each property value not yet collected, with its label |
| Palette.PaletteController.Query | app/components/palette-component/palette-component.ts:100-106 | `query` keeps the tree and grouping properties merged from the fetched items, and keeps the items as `mergeItems` classified them |
| Palette.PaletteController.Rebuild | app/components/palette-component/palette-component.ts:108-111 | `rebuild` merges the kept items again and keeps them classified; with `Palette.RemergeSame`, after `query` this gives the tree `query` gave |
| Grouping.PlacedKeys | app/components/palette-component/palette-component.ts:397-405 | the keys of the placements, in order, repeats included |
| Grouping.UnderMembers | app/components/palette-component/palette-component.ts:397-405 | an item is under g exactly when some placement puts it there |
| Grouping.GroupAllEntry | app/components/palette-component/palette-component.ts:397-405 | each group ends as the existing group with the new items appended, or as a new open group headed by its first item, holding exactly its items |
| Grouping.GroupAllKeys | app/components/palette-component/palette-component.ts:397-405 | the groups stay a proper map, and new keys come after the old ones in first-placed order |
| Grouping.SortedGroupsSorted | app/components/palette-component/palette-component.ts:421-423 | sorting keeps the keys and each group's heading, state and items, with each group in label order |
| Grouping.SortGroups | app/components/palette-component/palette-component.ts:421-423 | the sort loop gives the groups with each sorted by label |
| LabelSort.Compare | app/components/palette-component/palette-component.ts:422 | the comparator is 0 for equal labels, positive when the first label is greater, negative otherwise |
| LabelSort.BelowTotal | app/components/palette-component/palette-component.ts:422 | label order is total and antisymmetric |
| LabelSort.BelowTransitive | app/components/palette-component/palette-component.ts:422 | label order is transitive |
| LabelSort.SortByLabelSorts | app/components/palette-component/palette-component.ts:422 | the sort yields the same multiset of items, in label order |
| LabelSort.SortByLabelStable | app/components/palette-component/palette-component.ts:422 | items with equal labels keep their relative order |
| ConstructPalette.ClassifiedByType | app/components/construct-view/palette-component/palette-component.ts:320-338 | a typed item goes under its type value, heading a new group with its type label; an untyped one is marked '' and "No type defined" |
| ConstructPalette.MergedTreeGroups | app/components/construct-view/palette-component/palette-component.ts:314-346 | the merged tree keeps every old group with its heading and state, adds a group per type first seen, and each group holds its type's items sorted |
| ConstructPalette.UnderMeans | app/components/construct-view/palette-component/palette-component.ts:320-338 | an item is in group g exactly when it has a type and its type value is g |
| ConstructPalette.EmptiedValid | app/components/construct-view/palette-component/palette-component.ts:316-318 | emptying the groups keeps the tree a proper map with the same keys |
| ConstructPalette.MergedEntry | app/components/construct-view/palette-component/palette-component.ts:314-346 | group g of the merged tree exactly: an old group keeps its heading and state and holds its type's items sorted; a new one is open and headed by its first item's type label |
| ConstructPalette.MergeTwiceSame | app/components/construct-view/palette-component/palette-component.ts:314-346 | merging the same items again changes nothing |
| ConstructPalette.ConstructPaletteController.constructor | app/components/construct-view/palette-component/palette-component.ts:64-68 | the tree starts with only the closed '' group |
| ConstructPalette.ConstructPaletteController.MergeItems | app/components/construct-view/palette-component/palette-component.ts:314-346 | `mergeItems` leaves and returns `MergedTree` of the old tree and the items, with the items classified |
| ConstructPalette.ConstructPaletteController.EmptyGroups | app/components/construct-view/palette-component/palette-component.ts:316-318 | the first loop empties every group and keeps the rest |
| ConstructPalette.ConstructPaletteController.PlaceAll | app/components/construct-view/palette-component/palette-component.ts:320-340 | the second loop classifies each item and adds the typed ones to their groups |
| ConstructPalette.ConstructPaletteController.PlaceItem | app/components/construct-view/palette-component/palette-component.ts:322-334 | a typed item is added to its type's group, creating it when absent |
| FirstSeen.GatherMembers | app/components/construct-view/explore-table-component/explore-table-component.ts:28-40 | collecting with the duplicate check keeps the list and adds each value not yet in it, once |
| FirstSeen.GatherOrder | app/components/construct-view/explore-table-component/explore-table-component.ts:28-40 | collected from empty, the values come in first-seen order |
| FirstSeen.GatherAbsorbs | app/components/construct-view/explore-table-component/explore-table-component.ts:36-38 | collecting values the list already holds changes nothing |
| ExploreTable.PropertyLabelsMembers | app/components/construct-view/explore-table-component/explore-table-component.ts:28-40 | a label is in the loop's label sequence exactly when some item has a property with it |
| ExploreTable.PropertiesListed | app/components/construct-view/explore-table-component/explore-table-component.ts:26-55 | collected from an empty list, the labels are every label of the items exactly once, in first-seen order |
| ExploreTable.CollectAgainSame | app/components/construct-view/explore-table-component/explore-table-component.ts:26-55 | running `sortProperties` again on the same items keeps both lists |
| ExploreTable.CollectLabels | app/components/construct-view/explore-table-component/explore-table-component.ts:28-40 | the nested loops give the first-seen collection of the items' labels onto the list |
| ExploreTable.ScanFor | app/components/construct-view/explore-table-component/explore-table-component.ts:30-35 | the `duplicate` flag is set exactly when the label is already in the list |
| ExploreTable.ExploreTableController.constructor | app/components/construct-view/explore-table-component/explore-table-component.ts:11-14 | the bindings are kept; the property lists, which the source leaves unset until `$onChanges`, are modelled as empty |
| ExploreTable.ExploreTableController.OnChanges | app/components/construct-view/explore-table-component/explore-table-component.ts:16-20 | `$onChanges` resets both lists and recomputes them, so they depend only on the items |
| ExploreTable.ExploreTableController.SortProperties | app/components/construct-view/explore-table-component/explore-table-component.ts:26-55 | `sortProperties` adds to each list the labels of its items that it lacks, in first-seen order |
| Turtle.NewCitable | app/models/citable.ts:69-72 | `new Citable(id)` has no source endpoint, labels, descriptions, homepage or holders, and the class name "Citable" |
| Turtle.CitablePrefixesEntries | app/models/citable.ts:31-36 | the six prefixes are set to their namespaces, and nothing else changes |
| Turtle.CitablePrefixesOrder | app/models/citable.ts:31-36 | into an empty builder the prefixes go in the order they are set |
| Turtle.CitablePrefixesTwice | app/models/citable.ts:31-36 | setting the six prefixes again changes nothing |
| Turtle.LiteralLinesCount | app/models/citable.ts:38-43 | one line per literal with a non-empty value, none for empty ones |
| Turtle.RefListJoin | app/models/citable.ts:49-50 | the `<id>, ` run is the bracketed ids joined by ", " followed by ", " |
| Turtle.CloseRefList | app/models/citable.ts:56 | replacing the trailing ", " by " ;" closes the comma-separated list |
| Turtle.CitableTextExtends | app/models/citable.ts:37-67 | the fragment stored for a citable is the one found, extended with statements |
| Turtle.OwnLinesEnd | app/models/citable.ts:40-41 | the creation line is always written, so a citable's own lines end with a statement |
| Turtle.HoldersPreserve | app/models/citable.ts:49-55 | handling holders never changes a fragment already there |
| Turtle.HoldersKeys | app/models/citable.ts:49-55 | handling holders adds one fragment per holder written, after the existing ones |
| Turtle.HoldersExtend | app/models/citable.ts:51-53 | every holder written is its agent header extended with statements |
| Turtle.SerialiseOnce | app/models/citable.ts:30-68 | after `toTurtle` the fragments stay a proper map holding the old ones, the holders written and the citable; the citable's fragment is the one found, or "undefined", extended |
| Turtle.SerialiseCallsFresh | app/models/citable.ts:51 | every holder is written at most once, and only when it had no fragment |
| Turtle.SerialiseHolders | app/models/citable.ts:51-53 | every holder written, unless it is the citable itself, is its agent header extended with statements |
| Turtle.SerialiseKeeps | app/models/citable.ts:49-67 | no old fragment changes except the citable's own |
| Turtle.CitableToTurtle | app/models/citable.ts:30-68 | `Citable.toTurtle(c, tb)` leaves the prefixes and fragments the specification functions give |
| Turtle.AppendOwnLines | app/models/citable.ts:38-45 | the label, creation, description and homepage lines are appended |
| Turtle.WriteHolders | app/models/citable.ts:46-66 | the rights-holder part: the closed reference list, unseen holders seeded and written, and assertions when there is more than one holder |
| Turtle.CloseHolders | app/models/citable.ts:56-65 | the last `, ` of the reference list becomes ` ;`, followed by the qualified assertions only when there is more than one holder: the rights-holder lines of the ids |
| Turtle.ReferenceHolders | app/models/citable.ts:49-55 | the holder loop appends `<id>, ` per holder and writes each unseen holder |
| Turtle.VisitHolder | app/models/citable.ts:51-54 | an unseen holder is seeded as an agent and then written |
| Turtle.CloseHolderLine | app/models/citable.ts:47-56 | the rights-holder line is the comma-separated reference list closed by " ;" |
| Turtle.AppendLiterals | app/models/citable.ts:38-39 | the loop over labels or descriptions appends `LiteralLines` |
| Turtle.AppendAssertions | app/models/citable.ts:57-65 | one qualified-assertion block per holder, with its index as order |
| Turtle.BlockClosesStatement | app/components/misc-utils.ts:6 | a fragment ending with a statement is closed by turning its final ";" into "." |
| Turtle.ToTurtle | app/components/misc-utils.ts:3-8 | the document is the prefix lines in key order, then each fragment closed as a block, in map order |
| Turtle.JoinPrefixes | app/components/misc-utils.ts:5 | the prefix loop gives one `@prefix` line per prefix, in key order |
| Turtle.JoinBlocks | app/components/misc-utils.ts:6 | the fragment loop gives each fragment, last two characters replaced by ` .` and a blank line, in order |
| Turtle.CitableDocument | app/components/misc-utils.ts:10-15 | `citableToTurtle` is the document of a fresh builder after the citable is written |
| Turtle.CitablePrefixLines | app/components/misc-utils.ts:10-15 | a citable's document starts with the six `@prefix` lines in order |
| Turtle.SerialiseFresh | app/components/misc-utils.ts:10-15 | written into an empty builder, every fragment is a run of statements, and the citable's own starts with "undefined" |
| Turtle.CitableDocumentShape | app/components/misc-utils.ts:10-15 | the document starts with the six prefix lines and closes every fragment as a block |
| Uuid.HexDigitValue | app/components/misc-utils.ts:19 | a hex digit is lower-case and reads back as its value |
| Uuid.LutEntryDigits | app/components/misc-utils.ts:17-19 | each table entry is two lower-case hex digits, high then low nibble, reading back as its index |
| Uuid.LutEntryInjective | app/components/misc-utils.ts:17-19 | distinct indices have distinct table entries |
| Uuid.BuildLut | app/components/misc-utils.ts:17-19 | the table has 256 entries, entry i being the zero-padded hex of i |
| Uuid.HexPairsAt | app/components/misc-utils.ts:27-30 | concatenated table entries are lower-case hex, with byte j's entry at position 2j |
| Uuid.LayoutSlot | app/components/misc-utils.ts:27-30 | in the laid-out string, byte j's two digits sit at its slot between the dashes |
| Uuid.Uuid | app/components/misc-utils.ts:21-32 | the UUID string has 36 characters |
| Uuid.UuidLayout | app/components/misc-utils.ts:21-32 | the UUID has 36 characters, dashes exactly at 8, 13, 18 and 23, lower-case hex elsewhere, version digit '4' and variant digit in "89ab" |
| Uuid.UuidVersion | app/components/misc-utils.ts:28-29 | the version nibble is 4 and the variant bits are 10 |
| Uuid.UuidBytesAt | app/components/misc-utils.ts:27-30 | each byte's two hex digits read back as that byte of the random words |
| Projects.RemoteEndpoints | app/components/project-service/project.ts:159-161 | `remoteEndpoints()` is the archives followed by the authorities |
| Projects.AsTemplate | app/components/project-service/project.ts:162-171 | a fresh primary configuration with no arguments, carrying the project's six queries and nothing else |
| Projects.Elsewhere | app/components/project-service/project.ts:187 | the references the `filter` keeps, in order |
| Projects.ElsewhereMembers | app/components/project-service/project.ts:187 | the `filter` keeps exactly the references read from another endpoint or graph |
| Projects.ElsewhereExtremes | app/components/project-service/project.ts:187 | references all from the project's own endpoint and graph give no block; those all from elsewhere are all kept |
| Projects.ProjectTwice | app/components/project-service/project.ts:173 | once the project has a fragment, `toTurtle` again changes neither prefixes nor fragments |
| Projects.ProjectFirst | app/components/project-service/project.ts:173-253 | the first `toTurtle` keeps old fragments, writes holders and the project, and the project's fragment starts with its type statement and ends with the `instanceNS` statement |
| Projects.ProjectPrefixOrder | app/components/project-service/project.ts:174-177 | into an empty builder, `fibra` and `void` come first, then the citable's other five |
| Projects.SectionShape | app/components/project-service/project.ts:179-198 | a section is empty exactly when its list is; otherwise it starts with the list statement naming every reference |
| Projects.SectionBlocks | app/components/project-service/project.ts:186-197 | every reference read from elsewhere has its block in the section |
| Projects.RefBlockShape | app/components/project-service/project.ts:189-196 | a reference block starts with the id and endpoint, ends with " ] ;", and has the graph line exactly when the graph is set |
| Projects.ProjectToTurtle | app/components/project-service/project.ts:172-255 | `project.toTurtle` leaves the prefixes and fragments that `ProjectPrefixes` and `ProjectFragments` give |
| Projects.AppendLines | app/components/project-service/project.ts:178-252 | the project's own statements appended to its fragment |
| Projects.AppendSection | app/components/project-service/project.ts:179-198 | one list section: the closed reference list, then a block per reference from elsewhere |
| Projects.AppendRefs | app/components/project-service/project.ts:182-184 | `<id>, ` appended per reference |
| Projects.AppendBlocks | app/components/project-service/project.ts:186-197 | one block appended per kept reference |
| Projects.AppendBlock | app/components/project-service/project.ts:189-196 | one reference block, with the graph line only when set |
| Configuration.NamedNode | app/scripts/configuration-service.ts:67 | `new NamedNode(iri)` has the IRI as value and `<iri>` as canonical form |
| Configuration.TypeConstraintsEmpty | app/scripts/configuration-service.ts:56-61 | the filter is empty exactly when no type is selected, and otherwise is an `IN` test on `?groupId` |
| Configuration.TypeConstraintsMention | app/scripts/configuration-service.ts:60 | the `IN` test mentions every selected type's canonical form |
| Configuration.DataModelConfiguration.constructor | app/scripts/configuration-service.ts:44-51 | no type selected and an empty filter |
| Configuration.DataModelConfiguration.SetSelectedTypes | app/scripts/configuration-service.ts:52-55 | the selection is replaced and the filter recomputed to match it |
| Configuration.DataModelConfiguration.UpdateFilter | app/scripts/configuration-service.ts:56-61 | the filter matches the selected types |
| Configuration.EndpointConfiguration.constructor | app/scripts/configuration-service.ts:26-36 | the given id, title and endpoint, no class yet, and the selected types applied to a fresh data model |
| Configuration.EndpointConfiguration.Primary | app/scripts/configuration-service.ts:38-42 | `PrimaryEndpointConfiguration`: the update endpoint defaults to the endpoint, and no type is selected |
| Configuration.Configuration.constructor | app/scripts/configuration-service.ts:4-15 | preferred language "en", empty prefixes, no primary, authority or archive endpoints, no namespaces or graphs, and a fresh global data model that selects no type and has an empty filter |
| Configuration.Configuration.RemoteEndpoints | app/scripts/configuration-service.ts:21-23 | the archives followed by the authorities |
| Configuration.Configuration.AllEndpoints | app/scripts/configuration-service.ts:16-20 | the remote endpoints with the primary pushed last, on a fresh array; no list of the configuration changes |
| Configuration.Configuration.SetFibraNamespaces | app/scripts/configuration-service.ts:153-156 | the instance and schema namespaces and graphs of Fibra |
| Configuration.Configuration.SetEndpoints | app/scripts/configuration-service.ts:68-151 | the primary, the authorities and the archives installed; authorities numbered from 0 and archives after them leave the configuration numbered, with the built-in ids |
| Configuration.Configuration.NumberedClassesDistinct | app/scripts/configuration-service.ts:118 | numbered this way, no two remote endpoints share a class |
| Configuration.SourceClassInjective | app/scripts/configuration-service.ts:118 | different positions give different `'source' + n` classes |
| Configuration.NumberEndpoints | app/scripts/configuration-service.ts:118 | endpoint i of the list gets the class `'source' + (offset + i)`; only the endpoints' classes may change |
| Configuration.BuiltinAuthorities | app/scripts/configuration-service.ts:100-117 | five new, distinct authorities in listed order: ulan "ULAN" and tgn "TGN" on the Getty SPARQL endpoint selecting Getty person and group, and administrative and physical place concepts; lcnames "LC Names", viaf "VIAF" and geonames "GeoNames" on their own endpoints selecting no type |
| Configuration.BuiltinArchives | app/scripts/configuration-service.ts:119-151 | five new, distinct archives in listed order: sdfb "SDFB", emlo "EMLO", procope "Procope", fbtee "FBTEE" and schoenberg "Schoenberg", each on its own ldf.fi SPARQL endpoint and selecting the CIDOC-CRM person, place and group classes |
| Configuration.NumberedRemotes | app/scripts/configuration-service.ts:118-152 | the authorities are numbered `source0` on, the new archives are the built-in five numbered after them, and the authorities' data models are untouched |
| Configuration.LocalPrimary | app/scripts/configuration-service.ts:68 | the new primary endpoint is local "Local", queried and updated at the Fibra SPARQL endpoint, with no class and a data model that selects no type |
| Configuration.BuiltinRemotes | app/scripts/configuration-service.ts:100-152 | the built-in authorities and archives, each with its id, title, endpoint and selection, numbered `source0` to `source9` in that order |
| Configuration.BuiltinConfiguration | app/scripts/configuration-service.ts:64-158 | a new configuration with preferred language "en", empty prefixes and an empty global data model, the local primary, the five authorities and five archives with their ids, titles, endpoints and selections numbered `source0` to `source9`, and the Fibra namespaces and graphs |
| Configuration.InstallBuiltinEndpoints | app/scripts/configuration-service.ts:68-152 | installs a new local primary and the built-in authorities and archives, with their ids, titles, endpoints and selections, numbered `source0` to `source9` |
| Configuration.ConfigurationService.constructor | app/scripts/configuration-service.ts:64-158 | the service holds a new configuration that is the built-in one: preferred language "en", empty global data model, the local primary, the ten described remote endpoints numbered in order, and the Fibra namespaces and graphs |
| Text.NatToDecimal | app/scripts/configuration-service.ts:118 | `String(n)` is a non-empty numeral of decimal digits |
| Text.DigitsValueOfDecimal | app/scripts/configuration-service.ts:118 | the numeral reads back as the number |
| Text.NatToDecimalInjective | app/scripts/configuration-service.ts:118 | different numbers have different numerals |
| Text.ParseIntOfDecimal | app/components/sparql-tree-service.ts:61 | `parseInt(String(n), 10)` is n |
| Text.ParseIntOfDigits | app/components/sparql-tree-service.ts:61 | `parseInt` of a string of digits is its value |
| Text.ToHex | app/components/misc-utils.ts:19 | `n.toString(16)` is a non-empty numeral of lower-case hex digits |
| Text.Split | app/components/palette-component/palette-component.ts:336 | `split(c)` gives at least one piece, none containing c, and exactly one when c does not occur |
| Text.JoinSplit | app/components/palette-component/palette-component.ts:336 | joining the pieces with the separator gives the string back |
| Text.SplitJoin | app/components/palette-component/palette-component.ts:336 | splitting words joined by a separator they lack gives the words back |
| Text.DropLastTwo | app/components/misc-utils.ts:6 | `substring(0, length - 2)` drops the last two characters, or gives "" for shorter strings |
| Text.IndexOf | app/components/palette-component/palette-component.ts:356 | `indexOf` is the first occurrence, or -1 exactly when there is none |
| Text.Upper | app/components/palette-component/palette-component.ts:356 | `toUpperCase` keeps the length and upper-cases ASCII letters |
| Dict.Dict.Get | app/models/citable.ts:37 | `get` gives the entry when the key is present, and nothing otherwise |
| Dict.Dict.Set | app/models/citable.ts:67 | `set` updates the entry, appending the key only when it is new |
| Dict.Dict.Values | app/components/misc-utils.ts:6 | `values()` gives the entries in key order |

## Left out

- Worker creation, the worker script template and its URLs, `importScripts`,
  and the transport itself are left out. Each worker is an outbox of posted
  messages, and `postMessage` is a structured clone of the heap
  (`Transfer.StructuredClone`).
- Promise scheduling by `$q` and `$rootScope.$apply` is left out. Replies
  and settlements are explicit method calls in the order they arrive;
  concurrency between workers is not modelled.
- The `$injector` lookup and the service method's own work are left out.
  The outcome of applying the method is the parameter `returned`: a thenable,
  a plain value, or an exception thrown before the method returns.
- Dispatcher.WorkerService.FireCanceller: the canceller's closure in the
  source runs whenever the caller's promise resolves. The model fires it
  when called and does not model the caller's promise.
- JavaScript object identity is modelled as references into one heap of
  shapes. Prototype chains are one `Constructor` per object, which says
  whether its class has methods and carries its `__name`. Getters, symbols,
  non-enumerable properties and inherited enumerable properties are left
  out.
- `SparqlTree`: a `TreeNode` is a value, and children are held by id. So
  the sharing between a node pushed into several parents' children and its
  later changes is not modelled; `SparqlTree.BuildForest` states the
  children each node ends with.
- The SPARQL queries' text, the HTTP calls of `sparqlService.query` and
  timeouts are left out. The services start from the result rows.
- Floating point, d3 layout and rendering, colours, tooltips, drag and drop,
  CSV download, and the palette's sizes other than the padding are left
  out.
- PaletteRules.FilteredMeansAbsent: `toUpperCase` is modelled on ASCII
  letters only. Other characters are kept as they are.
- Palette.InitialsOfWords: upper-cases ASCII letters only, through
  `Text.Upper`. For a label such as "élan vital" the source gives "ÉV" and
  the model "éV".
- Text.Upper: `toUpperCase` is modelled on ASCII letters only. Other
  letters, such as "é", are kept as they are, and the length-changing
  mappings of `toUpperCase` (such as "ß" to "SS") are not modelled.
- ExploreTable.ExploreTableController.constructor: the source leaves the
  two property lists `undefined` until the first `$onChanges`; the model
  starts them empty, the value `$onChanges` resets them to.
- `Text`: strings are sequences of characters. UTF-16 surrogate pairs,
  which affect `label[0]`, `split` and `substring`, are not modelled.
  `parseInt` skips leading space, tab, line feed and carriage return only;
  the vertical tab, form feed, no-break space and the other Unicode white
  space it also skips are not.
- The explicit `toTurtle(m, prefixes)` two-argument calls of
  `citableToTurtle` (app/components/misc-utils.ts:13) and of
  `Project.toTurtle` (app/components/project-service/project.ts:172, 177)
  do not match `Citable.toTurtle(c, tb)`, whose builder holds both maps.
  As written, both calls pass a plain map where the builder is expected, so
  reading `tb.prefixes` yields `undefined` and the call throws a TypeError.
  The model uses the builder throughout: `prefixes` and `fragmentsById` are
  its two dictionaries.
- A rights holder's own `toTurtle` is dynamic dispatch. The model writes
  every holder as a citable; subclasses' extra statements are not
  modelled.
- `toCanonical()` of literals and named nodes is the `canonical` field of
  `Turtle.Literal` and `Configuration.Term`. `stringToSPARQLString` is the
  `quote` parameter of `Projects`. `toISOString()` of the creation date is
  the `created` string.
- The namespace constants of the RDF vocabularies are opaque strings.
- The `TurtleBuilder` class (imported by app/models/citable.ts:5) is not part
  of this model's sources. `Turtle.TurtleBuilder` holds its prefixes and
  fragments as two insertion-ordered dictionaries.
- The field defaults of `Project` and its query constants are parameters of
  `Projects.Project`. Schemas and remote endpoint configurations appear in
  a project only as `Projects.Reference`.
- Configuration: the autocompletion query templates and their `replace`
  rewrites, the tree/item query templates, `typeTree`, `properties` and the
  property and type maps are left out. The selected Getty and CIDOC-CRM
  terms are the `TypeTerms` parameter.
- Configuration: the `callAll` that hands the configuration to the workers
  (app/scripts/configuration-service.ts:157) is left out. The
  worker-side `ConfigurationWorkerService.setConfiguration`
  (app/scripts/configuration-service.ts:161-166) is a one-field setter,
  the same as `DispatchTarget.StateWorkerService.SetState` with the state
  type taken as the configuration.
- Configuration.NumberEndpoints: requires the endpoint objects to be
  distinct. In the source they are ten separately constructed objects.
- Configuration.BuiltinConfiguration: sets the Fibra namespaces before it
  installs the endpoints, where the source sets them last. The two steps
  write different fields, so the configuration that results is the same.
- Dispatcher.WorkerService.SendRequest: saves the arguments with the
  corrected `Serializer.SavePrototypes`. The source's walk overflows the
  stack on a plain object that refers to itself, and leaves untagged every
  object reachable only through an object that already has a
  `__className`, which then arrives with `Object.prototype`.
- Dispatcher.WorkerService.Call: saves with the corrected walk, as
  `SendRequest`. In the source the overflow happens after the deferred is
  pushed, the cursor advanced and the canceller registered, so these stay
  and no request is posted; the model always posts the request.
- Dispatcher.WorkerService.Call: requires a non-empty pool. With no
  worker the source pushes the deferred, sets the cursor to `NaN`,
  registers the canceller and then throws a TypeError calling `postMessage`
  on `undefined`.
- Dispatcher.WorkerService.CallAll: saves with the corrected walk, as
  `SendRequest`; in the source the overflow happens after the deferred is
  pushed, before the canceller is registered and any worker is sent the
  request.
- Dispatcher.WorkerService.BroadcastToWorkers: saves with the corrected
  walk, as `SendRequest`; in the source the overflow happens before any
  worker is sent the broadcast.
- Dispatcher.WorkerService.PostBroadcast: saves with the corrected walk, as
  `SendRequest`.
- Dispatcher.WorkerService.OnReply: a `Settlement` whose event is
  "broadcast" is handled as a settlement. The source routes every reply
  whose event is "broadcast" to `$broadcast` first; the worker side never
  posts such a settlement.
- DispatchTarget.WorkerWorkerService.BroadcastToPage: saves with the
  corrected walk, as `Dispatcher.WorkerService.SendRequest`; in the source
  the overflow means nothing is posted.
- DispatchTarget.WorkerWorkerService.Settle: a rejection that is not an
  `Error` is posted as `DispatchTarget.StripFunctions` of it, the corrected
  strip. The source's `stripFunctions` turns a string rejection into an
  object of its characters (`"no"` into `{0: "n", 1: "o"}`) and `null`
  into `{}`. The stripped copy is plain data, so the save the source
  applies to it is not modelled either.
- Forwarding.CallWithEndpoint: requires a non-empty pool, as
  `Dispatcher.WorkerService.Call`.
- SparqlTree.ForwardGetTree: requires a non-empty pool, as
  `Dispatcher.WorkerService.Call`.
- SparqlStatistics.ForwardClassStatistics: requires a non-empty pool, as
  `Dispatcher.WorkerService.Call`.
- SparqlStatistics.ForwardPropertyStatistics: requires a non-empty pool,
  as `Dispatcher.WorkerService.Call`.
- Transfer.StructuredClone: copies function values like any other. A real
  structured clone throws a `DataCloneError` when a function is reachable
  from the message, and nothing is posted; the model does not report that
  failure.
- Transfer.StructuredClone: a `Date`, `Map`, `Set` or `RegExp` arrives as
  the same built-in type without its added properties, but the values these
  objects hold inside (a date's time, a map's or set's entries, a pattern)
  are not modelled.
- Transfer.Transfer: a value holding a function reaches the receiver in
  the model, where `postMessage` would throw a `DataCloneError`, as for
  `Transfer.StructuredClone`.
- Uuid: `Math.random()` is left out. The four random words are parameters,
  read as unsigned 32-bit values. `x >> k & 0xff` gives the same byte for
  the signed word that `| 0` produces.
- The items reducer's action constants and the Redux store around it are
  left out. Actions are a datatype.
- `addItem`'s `displayItem` dispatch and the `'change'` event are left out.
  `PaletteRules.NewDisplayTypes` gives the list handed to `setOrderedTypes`.

## Findings

| source | as written | input that shows it | evidently intended | confidence | as-written member | corrected member |
|---|---|---|---|---|---|---|
| app/services/worker-service/worker-service.ts:74-93 | `savePrototypesInternal` recurses until it meets a tagged object, and has no `__mark` guard | a plain `Object` holding a reference to itself (`o.self = o`) is never tagged, so the recursion never ends | a walk guarded by `__mark` like the restore walk, followed by `stripMarks` | not executed | Serializer.SaveAsWrittenLoopsOnSelfReference | Serializer.SavePrototypes |
| app/services/worker-service/worker-service.ts:75 | the save walk returns at any object that already has `__className` | an argument array (untagged, so `stripPrototypes` stops at once) holding a `Citable`, whose `__className` is a field, which holds an `ONodeSet`: the `ONodeSet` is never tagged and arrives as a plain object | every reachable object is tagged, whatever tags it already carries | not executed | Serializer.SaveAsWrittenStopsAtEarlierTag | Serializer.SavePrototypes |
| app/services/worker-service/worker-service.ts:212-218 | `stripFunctions` always builds a plain object from the `for..in` entries | a rejection with the string "no" becomes `{0: "n", 1: "o"}`, and a `null` field becomes `{}` | functions dropped at every depth, other values kept as they are | not executed | DispatchTarget.StripAsWrittenRebuildsPrimitives | DispatchTarget.StripFunctions |
