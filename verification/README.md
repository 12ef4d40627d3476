# Verification of the ECS core

This project models the two cores of an archetype entity component system written in Rust (`crates/core`) and proves
properties of them.

- **The scheduler.** `ScheduleBuilder::schedule` turns the access lists of systems into a dependency graph with one
  pass over a "last writer" map and a "current readers" map. `Scheduler::run` executes the graph with one counter per
  system. The builder is imperative (`ScheduleGraph.dfy`); the running scheduler is a transition system whose tasks and
  seed scan interleave in every possible way (`Runtime.dfy`). The main result is conflict-serializability: every
  maximal run that starts no system twice leaves the store that calling the systems one by one in registration order
  leaves (`SeedScan.StartedOnceIsSerializable`).
- **Archetype storage.** A generational entity registry, tables with swap-removed rows, two lookup maps per table, and
  the maps from signatures to tables are kept in step by `spawn`, `insert` and `despawn`. Objects (`Entities.dfy`,
  `Columns.dfy`, `ColumnStore.dfy`, `Table.dfy`, `Archetypes.dfy`, `World.dfy`) are proved against functions on values
  (`Tables.dfy`, `Storage.dfy`). The main results are about every run: a ledger accounts for every component value, and
  the run conserves all values, and does to the world what it does to a plain map from entities to components, at every
  point if and only if each `insert` copies the entity's own row (`WorldRuns.ConservedIff`, `WorldRuns.RefinedIff`).
  The code has runs that fail this (`RecordedRows.LosingRun`).
- **Queries.** The incremental table cache, the table-hopping iterator and the parallel splitter are compared with a
  naive scan and with the map the world represents (`QueryCache.dfy`, `Iteration.dfy`, `Splitting.dfy`, `Queries.dfy`).
- **The set layer.** `Signature` words as sets and archetypal filters as predicates on sets (`Signatures.dfy`,
  `Filters.dfy`).

`dafny verify dfyconfig.toml` checks the project with Dafny 4.11.

## What holds only under a condition

Where the code does not always meet its purpose, the code is kept and the exact condition is proved.

- `Scheduler::run` reads the live counters lazily while tasks it has already spawned may be decrementing them. No run
  starts a system twice if and only if every system that conflicts with an earlier one is behind a self-conflicting
  system, that is, conflicts with itself or is joined by a chain of conflicts to an earlier one that does
  (`SeedScan.NeverStartsTwiceIffStuck`). With no self-conflicting system: if and only if no two systems conflict
  (`SeedScan.NeverStartsTwiceIffNoConflicts`). One run starts no system twice if and only if its scan is timely, that
  is, picks up only systems without predecessors in the static graph (`SeedScan.StartedOnceIffTimely`). A scan that is
  over before any task moves is timely (`SeedScan.AtomicScanIsTimely`). Order, mutual exclusion and serializability
  hold in every run that starts no system twice. Over all runs of the code as written, where no system conflicts with
  itself: calls under way at once are always independent if and only if no system that conflicts with an earlier one
  declares a mutable access or the whole world (`Exclusion.AlwaysExclusiveIff`). Whatever conflicts there are, no run
  starts a system more than twice, once by the scan and once by a predecessor (`StartedTwice.AtMostTwice`), because a
  counter that is decremented past zero wraps and cannot be emptied again; so every run ends
  (`AllRunsEnd.EveryRunEnds`).
- A system whose own access list conflicts with itself gets a self-edge. In a timely run neither it nor any system
  behind it is ever started; every maximal timely run calls each of the others exactly once
  (`Termination.MaximalRunStartsUnblocked`). For the code as written, no run starts a system twice and every maximal run
  calls each one exactly once if and only if no system conflicts with itself or with another
  (`SeedScan.ExactlyOnceIff`).
- `Archetypes::insert` records the row of the moved entity from column 0 before the new components are pushed. The
  recorded row is right if and only if column 0 of the destination holds a component the entity already has
  (`Storage.InsertRecordsRightRowIff`), which is decided by the tables before the call (`Storage.Column0CarriedIff`)
  and depends on the order of components in an earlier bundle (`RecordedRows.BundleOrderDecides`). Otherwise it is the
  row before, or wraps (`RecordedRows.RecordedRowsAreNear`). The tables themselves stay right in every run.
- The next `insert` copies the recorded row and removes, without dropping it, the row the table has for the entity. It
  conserves values if and only if the two rows hold the same (`Storage.InsertConservesIff`); a run does so at every
  point if and only if each of its insertions does (`WorldRuns.ConservedIff`), for instance if each finds column 0
  carried over (`WorldRuns.CarriedRunRefines`). Spawning two entities and inserting twice into one of them
  duplicates a neighbour's values and loses the entity's own, unless the two are the same (`RecordedRows.LosingRun`).
- Where the recorded row is past the end of the table, `insert` panics, and a run of the model has no such step. That
  is where the row has wrapped (`RecordedRows.RowToCopy`), which happens on moving into an empty table whose column 0
  is not carried over (`RecordedRows.InsertWrapsIff`): spawn, despawn, spawn, insert (`RecordedRows.WrappingRun`).
- `insert` drops nothing out of the tables and `despawn` exactly the entity's row (`Sessions.Perform`), so over any calls
  nothing is dropped more often than it was stored (`Sessions.Session`). That is for components with a size:
  `Column::push` drops a zero-sized one right away, and its removal drops it again (`Columns.PushAndRemove`).
- `QueryIter::next` trusts that a table it jumps to has a row. The iterator returns only real rows, however it is
  called, if and only if no cached table after the first is empty (`Iteration.OnlyRealRowsIff`). Where one is, a release
  build goes on with 2^64 - 1 rows of that table that are not there, and no later table is reached by as many calls
  (`Iteration.EmptyTableWraps`, `Iteration.LaterTablesAreLost`); a debug build panics. The parallel iterator needs no
  such condition (`Queries.ParallelAnswer`).
- `Signature::contains` is documented as a subset test but compares only the words both have. For receivers of `n`
  words it is the subset test if and only if the argument has no bit past them (`Signatures.ContainsExactIff`). So a
  scan accepts an archetype that lacks a component the query names, if that is past the archetype's 64-bit words, that
  is, *out of reach*: not below 64 * (c / 64 + 1), where c is the archetype's largest component. Looking up its column
  then panics, in the update of a system's query or when the system is made. A scan gets to the end if and only if the
  query names no component out of reach of an archetype it accepts (`QueryCache.SucceedsIff`, and
  `QueryCache.UpdateSucceedsIff` for the archetypes added since). Without a filter no scan ever panics if and only if
  all components have ids below 64 (`QueryCache.PlainNeverPanicsIff`).
- A component that a `With` filter names does not cause a panic out of reach, but is not asked for. What a query *gets*,
  below, are the entities that have all components it names and match its filter so read. If the filter names nothing
  out of reach of an archetype, that is what the query asks for (`QueryCache.Query.GetsWhatItWants`).
- `QueryIter::next_back` never leaves the current table. From the start it gives the first table in reverse, which is
  all rows if and only if no later table has one (`Iteration.BackwardIsAllIff`).
- `AccessDesc::conflicts` tests for `World` only on its receiver, and the builder never calls it. It agrees with the
  symmetric relation the builder respects if and only if a `World` argument comes with a `World` receiver
  (`Access.OneSidedIffWorldOnTheLeft`).

## Reading the model

- Steps of the running scheduler are sequentially consistent. Setting the marker and entering the call is one step; a
  call itself is any number of steps over its local memory and the shared store; a decrement and the spawn it decides
  is one step; reading a counter in the seed scan and the spawn it decides is one step.
- A system reads and writes only what it declares (`Systems.Respects`). Termination assumes that calls end.
- A world is *sound* if the indices agree and every row of every table belongs to one live entity that its table finds
  there, whatever row is recorded in the entity's metadata (`Storage.Sound`); its invariant says that the recorded rows
  are right as well (`Storage.Inv`). What a world shows goes by the tables (`Storage.Shows`).
- Table pointers are table indices, row pointers are offsets, a component is its type and an integer payload, and a
  component type is its dense id. Bundles are not empty and have distinct types, and a bundle inserted into an entity
  shares no type with it, as the source asserts.
- Arithmetic on the recorded row and on the remaining rows of an iterator wraps at 2^64, as in a release build. The
  counters wrap at 2^32.

## Model

| member | source | states |
|---|---|---|
| Access.OneSidedIffWorldOnTheLeft | crates/core/src/scheduler/graph.rs:28-34 | the written `conflicts` agrees with the symmetric relation exactly when a World argument comes with a World receiver |
| Access.NonConflictingFootprints | crates/core/src/scheduler/graph.rs:13-34 | systems that do not conflict write nothing the other may read or write |
| ScheduleGraph.PushAll | crates/core/src/scheduler/schedule.rs:166-171 | an edge is pushed from every reader of a list and from nobody else |
| ScheduleGraph.PushWriters | crates/core/src/scheduler/schedule.rs:143-145 | whatever order the writers are visited in, edges come from exactly the current writers |
| ScheduleGraph.PushReaders | crates/core/src/scheduler/schedule.rs:147-151 | whatever order the readers are visited in, edges come from exactly the current readers |
| ScheduleGraph.Visit | crates/core/src/scheduler/schedule.rs:136-178 | one descriptor adds an edge from exactly the frontier systems it must wait for and updates both maps |
| ScheduleGraph.SourcesAreConflictingFrontier | crates/core/src/scheduler/schedule.rs:136-178 | those systems are exactly the ones with a conflicting access that nothing has superseded |
| ScheduleGraph.FrontierStep | crates/core/src/scheduler/schedule.rs:153-177 | after every descriptor the maps hold exactly the accesses not yet superseded |
| ScheduleGraph.Dedup | crates/core/src/scheduler/schedule.rs:182 | removing adjacent repeats from a non-decreasing list leaves a strictly increasing one with the same elements |
| ScheduleGraph.Schedule | crates/core/src/scheduler/schedule.rs:125-182 | the graph has an edge from a to b exactly when an access of a conflicts with a later one of b and none between supersedes it |
| GraphFacts.EdgesConflict | crates/core/src/scheduler/schedule.rs:133-180 | no edge points backwards, and every forward edge joins two systems that conflict |
| GraphFacts.ConflictingSystemsReach | crates/core/src/scheduler/schedule.rs:133-180 | graph completeness: every conflicting pair is joined by a path from the earlier to the later system |
| GraphFacts.SelfEdgeIffSelfConflict | crates/core/src/scheduler/schedule.rs:133-180 | a self-edge appears exactly on the systems two of whose own descriptors conflict |
| GraphFacts.ClosureIsConflictClosure | crates/core/src/scheduler/schedule.rs:133-180 | graph exactness: the edges and "conflicts and comes earlier" have the same transitive closure |
| GraphFacts.BlockedIff | crates/core/src/scheduler/schedule.rs:133-180 | a system is behind a self-edge exactly if it conflicts with itself or a chain of conflicts leads to it from an earlier system that does |
| GraphFacts.PredecessorIff | crates/core/src/scheduler/schedule.rs:133-180 | a system has a predecessor exactly if it conflicts with an earlier system or with itself |
| GraphFacts.ScheduleGraphIsUnique | crates/core/src/scheduler/schedule.rs:143-182 | the access lists alone fix the returned graph, whatever order the hash maps are iterated in |
| Systems.StepsCommute | crates/core/src/scheduler/scheduler.rs:149 | steps of the calls of two systems that do not conflict commute |
| Systems.SerialRunUnique | crates/core/src/scheduler/scheduler.rs:149 | calling the systems of a given set in registration order has one outcome |
| Serialization.SortEffect | crates/core/src/scheduler/scheduler.rs:138-172 | an interleaving whose out-of-order pairs are independent has the effect of its sorted version |
| Serialization.InterleavingIsSerial | crates/core/src/scheduler/scheduler.rs:138-172 | interleaved calls whose out-of-order pairs are independent, all finished, are a serial run of the systems called |
| Runtime.BeforeDecrement | crates/core/src/scheduler/scheduler.rs:164-166 | before a decrement the dependent is not spawned and its counter is the number of incoming edges not yet decremented, at least one |
| Runtime.ReleaseInv | crates/core/src/scheduler/scheduler.rs:164-170 | no counter underflows, and a dependent is spawned exactly by its last predecessor |
| Runtime.StepInv | crates/core/src/scheduler/scheduler.rs:138-172 | every timely step keeps counters, markers and tasks right |
| Runtime.RunInv | crates/core/src/scheduler/scheduler.rs:174-209 | counters, markers and tasks are right in every state a timely run reaches, and no system has two tasks |
| Serializability.ConflictOrdersCalls | crates/core/src/scheduler/scheduler.rs:141-170 | in a state of a timely run: if i < j conflict, j is spawned only after the call of i has returned |
| Serializability.OverlappingCallsIndependent | crates/core/src/scheduler/scheduler.rs:141-170 | in a state of a timely run: two calls under way at the same time never belong to conflicting systems |
| Serializability.RunSimulates | crates/core/src/scheduler/scheduler.rs:138-172 | the store and local memories of a timely run are those of its trace of call steps |
| Serializability.RunIsSerializable | crates/core/src/scheduler/scheduler.rs:138-212 | conflict-serializability of every maximal timely run, self-conflicting systems or not: the store is that of the serial run of the systems started |
| Termination.MeasureFalls | crates/core/src/scheduler/scheduler.rs:138-209 | every timely step strictly lowers a measure over phases, remaining edges and the scan |
| Termination.RunsAreBounded | crates/core/src/scheduler/scheduler.rs:138-209 | a timely run has no more steps than the measure of its first state |
| Termination.NotStuck | crates/core/src/scheduler/scheduler.rs:138-209 | unless everything has finished, a timely step is possible |
| AllRunsEnd.StepPotential | crates/core/src/scheduler/scheduler.rs:138-209 | every step of the code as written lowers a potential: the steps left to the scan, to the tasks, and to those that can still be started |
| AllRunsEnd.EveryRunEnds | crates/core/src/scheduler/scheduler.rs:138-209 | the length of the runs of the code as written is bounded, whatever conflicts there are |
| Termination.SelfEdgeNeverSpawned | crates/core/src/scheduler/scheduler.rs:75-81 | in a state of a timely run, a system with a self-edge has a counter above zero and no task |
| Termination.BlockedNeverSpawned | crates/core/src/scheduler/scheduler.rs:164-170 | in a state of a timely run, no system that a path joins to an earlier self-edge has a task either |
| Termination.MaximalRunStartsUnblocked | crates/core/src/scheduler/scheduler.rs:138-209 | a maximal timely run calls exactly once each system that is not behind a self-conflicting one, and no other |
| Termination.MaximalRunCallsEachOnceIff | crates/core/src/scheduler/scheduler.rs:138-209 | a maximal timely run calls every system exactly once if and only if none conflicts with itself |
| SeedScan.StartedOnceIffTimely | crates/core/src/scheduler/scheduler.rs:199-209 | a run starts no system twice if and only if its seed scan picked up only systems without predecessors |
| SeedScan.AtomicScanIsTimely | crates/core/src/scheduler/scheduler.rs:199-209 | a scan that is over before any task moves is timely |
| StartedTwice.TwiceStep | crates/core/src/scheduler/scheduler.rs:141-209 | every step of the code as written, timely or not, keeps each counter on its way down to zero, which it leaves by wrapping or by the marker and does not reach again |
| StartedTwice.AtMostTwice | crates/core/src/scheduler/scheduler.rs:161-209 | no run of the code as written starts a system more than twice: at most once by the scan, after its counter has been read, and at most once by a predecessor, if it has one |
| StartedTwice.NeverThrice | crates/core/src/scheduler/scheduler.rs:161-209 | so for every schedule of up to 4294967295 systems |
| SeedScan.DoubleStart | crates/core/src/scheduler/scheduler.rs:199-209 | for every system that has a predecessor and is not behind a self-edge there is a run of the code as written that starts a system twice |
| SeedScan.NeverStartsTwiceIffBlocked | crates/core/src/scheduler/scheduler.rs:199-209 | for any graph, no run of the code as written starts a system twice if and only if every system with a predecessor is behind a self-edge |
| SeedScan.NeverStartsTwiceIffStuck | crates/core/src/scheduler/scheduler.rs:199-209 | the same read off the access lists: if and only if every system that conflicts with an earlier one is behind a self-conflicting one |
| SeedScan.NeverStartsTwiceIffNoConflicts | crates/core/src/scheduler/scheduler.rs:199-209 | if no system conflicts with itself: if and only if no two systems conflict |
| SeedScan.ExactlyOnceIff | crates/core/src/scheduler/scheduler.rs:138-209 | for the code as written, no run starts a system twice and every maximal run calls each once, if and only if no system conflicts with itself or with another |
| SeedScan.StartedOnceIsSerializable | crates/core/src/scheduler/scheduler.rs:138-212 | every maximal run of the code as written that starts no system twice leaves the store of the serial run of exactly the systems not behind a self-conflicting one |
| SeedScan.StartedOnceIsOrdered | crates/core/src/scheduler/scheduler.rs:141-170 | as long as no system has been started twice: if i < j conflict, j is spawned only after the call of i has returned |
| SeedScan.StartedOnceIsExclusive | crates/core/src/scheduler/scheduler.rs:141-170 | as long as no system has been started twice, no two calls under way belong to conflicting systems |
| Exclusion.DoubleCall | crates/core/src/scheduler/scheduler.rs:141-209 | for every system that has a predecessor and is not behind a self-edge there is a run of the code as written with two of its own calls under way at once |
| Exclusion.FlatStep | crates/core/src/scheduler/scheduler.rs:138-209 | if no dependent has dependents, every step of the code as written, timely or not, keeps each counter at the number of pending predecessors until its system is started |
| Exclusion.AlwaysExclusiveIff | crates/core/src/scheduler/scheduler.rs:138-209 | if no system conflicts with itself: in the code as written calls under way at once are always independent if and only if no system that conflicts with an earlier one declares a mutable access or the whole world |
| Scheduler.Scheduler.constructor | crates/core/src/scheduler/schedule.rs:186-199 | a new scheduler has the schedule graph and its in-degrees |
| Scheduler.Scheduler.BuildStaticInDegrees | crates/core/src/scheduler/scheduler.rs:75-85 | the in-degree of each system is its number of distinct predecessors |
| Scheduler.Scheduler.ResetInDegrees | crates/core/src/scheduler/scheduler.rs:87-95 | the live counters equal the static in-degrees |
| Scheduler.Execute | crates/core/src/scheduler/scheduler.rs:199-209 | steps taken in any timely order end in a state where nothing can move |
| Scheduler.Scheduler.Run | crates/core/src/scheduler/scheduler.rs:174-212 | every timely interleaving ends with the store of the serial run of the systems not behind a self-conflicting one, which are all exactly if none conflicts with itself |
| Signatures.UpdateBits | crates/core/src/archetype/signature.rs:30-77 | set, unset, union and remove are the set operations, for any lengths |
| Signatures.ContainsIff | crates/core/src/archetype/signature.rs:86-91 | what `contains` compares: the bits within the receiver's words |
| Signatures.ContainsExactIff | crates/core/src/archetype/signature.rs:86-91 | for receivers of n words it is the subset test exactly when the argument has no bit past them |
| Signatures.IsDisjointIff | crates/core/src/archetype/signature.rs:95-100 | disjointness of the sets, for any lengths |
| Signatures.IsEmptyIff | crates/core/src/archetype/signature.rs:53-55 | emptiness of the set |
| Signatures.CountOnesIsCardinality | crates/core/src/archetype/signature.rs:80-82 | cardinality of the set |
| Signatures.SetBitNormal | crates/core/src/archetype/signature.rs:58-65 | setting a bit never leaves a zero word at the end |
| Signatures.UnionNormal | crates/core/src/archetype/signature.rs:30-40 | a union never leaves a zero word at the end |
| Signatures.NormalUnique | crates/core/src/archetype/signature.rs:12-14 | equality of the words of such signatures is equality of the sets |
| Signatures.NormalWords | crates/core/src/archetype/signature.rs:12-14 | such a signature has exactly as many words as its set needs |
| Signatures.LengthsStay | crates/core/src/archetype/signature.rs:43-77 | `unset` and `remove` leave the number of words as it is |
| Signatures.StaysNormalIff | crates/core/src/archetype/signature.rs:43-77 | so they leave a zero word at the end exactly if no bit of the last 64-bit word stays |
| Signatures.Signature.Set | crates/core/src/archetype/signature.rs:58-65 | in place: adds one element |
| Signatures.Signature.Unset | crates/core/src/archetype/signature.rs:69-77 | in place: removes one element, leaving the length |
| Signatures.Signature.UnionWith | crates/core/src/archetype/signature.rs:30-40 | in place: word loop computes the union |
| Signatures.Signature.RemoveAll | crates/core/src/archetype/signature.rs:43-48 | in place: word loop computes the difference |
| Filters.ContainsIsSubset | crates/core/src/query/filter.rs:504-506 | the subset test, if the argument names nothing past the receiver's words |
| Filters.ContainsClip | crates/core/src/query/filter.rs:504-506 | for any argument: the subset test for the part of it within the receiver's words |
| Filters.FilterMeaning | crates/core/src/query/filter.rs:394-559 | any nested filter on words is its meaning on sets, with every `With` cut off after the archetype's words |
| Filters.GroupMeaning | crates/core/src/query/filter.rs:251-256 | a tuple applies exactly when each of its filters, so cut off, matches |
| Filters.ClippedIsInReach | crates/core/src/query/filter.rs:394-559 | cutting off after the 64-bit words of an archetype is not asking for what is out of its reach |
| Filters.FilterInReach | crates/core/src/query/filter.rs:394-559 | any nested filter on the signature of an archetype is its meaning on the set of its components, where a `With` asks only for what is in reach |
| Filters.CoveredIsWhole | crates/core/src/query/filter.rs:394-559 | if no `With` names a component out of reach, nothing is left unasked |
| EntityRegistry.Registry.AllocateIsFresh | crates/core/src/entity/registry.rs:24-44 | `allocate` never returns a handle it has returned before, and changes no live entry |
| EntityRegistry.DespawnedIsReused | crates/core/src/entity/registry.rs:26-36 | the index of an entity just despawned is the next to be issued, with the next generation, as long as that fits 32 bits |
| EntityRegistry.FreeIsReused | crates/core/src/entity/registry.rs:26-36 | as long as some index is free, a free one is issued, with the generation after its last |
| EntityRegistry.NewIndexIfNoneFree | crates/core/src/entity/registry.rs:37-44 | otherwise the first index never used is issued, with generation 0, until 32 bits are used up |
| EntityRegistry.IndicesBounded | crates/core/src/entity/registry.rs:24-45 | over every run from an empty registry, no more indices have ever been issued than handles were live or waiting to be spawned at some one time |
| EntityRegistry.Registry.SpawnAdds | crates/core/src/entity/registry.rs:65-81 | `spawn` adds one entry to the map from live handles to metadata |
| EntityRegistry.Registry.DespawnRemoves | crates/core/src/entity/registry.rs:89-130 | `despawn_meta` takes exactly the handle's entry away and retires the handle, through swap-removal and freelist |
| EntityRegistry.Registry.SetMetaUpdates | crates/core/src/entity/registry.rs:160-174 | `set_meta` rewrites one entry |
| EntityRegistry.SetRowUpdates | crates/core/src/entity/registry.rs:135-158 | `set_row_meta` rewrites one row |
| EntityRegistry.Registry.DenseIsBijection | crates/core/src/entity/registry.rs:9-15 | the dense list has exactly one entry for every handle that resolves, and sparse indices do not collide |
| EntityRegistry.RetiredForever | crates/core/src/entity/registry.rs:24-130 | over every run a despawned handle never resolves again |
| EntityRegistry.NeverReissued | crates/core/src/entity/registry.rs:24-44 | over every run two allocations never return the same handle |
| EntityRegistry.Entities.Allocate | crates/core/src/entity/registry.rs:24-44 | in place: the handle was never issued before, is pending now, and no live entry changes |
| EntityRegistry.Entities.GetMeta | crates/core/src/entity/registry.rs:47-62 | resolves exactly the live handles, never a stale, pending or foreign one |
| EntityRegistry.Entities.Spawn | crates/core/src/entity/registry.rs:65-81 | in place: the pending handle resolves to its metadata and every other handle resolves as before |
| EntityRegistry.Entities.DespawnMeta | crates/core/src/entity/registry.rs:89-130 | in place: exactly the entry of a live handle leaves and is returned; a stale handle changes nothing |
| EntityRegistry.Entities.SetRowMeta | crates/core/src/entity/registry.rs:135-158 | in place: the row at an occupied index is replaced and the old one returned; otherwise nothing changes |
| EntityRegistry.Entities.SetMeta | crates/core/src/entity/registry.rs:160-174 | in place: the metadata at an occupied index is replaced and the old one returned; otherwise nothing changes |
| EntityRegistry.Entities.IsAlive | crates/core/src/entity/registry.rs:181-187 | true exactly for live handles |
| Tables.SigOfMeaning | crates/core/src/component/component.rs:128-135 | the signature of a bundle is the set of its types, in normal form |
| Tables.InsertIntoItems | crates/core/src/component/component.rs:217-223 | each column grows by the bundle's value of its type, if there is one |
| Tables.InsertIntoValues | crates/core/src/component/component.rs:217-223 | pushing a bundle adds exactly its values |
| Tables.NewTableOk | crates/core/src/component/component.rs:147-169 | a new table is aligned, empty, and has one column per component |
| Tables.NewTableOrder | crates/core/src/component/component.rs:147-169 | its columns are in the order of the bundle |
| Tables.NewJoinedTableOk | crates/core/src/component/component.rs:171-210 | a joined table has the columns of both and starts with those of the old table |
| Tables.LookupSize | crates/core/src/component/component.rs:193-198 | the lookup has one key per column, so numbering new columns from its size is right |
| Tables.AppendRowOk | crates/core/src/table/table.rs:112-130 | appending a full row keeps all columns, `entities` and `entity_lookup` aligned |
| Tables.AppendRowRecords | crates/core/src/table/table.rs:112-130 | the list of rows grows by one record and keeps the others |
| Tables.RemoveRowOk | crates/core/src/table/table.rs:134-169 | removing an entity keeps the table aligned, stale lookup keys or not |
| Tables.StaleKeyIff | crates/core/src/table/table.rs:145-160 | removing an entity leaves its lookup key behind exactly if it was the last of several, pointing past the end |
| Tables.RemoveRowRecords | crates/core/src/table/table.rs:134-169 | the list of rows is swap-removed as one, although every column is swap-removed on its own |
| Tables.RemoveRowValues | crates/core/src/table/table.rs:134-169 | removing an entity takes exactly its row of values away |
| Tables.RowBundleIsRow | crates/core/src/archetype/registry.rs:258-263 | the components copied out of a row are the row |
| Tables.SameRowIff | crates/core/src/archetype/registry.rs:258-263 | two rows hold the same components exactly if the values copied out of them are the same multiset |
| Columns.Column.constructor | crates/core/src/table/column.rs:176-235 | a new column is empty and owns its buffer |
| Columns.Column.CloneEmpty | crates/core/src/table/column.rs:144-169 | same type, no items, separate buffer |
| Columns.Column.Reserve | crates/core/src/table/column.rs:275-321 | capacity grows by n and no item changes |
| Columns.Column.Push | crates/core/src/table/column.rs:329-374 | one item at the end; a full buffer doubles, from at least 4 slots; a zero-sized item is dropped by the call |
| Columns.Column.CopyComponent | crates/core/src/table/column.rs:83-140 | the item of a row goes to the end of another column and stays in this one |
| Columns.Column.SwapRemove | crates/core/src/table/column.rs:471-536 | the last item takes the place of the removed one, which is dropped if asked for |
| Columns.CapacityIsLeast | crates/core/src/table/column.rs:345-348 | after any number of pushes the capacity is the least of 4, 8, 16, ... that is enough |
| Columns.Filled | crates/core/src/table/column.rs:329-374 | a new column, pushed to one by one, has that capacity and these components |
| Columns.PushAndRemove | crates/core/src/table/column.rs:329-374 | a component pushed and then removed is dropped once, and twice exactly if it is zero-sized |
| ColumnStore.PushBundle | crates/core/src/component/component.rs:217-223 | the loop over buffers that share nothing pushes each component, does to them what `Tables.InsertInto` does to sequences, and drops exactly the zero-sized ones |
| ColumnStore.CopyRow | crates/core/src/archetype/registry.rs:256-263 | the loop over the buffers of one table appends its row to the buffers of another and leaves its own as they are |
| ColumnStore.SwapRemoveRow | crates/core/src/table/table.rs:163-165 | the loop over the buffers swap-removes the row from each and drops exactly that row |
| ColumnStore.RowRemovedIsRemoveRow | crates/core/src/table/table.rs:134-169 | what that loop leaves are the columns of `Tables.RemoveRow` |
| ColumnStore.NewColumns | crates/core/src/component/component.rs:147-192 | new buffers that share nothing: emptied copies of the old columns, then one for each type of the bundle |
| TableObject.Table.constructor | crates/core/src/component/component.rs:147-169 | in place: the column loop builds the empty table of the bundle |
| TableObject.Table.Joined | crates/core/src/component/component.rs:171-210 | in place: emptied copies of the old columns, then one column per new type, numbered after them |
| TableObject.Table.InsertInto | crates/core/src/component/component.rs:217-223 | in place: every component of the bundle ends up at the end of the column of its type |
| TableObject.Table.Insert | crates/core/src/table/table.rs:112-130 | in place: appends a row and returns its index |
| TableObject.Table.CopyRow | crates/core/src/archetype/registry.rs:258-263 | in place: copies a row of another table, which stays as it is |
| TableObject.Table.SwapRemoveColumns | crates/core/src/table/table.rs:163-165 | in place: every column is swap-removed, and what is dropped is the row |
| TableObject.Table.Remove | crates/core/src/table/table.rs:134-169 | in place: the entity's row leaves, the moved entity's metadata follows, and what is dropped is its row |
| TableObject.Table.GetEntity | crates/core/src/table/table.rs:196-201 | the entity of a row, if the row exists |
| TableObject.Table.GetColumnByType | crates/core/src/table/table.rs:205-211 | the column of a type, and none exactly if no column has it |
| Placement.DetachPlaced | crates/core/src/table/table.rs:134-169 | an entity leaves: rows and live metadata keep pointing at each other and no other entity changes |
| Placement.AttachPlaced | crates/core/src/archetype/registry.rs:194-207 | an entity arrives at the end of a table: rows and live metadata keep pointing at each other and no other entity changes |
| Placement.OnlyRightRowIsPlaced | crates/core/src/archetype/registry.rs:273-280 | recording any row but the right one breaks the invariant |
| Storage.AddTableOk | crates/core/src/archetype/registry.rs:82-91 | a new table keeps the indices in bijection and changes nothing stored |
| Storage.SpawnRefines | crates/core/src/archetype/registry.rs:178-208 | in any sound world, `spawn` adds one entry to the map and exactly the bundle's values; right recorded rows stay right |
| Storage.DespawnRefines | crates/core/src/world.rs:80-91 | in any sound world, `despawn` removes one entry and drops exactly that entity's values; right recorded rows stay right |
| Storage.InsertIsAMove | crates/core/src/archetype/registry.rs:225-284 | the steps of `insert` in source order are: leave, arrive with both bundles, rewrite the row |
| Storage.RecordedRowRightIff | crates/core/src/archetype/registry.rs:277 | the recorded row is the true one exactly when column 0 of the destination is carried over |
| Storage.InsertKeeps | crates/core/src/archetype/registry.rs:210-296 | in any sound world, `insert` leaves a sound one; the entity shows the row that was recorded for it and the bundle; the values of that row come in, those of the entity's own row go |
| Storage.InsertConservesIff | crates/core/src/archetype/registry.rs:256-267 | `insert` conserves the values exactly if the recorded row holds what the entity's own row holds |
| Storage.InsertRecordsRightRowIff | crates/core/src/archetype/registry.rs:273-280 | the row it records is the entity's own exactly if column 0 of the destination is carried over |
| Storage.InsertRefinesIff | crates/core/src/archetype/registry.rs:210-296 | where all recorded rows are right: they stay so exactly if column 0 is carried over; in either case this insertion adds the bundle to one entry and conserves the values |
| Storage.Column0CarriedIff | crates/core/src/archetype/registry.rs:228-247 | the condition seen before the call: the destination is new or starts with a column the entity has |
| Storage.OneTablePerArchetype | crates/core/src/archetype/registry.rs:55-61 | two tables with the same component set are the same table |
| Storage.LookupFindsArchetype | crates/core/src/archetype/registry.rs:187-199 | the lookup by signature finds the table of a component set whenever there is one |
| Storage.HomeIsArchetype | crates/core/src/archetype/registry.rs:26-31 | a live entity is in the table whose columns are exactly its components |
| Storage.RowIsEntry | crates/core/src/table/table.rs:31-35 | every row belongs to exactly one live entity, and holds what the world shows for it |
| WorldRuns.StepAccounts | crates/core/src/world.rs:58-91 | each operation keeps the world sound, whatever rows are recorded, and accounts for every value |
| WorldRuns.StepRefinesIff | crates/core/src/archetype/registry.rs:178-296 | a step does to the map what it should exactly if, being an insertion, it copies the entity's own row |
| WorldRuns.RunAccounts | crates/core/src/archetype/registry.rs:178-296 | over every run: stored, dropped and removed values are those stored before, supplied and copied |
| WorldRuns.EverythingAccounted | crates/core/src/archetype/registry.rs:178-296 | the same from an empty world |
| WorldRuns.RunConservesIff | crates/core/src/archetype/registry.rs:256-284 | a run has conserved the values at its end exactly if its insertions copied, taken together, what they removed |
| WorldRuns.ConservedIff | crates/core/src/archetype/registry.rs:256-284 | values are conserved at every point of a run exactly if each insertion copies the entity's own row |
| WorldRuns.RefinedIff | crates/core/src/archetype/registry.rs:178-296 | the world shows at every point what the same run on a map shows exactly if each insertion copies the entity's own row |
| WorldRuns.CarriedRunRefines | crates/core/src/archetype/registry.rs:210-296 | if each insertion finds column 0 carried over, recorded rows stay right, the map is refined and values are conserved throughout |
| WorldRuns.RunGrows | crates/core/src/archetype/registry.rs:26-29 | in every run tables are only ever added |
| RecordedRows.RecordedRowsAreNear | crates/core/src/archetype/registry.rs:277 | in every run from an empty world each recorded row is the entity's own or the one before it, modulo 2^64 |
| RecordedRows.RowToCopy | crates/core/src/archetype/registry.rs:258-263 | so `insert` finds a row to copy exactly if the recorded row has not wrapped, and it is the own row or the one before |
| RecordedRows.ExistingDestination | crates/core/src/archetype/registry.rs:231-233 | an existing table with the combined columns is the destination, and its first column decides |
| RecordedRows.BundleOrderDecides | crates/core/src/archetype/registry.rs:277 | a concrete family of worlds in which recorded rows stay right or not by the order of an earlier tuple alone |
| RecordedRows.CopiesFirst | crates/core/src/archetype/registry.rs:256-267 | what a second insertion into such an entity does: it shows its neighbour's components, and values are conserved exactly if the two held the same |
| RecordedRows.LosingRun | crates/core/src/archetype/registry.rs:256-284 | two spawns and two insertions, step by step: this run conserves the values exactly if the two entities happen to hold the same |
| RecordedRows.InsertWrapsIff | crates/core/src/archetype/registry.rs:277 | `insert` records a wrapped row exactly if the destination is empty and its column 0 is not carried over |
| RecordedRows.WrappingRun | crates/core/src/archetype/registry.rs:258-277 | spawn, despawn, spawn, insert, step by step: this run leaves a wrapped row, and nothing can be inserted into that entity any more |
| WorldObjects.BundleSignature | crates/core/src/component/component.rs:128-135 | setting the ids one by one gives the bundle's signature |
| WorldObjects.Archetypes.InsertTable | crates/core/src/archetype/registry.rs:82-91 | in place: table, lookup, lookup array and generation in step |
| WorldObjects.Archetypes.FindOrCreate | crates/core/src/archetype/registry.rs:187-198 | in place: the bundle's table is found or made |
| WorldObjects.Archetypes.FindOrJoin | crates/core/src/archetype/registry.rs:225-247 | in place: the combined table is found or made |
| WorldObjects.Archetypes.Spawn | crates/core/src/archetype/registry.rs:178-208 | in place: the entity's row and its metadata |
| WorldObjects.Archetypes.Insert | crates/core/src/archetype/registry.rs:210-296 | in place: a dead entity changes nothing; otherwise tables and registry become those of `Storage.Insert`; nothing is dropped out of the tables |
| WorldObjects.Migrate | crates/core/src/archetype/registry.rs:251-284 | in place: copy, remove, record the row, push the new components, in that order; nothing is dropped |
| WorldObjects.Archetypes.Despawn | crates/core/src/archetype/registry.rs:386-394 | in place: the row leaves and its components are dropped |
| WorldObjects.RegistryFollows | crates/core/src/table/table.rs:150-159 | `set_row_meta` and `set_meta` move the live metadata exactly as the rows move |
| Worlds.World.constructor | crates/core/src/world.rs:32-44 | a new world is in order and shows nothing |
| Worlds.World.Spawn | crates/core/src/world.rs:58-67 | a handle never handed out before; the world shows exactly one entity more |
| Worlds.World.Insert | crates/core/src/entity/entity.rs:34-48 | the entity shows its recorded row and the bundle, no other entity changes, and nothing is dropped; where recorded rows were right they stay so exactly if column 0 is carried over |
| Worlds.World.Despawn | crates/core/src/world.rs:80-91 | one entity less, exactly its components dropped; a dead handle changes nothing |
| Worlds.World.GetEntity | crates/core/src/world.rs:98-107 | finds exactly the live entities |
| Sessions.CanInsert | crates/core/src/archetype/registry.rs:210-263 | what the source asserts of an insertion, decided before the call: exactly whether the step is possible |
| Sessions.Perform | crates/core/src/world.rs:58-91 | one call on the world is one step of a run, and what it drops is what the ledger of that step says |
| Sessions.Session | crates/core/src/world.rs:58-91 | any calls on the world, up to the first that is not possible, are a run, and drop what its ledger says |
| Sessions.DropsAreAccounted | crates/core/src/world.rs:58-91 | stored in the end, dropped by the calls and taken out undropped is stored before, supplied and copied; where each insertion copied the own row, every value is either dropped once or still stored |
| Sessions.BalanceBounds | crates/core/src/world.rs:58-91 | no value is dropped more often than it was stored, supplied or copied |
| QueryCache.Query.FindsIffWithin | crates/core/src/archetype/registry.rs:137-146 | an accepted archetype has a column for every component of the query exactly if the query names nothing out of its reach |
| QueryCache.Query.GetsIff | crates/core/src/archetype/registry.rs:137-146 | an archetype is accepted and has all columns exactly if the query gets its component set |
| QueryCache.Query.GetsWhatItWants | crates/core/src/archetype/registry.rs:137-142 | if the filter names nothing out of reach of a component set, the query gets that set exactly if it asks for it |
| QueryCache.GetBasePtrs | crates/core/src/query/group.rs:306-313 | the columns of the components in their order, and a panic exactly if one has none |
| QueryCache.FullScanIs | crates/core/src/archetype/registry.rs:131-158 | a scan lists exactly the accepted tables, in order, none twice |
| QueryCache.SuccessfulScanIs | crates/core/src/archetype/registry.rs:131-158 | a scan that does not panic lists exactly the tables the query gets |
| QueryCache.SucceedsIff | crates/core/src/archetype/registry.rs:137-146 | a scan gets to the end exactly if the query names no component out of reach of an archetype it accepts |
| QueryCache.SurvivesIff | crates/core/src/archetype/registry.rs:137-146 | for one accepted archetype: exactly if every component of the query is below 64 * (c / 64 + 1), where c is its largest component |
| QueryCache.PanickingScan | crates/core/src/archetype/registry.rs:137-146 | an archetype of one component below 64 and a query for one from 64 on: accepted, and the scan panics |
| QueryCache.PlainNeverPanicsIff | crates/core/src/archetype/registry.rs:137-146 | without a filter, no list of archetypes makes a scan panic exactly if all components of the query are below 64 |
| QueryCache.ScanResumes | crates/core/src/archetype/registry.rs:131-158 | scanning some tables and later the rest is scanning all |
| QueryCache.UpdateCatchesUp | crates/core/src/query/query.rs:223-248 | one update panics exactly if a full scan would, and otherwise makes the cache that full scan again; skipping on an equal generation is sound |
| QueryCache.UpdateSucceedsIff | crates/core/src/query/query.rs:223-248 | read off the archetypes added since: an update succeeds exactly if the query names nothing out of reach of those it accepts |
| QueryCache.CacheTracks | crates/core/src/query/query.rs:193-248 | after any interleaving of additions and updates the cache is the full scan of what it has seen, unless an update has panicked, which takes archetypes a full scan panics at too |
| QueryCache.ScanTables | crates/core/src/archetype/registry.rs:119-160 | the loop lists the accepted tables from where it starts, and panics exactly if one of them lacks a column |
| QueryCache.QueryState.New | crates/core/src/query/query.rs:193-216 | a new state caches a full scan, or a panic exactly if that scan panics |
| QueryCache.QueryState.CacheTables | crates/core/src/archetype/registry.rs:119-160 | in place: what the scan lists is appended, unless it panics |
| QueryCache.QueryState.BeforeUpdate | crates/core/src/query/query.rs:223-248 | in place: the cache is current again, or a panic exactly if a full scan would panic |
| Iteration.SumIsLength | crates/core/src/query/iter.rs:80-89 | the length reported is the number of rows to come, whatever the tables are |
| Iteration.NextTakesFirst | crates/core/src/query/iter.rs:112-129 | with no empty table ahead, `next` returns the first row to come and leaves the others; the length drops by one per item |
| Iteration.NextTakesFirstIff | crates/core/src/query/iter.rs:112-129 | whatever lies further ahead, one call does so exactly unless it jumps to an empty table |
| Iteration.EmptyTableWraps | crates/core/src/query/iter.rs:112-129 | a call that jumps to an empty table gives a row that is not there, and the length reported rises by 2^64 - 1 |
| Iteration.LaterTablesAreLost | crates/core/src/query/iter.rs:112-176 | after it, up to 2^64 - 1 calls of either kind give rows of the empty table, none of them there |
| Iteration.PhantomRows | crates/core/src/query/iter.rs:112-129 | going forwards they are offsets 1, 2, 3, ... of that table |
| Iteration.NextBackTakesLast | crates/core/src/query/iter.rs:155-176 | `next_back` takes the last row of the current table and nothing else |
| Iteration.IterationComplete | crates/core/src/query/iter.rs:43-176 | if no table after the first is empty, any interleaving gives only real rows, none twice, and all of them once `next` returns none |
| Iteration.OnlyRealRowsIff | crates/core/src/query/iter.rs:93-129 | only real rows are given, however it is called, exactly when no table after the first is empty |
| Iteration.BackwardIsAllIff | crates/core/src/query/iter.rs:155-176 | looping `next_back` from the start gives the first table in reverse, which is all rows, and the reverse of the forward iteration, exactly if no later table has a row |
| Iteration.QueryIter.constructor | crates/core/src/query/iter.rs:43-77 | starts at the first table, or empty |
| Iteration.QueryIter.Len | crates/core/src/query/iter.rs:80-89 | the loop over the tables ahead counts exactly the rows to come |
| Iteration.QueryIter.Jump | crates/core/src/query/iter.rs:93-104 | in place: the whole next table becomes current, or nothing is left |
| Iteration.QueryIter.Next | crates/core/src/query/iter.rs:112-129 | in place: with no empty table ahead, the rows to come lose exactly their first, which is returned |
| Iteration.QueryIter.NextBack | crates/core/src/query/iter.rs:155-176 | in place: the last row of the current table, and none once that table is used up |
| Iteration.QueryIter.DrainBack | crates/core/src/query/iter.rs:155-176 | looping it gives the rest of the current table in reverse, and all rows of the tables ahead are still to come |
| Iteration.QueryIter.Drain | crates/core/src/query/iter.rs:112-129 | with no empty table ahead, looping until none gives every row to come, in order |
| Splitting.SplitIsBalanced | crates/core/src/query/par_iter.rs:42-68 | only a single row stays whole; halves differ by at most one |
| Splitting.CutsAtIndex | crates/core/src/query/par_iter.rs:155-178 | `split_at` gives the first `index` rows to the left part and the others to the right one |
| Splitting.SplittingKeepsOrder | crates/core/src/query/par_iter.rs:42-178 | for every finite tree of splits the outputs from left to right are the unsplit iteration |
| Splitting.LeavesAreDisjoint | crates/core/src/query/par_iter.rs:42-178 | the leaves cover pairwise disjoint row ranges within the table |
| Splitting.ParallelIsSequential | crates/core/src/query/par_iter.rs:237-267 | over a whole query the parallel iterator gives the rows of all tables in order |
| Splitting.SequentialTableIter.constructor | crates/core/src/query/par_iter.rs:89-103 | starts with the producer's rows |
| Splitting.SequentialTableIter.Next | crates/core/src/query/par_iter.rs:109-124 | in place: gives the first row left, and none exactly when none is left |
| Splitting.Consumed | crates/core/src/query/par_iter.rs:70-76 | consuming a range gives its rows in order |
| Queries.RowIsMatch | crates/core/src/query/query.rs:94-96 | after a scan that does not panic, every row of a cached table shows a live entity that the query gets, with exactly its components |
| Queries.MatchIsRow | crates/core/src/query/query.rs:94-96 | after a scan that does not panic, every live entity the query gets is in a row of a cached table |
| Queries.RowGivesOwnValues | crates/core/src/query/group.rs:306-325 | the columns found for a query hold in every row the entity's own values of the components it names |
| Queries.AllRowsAnswer | crates/core/src/query/query.rs:94-96 | if the scan does not panic, reading all rows of the cached tables lists every entity the query gets once and nothing else |
| Queries.ParallelAnswer | crates/core/src/query/query.rs:106-108 | if the scan does not panic, the parallel iterator lists every entity the query gets once and nothing else, however the tables are split |
| Queries.AnsweringIsWanted | crates/core/src/archetype/registry.rs:137-142 | if the filter names nothing out of reach of an archetype, those are exactly the live entities the query asks for |
| Queries.SeenStaysSeen | crates/core/src/archetype/registry.rs:82-91 | over every run, what a query has scanned stays a prefix of what there is to scan |
| Queries.LenUpperBound | crates/core/src/query/query.rs:63-69 | the loop counts the rows of the cached tables; for the cache a scan of the world leaves that is the number of live entities the query gets |
| Queries.Answer | crates/core/src/query/query.rs:47-96 | update and iterate: a panic exactly if an accepted table lacks a column; otherwise exactly the live entities the query gets, if no cached table after the first is empty |

## Left out

- Serializability.RunIsSerializable: is stated for runs whose seed scan is timely, which are exactly those that start no system twice; what a run that does start one twice leaves in the store is not described.
- Scheduler.Scheduler.Run: limits the lengths of calls by a given bound and leaves out what systems keep in their own state from one run to the next.
- Scheduler.Execute: takes its steps in an arbitrary order; weak memory orderings, rayon's queues and work stealing, the miri variants and timing are not modelled.
- TableObject.Table.Remove: a table object holds the contents of its columns as sequences; that the loops over separate growable buffers do the same to them is proved apart, in `ColumnStore`.
- WorldObjects.Archetypes.Insert: leaves out aliasing of a table with itself, which the source's debug assertion on the number of columns excludes with overlapping bundles.
- QueryCache.QueryState.CacheTables: a panic ends the run; what it leaves behind in the cache is not described.
- Exclusion.AlwaysExclusiveIff: excludes self-conflicting systems; what an untimely run does to the systems behind them is not described.
- Worlds.World.Despawn: tables of the world do not represent sizes, so the drop of a zero-sized component on its push is proved for columns only.
- QueryCache.GetBasePtrs: a column that never held a component has no buffer, and asking for its base panics as well; every table a scan can see got a row when it was made.
- Sessions.Session: a bundle that `insert` is given for a dead entity is not supplied to the world, and a call that panics ends the run.
- Queries.Answer: takes filters that are decided by the archetype; dynamic filters are not implemented in the iterators.
- Columns.Column.Reserve: allocation failure, layouts, alignment and address overflow are not modelled; the capacity of a zero-sized type is not represented.
- `Archetypes::remove` and `Table::new_subset`: the subset keeps the columns it should drop, and the new metadata is written before the old row is removed, so no refinement is claimed.
- Change ticks and the `Added` and `Changed` filters: `swap_remove` does not move tracker entries, and the iterators do not apply dynamic filters.
- `Xor`: it evaluates the conjunction of its group and not the documented odd count.
- A tuple of filters as the filter of a query: the documentation presents it so, but a tuple implements only the group trait and not the filter trait.
- `SparseSet`: unused; the entity registry is the sparse set that matters.
- `Entities::alive_count`: returns the length of the sparse list and not the number of live entities.
- `Query::get`, `QueryGroup`, `Has`, `spawn_batch` and command buffers: stubs or commented out.
- `TypeRegistry` and the bit packing of `Entity`: used as given, dense distinct ids and injective handles.
- Overflow of generations, of entity ids and of the archetype generation: excluded by a precondition or not modelled.
- Resources, mailboxes, plugins, WIT files, derive and reflection, tracing, borrow enforcement and HTML rendering.
