# Verified model of the JVM profiler agent

This project models, in Dafny, the algorithms and protocols of jauto-profiler: a
JVMTI agent written in C, its Java instrumentation runtime and its Python client.
`dafny verify dfyconfig.toml` checks everything.

- **Instrumentation pass** (`MethodBody`, `Instrumenter`, `Transformer`, `Simulation`,
  `TransformedRuns`). A method body is a list of instructions and labels with an
  ordered exception table (section 2.10 of the Java Virtual Machine Specification)
  and a small-step semantics over an arbitrary machine: what plain instructions do
  is a parameter.
  `Transformer` holds the visitors and the match counting of the pass; `Simulation`
  proves that the instrumented body does what the original does, and `TransformedRuns`
  that the probes of the class answered are those requested.
- **Counters** (`Profiler`). Per-thread timing with any interleaving of threads.
- **Hash table** (`ProbeTable`, `SlotList`, `TableLoad`, `HashTab`). Linear probing
  without tombstones, deletion by re-inserting the rest of the cluster, a linked
  list through the slots, growth by doubling; for any hash function.
- **Instrument life cycle** (`Environment`, `HandlerState`, `HandlerLemmas`, `RetireLemmas`,
  `RollbackLemmas`, `HandlerOutcomes`, `DrainLemmas`, `ReloadLemmas`, `HandlerObjects`,
  `InstrumentHandler`, `HandlerTheorems`). `InstrumentHandler` follows the handler
  step by step over its objects; every allocation and every call into the JVM goes
  to `Environment`, which may refuse it and keeps the answers. `HandlerState` says
  what it means for registry, queue, class records, profiler slots and installed
  bytecode to agree. `Base` needs no hypothesis; `Full` needs that no two live line
  instruments share a class and a line, because line records are dropped by line
  number alone. The ghost flag `distinct` of the handler records whether every line
  request so far kept to that. `Retired` is the one relation all removals and
  rollbacks come to.
- **Class files** (`Bytes`, `ClassFile`, `ClassFileFormat`). The method extractor and
  the round trip with an encoder of the class-file format.
- **Wire** (`Framing`, `Wire`, `InstrumentListing`, `StatsListing`, `ErrorLog`,
  `Requests`). Framing for any chunking, the two-pass encoders against the client's
  parsers, the client's packing against the agent's decoders.
- **Collector** (`SnapshotRing`, `Collector`, `Rates`). The tick loop for any clock
  readings, the ring read-out, rates against totals.
- **Event queue and shutdown** (`EvQueue`, `Shutdown`).

Where a property the code seems made for does not hold on all inputs, the exact
condition is proved: `BelowIff` (load factor), `SkipsAttributeIff` (32-bit advance
over an attribute), `ExtractsTrulyIff` and `NamesRoundTripIff` (zero bytes and
sixteen-bit lengths), `StatsRoundTripIff` and `GetStats` (long profiler names go out
with a cut length; sizes are added in 32 bits), `AddThenDropLines`,
`CrossClassDropIsRightIff`, `OneClassDropIsRightIff` and `FreedSlotIsOwnIff` (records
dropped by line number; `SharedLineExample` is a concrete case), `ProbesGoneIff` (the
probe of an instrument taken away; `LineProbeStaysExample`), `TimesGiveTotalNanosIff`
(time counted in an interval without a call), `LoopLeavesIff` and `UnloadPassesIff`
(unloading waits for ever without a message that ends the loop; `UnloadMayWait`).

## Model

| member | source | states |
|---|---|---|
| `Transformer.MethodTable` | java-src/main/java/app/autoprofiler/transform/BytecodeTransformer.java:46-59 | exactly the requested signatures are keys |
| `Transformer.LastRequestWins` | java-src/main/java/app/autoprofiler/transform/BytecodeTransformer.java:48-50 | the last request for a signature is the one whose slot is used, as in a hash map filled in order |
| `Transformer.LineTable` | java-src/main/java/app/autoprofiler/transform/BytecodeTransformer.java:46-59 | exactly the requested lines are keys |
| `Transformer.LineTableInOrder` | java-src/main/java/app/autoprofiler/transform/BytecodeTransformer.java:51-55 | requests at one line are kept in the order they were made, each with its own kind and slot, and none is added or lost |
| `Transformer.Matches.CountMethod` | java-src/main/java/app/autoprofiler/transform/BytecodeTransformer.java:133-136 | counts one more matched method and marks no line request |
| `Transformer.Matches.Mark` | java-src/main/java/app/autoprofiler/transform/BytecodeTransformer.java:289-294 | a line request is counted the first time it is met and never again: the count is methods plus marked requests |
| `Transformer.Adapter.EmitPush` | java-src/main/java/app/autoprofiler/transform/BytecodeTransformer.java:145-155 | pushing a slot number goes through the adapter's own instruction hook and is never taken for a return |
| `Transformer.Adapter.EmitCall` | java-src/main/java/app/autoprofiler/transform/BytecodeTransformer.java:187-199 | a probe call is the push of the slot number and the static call, in that order |
| `Transformer.Adapter.VisitInsn` | java-src/main/java/app/autoprofiler/transform/BytecodeTransformer.java:230-236 | only the six return opcodes get the exit call in front |
| `Transformer.Adapter.VisitLineNumber` | java-src/main/java/app/autoprofiler/transform/BytecodeTransformer.java:168-185 | the marker comes first, then one call per request on the line in order, each request marked |
| `Transformer.Adapter.VisitCode` | java-src/main/java/app/autoprofiler/transform/BytecodeTransformer.java:217-222 | the label of the protected range and then the enter call precede the first instruction |
| `Transformer.Adapter.VisitMaxs` | java-src/main/java/app/autoprofiler/transform/BytecodeTransformer.java:244-252 | the catch-all is appended as the last row of the exception table and its handler, which starts where the range ends, calls exit and rethrows |
| `Transformer.Accept` | java-src/main/java/app/autoprofiler/transform/BytecodeTransformer.java:158-267 | feeding a body to the visitors emits exactly the instrumented body and marks exactly the requests whose line occurs in it |
| `Transformer.CountLineInstruments` | java-src/main/java/app/autoprofiler/transform/BytecodeTransformer.java:62-66 | the expected number is the number of requests over all lines |
| `Transformer.VisitClass` | java-src/main/java/app/autoprofiler/transform/BytecodeTransformer.java:113-136 | every method is instrumented with its plan; the matches counted are the requested signatures and line requests that occur in the class; what the plan does at run time is `TransformedRuns.RunsAsRequested` |
| `Transformer.MatchedExactly` | java-src/main/java/app/autoprofiler/transform/BytecodeTransformer.java:66-70 | the count reaches the expected number if and only if every requested method and line exists in the class |
| `Transformer.Transform` | java-src/main/java/app/autoprofiler/transform/BytecodeTransformer.java:30-72 | an unknown line type is an error, otherwise the class is given up if and only if some requested method or line is missing, otherwise the class answered runs as requested (`TransformedRuns.RunsAsRequested`) |
| `MethodBody.KnownOpcodes` | java-src/main/java/app/autoprofiler/transform/BytecodeTransformer.java:145-155 | the opcodes the pass writes push the constants, the six returns return and ATHROW throws, as section 6.5 of the Java Virtual Machine Specification says |
| `MethodBody.FirstHandler` | java-src/main/java/app/autoprofiler/transform/BytecodeTransformer.java:244-252 | of the rows of an exception table the first that covers the place and matches is the one that catches |
| `Simulation.LabelMoves` | java-src/main/java/app/autoprofiler/transform/BytecodeTransformer.java:202-267 | every original label marks the place of its original instruction in the instrumented code |
| `Simulation.FinallyRange` | java-src/main/java/app/autoprofiler/transform/BytecodeTransformer.java:217-252 | the protected range starts at the very first instruction and ends right behind the original code |
| `Simulation.DispatchMoves` | java-src/main/java/app/autoprofiler/transform/BytecodeTransformer.java:244-252 | original handlers keep their order and the catch-all is consulted only when none of them applies |
| `Simulation.EpilogueUnprotected` | java-src/main/java/app/autoprofiler/transform/BytecodeTransformer.java:238-252 | no row of the table covers the rethrow, so it leaves the method |
| `Simulation.PushIntPushes` | java-src/main/java/app/autoprofiler/transform/BytecodeTransformer.java:145-155 | whatever instruction is chosen for a slot number, running it pushes that number, and it is not a return |
| `Simulation.PrologueRuns` | java-src/main/java/app/autoprofiler/transform/BytecodeTransformer.java:217-222 | before the first original instruction the enter call has run exactly once |
| `Simulation.EpilogueRuns` | java-src/main/java/app/autoprofiler/transform/BytecodeTransformer.java:244-252 | an exception that reaches the catch-all leaves the method as the same exception after one exit call |
| `Simulation.ReturnMatches` | java-src/main/java/app/autoprofiler/transform/BytecodeTransformer.java:230-236 | exit runs before the return and leaves the returned operand alone |
| `Simulation.LineMatches` | java-src/main/java/app/autoprofiler/transform/BytecodeTransformer.java:168-185 | a line marker and its calls do to stack, locals and memory what the marker alone does |
| `Simulation.RaiseMatches` | java-src/main/java/app/autoprofiler/transform/BytecodeTransformer.java:238-252 | an exception raised at corresponding places is caught at corresponding places or escapes from both |
| `Simulation.StepMatches` | java-src/main/java/app/autoprofiler/transform/BytecodeTransformer.java:158-267 | each step of the original body is matched by one or more steps of the instrumented one |
| `Simulation.RunMatches` | java-src/main/java/app/autoprofiler/transform/BytecodeTransformer.java:168-252 | forward simulation over runs of any length, for every body, exception table and machine |
| `Simulation.CompletedRunsMatch` | java-src/main/java/app/autoprofiler/transform/BytecodeTransformer.java:168-252 | a completed instrumented run has the returned value or the escaping exception of a completed original run, the same memory, and its trace with probe calls added |
| `Simulation.CompletionAgrees` | java-src/main/java/app/autoprofiler/transform/BytecodeTransformer.java:168-252 | the original completes if and only if the instrumented body does |
| `Simulation.EnterOnceExitOnce` | java-src/main/java/app/autoprofiler/transform/BytecodeTransformer.java:217-266 | on every completed run enter is called exactly once, first, and exit exactly once, last, however the run completes |
| `TransformedRuns.RequestedInOrder` | java-src/main/java/app/autoprofiler/transform/BytecodeTransformer.java:168-185 | the calls at a line are the requests for it, in their order, each once and of its own kind and slot |
| `TransformedRuns.RunsAsRequested` | java-src/main/java/app/autoprofiler/transform/BytecodeTransformer.java:113-136 | a completed run of a method in the class answered returns or throws as the original run and leaves the same memory; it calls enter first and exit last, once each and for the slot of the last request for its signature, and neither if there was no request; in between are the original line markers, each followed by exactly the calls requested at that line |
| `TransformedRuns.CompletesAsOriginal` | java-src/main/java/app/autoprofiler/transform/BytecodeTransformer.java:30-72 | a method of the class answered completes if and only if the original does |
| `Profiler.Profiler.EnterMethod` | java-src/main/java/app/autoprofiler/profiler/Profiler.java:43-49 | only the outermost entry of a thread takes the time; other threads are untouched |
| `Profiler.Profiler.ExitMethod` | java-src/main/java/app/autoprofiler/profiler/Profiler.java:51-59 | only leaving the outermost activation counts a call and adds its time |
| `Profiler.Profiler.ExitLineProbe` | java-src/main/java/app/autoprofiler/profiler/Profiler.java:67-74 | an exit counts if an enter has been seen since the last exit of the thread, timed from the latest enter |
| `Profiler.Replay` | java-src/main/java/app/autoprofiler/profiler/Profiler.java:43-74 | the counters after any history of any threads are the tallies of the threads' own events, added up |
| `Profiler.WellBracketedTotals` | java-src/main/java/app/autoprofiler/profiler/Profiler.java:43-59 | for any interleaving of threads whose enters and exits nest, the call count is the number of completed outermost activations and the total time the sum of their durations, however deep the recursion |
| `Profiler.LogExists` | java-src/main/java/app/autoprofiler/profiler/Profiler.java:43-59 | every sequence of enters and exits of one thread in which exits never outnumber enters, cut off anywhere, is the events of nested activations |
| `Profiler.BracketedIff` | java-src/main/java/app/autoprofiler/profiler/Profiler.java:43-59 | those are exactly the event sequences of nested activations |
| `Profiler.BracketedTotals` | java-src/main/java/app/autoprofiler/profiler/Profiler.java:43-59 | so the totals hold for all threads that never have more exits than enters |
| `Profiler.LineTotals` | java-src/main/java/app/autoprofiler/profiler/Profiler.java:61-74 | for line probes in any order the counters hold exactly the exits that follow an enter on their own thread, timed from the latest enter |
| `ProbeTable.CannotPassAll` | c-src/main/util/hash-tab.c:57-76 | a probe walk cannot pass an empty slot, so the insert assertion never fires |
| `ProbeTable.ProbeDecides` | c-src/main/util/hash-tab.c:171-192 | where a probe stops decides whether the map has the key |
| `ProbeTable.StoreKeeps` | c-src/main/util/hash-tab.c:57-106 | storing where the probe stopped keeps every other key reachable from its home slot |
| `ProbeTable.RepairStarts` | c-src/main/util/hash-tab.c:225-233 | after a slot is emptied exactly the rest of its cluster is in need of repair |
| `ProbeTable.RepairLands` | c-src/main/util/hash-tab.c:233-242 | a re-inserted entry lands at or before its old slot, counted around the table from the end of the cluster |
| `ProbeTable.RepairStep` | c-src/main/util/hash-tab.c:233-242 | one turn of the loop leaves one entry fewer in need of repair |
| `ProbeTable.RepairBounds` | c-src/main/util/hash-tab.c:233-237 | while entries are pending the next slot is occupied and the slot that ended the cluster is still empty, so the loop stops there and not before |
| `ProbeTable.RepairDone` | c-src/main/util/hash-tab.c:233-245 | afterwards every stored key is reachable from its home slot through occupied slots, wrap-around included |
| `ProbeTable.RemoveRepresents` | c-src/main/util/hash-tab.c:216-245 | emptying the slot of a key removes exactly that key from the map |
| `SlotList.EmptySlotExists` | c-src/main/util/hash-tab.c:57-76 | a list shorter than the table leaves some slot empty |
| `SlotList.PushFrontLinks` | c-src/main/util/hash-tab.c:78-92 | linking at the head keeps previous and next mutually inverse and the list on exactly the occupied slots |
| `SlotList.UnlinkLinks` | c-src/main/util/hash-tab.c:108-132 | so does unlinking any entry, and the order of the others stays |
| `TableLoad.AddLeavesRoom` | c-src/main/util/hash-tab.c:134-169 | for any threshold below one an add leaves an empty slot, whether it grew the table or not |
| `TableLoad.BelowIff` | c-src/main/util/hash-tab.c:134-169 | the load is below the threshold after every operation of every run if and only if twice the threshold times the initial capacity exceeds one |
| `HashTab.HashTab.FindSlot` | c-src/main/util/hash-tab.c:57-76 | the probe loop stops at the key or at the first empty slot of its chain |
| `HashTab.HashTab.Insert` | c-src/main/util/hash-tab.c:57-106 | a new key becomes the head of the list; a present key has its value replaced and the old one returned |
| `HashTab.HashTab.Unlink` | c-src/main/util/hash-tab.c:108-132 | takes one occupied slot out of the table and out of the list, wherever in the list it is |
| `HashTab.HashTab.Get` | c-src/main/util/hash-tab.c:171-214 | lookup answers as the map does |
| `HashTab.HashTab.Remove` | c-src/main/util/hash-tab.c:216-245 | returns the value the map had and removes exactly that key; the sizes change as in `TableLoad.BelowIff` |
| `HashTab.HashTab.RepairCluster` | c-src/main/util/hash-tab.c:230-242 | re-inserting the rest of the cluster loses no entry and restores reachability |
| `HashTab.HashTab.Rehash` | c-src/main/util/hash-tab.c:143-169 | doubling the table changes nothing observable; without memory nothing changes at all |
| `HashTab.HashTab.Add` | c-src/main/util/hash-tab.c:247-275 | fails exactly when memory is missing and then changes nothing; otherwise the map is updated and the replaced value returned |
| `HashTab.HashTab.Entries` | c-src/main/util/hash-tab.c:277-296 | a fresh iterator yields every entry of the map exactly once |
| `HashTab.ListedExactly` | c-src/main/util/hash-tab.c:277-296 | following the links visits every key of the map once and no other |
| `HashTab.RunCommands` | c-src/main/util/hash-tab.c:57-275 | any sequence of operations, for any hash function, threshold and capacity, answers as a finite map does |
| `HandlerObjects.MasterInstruments.Insert` | c-src/main/master-instruments.c:92-105 | numbers start at one and go up; a failed insertion uses none up and answers zero |
| `HandlerObjects.MasterInstruments.MarkLineApplied` | c-src/main/master-instruments.c:242-260 | clears one flag of a line entry and ignores anything else |
| `HandlerObjects.MasterInstruments.FindMethod` | c-src/main/master-instruments.c:272-295 | finds a method entry of that class and signature if and only if there is one |
| `HandlerObjects.InstrumentQueue.Append` | c-src/main/queued-instrument.c:93-129 | an item is appended or not; its strings may be missing |
| `HandlerObjects.InstrumentQueue.FindByClass` | c-src/main/queued-instrument.c:166-177 | the first item waiting for a class, or none waits |
| `HandlerObjects.InstrumentQueue.FindById` | c-src/main/queued-instrument.c:179-190 | the first item of an instrument, or it has none |
| `HandlerObjects.ProfilerSlots.Create` | java-src/main/java/app/autoprofiler/ProfilerRegistry.java:68-79 | the first inactive slot is used again, else a new one is made; no active slot changes |
| `HandlerObjects.ProfilerSlots.Remove` | java-src/main/java/app/autoprofiler/ProfilerRegistry.java:81-83 | exactly the named slot becomes inactive |
| `HandlerObjects.ClassInfo.RemoveMethod` | c-src/main/class-info.c:141-158 | drops the first record of the signature and answers its slot |
| `HandlerObjects.ClassInfo.RemoveLine` | c-src/main/class-info.c:217-230 | drops the first record on the line, whoever owns it, and answers its slot |
| `HandlerObjects.ClassInfo.StealFrom` | c-src/main/class-info.c:199-207 | the records move and the source is left empty |
| `HandlerTheorems.MethodIsInOnePlace` | c-src/main/instrument-handler.c:149-177 | a deferred method has exactly one queue item and no record; any other exactly one record, in its class, and no item |
| `HandlerTheorems.SideWaitsIffQueued` | c-src/main/instrument-handler.c:811-862 | a side of a line waits if and only if it has exactly one queue item |
| `HandlerTheorems.LineRecordsExact` | c-src/main/instrument-handler.c:215-247 | with distinct lines a ready line has exactly its ENTER and EXIT records, each in its class and on its line; any other line has none |
| `HandlerTheorems.SlotsAreABijection` | java-src/main/java/app/autoprofiler/ProfilerRegistry.java:68-83 | with distinct lines the active slots carry exactly the live instruments, each once |
| `HandlerTheorems.CrossClassDropIsRightIff` | c-src/main/instrument-handler.c:613-616 | deinstrumenting a line across two classes drops exactly its own records if and only if the first record on each of its lines is its own |
| `HandlerTheorems.OneClassDropIsRightIff` | c-src/main/instrument-handler.c:613-616 | the same within one class, where the second drop looks at what the first one left |
| `HandlerTheorems.FreedSlotIsOwnIff` | c-src/main/instrument-handler.c:613-654 | the slot freed with a line is its own if and only if the first record on its enter line is |
| `HandlerTheorems.SharedLineExample` | c-src/main/class-info.c:217-230 | two live instruments with one enter line: removing the second takes the record and the slot of the first, and leaves its own behind without an entry |
| `HandlerTheorems.LineProbeStaysExample` | c-src/main/instrument-handler.c:619-645 | with distinct lines and everything in agreement a line is taken away with an OK answer, its probe stays installed, and its slot goes to the next instrument |
| `HandlerTheorems.ReinstalledIsExact` | c-src/main/instrument-handler.c:83-114 | after a class is reinstalled the probes in it are those of its records and no other |
| `HandlerTheorems.DistinctLinesIff` | c-src/main/class-info.c:217-230 | lines are distinct exactly if no two live line instruments have an enter or exit place in common |
| `HandlerTheorems.ApartIff` | c-src/main/instrument-handler.c:215-247 | a request keeps apart exactly if neither of its two places is one of a live line |
| `HandlerLemmas.AddDeferredKeeps` | c-src/main/instrument-handler.c:764-862 | a new deferred instrument of either kind keeps registry, queue, records, slots and installed bytecode in agreement |
| `HandlerLemmas.ApplyMethodKeeps` | c-src/main/instrument-handler.c:349-381 | so does applying a queued method |
| `HandlerLemmas.MarkLineKeeps` | c-src/main/instrument-handler.c:418-433 | so does marking one side of a line while the other still waits |
| `HandlerLemmas.ApplyLineKeeps` | c-src/main/instrument-handler.c:453-485 | so does applying a line whose second class has come |
| `HandlerLemmas.CreateThenFree` | c-src/main/instrument-handler.c:785-803 | a slot created and given back leaves the active slots as they were |
| `HandlerLemmas.SameActiveSlots` | c-src/main/instrument-handler.c:785-803 | in particular the map from active slots to instruments |
| `RetireLemmas.RetireKeeps` | c-src/main/instrument-handler.c:573-735 | taking any set of instruments away from everywhere keeps the rest in agreement |
| `RetireLemmas.DropSigIsRetire` | c-src/main/class-info.c:141-158 | dropping the first record of an applied method's signature drops its record and no other |
| `RetireLemmas.DropItemsIsRetire` | c-src/main/instrument-handler.c:529-571 | removing the first item, and for a line the next one, removes all items of the instrument |
| `RetireLemmas.DropLinesIsRetire` | c-src/main/instrument-handler.c:613-616 | with distinct lines, dropping by line number takes the instrument's own two records, also when both are on one line of one class |
| `RetireLemmas.FreeIsRetire` | c-src/main/instrument-handler.c:644-654 | freeing the slot an instrument owns frees exactly its slot |
| `RetireLemmas.AddThenDropLine` | c-src/main/instrument-handler.c:240-245 | a record made and dropped again by line number leaves the list as it was if and only if no other record is on that line |
| `RollbackLemmas.RetiredKeeps` | c-src/main/instrument-handler.c:328-334 | whatever a failure leaves of the kind all rollback paths leave, the parts agree |
| `RollbackLemmas.AddThenDropLines` | c-src/main/instrument-handler.c:328-334 | rolling back both records of a line restores all lists if and only if no other record is on its lines |
| `RollbackLemmas.ApartIsVacant` | c-src/main/instrument-handler.c:215-247 | a request that keeps away from the lines of the live ones finds them without records |
| `HandlerOutcomes.MethodPlaced` | c-src/main/instrument-handler.c:764-809 | however a method request with a fresh number and slot ends, its outcome is as stated and the parts agree |
| `HandlerOutcomes.LineRequestKeeps` | c-src/main/instrument-handler.c:864-931 | the same for a line request, also when lines are shared, for all parts that do not depend on distinct lines |
| `HandlerOutcomes.DeferredMethodFails` | c-src/main/instrument-handler.c:365-378 | a deferred method that cannot be applied is gone from everywhere |
| `HandlerOutcomes.DeferredLineFails` | c-src/main/instrument-handler.c:453-485 | so is a deferred line |
| `HandlerOutcomes.MethodTakenRetires` | c-src/main/instrument-handler.c:702-735 | deinstrumenting an applied method removes it and nothing else, whether or not its class could be reinstalled |
| `HandlerOutcomes.LineTakenRetires` | c-src/main/instrument-handler.c:613-656 | the same for a ready line, exactly so with distinct lines |
| `HandlerOutcomes.ProbesGoneIff` | c-src/main/instrument-handler.c:619-656 | with distinct lines: when an applied method or line is taken away its slot is free, and each of its classes is rid of probes of that slot if and only if the JVM took new bytecode for the class |
| `HandlerOutcomes.DeferredTaken` | c-src/main/instrument-handler.c:585-598 | the same for an instrument that waits |
| `DrainLemmas.DrainEnds` | c-src/main/instrument-handler.c:487-527 | after the drain exactly the entries that waited for the class have advanced or are gone, and no item waits for it |
| `DrainLemmas.ClassAdded` | c-src/main/prof-server.c:128-145 | a class of a new name enters without records, and what waits for it may be applied |
| `ReloadLemmas.LineCleaned` | c-src/main/instrument-handler.c:1032-1061 | one step of the clean-up takes a line away with the record in its other class and touches no one else |
| `ReloadLemmas.ClearedRetires` | c-src/main/instrument-handler.c:1105-1118 | when the clean-up is over exactly the instruments recorded in the class are gone |
| `ReloadLemmas.ReappliedKeeps` | c-src/main/instrument-handler.c:1078-1092 | when the new class could be instrumented nothing is gone and every recorded probe is installed |
| `InstrumentHandler.Handler.constructor` | c-src/main/instrument-handler.c:45-62 | the empty handler is in agreement |
| `InstrumentHandler.Handler.DoInstrumentation` | c-src/main/instrument-handler.c:83-114 | the transformer is asked for every record of the class, no more and no less |
| `InstrumentHandler.Handler.Retransform` | c-src/main/instrument-handler.c:116-147 | the bytecode is installed or the old one stays, and nothing is pending afterwards |
| `InstrumentHandler.Handler.InstrumentNow` | c-src/main/instrument-handler.c:349-381 | record, reinstallation and mark together, or neither and the entry and the slot gone |
| `InstrumentHandler.Handler.InstrumentLater` | c-src/main/instrument-handler.c:149-177 | one complete item is queued, or none and the entry gone |
| `InstrumentHandler.Handler.InstrumentMethod` | c-src/main/instrument-handler.c:740-809 | double if and only if the method is known, and then nothing changes and its number is answered; an error if and only if memory, a profiler or bytecode was refused, and then entries, queue, records, active slots and bytecode are as they were; else exactly one new instrument; numbers are never zero and never reused |
| `InstrumentHandler.Handler.PopulateLine` | c-src/main/instrument-handler.c:215-247 | both records are made, or the first is dropped again by its line number |
| `InstrumentHandler.Handler.PerformLine` | c-src/main/instrument-handler.c:287-334 | both classes reinstalled and both marks set, or both records dropped by line number and entry and slot gone |
| `InstrumentHandler.Handler.InstrumentLineNow` | c-src/main/instrument-handler.c:916-930 | the two together: all done, or undone as far as no other record sits on the lines |
| `InstrumentHandler.Handler.RemoveQueuedById` | c-src/main/instrument-handler.c:529-571 | all items of the instrument are gone, the slot they named is answered, and none of the source's assertions can fail |
| `InstrumentHandler.Handler.InstrumentLaterLine` | c-src/main/instrument-handler.c:811-862 | an item for each side whose class is not loaded and a mark for the other, or nothing and the entry gone |
| `InstrumentHandler.Handler.InstrumentLine` | c-src/main/instrument-handler.c:864-931 | an error if and only if memory, a profiler or bytecode was refused, and then entries, queue, method records and active slots are as they were, and the line records too when no other record sits on its lines; else exactly one new instrument, deferred for exactly the sides whose class is missing |
| `InstrumentHandler.Handler.DeinstrumentDeferred` | c-src/main/instrument-handler.c:585-598 | items, entry and slot of a waiting instrument are gone, and nothing else |
| `InstrumentHandler.Handler.DeinstrumentMethodById` | c-src/main/instrument-handler.c:658-735 | OK if and only if the method waits or the JVM took new bytecode for its class; either way it is gone from registry, queue, records and slots, and (distinct lines) its probe is out of the class exactly when that bytecode was taken |
| `InstrumentHandler.Handler.DeinstrumentLineById` | c-src/main/instrument-handler.c:573-656 | OK if and only if the line waits or new bytecode was made for each of its classes, whether or not the JVM took it; either way it is gone from the registry and the queue and, with distinct lines, from records and slots, and each class is rid of its probe if and only if the JVM took the new bytecode |
| `InstrumentHandler.Handler.DeinstrumentById` | c-src/main/instrument-handler.c:955-981 | an unknown number changes nothing and is not answered OK; a known one is taken away, answered OK on exactly the two conditions above, its probes gone exactly from the classes the JVM took new bytecode for |
| `InstrumentHandler.Handler.DeinstrumentMethod` | c-src/main/instrument-handler.c:933-953 | the same by name; an unknown name changes nothing and is not answered OK |
| `InstrumentHandler.Handler.Drain` | c-src/main/instrument-handler.c:487-527 | every item for the class is processed and no other item touched |
| `InstrumentHandler.Handler.CleanupFailedLine` | c-src/main/instrument-handler.c:993-1061 | entry, slot and the other class's record of one failed line go, once per line |
| `InstrumentHandler.Handler.CleanUp` | c-src/main/instrument-handler.c:1094-1118 | all instruments recorded in the class go, with distinct lines exactly those, and no slot leaks or is freed twice |
| `InstrumentHandler.Handler.Reapply` | c-src/main/instrument-handler.c:1063-1118 | all of the class's instruments stay with their probes installed, or all of them go |
| `InstrumentHandler.Handler.ReplaceClass` | c-src/main/class-info-list.c:64-83 | a class of a known name takes over the records of its predecessor and starts without probes |
| `InstrumentHandler.Handler.ClassLoaded` | c-src/main/prof-server.c:101-149 | every instrument that waited for the class has advanced or is gone, gone only if memory or bytecode was refused; no other is affected, and items for other classes all stay |
| `InstrumentHandler.Handler.Handle` | c-src/main/prof-server.c:469-566 | each event reaches its handler with its own names, lines and number, has the effect stated there and is answered accordingly |
| `InstrumentHandler.Handler.Run` | c-src/main/prof-server.c:469-566 | after any sequence of requests and class loads with any failures the parts agree, no number has been given out twice, and every event of the sequence had its effect and its answer |
| `ClassFile.ParseCpBody` | c-src/main/bytecode.c:60-131 | rejects a body exactly when its tag is none of the seventeen of the format or bytes are missing, and otherwise answers its length and, for Utf8, its bytes |
| `ClassFile.SkipAttributes` | c-src/main/bytecode.c:133-161 | the loop computes the specified position, with the advance over each attribute taken modulo 2^32, without reading outside the data |
| `ClassFile.ParsePool` | c-src/main/bytecode.c:197-222 | the loop fills the array with exactly the Utf8 entries under their numbers |
| `ClassFile.ReadMethods` | c-src/main/bytecode.c:257-317 | the loop lists the methods, or leaves the list empty |
| `ClassFile.ExtractMethods` | c-src/main/bytecode.c:163-339 | on any bytes: terminates, reads only inside them, fills an empty list as specified or leaves it empty; out of memory exactly when an allocation was refused |
| `ClassFileFormat.SkipsAttributeIff` | c-src/main/bytecode.c:147-158 | stepping over an attribute lands behind it if and only if its length plus six fits in 32 bits, and 2^32 bytes short of it otherwise |
| `ClassFileFormat.NumberedEntries` | c-src/main/bytecode.c:197-222 | an entry is found under the number the format gives it, Long and Double taking two |
| `ClassFileFormat.ExtractsEncoded` | c-src/main/bytecode.c:163-339 | for every well-formed class structure, its constants written field by field as the format says, extracting from its bytes followed by anything lists its methods in order, each as the extractor writes it: names up to a zero byte, length in sixteen bits |
| `ClassFileFormat.ListedFaithfulIff` | c-src/main/bytecode.c:294-309 | a listed string is the two names around a colon, with its true length, if and only if neither holds a zero byte and together they fit in sixteen bits |
| `ClassFileFormat.ExtractsTrulyIff` | c-src/main/bytecode.c:163-339 | what is extracted is the true `name:descriptor` list with true lengths, in order, if and only if no listed name holds a zero byte and every pair fits in sixteen bits |
| `Framing.Connection.HandleData` | c-src/main/user-if.c:205-265 | whatever a read returns, the connection's state fits the bytes received so far; bytes make it fail exactly when memory for a larger buffer is refused |
| `Framing.Connection.Requested` | c-src/main/user-if.c:214-219 | the length asked for is positive and within the buffer |
| `Framing.Connection.DeliveredIsParsed` | c-src/main/user-if.c:205-265 | the messages delivered are those of a one-shot parser over the bytes received, however they came in pieces |
| `Framing.Connection.Receive` | c-src/main/user-if.c:205-265 | a whole stream in any pieces delivers its messages up to the first oversize header, unless memory was refused |
| `Framing.SentIsParsed` | c-src/main/user-if.c:228-263 | a sequence of messages sent is the sequence delivered |
| `Framing.OversizeEnds` | c-src/main/user-if.c:234-237 | nothing after an oversize header matters |
| `Framing.MoreIsLater` | c-src/main/user-if.c:205-265 | more bytes only add messages |
| `Framing.MessageIff` | c-src/main/user-if.c:214-237 | what is delivered are exactly byte strings of that form |
| `Framing.OneMessage` | c-src/main/user-if.c:228-263 | a type, the size of the body and the body are delivered as one message, whatever follows, if the body has at most 2^20 bytes; with a larger size nothing is delivered any more |
| `Wire.Writer.Put` | c-src/main/uif-response.c:292-336 | every write stays within the buffer sized beforehand |
| `Wire.ReadsPStr` | py-src/jauto_profiler/prof_client.py:92-111 | a packed string is read back with the position behind it |
| `InstrumentListing.FirstPass` | c-src/main/uif-response.c:253-279 | the size computed first is the size of the encoding of the visible entries |
| `InstrumentListing.RespondListing` | c-src/main/uif-response.c:241-341 | the second pass fills exactly that buffer with exactly that encoding; no answer if and only if it does not fit 32 bits or there is no memory |
| `InstrumentListing.GetInstruments` | py-src/jauto_profiler/prof_client.py:413-478 | the client's loop computes the specified reading of any bytes |
| `InstrumentListing.ListingRoundTrip` | c-src/main/uif-response.c:241-341 | the client reads back exactly the visible entries, in order, with their status |
| `InstrumentListing.ClientSeesRegistry` | c-src/main/uif-response.c:292-336 | from registry to client: each method and line appears at its place with its own number, names and lines, deferred if and only if one of its sides waits |
| `StatsListing.CollectActive` | java-src/main/java/app/autoprofiler/ProfilerRegistry.java:89-96 | the active profilers are collected, in order |
| `StatsListing.GetStats` | java-src/main/java/app/autoprofiler/ProfilerRegistry.java:96-125 | sizes are added in 32 bits: there is an answer, filled exactly entry by entry, if and only if the statistics take less than 2^31 bytes |
| `StatsListing.ReadStats` | py-src/jauto_profiler/prof_client.py:250-292 | the client's loops compute the specified reading of any bytes |
| `StatsListing.StatsRoundTripIff` | java-src/main/java/app/autoprofiler/ProfilerRegistry.java:89-125 | the client gets the statistics back if and only if no name is longer than 65535 bytes |
| `StatsListing.ClientSeesActive` | java-src/main/java/app/autoprofiler/ProfilerRegistry.java:89-125 | from registry to client: exactly the profilers whose flag is set appear, each at its place |
| `ErrorLog.ErrLog.DoPush` | c-src/main/prof-err-log.c:54-66 | the ring holds the last 4096 of everything pushed |
| `ErrorLog.ErrLog.Iterate` | c-src/main/prof-err-log.c:112-125 | the iterator goes over exactly these, oldest first |
| `ErrorLog.ErrLog.Size` | c-src/main/prof-err-log.c:93-110 | count and size are those of the encoding |
| `ErrorLog.ErrLog.RespondErrors` | c-src/main/uif-response.c:384-423 | whenever there is memory, the answer is the encoding of the kept errors and fills its buffer exactly |
| `ErrorLog.GetAsyncErrors` | py-src/jauto_profiler/prof_client.py:487-509 | the client's loop computes the specified reading of any bytes |
| `ErrorLog.ErrorsRoundTrip` | c-src/main/uif-response.c:384-423 | whatever was pushed, the client reads back the last 4096 errors, oldest first |
| `Requests.HandleMethodRequest` | c-src/main/ps-uif-handler.c:112-162 | accepts exactly the bodies that start with two whole strings and, with memory for both, sends on their C strings |
| `Requests.NamesRoundTripIff` | c-src/main/ps-uif-handler.c:112-162 | the agent gets the packed names, whatever follows them, if and only if neither holds a zero byte |
| `Requests.PacksIff` | py-src/jauto_profiler/prof_client.py:109-111 | the client packs exactly names of at most 65535 bytes |
| `Requests.AcceptedIsPacked` | c-src/main/ps-uif-handler.c:112-162 | every accepted body starts with two packed names |
| `Requests.HandleLineRequest` | c-src/main/ps-uif-handler.c:164-220 | counting down what is left accepts exactly the bodies with two lines and two whole strings |
| `Requests.LineRoundTrip` | c-src/main/ps-uif-handler.c:164-220 | whatever line request the client can pack the agent reads back |
| `Requests.LinePacksIff` | py-src/jauto_profiler/prof_client.py:519-523 | the client packs exactly lines of 32 bits and names of at most 65535 bytes |
| `SnapshotRing.ProfilerEntry.Record` | java-src/main/java/app/autoprofiler/profiler/ProfilerEntry.java:44-49 | samples the counters into the ring, for any ring size |
| `SnapshotRing.ProfilerEntry.RecordZero` | java-src/main/java/app/autoprofiler/profiler/ProfilerEntry.java:56-62 | repeats the previous counts, or zeros, under a new timestamp |
| `SnapshotRing.ProfilerEntry.OrderedSnapshots` | java-src/main/java/app/autoprofiler/profiler/ProfilerEntry.java:64-75 | the read-out is the last snapshots that fit, oldest first, when timestamps rise |
| `SnapshotRing.OneOrder` | java-src/main/java/app/autoprofiler/profiler/ProfilerEntry.java:73-74 | sorting snapshots with distinct timestamps has only one result |
| `Collector.Monitored.Sample` | java-src/main/java/app/autoprofiler/profiler/ProfilerEntry.java:44-49 | one snapshot of the current counters on the tick |
| `Collector.Monitored.Repeat` | java-src/main/java/app/autoprofiler/profiler/ProfilerEntry.java:56-62 | a missed tick repeats the previous counts, or has zeros before the first snapshot |
| `Collector.Registry.Create` | java-src/main/java/app/autoprofiler/ProfilerRegistry.java:68-79 | a profiler created at any time is gap-free from its next tick on, and no active one loses its place |
| `Collector.Registry.Turn` | java-src/main/java/app/autoprofiler/ProfilerRegistry.java:170-174 | a profiler found active gets its snapshot although it may be dropped in between, one found inactive gets none, and the others go on |
| `Collector.PassOn` | java-src/main/java/app/autoprofiler/ProfilerRegistry.java:170-174 | turn by turn, exactly the profilers passed so far have the snapshot of the tick |
| `Collector.Registry.RunTick` | java-src/main/java/app/autoprofiler/ProfilerRegistry.java:170-190 | a pass over the list as it was at its start, while profilers come, go and count: each still active has exactly one new snapshot, with counts it had during the pass, and no profiler outside that list has one; the tick is recorded with what there was before and after the pass |
| `Collector.Registry.Collect` | java-src/main/java/app/autoprofiler/ProfilerRegistry.java:155-193 | for any clock readings and whatever profilers come, go and count at any time: ticks start one interval after the first reading and are one interval apart; the first is sampled, a later one is sampled or repeats the previous counts according to whether the reading after the tick before it was before its time or not; the thread goes on until the readings run out |
| `Collector.Registry.NoGaps` | java-src/main/java/app/autoprofiler/ProfilerRegistry.java:155-193 | every profiler there has been has one snapshot per tick since its creation, up to now if it is active, timestamps exactly one interval apart, counters never going down |
| `Collector.Registry.Truthful` | java-src/main/java/app/autoprofiler/ProfilerRegistry.java:155-193 | of every profiler there has been, the snapshot of each sampled tick holds counts it had during that pass and the snapshot of each missed one repeats the previous counts |
| `Rates.RateSeries` | py-src/jauto_profiler/prof_graph.py:28-62 | the loop computes the rates of the intervals inside the window that have some length |
| `Rates.Summarize` | py-src/jauto_profiler/prof_client.py:625-652 | totals are those between the first and the last snapshot in the window; fewer than two are an error |
| `Rates.WindowIff` | py-src/jauto_profiler/prof_client.py:625-636 | a snapshot is used if and only if it lies in the window, bounds included |
| `Rates.RateMeans` | py-src/jauto_profiler/prof_graph.py:50-60 | rates are per second and times per call |
| `Rates.SummaryMeans` | py-src/jauto_profiler/prof_client.py:636-652 | totals are last minus first, and the average times the runs is the time |
| `Rates.RatesTelescope` | py-src/jauto_profiler/prof_graph.py:50-60 | rates times durations plus what was counted in skipped pairs is the difference of the counters |
| `Rates.RatesGiveTotalRuns` | py-src/jauto_profiler/prof_client.py:639-642 | for the collector's snapshots they add up to the summary's total runs on the same window |
| `Rates.TimesGiveTotalNanosIff` | py-src/jauto_profiler/prof_graph.py:56-60 | times per call times calls add up to the summary's total time if and only if no time was counted in an interval without a call |
| `EvQueue.Queue.constructor` | c-src/main/util/ev-queue.c:59-95 | starts empty with as many spare nodes as there is memory for, up to sixteen |
| `EvQueue.Queue.AllocNode` | c-src/main/util/ev-queue.c:41-51 | takes a spare node before asking for memory |
| `EvQueue.Queue.Push` | c-src/main/util/ev-queue.c:121-148 | appends at the tail, unless there is neither a spare node nor memory for a new one, and then changes nothing |
| `EvQueue.Queue.Wait` | c-src/main/util/ev-queue.c:150-175 | hands out the oldest message not yet handed out, and the node goes to the free list: none is lost |
| `EvQueue.Queue.PoppedIsPrefix` | c-src/main/util/ev-queue.c:121-175 | what has been popped is, in order, a prefix of what has been pushed |
| `Shutdown.StepKeeps` | c-src/main/jvm-shutdown.c:39-76 | every step of any thread keeps the counts of posts and waits in balance |
| `Shutdown.HookWaitsForRequest` | c-src/main/prof-server.c:367-410 | in every run the hook returns only after a shutdown request has been handled up to the release |
| `Shutdown.HookCanFinish` | c-src/main/jvm-shutdown.c:39-76 | once one has been handled the hook's own steps make it return, whether it was called before or is called after |
| `Shutdown.RequestIsHandled` | c-src/main/prof-server.c:367-410 | when a shutdown request is taken while the VM is not held, then in every continuation the process is not ended on the spot, the loop is never blocked, its second step from there releases the hook, once, and its fourth is leaving |
| `Shutdown.RequestFreesHook` | c-src/main/prof-server.c:367-410 | from the second step on the hook is not blocked: its own steps make it return, whether it was called before the request or after |
| `Shutdown.HookIsNoticed` | c-src/main/jvm-shutdown.c:39-76 | a hook that waits to be noticed can go on, or its message is still in the queue |
| `Shutdown.KilledIff` | c-src/main/prof-server.c:397-403 | the process is ended on the spot exactly when a shutdown request is taken while the VM is held |
| `Shutdown.PausedIff` | c-src/main/prof-server.c:350-365 | the VM is held at its start until a resume request is taken off the queue |
| `Shutdown.ShuttingDownIff` | c-src/main/prof-server.c:412-418 | the status says shutting down exactly from when the loop takes the hook's message on |
| `Shutdown.UnloadWaitsForLoop` | c-src/main/prof-server.c:705-716 | unloading passes only after the loop has left and is not blocked once it has |
| `Shutdown.LoopLeavesAnyway` | c-src/main/prof-server.c:533-566 | in any interleaving of all threads, with a message in the queue that ends it the loop is never blocked before it has left, and leaves within a bounded number of its own steps |
| `Shutdown.LoopLeavesIff` | c-src/main/prof-server.c:533-566 | from any state the loop by itself gets to leave, or a request while start-paused ends the process, if and only if it is not waiting for a message without one in the queue that ends it |
| `Shutdown.UnloadPassesIff` | c-src/main/prof-server.c:705-716 | the same is the exact condition for `ps_destroy` to be let pass |
| `Shutdown.StopIsEnough` | c-src/main/prof-server.c:707-715 | with memory for the stop message that condition holds; without it the messages queued before decide |
| `Shutdown.UnloadMayWait` | c-src/main/prof-server.c:707-715 | a run in which there is no memory for the stop message, nothing in the queue ends the loop, and unloading waits |

## Left out

- Simulation.RunMatches: the original body must not run off its end (section 4.9.2 of the Java Virtual Machine Specification), stated about its runs; probe calls neither throw nor touch the method's state; abstract and native methods, uninitialized objects in constructors, asynchronous exceptions and illegal monitor states are outside the body semantics.
- Transformer.Transform: reading and writing class files, stack maps and class-loader matching are ASM's and the JVM's; the `markFlag` of a request is membership in a set of marked requests.
- Profiler.WellBracketedTotals: a slot used again while an activation of its previous owner is still running is outside the hypothesis; counters are unbounded integers.
- TableLoad.BelowIff: loads are exact rationals, not 32-bit floats.
- HashTab.HashTab.Get: a null answer is `None`; null values are not stored, as in the callers.
- HandlerObjects.MasterInstruments.Insert: the registry and the class list are maps here; `HashTab.RunCommands` is why that is enough. Numbers do not wrap around at 64 bits.
- InstrumentHandler.Handler.DoInstrumentation: the transformer is success with exactly the recorded probes, or failure; that every requested probe is then in the bytecode is `Transformer.Transform`.
- InstrumentHandler.Handler.ClassLoaded: installed bytecode is what was last accepted for the class of that name the handler knows; two classes of one name under different loaders, alive side by side, are not told apart, as in the handler.
- InstrumentHandler.Handler.Run: `jni_remove_profiler` and the buffer the retransform hook allocates are taken to succeed, and variable binds, which no request creates, are not handled.
- ClassFile.ExtractMethods: called with a list that is empty, as its only caller does; the data is a value, not a pointer and a length.
- Framing.Connection.HandleData: accepting, polling, closing and sending are plumbing; one connection is modelled.
- InstrumentListing.GetInstruments: names stay bytes; decoding UTF-8 and the names of the dictionary keys are left out, here and in the other parsers of the client.
- ErrorLog.ErrLog.Push: `prof_err_log_printf`, which formats and cuts the message first, is not modelled; it ends in the same `DoPush`.
- Requests.HandleLineRequest: the names are handed on with their lengths; that a later comparison stops at a zero byte inside one is not modelled.
- Collector.Registry.Collect: the two counters of a snapshot are read together; running out of clock readings stands for the interrupt.
- Rates.Summarize: finding the profiler by name, error texts and floating point are left out; rates and averages are rationals.
- EvQueue.Queue.Wait: sleeping on the condition variable is an answer of `None`; the lock makes every operation atomic; `evq_destroy` is left out, as Dafny owns memory.
- Shutdown.HookCanFinish: pause-on-exit is on; starting the thread that exits the JVM is taken to succeed.
- Sockets, path and environment parsing, logging, the command line, the MCP server, completions, time parsing and graph drawing: plumbing.
- `ps-thread-state.c`: what it guarantees rests on the JVM's thread suspension.
- murmur3: the table proofs hold for any hash function.
- The lists of loaded classes and of a class's methods on the wire: simpler cases of the listings modelled.
- Reference counts and object lifetimes in C.
