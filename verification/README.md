# Verified models of the Core IR back end and its runtime

A Dafny model of the hard parts of the compiler back end (Core IR 0.6 to Rust) and of the runtime it links against, with
proofs. `dafny verify dfyconfig.toml` checks everything.

## What is modelled

**Core IR 0.6, from bytes to Rust** (`CoreIr`, `Varint`, `Codec`, `CanonReader`, `Axbi`, `Blocks`, `LastUse`, `Emit`,
`RustCode`, `FlatIr`, `Meaning`, `Simulation`, `MoveSafety`, `Fault`, `Backend`, `Pipeline`). The canonical codec is shown to be exact in
both directions, the block verifier to accept exactly the bundles that obey the block rules, and the emitter to preserve
meaning. The emitted text is a sequence of line tokens that is read back as a statement tree (`RustCode.Code`). The flat node
list has an index-order interpreter (`FlatIr`), the tree has one of its own with moves, in which using a moved or unbound
variable is `Stuck` (`RustCode.Eval`), and a static borrow check (`RustCode.Check`). Builtins are an arbitrary function of
everything that ran before, so equal outcomes mean equal calls in equal order. The fault rules of `fault.rs` are part of both
interpreters. What they compute is then said without them, of the bundle and the constant tables alone (`Meaning`,
`Backend.ProgramMeans`): which nodes yield, which value, when a call runs and on what.

**Lock-free tables.** `Fbank*` is the deduplicating bank: `fbank_put` and `intern` as threads of atomic steps over the byte
area, the per-entry arrays and the open-addressing table. `Gpu*` is the claim/publish table of the GPU kernels (one machine
for `p5_discover`, `vput` and `p5_insert`), the host's rerun, rebuild and settle loops, and the minimum-ordinal filter. Every
statement is over every interleaving; hash functions are arbitrary. `Ring` has the walk round a table and the pigeonhole
argument both need, `Counting` how often a sequence has an element.

**Timed flush.** `Flush`, `FlushRuns`, `FlushTimed`, `FlushWorker`: a writer, a timer, an allocator and one flush worker over a FIFO queue.
The order of the writer's steps (seal queued before the next block is taken and published) is the one the module
documentation gives (`src/runtime/block_flush.rs:105-116`).

**Local maps.** `HandleMap`, `HandleRuns`: the table of slots, generations and copy counts behind the handle-owned maps, shown to
represent a store of map identities that are never reused. Every run of operations on the table object is a run on that
store, so the statements about runs hold of `Get` on the real table.

**Chunking and closure.** `Chunk` is the content-defined chunker, its streaming form equal to the recursive one. `Closure` is the
provider closure over a possibly cyclic call graph.

## Where a comment says more than the code

The comment on `collect_xbundle_closure` (`src/main.rs:98-107`) says without condition that the extra roots' own identities are
added to the list. On every call this program makes that is so: the one caller passes only extra roots that are in the
provider map (`src/main.rs:380-397`), and with all extra roots available the closure is exactly the available providers that
the roots are or reach (`Closure.AvailableRootsExact`, `Closure.CollectClosure`). For an extra root that is not available,
which the caller never passes, the function does less than its comment: such a root is not listed when the walk has already
met it as a callee. `Closure.ExtraRootListed` is the exact condition over all arguments, and
`Closure.CalledExtraRootIsDropped` a call graph that shows the difference.

## Model

| member | source | states |
|---|---|---|
| Blocks.VerifyBlocks | src/core_ir_05/mod.rs:477-596 | the scope-stack verifier accepts a bundle if and only if it obeys the block rules (balanced blocks, arms directly before their CIf, every read in scope), and the tables of an accepted bundle hold each node's home, each block's partner and each arm |
| Blocks.MatchBlocks | src/core_ir_05/mod.rs:477-596 | the pairing pass accepts exactly the balanced bundles whose CIfs have their arms in place, with the tables that describe them |
| Blocks.CheckScopes | src/core_ir_05/mod.rs:477-596 | the scope pass accepts exactly the bundles in which every argument, block value, condition and result names a value in scope where it is read |
| Blocks.ArmsDisjoint | src/core_ir_05/mod.rs:477-596 | no block is an arm of two CIfs |
| MoveSafety.ConditionInScope | src/core_ir_05/mod.rs:477-596 | in an accepted bundle a CIf's condition is bound and readable where its then arm opens, before the arm's CBlock, and both arms stand in the CIf's home block |
| Varint.DecodesTo | src/core_ir_05/mod.rs:613-632 | reading a varint gives v if and only if v fits 64 bits and its shortest LEB128 form stands at the position |
| Varint.Write | src/core_ir_05/mod.rs:106-116 | the byte-pushing loop appends the shortest LEB128 form |
| Varint.Read | src/core_ir_05/mod.rs:613-632 | the accumulating loop computes the specified reading, with its truncation, overflow and non-minimal errors in the same order |
| Varint.EncodeIsLeb | src/core_ir_05/mod.rs:106-116 | the bytes are seven-bit groups, least significant first, whose weighted sum is the value; all but the last have the high bit, and no last group of several is zero |
| Varint.ErrorsMean | src/core_ir_05/mod.rs:613-632 | bytes that end while they announce another are truncated, a last group of zeros is non-minimal, a tenth byte above 1 overflows |
| Codec.DecodeEncode | src/core_ir_05/mod.rs:131-166 | decoding the encoding of any well-formed bundle returns it and consumes every byte |
| Codec.EncodeDecode | src/core_ir_05/mod.rs:662-708 | re-encoding whatever was decoded returns the exact bytes, and what was decoded is well formed |
| Codec.CanonicalCodec | src/core_ir_05/mod.rs:662-708 | with counts within 32 bits, the accepted byte strings are exactly the encodings of well-formed bundles that obey the block rules, so every bundle has one encoding |
| Codec.ListReads | src/core_ir_05/mod.rs:664-696 | a list of items each of which reads back what is written for it reads back as a whole |
| Codec.ListSpelt | src/core_ir_05/mod.rs:664-696 | whatever a list reader accepts is spelt by the writer, item by item, with no byte between |
| Codec.RefCodec | src/core_ir_05/mod.rs:645-659 | a reference in range is read exactly where its tagged form stands; truncating the index to 32 bits loses nothing |
| Codec.SampleBytes | src/core_ir_05/mod.rs:131-166 | the canonical bytes of a bundle with every kind of node and reference, in full: kind numbers, field order, reference tags |
| Codec.AcceptedResolves | src/core_ir_05/mod.rs:645-659 | in a well-formed bundle every read names an earlier node or a pool entry |
| CanonReader.Deserialize | src/core_ir_05/mod.rs:664-708 | the cursor-driven decoder accepts exactly the specified byte strings, with the specified bundle, and tells unreadable bytes from misplaced blocks |
| CanonReader.Serialize | src/core_ir_05/mod.rs:131-166 | the buffer-pushing encoder writes the canonical bytes |
| CanonReader.DecodedResolves | src/core_ir_05/mod.rs:645-659 | even with counts beyond 32 bits, what was decoded can be indexed: truncated indices stay in range |
| CanonReader.Reader.Noderef | src/core_ir_05/mod.rs:645-659 | the cursor reads a reference as specified and moves past it |
| CanonReader.Reader.Nodes | src/core_ir_05/mod.rs:672-697 | the node loop reads the specified list |
| CanonReader.Reader.Take | src/core_ir_05/mod.rs:604-611 | the cursor takes the next bytes or leaves its position unchanged |
| Axbi.ParsersAgree | src/runtime/axbi.rs:107-181 | every payload the strict decoder reads, with counts that fit 32 bits, is parsed by the independent parser into the tree with the same pool, nodes, references and result |
| Axbi.TreeInjective | src/runtime/axbi.rs:87-105 | for well-formed bundles the tree determines the bundle, whenever decoding UTF-8 tells valid strings apart |
| Axbi.TreesTellBytes | src/runtime/axbi.rs:107-181 | for accepted payloads the parser's trees are equal if and only if the bytes are, under the same condition on UTF-8 decoding |
| Axbi.SampleTree | src/runtime/axbi.rs:87-105 | the tree of a bundle with every kind of node, in full: tags, field order, reference names |
| Axbi.Parse | src/runtime/axbi.rs:107-181 | the position-advancing loops compute the specified parse, and the bundle's tree on accepted payloads |
| LastUse.LastUses | src/emit/rust_05.rs:2025-2048 | the pass marks a read as a move if and only if it is the value's only use, or the last of several uses, once there, that all stand in top-level nodes and are not the result |
| LastUse.DecisionIsMayMove | src/emit/rust_05.rs:2037-2046 | the decision on a list of use indices is the property of the bundle's uses |
| Emit.EmitBlocks | src/emit/rust_05.rs:2091-2157 | the emission loop writes, in index order, the line of every node, or stops where a type gate refuses |
| Emit.OnlyGatesRefuse | src/emit/rust_05.rs:2106-2156 | on a verified bundle the emitter refuses a node only at a type gate or an unresolved call: its lookups never fail |
| Emit.EmitCallExact | src/emit/rust_05.rs:2175-2321 | a call is refused if and only if it does not resolve, its declared lengths differ from the call's, or a function slot and a function argument do not coincide; else each argument is written as path, borrow or take as its slot, its native convention and the moves say, and the effectful flag is set exactly when the callee or a function it is handed is not declared pure and deterministic |
| Emit.HasShape | src/emit/rust_05.rs:2056-2074 | every verified bundle is a nested program: arms inside the if they belong to, plain blocks as bindings of their CEnd |
| Emit.ShapeRenders | src/emit/rust_05.rs:2091-2157 | the lines written are the rendering of that nested program |
| RustCode.ReadRender | src/emit/rust_05.rs:2056-2074 | reading a rendering back gives the program: the text is unambiguous |
| RustCode.CheckSound | src/emit/rust_05.rs:2050-2053 | a program that passes the borrow check never uses an unbound or moved variable on any run |
| MoveSafety.CheckPasses | src/emit/rust_05.rs:2025-2053 | the emitted program passes the borrow check from its first statement on |
| MoveSafety.CondIsFree | src/emit/rust_05.rs:2112-2123 | the condition is unmoved and in scope where the then arm opens, earlier than its CIf |
| MoveSafety.CallPasses | src/emit/rust_05.rs:2284-2321 | a call borrows its data arguments for the pre-check and then takes each value at most once |
| Simulation.Simulates | src/emit/rust_05.rs:2091-2157 | running the nested program from any agreeing state does what running the flat nodes of the same stretch does |
| Simulation.IfMatches | src/emit/rust_05.rs:2112-2143 | an if evaluated where its then arm opens agrees with the flat nodes, where the CIf comes last: same value, same calls, the unselected arm passed over |
| Meaning.NodesMean | src/core_ir_05/mod.rs:51-58 | after any stretch of the flat run a node has yielded if and only if every block that encloses it is no arm or is the arm its condition selects, and its value is the one its kind gives from the values it reads; an Unknown or Err condition selects no arm |
| Meaning.FaultStopsEffects | src/runtime/fault.rs:155-163 | with a fault on record, a call whose callee or a handed function is not declared pure and deterministic leaves the world as it is, and yields the recorded fault once its arguments have values |
| Meaning.GapPassesThrough | src/runtime/fault.rs:164-172 | a call not stopped so yields its first Unknown or Err argument and does nothing else |
| Meaning.BodyRuns | src/runtime/fault.rs:174-208 | otherwise the body runs on exactly the values the node names, and the node yields what it returned, or the named Err, or the bridge fault, or the program stops |
| Meaning.ForeignRuns | src/emit/rust_05.rs:2308-2310 | a call into another bundle runs unguarded on exactly the values the node names |
| Backend.EmittedCompiles | src/emit/rust_05.rs:2025-2053 | every emitted program is well formed and passes the borrow check, the final result included: each value is moved at most once and never used afterwards on any path |
| Backend.EmissionPreservesMeaning | src/core_ir_05/mod.rs:51-58 | from every start world the emitted program and the index-order interpreter, in which a node runs exactly when every enclosing block runs, have the same value, the same events in the same order and the same way of stopping |
| Backend.ProgramMeans | src/core_ir_05/mod.rs:51-58 | the value of an emitted program is the result's in an assignment of values in which each node has one exactly when its enclosing blocks are chosen, and each is what its kind makes of the values it reads |
| Backend.NoEffectAfterFault | src/runtime/fault.rs:143-208 | on every run of an emitted program, also one that starts with a fault on record, at most one fault is recorded, it never changes, no effectful builtin body runs after it, and no guarded body is handed an Unknown or an Err; every guarded body that ran is a call of the bundle, and counts as effectful exactly when its callee or a function it is handed is not declared pure and deterministic |
| Backend.UnknownChoosesNoBranch | src/emit/rust_05.rs:2117-2123 | an Unknown or Err condition runs neither arm and becomes the value of the if |
| Backend.Compile | src/emit/rust_05.rs:2757-2792 | verification, move decision and emission give a program exactly when the block rules hold and no gate refuses; it is the emission the theorems are about, with exactly the moves the last-use rule allows |
| Backend.TopLevelExact | src/emit/rust_05.rs:2757-2763 | the top-level nodes are the calls, determinates and CIfs that no block encloses, all of them |
| Backend.MovesExact | src/emit/rust_05.rs:2025-2048 | a read is a move if and only if it is the value's last, stands once there, and is its only one or all its reads are in top-level nodes and none is the result |
| Pipeline.AcceptedCompiles | src/core_ir_05/mod.rs:662-708 | what the decoder accepts meets everything the compiler asks of a bundle |
| Pipeline.ClassifyPool | src/emit/rust_05.rs:2678-2692 | every pool entry gets its kind, or the bundle is refused when some entry has none |
| Pipeline.Build | src/emit/rust_05.rs:2678-2792 | from bytes to program: a program comes out if and only if the bytes are accepted, every pool entry can be classified, and no type gate refuses the decoded bundle; it is then that bundle's emission |
| Fault.GuardRunKeeps | src/runtime/fault.rs:174-208 | a guarded body that the pre-check let through keeps the fault discipline, and an effectful one that panics ends as a value unless aborts are on |
| Fault.FirstStickyIsFirst | src/runtime/fault.rs:155-172 | the pre-check returns the first Unknown or Err argument, and none if and only if there is none |
| Fault.Entry.Keep | src/runtime/fault.rs:203-206 | only the first fault of an entry is kept, and the count of faults stays |
| Fault.Entry.Raise | src/runtime/fault.rs:80-86 | a deliberate fail is recorded like a fault, once |
| Fault.Entry.Pre | src/runtime/fault.rs:155-172 | an effectful call with a fault on record gets that fault; any other gets its first Unknown or Err argument, and none if and only if there is none |
| Fault.Entry.Run | src/runtime/fault.rs:174-208 | a body that returns gives its value; a pure panic stops with its defect; a named effectful panic gives that Err and counts nothing; an unnamed one exits with 70 when aborts are on, and otherwise gives the bridge fault, counted, and recorded unless something was before |
| Fbank.ReadBack | src/runtime/fbank.rs:74-79 | a written entry's stored hash, bytes and ordinal read back as its text and ordinal, so the comparison in the probe is equality of texts |
| Fbank.WrittenKeeps | src/runtime/fbank.rs:131-139 | writing a text into its own range and its own entry changes no other entry |
| FbankTable.StepKeeps | src/runtime/fbank.rs:115-160 | every atomic step of every thread keeps: a text in at most one slot, all slots from its home to it taken, every entry readable; no slot loses its text, and a slot's ordinal only falls |
| FbankTable.EmptySlotRemains | src/runtime/fbank.rs:95-109 | the table always has an empty slot |
| FbankTable.ProbeIsShort | src/runtime/fbank.rs:120-130 | no probe passes as many slots as the table has |
| FbankRuns.RunKeeps | src/runtime/fbank.rs:115-160 | the invariant holds in every reachable state, and from any state to any later one texts stay and ordinals only fall |
| FbankRuns.RunEnds | src/runtime/fbank.rs:141-159 | however the threads interleave, failed exchanges included, they take no more steps than the work there was |
| FbankRuns.FullForGood | src/runtime/fbank.rs:131-134 | once some call has answered -2, every call that is yet to draw an id can only end with -2, whatever the interleaving |
| FbankRuns.OrderIndependent | src/runtime/fbank.rs:11-18 | once all puts have finished with distinct ordinals and no -2, the holders are exactly those a sequential first-seen pass in ordinal order keeps |
| FbankAnswers.PublishAnswers | src/runtime/fbank.rs:144-158 | a step that changes the table puts the thread's own entry into one slot and answers its id |
| FbankAnswers.RefusedIsBeaten | src/runtime/fbank.rs:152-154 | a step that answers -1 changes no slot, and one holds the text then under an ordinal no higher than the put's own |
| FbankAnswers.PutAnswers | src/runtime/fbank.rs:115-160 | over any run a finished put that had room answers -1 if and only if it never published, and an id if and only if it did |
| FbankAnswers.HolderAnswers | src/runtime/fbank.rs:141-160 | at every moment of every run the holder of a text is a call that has answered that entry's id |
| FbankAnswers.FirstSeenAnswer | src/runtime/fbank.rs:11-18 | once all puts have finished, each one the sequential pass keeps has answered the id under which its text stands |
| FbankAnswers.FullIsSpent | src/runtime/fbank.rs:131-134 | -2 is answered only where the ids or the bytes drawn have run out |
| FbankAnswers.RoomForAll | src/runtime/fbank.rs:131-134 | a bank with an entry for every call and room for all their bytes answers -2 to nobody, in any interleaving |
| FbankRuns.InternIsFunction | src/runtime/fbank.rs:248-279 | two intern calls that have their ids, at any points of a run, have equal ids if and only if their texts are equal, and the table answers with that id from then on |
| FbankRuns.FindSeesInterned | src/runtime/fbank.rs:232-244 | a lookup that starts once an intern call has its id returns that id, whatever other interns and lookups do meanwhile |
| FbankRuns.LookupIsAtomic | src/runtime/fbank.rs:232-244 | among running threads a lookup answers for the moment of its last step: the entry that stands for the text then, and -1 only when no slot holds the text |
| FbankRuns.InternedIsFound | src/runtime/fbank.rs:232-279 | the lookup loop on any later table returns the id the intern call returned |
| FbankRuns.Find | src/runtime/fbank.rs:232-244 | the lookup loop returns exactly the id that holds the text, and -1 if and only if no slot does |
| FbankRuns.HoldsEntry | src/runtime/fbank.rs:165-178 | the loop says of any entry, written or not, whether it stands in the table |
| GpuPass.StepKeeps | gpu-kernels/src/lib.rs:83-118 | every atomic access of every element keeps: a key in at most one slot, reachable from its home, claimed slots about to be published by their claimant, published keys unchanged |
| GpuPass.NotElsewhere | gpu-kernels/src/lib.rs:83-118 | a key whose probe reached an empty slot is in no slot at all |
| GpuRuns.PassEnds | gpu-kernels/src/lib.rs:83-118 | no element waits: a pass takes no more steps than its probes are long |
| GpuRuns.PassCompletes | gpu-kernels/src/lib.rs:83-118 | from wherever a pass stands it can be run to its end |
| GpuRuns.RunLists | gpu-kernels/src/lib.rs:95-108 | over every interleaving each claimed slot is listed exactly once |
| GpuRuns.ListHasRoom | gpu-kernels/src/lib.rs:101-106 | the miss list, with a place per table slot, never overflows |
| GpuMemo.RerunClaims | src/runtime/gpu_p5.rs:341-362 | a pass that sets flag 16 has taken at least one more slot |
| GpuMemo.FullMeansMany | gpu-kernels/src/lib.rs:113-116 | a pass finds the table full only when there are more keys than slots |
| GpuMemo.RebuildPlaces | src/runtime/gpu_p5.rs:215-237 | a rebuild with no fewer slots places every answered key with its answer and never sets a flag |
| GpuMemo.DiscoverFinds | src/runtime/gpu_p5.rs:328-386 | after any number of reruns and rebuilds the engine is in order and every key of the size is in the table |
| GpuMemo.DiscoverEnds | src/runtime/gpu_p5.rs:328-386 | the turns taken so far, reruns and rebuilds alike, every one flagged, stay below a bound on the sizes alone, so the loop ends |
| GpuMemo.DiscoverGoesOn | src/runtime/gpu_p5.rs:328-386 | from wherever the loop stands the next turn can be taken, and then the loop has ended or stands after one more flagged turn |
| GpuMemo.MissesExact | src/runtime/gpu_p5.rs:328-386 | discovery lists exactly the keys of the size that had no answer, each once |
| GpuMemo.SettleKeeps | src/runtime/gpu_p5.rs:388-400 | writing the answers, in any order, leaves nothing pending, every key in place and every answer on record |
| GpuMemo.Settle | src/runtime/gpu_p5.rs:388-400 | the loop sets exactly the answered slots and extends the record |
| GpuMemo.Produce | gpu-kernels/src/lib.rs:125-146 | the lookup gives the value under the key, and PENDING when the key is absent |
| GpuMemo.SettledSize | src/runtime/gpu_p5.rs:328-400 | after discover and settle the table is the one discovery left with the replies written in, every key of the size is in it, and every value in it is a recorded answer |
| GpuMemo.ProduceSize | src/runtime/gpu_p5.rs:328-411 | settle and produce over a whole size: every element gets the answer of its own key, the one on record before or the reply to its miss, so no absent and no unanswered key is met |
| GpuFilter.NeverFull | src/runtime/gpu_p5.rs:422-458 | with two slots per combination no claim pass finds the table full |
| GpuFilter.ClaimingsLower | src/runtime/gpu_p5.rs:434-456 | when the claim passes end, whatever aborted passes left behind, every candidate's ordinal has been taken into account |
| GpuFilter.ClaimingsEnd | src/runtime/gpu_p5.rs:434-456 | the claim passes so far, every one to be rerun, have taken a slot each, so the reruns end |
| GpuFilter.ClaimingsGoOn | src/runtime/gpu_p5.rs:434-456 | the next claim pass can always be run to its end, and then the passes have ended or stand after one more rerun |
| GpuFilter.SlotHoldsMinimum | gpu-kernels/src/lib.rs:217-241 | a fingerprint's slot holds the minimum ordinal over all its candidates |
| GpuFilter.Keep | gpu-kernels/src/lib.rs:314-332 | the keep pass keeps exactly the candidates that are first with their fingerprint, in order |
| GpuFilter.OneSurvivor | gpu-kernels/src/lib.rs:311-332 | with distinct ordinals every fingerprint has exactly one survivor |
| GpuFilter.FilterSize | src/runtime/gpu_p5.rs:413-488 | the whole filter from an empty table: reruns in any interleaving, then exactly the first candidate of each fingerprint |
| GpuMemo.FindSlot | gpu-kernels/src/lib.rs:246-257 | the lookup returns the key's slot, and none if and only if the key is absent |
| GpuFilter.ClaimTest | gpu-kernels/src/lib.rs:278-307 | a vector is a candidate if and only if it is not all E, gives the rows at the last size, and is not in B; a refused value is reported |
| GpuFilter.TestAll | gpu-kernels/src/lib.rs:278-307 | over all combinations of a size, exactly the passing ones go to the table, in order, and a refused value anywhere is reported |
| GpuFilter.SurvivorIsFirst | gpu-kernels/src/lib.rs:278-332 | being first with its fingerprint among what went to the table is having the lowest ordinal among all combinations that pass with that fingerprint |
| GpuFilter.FilterCombinations | src/runtime/gpu_p5.rs:413-488 | from the produced vectors to the records: a combination is kept if and only if it passes the test and no passing combination with its fingerprint comes before it, in order, whatever the reruns |
| GpuFilter.PickInverse | src/runtime/gpu_p5.rs:514-514 | a combination number and its three pool indices determine each other, in product order |
| FlushRuns.StepKeeps | src/runtime/block_flush.rs:86-116 | every step of writer, timer, worker and allocator keeps the protocol's invariant |
| FlushRuns.WriterGoesOn | src/runtime/block_flush.rs:105-116 | the writer can always publish what it wrote, write where there is room, and seal |
| FlushRuns.ExactlyOnce | src/runtime/block_flush.rs:165-180 | whenever the worker waits, the log is the sealed generations in order and then the tracked prefix of the current one |
| FlushRuns.DrainedIsDurable | src/runtime/block_flush.rs:296-354 | once the queue is drained and the writer has sealed, the log is the data of every write that was published, read off the events alone, once and in order |
| FlushRuns.LogIsSentPrefix | src/runtime/block_flush.rs:86-116 | at every moment the log is a prefix of the data sent |
| FlushRuns.PublishesSent | src/runtime/hotblk.rs:152-183 | what the generations hold over any run is what the events say was written and published |
| FlushRuns.SafeRecycling | src/runtime/block_flush.rs:118-141 | in every reachable state a checkpoint about to read its block gets its own generation's bytes, from a block that is not in the pool |
| FlushTimed.CheckpointCommits | src/runtime/block_flush.rs:335-354 | a checkpoint that is worked off has its generation's bytes up to its cursor, and all earlier generations, in the log |
| FlushTimed.SealCommits | src/runtime/block_flush.rs:298-330 | a seal that is worked off has its whole generation, and all before, in the log, and its block in the pool |
| FlushTimed.TimedFlush | src/runtime/block_flush.rs:77-103 | over any run, once the timer has read the register and sent its checkpoint, and the worker has taken the jobs queued before it and it and waits again, everything sent before the timer looked is in the log |
| FlushTimed.Drains | src/runtime/block_flush.rs:361-378 | a waiting worker can work off any queue by itself |
| FlushRuns.OnePlace | src/runtime/hotblk_pool.rs:98-120 | in every reachable state each minted block is in exactly one place: the pool, the writer's hands, a queued seal, the worker's hands |
| FlushRuns.PlacesConserved | src/runtime/block_flush.rs:321-332 | no step makes or loses a place of a block; minting makes one |
| FlushWorker.Worker.AdvanceWatermark | src/runtime/block_flush.rs:165-180 | something is to be committed if and only if the job is newer and not empty, or of the same generation and beyond the mark; the mark never goes back |
| FlushWorker.Worker.CommitJob | src/runtime/block_flush.rs:296-354 | the worker object, on a seal or a checkpoint, does what the protocol's steps do: what is newer than the mark, and only that, is appended, the mark moves to it, and only a seal returns its block |
| FlushWorker.HotBlock.Set | src/runtime/hotblk.rs:152-183 | a pointer write starts a new generation and publishes cursor 0, a cursor write publishes the block it belongs to, any other write publishes nothing |
| FlushWorker.HotBlock.PublishBlock | src/runtime/hotblk.rs:166-169 | the pointer write is the protocol's publication of a new generation |
| FlushWorker.HotBlock.PublishCursor | src/runtime/hotblk.rs:170-170 | the cursor write is the protocol's publication of a longer prefix |
| HandleMap.CreateKeeps | src/runtime/hmap.rs:195-199 | taking a free or a new slot for a new map keeps the representation |
| HandleMap.FreeKeeps | src/runtime/hmap.rs:97-108 | the last drop frees exactly that map's slot and lists it |
| HandleMap.ReleaseKeeps | src/runtime/hmap.rs:97-108 | any other drop frees nothing |
| HandleMap.Table.New | src/runtime/hmap.rs:185-200 | a new map, under an identity never used before, with one handle |
| HandleMap.Table.Clone | src/runtime/hmap.rs:77-85 | a counted copy of the same map if and only if the handle leads to one |
| HandleMap.Table.Drop | src/runtime/hmap.rs:87-110 | the map goes if and only if this was its last handle; all other handles keep naming their maps |
| HandleMap.Table.Put | src/runtime/hmap.rs:203-211 | the put changes the handle's map and no other; a frozen or absent map refuses |
| HandleMap.Table.Get | src/runtime/hmap.rs:219-224 | the handle sees its own map |
| HandleMap.Table.Freeze | src/runtime/hmap.rs:227-245 | the map moves out whole and its handles are dead |
| HandleRuns.SeesOwnPuts | src/runtime/hmap.rs:1-23 | over every sequence of operations a handle sees exactly the puts made through handles of its own map |
| HandleRuns.PlayedLast | src/runtime/hmap.rs:203-224 | what the puts make of a map has under a key the value put there last |
| HandleRuns.FrozenForever | src/runtime/hmap.rs:227-245 | a frozen map stays frozen while anybody holds it |
| HandleRuns.Perform | src/runtime/hmap.rs:77-245 | one operation on the table of slots is one operation on the store, whatever slots are reused; the table stays faithful: counts are the numbers of live handles, free-listed slots are exactly the free ones, live handles name their own maps |
| HandleRuns.PerformAll | src/runtime/hmap.rs:77-245 | any sequence of operations on the table is that sequence on the store |
| HandleRuns.Session | src/runtime/hmap.rs:176-224 | over any life of the table, a get through a live handle answers with what was put through handles of the same map and nothing else, and refuses once that map is frozen |
| HandleRuns.FreezeSession | src/runtime/hmap.rs:227-245 | over any life of the table, the map a freeze returns is the one that all puts through handles of that map, and no others, make from the empty map; a second freeze is refused |
| HandleRuns.FreezeIsFinal | src/runtime/hmap.rs:227-245 | once a map was frozen through any of its handles, it is frozen for all of them, however long the run goes on |
| HandleRuns.LivesWhileHeld | src/runtime/hmap.rs:87-110 | a map exists exactly while some handle holds it |
| Chunk.FastCdcCut | src/runtime/chunk.rs:149-182 | a file up to the minimum is one chunk; in a longer one the cut is the first place from the minimum on where the rolled fingerprint passes its test, strict before the average size and loose from there on, or the maximum, or the end |
| Chunk.OneFirstCut | src/runtime/chunk.rs:149-182 | the fingerprints leave exactly one place for the cut |
| Chunk.CutLocal | src/runtime/chunk.rs:190-195 | a window of at least the maximum cuts like the whole rest of the file |
| Chunk.CutByPrefix | src/runtime/chunk.rs:144-148 | a cut found by content is found again wherever the bytes up to it are the same |
| Chunk.ChunkReader | src/runtime/chunk.rs:196-228 | however the reads are split, the lines cover the file without gap or overlap, each cut where the fingerprints of what is left first pass their test, with the address of its own bytes; they are the manifest of the recursive chunks |
| Chunk.ChunksTile | src/runtime/chunk.rs:144-182 | the chunks tile the file, none is empty or longer than the maximum, all but the last are at least the minimum |
| Chunk.ChunksBehind | src/runtime/chunk.rs:29-33 | the chunks behind a boundary depend on the bytes behind it alone |
| Chunk.UnchangedRegion | src/runtime/chunk.rs:27-33 | where two files agree from a boundary on, whatever follows the region, they have the same chunks up to a maximum before its end |
| Chunk.SpreadMask | src/runtime/chunk.rs:119-129 | the loop sets the specified bits, as many as asked for, clamped to 1..60 |
| Chunk.MaskCount | src/runtime/chunk.rs:116-129 | a mask's one-bits are all different, none is bit 0, and there are as many as asked for, clamped to 1..60 |
| Chunk.MaskHas | src/runtime/chunk.rs:119-129 | the one-bits are those at 1 + k * 61 / bits |
| Chunk.Configured | src/runtime/chunk.rs:131-142 | whatever the environment asks for, 1 <= min < max, with the spread masks of the average size; by default the average lies between them |
| Chunk.ConfiguredTests | src/runtime/chunk.rs:131-142 | the settings roll the gear hash in 64 bits, and with 2^b the power of two at or below the average the strict test is for b + 2 zero bits, the loose one for b - 2, at least one |
| Chunk.StricterFirst | src/runtime/chunk.rs:135-139 | the mask before the average size has more one-bits than the one after it, up to the clamp |
| Closure.AvailableRootsExact | src/main.rs:98-127 | with every extra root available, as on the one call, the closure is exactly the available providers that the root bundle reaches or that an extra root is or reaches |
| Closure.NeedsExact | src/main.rs:137-165 | a bundle needs exactly what its calls to no builtin lead to, by body or by the hash of their own name, and what its function references lead to |
| Closure.CollectClosure | src/main.rs:108-127 | no provider twice, exactly the wanted ones (with every extra root available: exactly what the roots are or reach), and, when no provider reaches itself, every dependency before its user |
| Closure.AcyclicIsRanked | src/main.rs:93-102 | a graph in which no provider reaches itself has a rank that falls along every need |
| Closure.Collector.Dfs | src/main.rs:129-171 | the walk ends on any graph, visits exactly what the bundle reaches besides what was visited before, and lists the available ones once |
| Closure.Collector.Visit | src/main.rs:146-150 | one provider: nothing if met before, else its needs and then itself |
| Closure.ExtraRootListed | src/main.rs:118-125 | an extra root is listed if and only if it is available, or nothing before its turn had met it |
| Closure.CalledExtraRootIsDropped | src/main.rs:118-125 | an extra root that is not available, which the one caller never passes, and that the root bundle calls is not listed |

## Left out

- The symbol, argument-kind and native-type tables, the registry and dispatch overlay, `sanitise`, and adapter text: they are
  parameters of the emitter model (`Emit.Tables`), so the theorems hold for every content of them.
- The text of an emitted line beyond what decides scope, moves, guards and control flow (indentation, variable names, the
  spelling of calls), the binding of pool entries and the unpacking of arguments in front of the nodes, and the exported symbol.
- Pipeline.Build: the check that a channel name written as a literal is a declared one (`src/emit/rust_05.rs:2498-2525`) is not
  modelled, so a bundle refused for that alone counts as built here.
- What happens inside a call into another bundle: such a call is one arbitrary body, as the emitted call is not guarded.
- Higher-order builtins, `spawn` and channels inside the fault property: it is first-order and per entry.
- The version string, the AXBI header, SHA-256 and the decoding of UTF-8 to text: the last two are arbitrary functions.
- Axbi.ParsersAgree: says nothing of payloads the strict decoder refuses; this parser accepts more of them (trailing bytes,
  misplaced blocks, indices that fit after truncation). The machine-word overflow of a length added to a position is not modelled.
- Codec.CanonicalCodec: for more than 2^32 pool entries or nodes the decoder truncates indices, so the statement is for counts within 32 bits.
- Fbank.ReadBack: Acquire and Release accesses are sequentially consistent steps, and a thread writes its own byte range and its
  own entry's fields in one step; that nobody reads them before they are published is part of the invariant.
- `fbank_get`, `fbank_get_list`, `fbank_pack`, `fbank_used`, `fbank_free`: reads of single fields, and freeing.
- FbankRuns.Find: the loop as code is over a table nobody is changing; among running threads the same loop is the thread of atomic
  steps of `FbankRuns.LookupIsAtomic` and `FbankRuns.FindSeesInterned`.
- FbankRuns.HoldsEntry: over a table nobody is changing, since its answer is final only once the puts have finished.
- GpuPass.StepKeeps: every element is a thread of its own, which allows more interleavings than the grid-stride loops and the
  chunked launches do; `mix`, `vhash` and the CUDA calls are left out, and fingerprints are taken as given keys.
- `p5_bseen_add` and `sync_b`: another use of `vput` in the same reruns as the filter.
- The grouping of misses by op code and the banking of survivors in `record`: sorting, and calls of `fbank_put`.
- Flush: one shard, the LOG family only; OBJECT jobs and jobs without a shard bypass the watermark. A commit is an append to the
  log; the anchor chain, Postgres, and blocking in the pool (a step that is not possible yet) are left out.
- HandleMap.Table.Drop: for counted handles on the owner thread. Copies made on other threads are inert and are not modelled;
  the doors by which a value changes thread refuse handles. `hmap_hash` is left out, and counts are unbounded.
- Chunk.ChunkReader: I/O errors and the text of the manifest lines are left out; the gear table and SHA-256 are arbitrary functions.
- `fieldidx.rs`, `contradicts.rs` and `hotblk_recover.rs` rebuild an index from the frames of a log. They read what the flush wrote,
  after the fact, through frame walkers that are not part of this model, and no property here depends on them.
- `bindidx.rs`, `contentidx.rs` and `gcidx.rs` are caches behind one lock per shard, and `cursor.rs` is an append buffer of a single
  thread. No other component modelled here calls them, and their callers see a map or a sequence under a lock.
- `coerce.rs` and `bool_ops.rs` are builtins, which are an arbitrary function in every property above. `channels.rs` blocks and wakes
  threads of the operating system; builtins that use it fall under the same arbitrary function.
- Graphics, windowing, benches, probes, and the process, file and rustc plumbing of the command line.
