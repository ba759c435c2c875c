# Verified models of the xbintsc runtime

xbintsc compiles JavaScript to native programs. This project models the parts of its C and C++ runtime whose
correctness rests on an invariant or on an algorithm, and proves what they promise, for all inputs and all runs.
`dafny verify dfyconfig.toml` checks everything.

## What is modelled

**The garbage collector** (`GcGraph`, `GcHeader`, `GcHistory`, `GcHeap`, `GcTheorems`, `GcRuns`). The heap is an
intrusive list of blocks. A collection builds an open-addressing table of block addresses, marks from the roots with a
gray worklist, iterates the ephemeron rule of WeakMaps until nothing changes, clears WeakRefs, compacts WeakMaps and
WeakSets, sweeps the list through a pointer to the link, and sets the next threshold from the live set. `GcHeap.Heap`
does all of this in place. `GcGraph` says on values what is live: the least set that holds the roots and is closed
under strong references and under "a marked WeakMap with a marked key marks the value". `GcRuns` adds the program,
which may read every field of every object it reaches, whatever the kind: in no run does it ever hold or find a
pointer to a released block, although collections happen at any time and the roots may hold any additional words. What
each kind of object stores, and so what tracing has to follow, is said there apart from the tracing. From the moment
the collector is armed the heap keeps a history of requests and collections; what collections cost is bounded by what
the program requested. The header keeps 32 bits of a size while the byte counter adds all of it
(`runtime/xt_alloc.c:163-167`); every call of `xt_alloc` passes the `sizeof` of a structure, so the condition of
`GcHeap.Heap.BytesExact` is met and the counter is the total of the sizes in every run of the program.

**Promises, microtasks and async functions** (`PromiseModel` to `PromiseUnhandled`, `PromiseRuntime`). `PromiseModel`
gives every operation as a function on one state: promises with their reactions, the microtask queue with its head,
the unhandled-rejection list with swap-removal, and coroutines that run, are suspended or are done. Handlers and
coroutine bodies are open: whatever they do is a sequence of steps, nested to any depth. `PromiseInvariant` and
`PromiseSteps` prove the invariant of every reachable state, `PromiseHistory` what no step undoes, `PromiseRuns` what
follows for every run, `PromiseOutcomes` that outcomes arrive where they should: at handlers, at following promises,
and at awaits, `PromiseCalls` that every callback is called, once, and `PromiseUnhandled` which rejections are
reported: exactly those nobody ever listened to. `PromiseRuntime.Runtime` is the imperative runtime, proved to compute
those functions: promise records that are changed in place, a growing array of microtasks with its head and count, and
a growing array of the records whose rejection nobody has observed, each with its own index.

**The worker pool** (`WorkerPool`, `WorkerRuns`, `WorkerQueues`). One step is what one thread does under the lock, or
what the main thread does with data of its own; steps of the threads interleave in any order, with spurious wakeups
and polls inside callbacks. Proved are conservation of jobs, absence of lost wakeups in both directions (of workers
and of the main thread), and progress: useful steps cannot go on forever, one is possible while a job is pending, and
when none is left every job has been released. `WorkerQueues` holds the linked queues and the doubly linked registry.

**Polygon coverage and hit testing** (`CanvasGeometry`, `CanvasTriangle`, `CanvasSpans`, `CanvasEdges`,
`CanvasCoverage`, `CanvasGrid`, `CanvasArea`). The active-edge scan converter and the crossing count of hit testing
define the same inside, for both fill rules, over real coordinates. The scan converter sums from the left and hit
testing from the right; they agree because a closed loop crosses every scanline with windings that cancel.
`CanvasTriangle` and `CanvasArea` tie both to geometry: hit testing of a triangle tells on which side of its edges a
point lies, coverage is the mean of the lengths inside on four lines, and the coverage of a rectangle with edges on
quarters of a pixel is the area in common.

**The audio graph** (`AudioGraph`, `AudioQuantum`, `AudioSums`, `AudioStream`, `AudioEdits`, `AudioMixer`). Pulling is
a recursion with a cache and a mark for what is being rendered, over graphs with cycles. The signal processing of a
node is an arbitrary function. `AudioSums` says sample by sample what mixing adds up, `AudioStream` is the stream of
samples that rendering hands out, `AudioEdits` what editing the graph does to it.

**structuredClone** (`CloneGraph`, `Clone`), **URI functions** (`PercentEscape`, `UriCodec`, `UriRuns`),
**URLSearchParams** (`UrlSearchParams`; `UriAlphabets` says of both, letter by letter, what they write and keep),
**the PNG encoder** (`Zlib`, `Crc`, `Png`) and **timers** (`Timers`, `TimerTable`; `TimerRuns` says when each timer
fires).

## What does not hold, and when

- `compute_coverage` leaves one row offset per row and a final one, as documented in
  `runtime/ext_gui/canvas_internal.h:36-37`, except when the box is not empty and every edge is horizontal: the early
  return at `runtime/ext_gui/canvas_coverage.cpp:156` then leaves a single offset. `CanvasGrid.CoverageGrid.Compute`
  states both directions, `CanvasGrid.FlatTriangle` computes the grid of such a path. Readers of the grid such as
  `runtime/ext_gui/canvas_clip.cpp:87-91` rely on the documented size.
- A picture survives PNG encoding exactly if its zlib stream, whose size depends on width and height alone, has at
  most 2^31 - 1 bytes; the encoder always writes a single data chunk with a 32-bit length. `Png.RoundTrip` states both
  directions, `Png.TooLarge` gives a size that fails.
- `decodeURI` and `decodeURIComponent` undo their encoders exactly on well-formed UTF-8. The encoders accept any
  bytes, although section 19.2.6 of ECMA-262 has them throw on lone surrogates; decoding what they made of ill-formed
  bytes throws. `UriCodec.ComponentRoundTrip` and `UriCodec.WholeRoundTrip` state both directions,
  `UriCodec.SurrogateFails` gives the bytes of a surrogate.

## Model

| member | source | states |
|---|---|---|
| GcTheorems.LiveIsClosed | runtime/xt_alloc.c:340-421 | The live set contains the roots and is closed under strong references and the ephemeron rule |
| GcTheorems.LiveIsUnique | runtime/xt_weak.c:9-19 | The live set is the only closed set of blocks that every closed set contains: the specification determines it |
| GcTheorems.IslandIsDead | runtime/xt_weak.c:231-247 | Objects that no root and no outside strong reference names, and that are values only of WeakMap entries whose keys are among them, are dead |
| GcHeap.FixedPoint | runtime/xt_alloc.c:512-518 | An empty worklist and an ephemeron pass that changes nothing leave exactly the live set marked |
| GcHeap.DrainStep | runtime/xt_alloc.c:513-516 | Tracing one gray object keeps every marked object inside every closed set, and leaves fewer objects unmarked or fewer gray |
| GcHeap.Heap.TableBuild | runtime/xt_alloc.c:120-136 | The address table holds every block of the list once, for any hash function, and is at least twice as large as the list |
| GcHeap.Heap.Insert | runtime/xt_alloc.c:130-134 | Inserting by linear probing keeps every earlier block findable |
| GcHeap.Heap.TableLookup | runtime/xt_alloc.c:109-118 | Terminates, and finds the header at an address iff it is in the heap list |
| GcHeap.Heap.GrayPush | runtime/xt_alloc.c:284-295 | Marks a block, and puts it on the worklist exactly if it was not marked |
| GcHeap.Heap.ScanRegion | runtime/xt_alloc.c:317-332 | Adds to the marked set exactly the blocks that some word of the region names, boxed or as a bare address |
| GcHeap.Heap.Process | runtime/xt_alloc.c:340-421 | Adds to the marked set exactly the targets of the block's strong references; `GcRuns.TracedAreStrong` says that these are the pointers in its strong fields |
| GcHeap.Heap.MarkRoots | runtime/xt_alloc.c:478-496 | The roots are marked and gray, and nothing is marked that some closed set lacks |
| GcHeap.Heap.Drain | runtime/xt_alloc.c:513-516 | Empties the worklist; afterwards the marked set is closed under strong references and still inside every closed set |
| GcHeap.Heap.EphemeronEntryPass | runtime/xt_weak.c:239-244 | One entry: without a change it obeys the ephemeron rule, and a change marks an object that every closed set holds |
| GcHeap.Heap.ProcessOnce | runtime/xt_weak.c:231-247 | One pass over all marked WeakMaps: without a change every entry obeys the ephemeron rule, with a change fewer objects are unmarked |
| GcHeap.Heap.Mark | runtime/xt_alloc.c:506-518 | The whole marking phase terminates on every heap and marks exactly the live set |
| GcHeap.Heap.WeakClear | runtime/xt_weak.c:249-256 | A marked WeakRef keeps its target iff the target is marked, and nothing else changes |
| GcHeap.Heap.CompactMap | runtime/xt_weak.c:258-270 | A WeakMap keeps, in order, exactly the entries whose key is marked |
| GcHeap.Heap.CompactSet | runtime/xt_weak.c:271-279 | A WeakSet keeps, in order, exactly the marked members |
| GcHeap.Heap.Unlink | runtime/xt_alloc.c:541-545 | Taking a block out through the link that leads to it leaves the rest of the list and subtracts its size |
| GcHeap.Heap.SweepOne | runtime/xt_alloc.c:530-546 | One block is unmarked and kept, or unlinked and released |
| GcHeap.Heap.Sweep | runtime/xt_alloc.c:522-547 | The list is the marked blocks in their order, all marks are clear, both counters fit |
| GcHeap.Heap.SetThreshold | runtime/xt_alloc.c:552-566 | Twice the live bytes but at least the minimum, unless pinned |
| GcHeap.Heap.Collect | runtime/xt_alloc.c:498-566 | The heap becomes the pruned live part of what it was; list order, counters, threshold and the list invariant are as documented |
| GcHeap.Heap.Alloc | runtime/xt_alloc.c:149-169 | Collects first iff armed and at the threshold, then puts an empty block in front of the list, counts the requested bytes, records the low 32 bits of the size, and stays below the threshold plus the request; the history gets exactly these events |
| GcHeap.Heap.BytesExact | runtime/xt_alloc.c:163-167 | The byte counter is the total of the header sizes iff no request reached 4 GiB, which no caller asks for |
| GcHeap.Heap.constructor | runtime/xt_alloc.c:204-211 | A new heap is empty and not armed; a positive setting of the environment pins the threshold |
| GcHeap.Heap.Arm | runtime/xt_alloc.c:218 | Lets allocations collect from now on; the history starts with the bytes there are |
| GcHeap.Heap.PinThreshold | runtime/xt_alloc.c:220-223 | Fixes the threshold, at least the minimum |
| GcHeap.Heap.CollectionsAmortised | runtime/xt_alloc.c:552-566 | In every heap whose threshold follows it: all the bytes that triggered collections found since arming are at most twice what was requested since then and the heap of that moment once, whatever was allocated before and whatever explicit collections came in between |
| GcHeap.Heap.ThresholdFollows | runtime/xt_alloc.c:552-566 | After a collection the threshold is twice what it left, or 1 MiB where that is more, and stays so |
| GcHistory.Amortised | runtime/xt_alloc.c:552-566 | The same for every history in which triggered collections wait for the heap to double; what the preceding collections had left, summed over the triggered ones, is at most what was requested |
| GcHeader.Header.WeakMapSet | runtime/xt_weak.c:52-75 | Replaces the value of a present key in place or appends; rejects exactly what is no heap value, strings and BigInts |
| GcHeader.Header.WeakMapDelete | runtime/xt_weak.c:77-86 | Removes one entry, keeping the order of the others, iff the key was present |
| GcHeader.Header.WeakSetAdd | runtime/xt_weak.c:122-131 | Adds a member once; rejects exactly what is no heap value, strings and BigInts |
| GcHeader.FillSlot | runtime/xt_alloc.c:130-134 | Filling the slot at which a probe ended keeps every probe sequence intact |
| GcHeader.SurvivorsExactly | runtime/xt_alloc.c:530-547 | A block survives the sweep iff it is in the list and marked |
| GcTheorems.SurvivingInOrder | runtime/xt_weak.c:258-281 | What a compaction keeps are the entries at the kept positions, in order |
| GcTheorems.CollectedSound | runtime/xt_alloc.c:519-547 | After a collection no survivor and no root names an address outside the survivors, through any kind of reference |
| GcTheorems.CollectedNode | runtime/xt_weak.c:249-281 | Field by field, what a survivor keeps: strong fields, WeakRef target, WeakSet members, WeakMap entries |
| GcTheorems.CollectedTwice | runtime/xt_alloc.c:498-566 | A second collection with the same roots changes nothing |
| GcRuns.SafeStep | runtime/xt_alloc.c:498-518 | Allocating, loading any field, writing, forgetting and collecting keep every pointer that the program holds, or that any field of any block holds, valid |
| GcRuns.TracedAreStrong | runtime/xt_alloc.c:340-421 | For every kind of block, what tracing follows are the pointers in the strong fields of that kind, all of them and no others |
| GcRuns.HeldSurvives | runtime/xt_alloc.c:478-496 | Whatever else the stack seems to hold, an object the program holds survives |
| GcRuns.BareAddressSurvives | runtime/xt_alloc.c:317-332 | A bare address on the stack, without a tag, keeps its block alive |
| GcRuns.WeaklyHeldDies | runtime/xt_weak.c:231-256 | An object that no root, slot or scanned word names and that is the value of no WeakMap entry is dead, whatever WeakRefs, WeakSets and WeakMap keys name it |
| GcRuns.EveryRunSafe | runtime/xt_alloc.c:498-547 | In every state of every run no pointer the program holds, or can read from any field of any block, dangles |
| PromiseModel.RemoveKeepsList | runtime/xt_promise.c:92-103 | Swap-removal removes one promise and keeps every other one listed at the position it records |
| PromiseInvariant.AddKeepsList | runtime/xt_promise.c:105-114 | Adding lists an unobserved promise once, at the recorded position |
| PromiseInvariant.ObserveKeeps | runtime/xt_promise.c:117-121 | Observing delists and changes nothing else |
| PromiseInvariant.NewKeeps | runtime/xt_promise.c:128-139 | A new promise has no reactions, and no coroutine owns it |
| PromiseInvariant.OutstandingSettled | runtime/xt_promise.c:220-227 | Settling moves reactions to the queue without losing or making any |
| PromiseInvariant.SettleKeeps | runtime/xt_promise.c:220-227 | Settling a promise keeps the invariant, whether or not it was settled already |
| PromiseInvariant.ResolveKeeps | runtime/xt_promise.c:192-218 | Resolving with a value or by following another promise keeps the invariant |
| PromiseInvariant.ThenKeeps | runtime/xt_promise.c:479-503 | Subscribing, before or after the promise settled, keeps the invariant |
| PromiseSteps.CallAsyncKeeps | runtime/xt_async.c:80-103 | The promise of a new async call is known to nobody who could settle it |
| PromiseSteps.AwaitKeeps | runtime/xt_async.c:124-160 | An await of any value suspends the coroutine with exactly one wake reaction, on the promise or in the queue |
| PromiseSteps.FinishKeeps | runtime/xt_async.c:68-78 | The end of a body, by return or by throw, keeps the invariant: nothing is left that could resume it |
| PromiseSteps.ResumeKeeps | runtime/xt_async.c:105-119 | Taking a wake reaction resumes the coroutine that was suspended on it, and no other |
| PromiseSteps.RunNextKeeps | runtime/xt_promise.c:229-256 | One round of the microtask loop, up to the call of a handler, keeps the invariant |
| PromiseSteps.ReturnKeeps | runtime/xt_promise.c:246-250 | The return of a handler, with any value, keeps the invariant |
| PromiseSteps.ResetKeeps | runtime/xt_promise.c:256-258 | Resetting the queue when it is used up loses nothing |
| PromiseSteps.TakeOutstanding | runtime/xt_promise.c:230-231 | The reaction taken next is nowhere else, and outstanding identities are unique |
| PromiseHistory.SettleForward | runtime/xt_promise.c:220-227 | Settling changes no settled promise and keeps the reactions of one promise in order |
| PromiseHistory.AwaitForward | runtime/xt_async.c:124-160 | An await undoes nothing: promises, histories and outstanding reactions only move on |
| PromiseHistory.RunNextForward | runtime/xt_promise.c:229-256 | A round of the loop undoes nothing, and what it takes is recorded as run |
| PromiseRuns.StepKeeps | runtime/xt_promise.c:192-259 | Every step of a program keeps the invariant and undoes nothing |
| PromiseRuns.EveryState | runtime/xt_promise.c:192-259 | Every state of every run satisfies the invariant, and the reactions of each promise are queued in the order of registration |
| PromiseRuns.EveryRun | runtime/xt_promise.c:220-227 | Over any stretch of any run settled promises keep state and value, finished bodies stay finished, and a reaction is outstanding until it has run |
| PromiseRuns.OneWake | runtime/xt_async.c:124-160 | A suspended coroutine has exactly one outstanding wake reaction; a running or finished one has none |
| PromiseRuns.NothingLost | runtime/xt_promise.c:275-329 | With the queue empty, a suspended coroutine waits in the list of a pending promise |
| PromiseRuns.RunsOnce | runtime/xt_promise.c:229-256 | No reaction runs twice or is both outstanding and run |
| PromiseRuns.RunsInOrder | runtime/xt_promise.c:52-59 | First in, first out; the callbacks of one promise run in the order of registration |
| PromiseRuns.PendingUntilDone | runtime/xt_async.c:68-78 | The promise of an async call is pending until its body has finished |
| PromiseRuns.UnhandledExactly | runtime/xt_promise.c:73-121 | The unhandled list is exactly the rejected promises nobody observes, each once, at its recorded position |
| PromiseOutcomes.SettleOutcome | runtime/xt_promise.c:220-227 | The first settlement determines the outcome, later ones change nothing |
| PromiseOutcomes.ResolveOutcome | runtime/xt_promise.c:192-218 | A pending promise takes a plain value or the outcome of a settled promise, or registers with a pending one a reaction that will pass its outcome on |
| PromiseOutcomes.ThenRegisters | runtime/xt_promise.c:479-503 | Exactly one reaction with the two callbacks and a new pending result promise is registered |
| PromiseOutcomes.PassesOn | runtime/xt_promise.c:245-255 | Without a callback for it, an outcome goes on to the result promise as it is |
| PromiseOutcomes.FinishOutcome | runtime/xt_async.c:68-78 | A body that throws rejects the promise of its call; one that returns fulfils it, or makes it take or follow the outcome of the promise it returned |
| PromiseOutcomes.ReturnOutcome | runtime/xt_promise.c:246-250 | The promise of a `then`, while pending, is fulfilled with what the handler returns, or takes or follows the outcome of the promise it returned |
| PromiseOutcomes.HandlersMatch | runtime/xt_promise.c:229-250 | In every run, the handler that runs is the one for the outcome of its promise, and its argument is the value |
| PromiseOutcomes.AwaitRegisters | runtime/xt_async.c:124-160 | An await registers a reaction that delivers the outcome of what is awaited, for plain values, settled and pending promises |
| PromiseOutcomes.ResumeOutcome | runtime/xt_async.c:105-119 | Resuming hands over value and kind of the outcome of the reaction's promise |
| PromiseOutcomes.AwaitDelivers | runtime/xt_async.c:124-160 | In every run, whatever happens between suspension and resumption, an await yields exactly the value, or throws exactly the reason, of what it awaited |
| PromiseCalls.CallbackIsCalled | runtime/xt_promise.c:229-250 | In every run, a round that takes a reaction with a callback for the outcome of its promise enters that callback with the value of the promise, and changes no promise |
| PromiseCalls.CalledOnce | runtime/xt_promise.c:229-256 | In every run, every reaction that ran with a callback for its outcome was called in exactly one step, with the value of its promise |
| PromiseUnhandled.StepObserves | runtime/xt_promise.c:117-121 | A promise becomes observed exactly when somebody subscribes to it, awaits it or follows it |
| PromiseUnhandled.ReportedIffUnheard | runtime/xt_promise.c:73-121 | In every run, a promise is on the list of unhandled rejections iff it is rejected and nobody has ever listened to it |
| PromiseRuntime.Runtime.MicrotaskPush | runtime/xt_promise.c:52-59 | The queue in the array grows by one reaction at its end and keeps its contents when the array is replaced by a larger one |
| PromiseRuntime.Runtime.UnhandledRemove | runtime/xt_promise.c:92-103 | Moves the last promise into the gap, in place |
| PromiseRuntime.Runtime.UnhandledAdd | runtime/xt_promise.c:105-114 | Lists a promise unless it is observed or listed |
| PromiseRuntime.Runtime.Observe | runtime/xt_promise.c:117-121 | Marks and delists |
| PromiseRuntime.Runtime.NewPromise | runtime/xt_promise.c:128-139 | A pending promise at a new address |
| PromiseRuntime.Runtime.ResolveInto | runtime/xt_promise.c:192-218 | Settles with a plain value, adopts a settled promise, or registers with a pending one |
| PromiseRuntime.Runtime.Settle | runtime/xt_promise.c:220-227 | First settlement wins; reactions go to the queue in order |
| PromiseRuntime.Runtime.RunNext | runtime/xt_promise.c:229-256 | Takes one reaction and resumes, calls or passes the outcome on; a function among the callbacks is called with the value of the promise |
| PromiseRuntime.Runtime.ReturnHandler | runtime/xt_promise.c:246-250 | The result promise follows what the handler returned |
| PromiseRuntime.Runtime.ResetQueue | runtime/xt_promise.c:256-258 | Starting over at the front of the same array stands for an empty queue |
| PromiseRuntime.Runtime.QueueAsyncWake | runtime/xt_promise.c:275-289 | Queues a wake through a settled, observed promise of its own |
| PromiseRuntime.Runtime.Then | runtime/xt_promise.c:479-503 | Observes, then registers with a pending promise or queues at once |
| PromiseRuntime.Runtime.AsyncCall | runtime/xt_async.c:80-103 | Starts a coroutine with a promise of its own |
| PromiseRuntime.Runtime.Await | runtime/xt_async.c:124-160 | Suspends on a pending promise or behind the queue |
| PromiseRuntime.Runtime.AsyncWake | runtime/xt_async.c:105-119 | Hands over the outcome and resumes, unless the body has finished |
| PromiseRuntime.Runtime.Finish | runtime/xt_async.c:68-78 | Resolves or rejects the promise of the call |
| WorkerPool.SubmitKeeps | runtime/xt_async_io.c:286-314 | Submitting registers and queues a job and wakes a sleeping worker if there is one |
| WorkerPool.LookKeeps | runtime/xt_async_io.c:232-240 | A worker takes the oldest job or goes to sleep |
| WorkerPool.FinishKeeps | runtime/xt_async_io.c:241-244 | A job that has run is queued as completed |
| WorkerPool.PhaseKeeps | runtime/xt_async_io.c:236-245 | Spurious wakeups and writing the wakeup byte |
| WorkerPool.TakeKeeps | runtime/xt_async_io.c:316-323 | The main thread takes the oldest completed job |
| WorkerPool.CallbackKeeps | runtime/xt_async_io.c:323-327 | The end of a callback unregisters and releases its job, which was registered |
| WorkerPool.PollStartKeeps | runtime/xt_async_io.c:316-317 | Draining the pipe loses no announcement, because the poll looks at the queue afterwards |
| WorkerPool.PollEndKeeps | runtime/xt_async_io.c:328-333 | The pipe is watched exactly while jobs are pending |
| WorkerPool.StepKeeps | runtime/xt_async_io.c:232-333 | Every step of every thread keeps the invariant |
| WorkerRuns.EveryRun | runtime/xt_async_io.c:232-333 | Every state of every interleaving satisfies it |
| WorkerRuns.LiveExactly | runtime/xt_async_io.c:203-222 | The registry whose roots are scanned is exactly the jobs queued, running, done or in their callback, each once, and `pending` counts it |
| WorkerRuns.Lifecycle | runtime/xt_async_io.c:232-333 | Each job is run, completed and released at most once, in this order; jobs start in the order of submission |
| WorkerRuns.UsefulDecreases | runtime/xt_async_io.c:232-333 | Every useful step decreases a measure |
| WorkerRuns.Progress | runtime/xt_async_io.c:232-247 | While a job is pending some useful step is possible: no wakeup is lost |
| WorkerRuns.Bounded | runtime/xt_async_io.c:232-333 | Useful steps cannot go on beyond the measure |
| WorkerRuns.Drained | runtime/xt_async_io.c:316-333 | When no useful step is left, the pool is empty and every submitted job was released once |
| WorkerQueues.Queues.PushWork | runtime/xt_async_io.c:171-176 | Appends to the linked queue of jobs |
| WorkerQueues.Queues.PushDone | runtime/xt_async_io.c:178-183 | Appends to the linked queue of completions |
| WorkerQueues.Queues.PopWork | runtime/xt_async_io.c:185-191 | Takes the oldest job, or null exactly if there is none |
| WorkerQueues.Queues.PopDone | runtime/xt_async_io.c:193-199 | Takes the oldest completion, or null exactly if there is none |
| WorkerQueues.Queues.LiveAdd | runtime/xt_async_io.c:203-208 | Puts a job in front of the doubly linked registry |
| WorkerQueues.Queues.LiveRemove | runtime/xt_async_io.c:210-216 | Takes a job out of the registry wherever it is |
| WorkerQueues.Queues.Submit | runtime/xt_async_io.c:286-314 | Starts the workers with the first job; registers a job and queues it, or completes it at once if no worker could be created; releases a job without work and leaves everything else as it was |
| WorkerQueues.Queues.ScanRoots | runtime/xt_async_io.c:218-222 | The walk over the registry visits every live job once |
| CanvasGeometry.PointInLoops | runtime/ext_gui/canvas_clip.cpp:25-42 | The hit test counts exactly the crossings to the right of the point |
| CanvasGeometry.ClosedLoopsBalance | runtime/ext_gui/canvas_clip.cpp:25-42 | On every scanline the windings of closed loops sum to zero and the crossings are even in number |
| CanvasGeometry.LeftAndRight | runtime/ext_gui/canvas_coverage.cpp:196-211 | Off the crossings, left and right windings are complementary |
| CanvasGeometry.SmallLoopsDoNotMatter | runtime/ext_gui/canvas_coverage.cpp:131-132 | Loops of two points, which only hit testing looks at, have no inside |
| CanvasTriangle.CrossingOnEdge | runtime/ext_gui/canvas_clip.cpp:34 | The crossing lies on the line through both ends of the edge |
| CanvasTriangle.TriangleInside | runtime/ext_gui/canvas_clip.cpp:25-42 | A point on no edge's line is inside a triangle, by either rule, iff it is on the same side of all three edges |
| CanvasTriangle.TurnOf | runtime/ext_gui/canvas_clip.cpp:25-42 | For any loop, an edge counts iff it passes the scanline of the point and has the point on its inner side, by the sign of a cross product |
| CanvasSpans.InsertInOrder | runtime/ext_gui/canvas_coverage.cpp:68-76 | One insertion keeps the elements and extends the sorted part |
| CanvasSpans.InsertionSort | runtime/ext_gui/canvas_coverage.cpp:61-77 | In place, sorted and a permutation |
| CanvasSpans.EvenOddMeaning | runtime/ext_gui/canvas_coverage.cpp:196-204 | Every other gap between sorted crossings is the odd part |
| CanvasSpans.NonzeroScanMeaning | runtime/ext_gui/canvas_coverage.cpp:205-211 | After any prefix of the sorted crossings, the closed spans and the one still open are exactly where the winding is nonzero |
| CanvasSpans.SpansMeanInside | runtime/ext_gui/canvas_coverage.cpp:196-211 | For balanced sorted crossings, a point off them is in a span iff the crossings put it inside |
| CanvasSpans.SpansOrdered | runtime/ext_gui/canvas_coverage.cpp:196-211 | The spans of a sub-scanline are disjoint and in order |
| CanvasSpans.CoverageBound | runtime/ext_gui/canvas_coverage.cpp:39-56 | Disjoint spans overlap a pixel by at most its width |
| CanvasSpans.FullCoverage | runtime/ext_gui/canvas_coverage.cpp:39-56 | Spans that contain every point of a pixel overlap it completely |
| CanvasSpans.SameLength | runtime/ext_gui/canvas_coverage.cpp:39-56 | Lists of spans that contain the same points, up to finitely many, overlap every pixel equally |
| CanvasEdges.EdgeMeaning | runtime/ext_gui/canvas_coverage.cpp:138-151 | The rasteriser's crossing of an edge is the hit test's, with the same direction |
| CanvasEdges.BuildEdges | runtime/ext_gui/canvas_coverage.cpp:131-156 | The edge list has the crossings of all loops on every scanline, and is empty iff all edges are horizontal |
| CanvasEdges.UpdateActive | runtime/ext_gui/canvas_coverage.cpp:170-180 | After admission and in-place removal the list holds exactly the edges that start by the row and do not end above it |
| CanvasEdges.ActiveSuffices | runtime/ext_gui/canvas_coverage.cpp:168-180 | The active edges have all crossings that a scan of all edges has |
| CanvasCoverage.SampleSpans | runtime/ext_gui/canvas_coverage.cpp:182-211 | The spans of a sub-scanline are the points that hit testing puts inside, off finitely many crossings |
| CanvasCoverage.AddSpan | runtime/ext_gui/canvas_coverage.cpp:39-56 | Adds to every pixel of the row the overlap with the span, partial pixels at both ends included |
| CanvasCoverage.ComputeRow | runtime/ext_gui/canvas_coverage.cpp:182-237 | A row stores a quarter of the summed overlaps with its four sub-scanlines, in its extent only; `CanvasArea.StoredIsMeanLength` says where these lie |
| CanvasCoverage.RowInUnit | runtime/ext_gui/canvas_coverage.cpp:229-237 | Stored coverage lies between 0 and 1 |
| CanvasCoverage.CoverageAgreesWithHitTest | runtime/ext_gui/canvas_coverage.cpp:182-237 | A pixel wholly inside for hit testing is fully covered, one wholly outside not at all |
| CanvasGrid.BoundingBox | runtime/ext_gui/canvas_coverage.cpp:89-107 | All points lie in the computed ranges, and the ranges reach from point to point |
| CanvasGrid.NotInsideBeyond | runtime/ext_gui/canvas_coverage.cpp:108-115 | Beyond the ranges nothing is inside |
| CanvasGrid.CoverageGrid.Compute | runtime/ext_gui/canvas_coverage.cpp:81-238 | The box is the range of the points rounded outwards and clipped, outside it no pixel has an inside, every row is correct at its offset, and a grid with a box has one offset more than rows iff some edge is not horizontal |
| CanvasGrid.CoverageGrid.ChooseBox | runtime/ext_gui/canvas_coverage.cpp:89-118 | The box is the range of the points rounded outwards to whole pixels and clipped to the canvas, or empty |
| CanvasGrid.FlatTriangle | runtime/ext_gui/canvas_coverage.cpp:156-157 | The grid computed for a concrete path has one row and a single offset |
| CanvasArea.StoredIsMeanLength | runtime/ext_gui/canvas_coverage.cpp:182-237 | What is stored for a pixel is the mean of the lengths inside it on the lines at 0.125, 0.375, 0.625 and 0.875 of its height, whatever spans describe these |
| CanvasArea.RectangleArea | runtime/ext_gui/canvas_coverage.cpp:182-237 | For a rectangle with top and bottom on quarters of a pixel, by either rule, every pixel of a correct row stores exactly the area in common |
| CanvasArea.CoverRectangle | runtime/ext_gui/canvas_coverage.cpp:81-238 | Computing the coverage of such a rectangle gives every pixel of the canvas its area, inside the box or not |
| AudioGraph.Pull | runtime/ext_gui/audio_mixer.cpp:327-492 | Pulling terminates on every graph; outputs only grow, and the node has one unless it is being rendered further up |
| AudioGraph.PullKeeps | runtime/ext_gui/audio_mixer.cpp:327-492 | Every output solves the equation of its node; cut connections close cycles; the order of stepping is topological |
| AudioQuantum.EachOnce | runtime/ext_gui/audio_mixer.cpp:327-349 | Each node's state steps exactly once per quantum, whatever its fan-out, on every graph |
| AudioQuantum.ExactlyReached | runtime/ext_gui/audio_mixer.cpp:315-325 | The stepped nodes are exactly those that feed the destination |
| AudioQuantum.SilentIffCycle | runtime/ext_gui/audio_mixer.cpp:330-333 | A connection is silent only on a cycle, and some connection is iff there is a cycle |
| AudioQuantum.AcyclicAgrees | runtime/ext_gui/audio_mixer.cpp:327-349 | If no connection that feeds the destination closes a cycle, every output equals the plain recursive definition along any ranking of the nodes, and there is one |
| AudioSums.PullAllAdds | runtime/ext_gui/audio_mixer.cpp:341-349 | Pulling inputs, on every graph, yields sample by sample the real sum of their outputs |
| AudioSums.OrderDoesNotMatter | runtime/ext_gui/audio_mixer.cpp:347-349 | Inputs that are connected in another order sum up to the same |
| AudioSums.QuantumAdds | runtime/ext_gui/audio_mixer.cpp:327-349 | In every quantum of every graph each node that mixes is stepped with the sum of what its inputs put out, without the connections that close a cycle |
| AudioMixer.AudioMixer.Pull | runtime/ext_gui/audio_mixer.cpp:327-333 | The recursion over marks and caches computes the pull of the graph it stands for |
| AudioMixer.AudioMixer.PullNode | runtime/ext_gui/audio_mixer.cpp:334-491 | A node that was not met yet is marked, pulled if it mixes, stepped and cached, as the pull of the graph says |
| AudioMixer.AudioMixer.PullInputs | runtime/ext_gui/audio_mixer.cpp:341-349 | Every sample is the real sum of that sample of the outputs of the inputs that exist, silent connections counting as zero |
| AudioMixer.AudioMixer.FinishRendering | runtime/ext_gui/audio_mixer.cpp:489-491 | The node is stepped, cached and unmarked |
| AudioMixer.AudioMixer.RenderQuantum | runtime/ext_gui/audio_mixer.cpp:315-325 | A quantum is the output of the destination, or silence without one |
| AudioMixer.AudioMixer.Render | runtime/ext_gui/audio_mixer.cpp:287-302 | Copying piecewise out of quanta yields the next samples of the stream, none lost or repeated |
| AudioStream.SamplesSplit | runtime/ext_gui/audio_mixer.cpp:287-312 | How a stretch is cut into requests makes no difference |
| AudioStream.FramesAccount | runtime/ext_gui/audio_mixer.cpp:287-325 | Twice the frame counter is what was handed out and what is waiting, however rendering is cut into requests |
| AudioMixer.AudioMixer.Connect | runtime/ext_gui/audio_mixer.cpp:122-131 | Adds a connection between existing nodes, unless it is there |
| AudioMixer.AudioMixer.Disconnect | runtime/ext_gui/audio_mixer.cpp:133-138 | Removes a connection in place |
| AudioMixer.AudioMixer.CreateNode | runtime/ext_gui/audio_mixer.cpp:64-120 | A new node has a new number and is connected to nothing; a destination node becomes the destination, and with any other kind all samples to come are as they would have been |
| AudioMixer.SourcesAre | runtime/ext_gui/audio_mixer.cpp:341-343 | Exactly oscillators, buffer sources and constant sources ignore what is connected to them |
| AudioEdits.NewNodeSilent | runtime/ext_gui/audio_mixer.cpp:117-119 | A node that is not the destination and that no connection names changes no sample |
| AudioEdits.NewDestinationQuiet | runtime/ext_gui/audio_mixer.cpp:118 | After a new destination the rest of the rendered quantum is heard, and then silence until something is connected |
| AudioEdits.StaysSimple | runtime/ext_gui/audio_mixer.cpp:122-138 | No node is ever connected to another twice |
| AudioEdits.ConnectOnce | runtime/ext_gui/audio_mixer.cpp:122-138 | Connecting is idempotent, and disconnecting undoes a new connection |
| AudioEdits.ConnectsOnly | runtime/ext_gui/audio_mixer.cpp:122-138 | Connecting and disconnecting change one connection and no other |
| Clone.Context.Lookup | runtime/xt_structured_clone.c:39-44 | Finds the clone of an object iff it has one |
| Clone.Context.Remember | runtime/xt_structured_clone.c:46-58 | Registers a fresh clone before it is filled |
| Clone.Context.CloneArray | runtime/xt_structured_clone.c:60-152 | Items are cloned one by one onto the registered clone |
| Clone.Context.CloneMap | runtime/xt_structured_clone.c:60-152 | Entries are set in order; distinct keys stay distinct, so size and order are kept |
| Clone.Context.CloneSet | runtime/xt_structured_clone.c:60-152 | Members are added in order and stay distinct |
| Clone.Context.CloneRecord | runtime/xt_structured_clone.c:60-152 | Fields keep their names and order |
| Clone.Context.CloneValue | runtime/xt_structured_clone.c:60-152 | Terminates on every graph; called with the value itself as the start, it extends the memo by exactly what the value leads to without passing an object that had a clone, and fails iff one of these cannot be cloned |
| Clone.Context.StructuredClone | runtime/xt_structured_clone.c:154-159 | Returns an isomorphic copy of everything the value leads to and of nothing else, leaves the source as it was, and fails iff something it leads to cannot be cloned |
| CloneGraph.FollowCopy | runtime/xt_structured_clone.c:60-152 | Every path leads in the copy to the image of what it leads to in the source |
| CloneGraph.SharingPreserved | runtime/xt_structured_clone.c:39-58 | Two paths meet in the copy iff they meet in the source |
| CloneGraph.CopyIsApart | runtime/xt_structured_clone.c:60-152 | No object of the source is part of the copy |
| CloneGraph.SameKeyIs | runtime/xt_stdlib2/helpers.inc:19-27 | Keys of Maps and Sets are the same iff they are equal or the two zeros |
| UriCodec.Encode | runtime/xt_builtins.c:212-235 | Keeps allowed bytes and escapes the others |
| UriCodec.Decode | runtime/xt_builtins.c:246-313 | The index loop decodes unit by unit and fails on the first malformed one |
| UriCodec.Continue | runtime/xt_builtins.c:283-295 | Reads the continuation bytes of one character, or fails |
| UriCodec.AcceptableIsGrammar | runtime/xt_builtins.c:296-306 | The code-point arithmetic accepts exactly the byte sequences of the grammar in section 4 of RFC 3629 |
| UriCodec.DecodedEncoded | runtime/xt_builtins.c:208-313 | For every set of kept ASCII characters: decoding undoes encoding iff the bytes are well-formed UTF-8, and fails otherwise |
| UriCodec.ComponentRoundTrip | runtime/xt_builtins.c:315-318 | The same for `encodeURIComponent` and `decodeURIComponent` |
| UriCodec.WholeRoundTrip | runtime/xt_builtins.c:320-331 | The same for `encodeURI` and `decodeURI`, reserved characters included |
| UriCodec.SurrogateFails | runtime/xt_builtins.c:208-313 | The encoded form of a surrogate is written as escapes, and they do not decode |
| UriRuns.DecodedByRuns | runtime/xt_builtins.c:246-313 | On every string, decoding copies text, reads each run of neighbouring escapes as one piece of UTF-8, which has to be well-formed, keeps the escapes of kept characters as they were written, and rejects a percent sign that begins no escape |
| UriRuns.EscapesAccepted | runtime/xt_builtins.c:246-313 | A string of escapes, with hexadecimal digits of either case, is accepted iff the escaped bytes are well-formed UTF-8, and stands for them |
| UriCodec.DecodedWellFormed | runtime/xt_builtins.c:246-313 | Decoding well-formed UTF-8 yields well-formed UTF-8 |
| PercentEscape.EscapeReads | runtime/xt_builtins.c:226-242 | Two hexadecimal digits read back as the byte they were written for |
| UriAlphabets.DigitsRead | runtime/xt_builtins.c:212-242 | Digits are written in upper case and read in either, and no other character is a digit |
| UriAlphabets.KeptAre | runtime/xt_builtins.c:269-331 | Which characters are left alone by `encodeURIComponent`, by `encodeURI` and by form encoding, and which escapes `decodeURI` keeps |
| UriAlphabets.EncodedWrites | runtime/xt_builtins.c:212-235 | Encoded text has only percent signs and characters that are left alone, and for `encodeURIComponent` no reserved one |
| UriAlphabets.UnchangedIff | runtime/xt_builtins.c:212-235 | Encoding changes nothing iff every character is one that is left alone |
| UriAlphabets.DecodedAscii | runtime/xt_builtins.c:268-279 | An escaped ASCII character is decoded, but `decodeURI` keeps the escape, as it was written, of exactly the reserved ones |
| UrlSearchParams.Encode | runtime/xt_url.c:22-46 | Form encoding byte by byte |
| UrlSearchParams.Decode | runtime/xt_url.c:55-79 | Lenient form decoding of a range: what is no escape stands for itself |
| UrlSearchParams.DecodedEncoded | runtime/xt_url.c:22-79 | Decoding undoes encoding for every byte string |
| UrlSearchParams.EncodedIsSafe | runtime/xt_url.c:17-46 | Encoded text contains no separator and no question mark |
| UrlSearchParams.Params.ParseInto | runtime/xt_url.c:104-126 | Appends the parsed pairs to the entries and sets the size |
| UrlSearchParams.Params.ToString | runtime/xt_url.c:280-295 | Serialises the entries in order |
| UrlSearchParams.RoundTrip | runtime/xt_url.c:104-126 | Parsing the serialisation of any list of pairs of byte strings gives the list |
| UrlSearchParams.NormalForm | runtime/xt_url.c:280-295 | Serialising what was parsed is a normal form |
| UrlSearchParams.QuestionMarkSkipped | runtime/xt_url.c:109 | A leading question mark makes no difference |
| UrlSearchParams.ItemsConcat | runtime/xt_url.c:111-124 | For any two texts, what stands on both sides of an ampersand is parsed independently, in order |
| UrlSearchParams.ItemSplit | runtime/xt_url.c:114-122 | An item is split at its first equals sign; without one the value is empty, and an empty item is skipped |
| UrlSearchParams.DecodedUnchanged | runtime/xt_url.c:55-79 | Decoding leaves a text alone iff it has no plus sign and no escape |
| UriAlphabets.FormWrites | runtime/xt_url.c:17-46 | Form-encoded text has only letters, digits, `*-._`, plus signs and percent signs |
| UriAlphabets.FormUnchangedIff | runtime/xt_url.c:17-46 | Form encoding changes nothing iff the text has only letters, digits and `*-._` |
| UriAlphabets.FormSpace | runtime/xt_url.c:33-34 | A space becomes a plus sign wherever it stands |
| Zlib.ComputeAdler32 | runtime/ext_gui/canvas_image_data.cpp:86-94 | The loop stays within 32 bits and computes the two sums of section 8.2 of RFC 1950 modulo 65521 |
| Zlib.Store | runtime/ext_gui/canvas_image_data.cpp:97-115 | The loop writes stored blocks, the last one marked, and the checksum |
| Zlib.InflateBlocks | runtime/ext_gui/canvas_image_data.cpp:101-112 | A reader of stored blocks per section 3.2.4 of RFC 1951 recovers the data and stops at the final block |
| Zlib.RoundTrip | runtime/ext_gui/canvas_image_data.cpp:97-115 | An independent reader of the stream recovers every data |
| Zlib.CutStored | runtime/ext_gui/canvas_image_data.cpp:97-115 | A stream that was cut off anywhere is rejected |
| Crc.Compute | runtime/ext_gui/canvas_image_data.cpp:58-67 | The bit loop computes the complement of the remainder of the message, times x^32 and with its first 32 bits complemented, divided by the CRC-32 polynomial |
| Crc.RegisterIsRemainder | runtime/ext_gui/canvas_image_data.cpp:60-65 | After every byte the register holds the remainder of what was read |
| Crc.SumRemainder | runtime/ext_gui/canvas_image_data.cpp:62-64 | The remainder of a sum of polynomials is the sum of the remainders |
| Crc.BurstNoticed | runtime/ext_gui/canvas_image_data.cpp:58-67 | Damage within 32 neighbouring bits changes the checksum |
| Png.DamageIsNoticed | runtime/ext_gui/canvas_image_data.cpp:76-84 | The reader rejects a chunk whose type and data were damaged within 32 neighbouring bits |
| Png.AppendChunk | runtime/ext_gui/canvas_image_data.cpp:76-84 | Length, type, data and CRC of type and data |
| Png.ChunkReads | runtime/ext_gui/canvas_image_data.cpp:69-84 | A reader of chunks per section 5.3 of the PNG specification recovers type and data and the place of the next chunk |
| Png.RowsRead | runtime/ext_gui/canvas_image_data.cpp:136-141 | Removing the filter bytes recovers the pixels |
| Png.EncodePng | runtime/ext_gui/canvas_image_data.cpp:119-145 | Writes signature and chunks, and fails iff the picture is empty |
| Png.RoundTrip | runtime/ext_gui/canvas_image_data.cpp:119-145 | An independent reader recovers size and pixels iff the stream of that many pixels fits into one chunk, and rejects the file otherwise |
| Png.FileBegins | runtime/ext_gui/canvas_image_data.cpp:119-134 | Byte by byte, the signature and the header that every file begins with |
| Png.StreamSizeIs | runtime/ext_gui/canvas_image_data.cpp:97-141 | The size of the stream as a function of width and height |
| Png.TooLarge | runtime/ext_gui/canvas_image_data.cpp:76-84 | No picture of 23171 by 23171 pixels comes back |
| Zlib.BlocksLength | runtime/ext_gui/canvas_image_data.cpp:101-112 | Stored blocks add five bytes for every 65535 bytes begun |
| Timers.StepKeeps | runtime/xt_loop.c:168-280 | Adding, cancelling, compacting and firing keep the table sorted by unique ids |
| Timers.FiresOnce | runtime/xt_loop.c:263-280 | In every run a timer without interval fires at most once; a pass fires each timer at most once and none created after it began |
| Timers.NeverCancelled | runtime/xt_loop.c:209-217 | What fires was due, was not cancelled and had not fired for good |
| Timers.PassIsComplete | runtime/xt_loop.c:263-280 | A pass fires everything that was due when it began unless it was cancelled |
| TimerRuns.DueAsPlanned | runtime/xt_loop.c:185-280 | In every state of every run the table schedules each timer as its history says: its delay after it was created, its interval after the begin of each pass that fires it, never once it is over or cancelled |
| TimerRuns.NeverEarly | runtime/xt_loop.c:263-280 | In every run a timer that was added at some time fires in no pass that begins before its delay is over |
| TimerRuns.IntervalsApart | runtime/xt_loop.c:272-274 | In every run two passes that fire the same timer begin at least its interval apart, and without an interval there are none |
| TimerRuns.DueAfterDelay | runtime/xt_loop.c:203-204 | Until it fires or is cancelled a timer is due exactly its delay after it was created |
| TimerRuns.DueAfterInterval | runtime/xt_loop.c:272-274 | An interval timer that fired is due exactly its interval after the begin of that pass, until it fires again or is cancelled |
| TimerRuns.FiresWhenDue | runtime/xt_loop.c:263-280 | A timer that is scheduled for the begin of a pass or earlier is fired by it, unless it is cancelled during the pass |
| Timers.NextDueIsLeast | runtime/xt_loop.c:158-166 | The next deadline is the least of the active timers, or -1 exactly if there is none |
| Timers.WaitIsBounded | runtime/xt_loop.c:396-415 | A poll waits without limit iff there is no timeout, no active timer and no job; otherwise beyond neither the timeout, nor the time of any active timer, nor 10 ms with jobs, and as long as they allow |
| TimerTable.Table.AddTimer | runtime/xt_loop.c:185-207 | Appends with a new id, growing the array |
| TimerTable.Table.CancelTimer | runtime/xt_loop.c:209-217 | Deactivates the first active timer with the id and says whether there was one |
| TimerTable.Table.CompactInPlace | runtime/xt_loop.c:168-182 | Moves active timers to the front, in order |
| TimerTable.Table.NextDueTime | runtime/xt_loop.c:158-166 | The scan finds the earliest deadline |
| TimerTable.Table.RunSlot | runtime/xt_loop.c:268-279 | Fires a due timer: sets its next time or deactivates it; `TimerRuns.DueAfterInterval` says when it is due again |

## Left out

Collector:

- Conservative scanning is a sequence of given words; finding the stack, registers, `setjmp` and fibers are not
  modelled.
- Reallocation of arrays, `size_t` overflow and running out of memory.
- Tracing output, and what `xt_gc_init` does besides reading the threshold.
- The hash mask: slots are taken modulo the capacity, for any hash function.

Promises and coroutines:

- Handlers that throw: the loop calls them without a try frame, so the code shown has no rejection path for them.
- `Promise.all` and its relatives, `finally`, async generators, and the report of unhandled rejections.
- Top-level `await`, which blocks on the event loop instead of suspending.
- The collection of queued reactions. Coroutine records and the native stack are values; the index 0xFFFFFFFF for a
  promise that is not listed is -1.
- PromiseSteps.RunNextKeeps: the call of a handler and its return are two steps, with any steps in between.

Worker pool:

- WorkerPool.StepKeeps: the wakeup channel is assumed to work once created; the periodic poll of the event loop, which
  stands in for it otherwise, is not needed for the results.
- WorkerRuns.Lifecycle: without any worker thread jobs complete without running, as in the source; the parts about
  running are stated for pools with workers.
- What jobs do, and the roots they carry.

Canvas:

- Floating-point rounding: coordinates and coverage are real numbers.
- The library sort that the source uses above 16 crossings is replaced by the same insertion sort.
- Strokes, blending, clip masks and the point-in-stroke test.

Audio:

- The formulas of the nodes, parameters, clips and start and stop times: a node's state steps by an arbitrary function
  of node, time, state and input.
- Floating-point sums, the device and the locks; `disconnect_all`.

structuredClone:

- Typed arrays, which the source does not put into its memo, getters, dates and regular expressions.

Codecs:

- Conversion of values to strings; strings are byte strings.
- The other methods of URLSearchParams.

Timers:

- A pass that begins inside a callback of another pass: it would compact the table under the outer pass, and the
  results do not extend to it.
- Callback arguments, descriptors and the clock, which is a number that does not decrease.
