# Verified models of the tensor runtime and of the master's network layer

Two stacks of the repository are modelled, each from the bottom up.

**Tensors and backpropagation.** A mutex-and-condition-variable thread pool, the parallel loop built on
it, strided kernels, tensors, layers and layer stacks.

* `pool_model.dfy` gives the pool as a step system: one step is one critical section, one notification
  or one action of a running body, so a run is any schedule of any number of workers (also none) and
  callers, with spurious wake-ups, and bodies that enqueue further bodies and wait for their futures.
  `pool_inv.dfy` proves its invariant. `pool_nesting.dfy` counts the bodies that wait for others and says
  what a deadlock is; `pool_progress.dfy` proves termination, absence of stuck states, and drain on stop.
  `pool_hangs.dfy`, `pool_bodies.dfy`, `pool_width.dfy` and `pool_stop.dfy` show exactly when calls and `stop`
  return; `pool_fairness.dfy` and `pool_fair_runs.dfy` prove that calls return in bounded time although others
  keep calling; `pool_work.dfy` proves that work is conserved through nested enqueues, and the order in which
  futures are got; `thread_pool.dfy` is the pool as an object whose methods perform the steps.
* `chunking.dfy` and `parallel_for.dfy` are `ParallelFor`: the cut into ranges, and the call through the
  pool. A call returns the order in which its elements were processed; the contract says that this
  order hits every element exactly once.
* `kernels.dfy` and `reductions.dfy` run the kernels' bodies on arrays in such an order, one element at a
  time. Their contracts fix the whole final buffer, so neither the schedule nor the pool size can show;
  `schedules.dfy` runs each kernel twice and says so. The maps, the matrix product and the bias kernel are
  generic in the number type and use no law of arithmetic. Offsets are those the code computes in int.
* `sums.dfy`, `linear.dfy`, `backprop.dfy` and `training.dfy` are the mathematics over the reals: matrix
  operations, their adjoints, exact reverse mode for arbitrary stacks, and a pass with in-place steps.
* `machine_ints.dfy` writes out where machine integers lose bits. Signed overflow is modelled as wrapping,
  which is what the hardware does; the language leaves it open, so every result that rests on it is stated
  as the exact condition under which it does not happen.
* `tensor_index.dfy`, `tensors.dfy`, `layers.dfy` and `sequential.dfy` are the objects, proved to compute
  exactly those values, with their error paths.

**The master and its nodes.** The framed wire protocol and the registry that several threads share.

* `wire.dfy`, `framing.dfy` and `connection.dfy`: byte order, frames, and connections over sockets that
  move any positive number of bytes per call or fail.
* `registry.dfy`, `master_model.dfy`, `master_inv.dfy`, `master_results.dfy` and `master.dfy`: the registry,
  the master as a step system (accept thread, connection threads, pool workers, heartbeat, a clock that
  may advance between any two steps), its invariant, its theorems, and the master as an object.
  `master_entries.dfy` says what an entry holds after any run, `master_threads.dfy` how connections are
  admitted and how their threads end.

Parameters that stand for the outside: the random draws of a dense layer, the sizes `send` and `recv`
choose, the numbers and addresses `accept` returns, the clock, and the schedule.

Where the code does not do what one would expect, the model follows the code:

* `sendMessage` computes `4 + len` in 32 bits. It writes inside its buffer exactly for payloads of at most
  2^32 - 6 bytes; one byte more and the buffer has size 0 (`FrameFits`, `BufferWrapsAround`).
* `hostToNet64` is the identity, so a report's RAM size survives exactly between hosts of one byte order,
  or if its bytes read the same both ways (`HostToNet64`, `ReportRoundTrip`; `ReportIsGarbled` is a report
  that does not survive).
* The reaper truncates the silence of a node to whole milliseconds, so a node is removed after the
  timeout plus one millisecond, not after the timeout (`ExpiryThreshold`). It also decides on a copy: a pong
  handled after the copy was taken does not save the node (`LatePongDoesNotSave`, and `LatePongHappens` for
  a run from the start).
* Messages of one connection go to whichever pool worker is free and may be handled out of order, so a
  shutdown can be overwritten by an earlier pong (`LastHandledWins`, and `ShutdownIsOverwritten` for a run
  from the start).
* Calls from inside the pool can hang. A body waits if it gets a future that it keeps. Whatever the bodies of
  a call enqueue, the call returns under every schedule if all in all fewer of them and their descendants wait
  than there are workers (`LightCallsReturn`), and it can hang if as many of its own bodies wait as there are
  workers (`WideCallHangs`). Where the descendants do not wait, as in a parallel loop inside the bodies of a
  parallel loop, that is an if-and-only-if (`CallReturnsIff`); for a single chain of calls nested n levels deep
  the condition is exactly n < workers (`NestedCallReturnsIff`). For other trees of calls the two one-way
  results leave a gap. A deadlock lasts (`DeadlockIsForever`), and a pool without workers serves nobody
  (`NoWorkersNoReturn`).
* `stop` returns under every schedule exactly if the pool has no workers or no body, and no descendant of one,
  waits (`StopReturnsIff`).
* Strides and offsets are computed in int. The strides of a tensor are right exactly if every product of
  trailing extents fits an int; every element's index is right exactly if the largest products of
  coordinates and strides do; and the cells of a matrix are found exactly if it has at most 2^31 elements,
  or, through row pointers, if its last row starts below 2^31 (`IntStridesAreExactIff`,
  `IntIndexIsExactIff`, `RowMajorIsInBufferIff`; `StrideOverflows` is a shape that fails).
* The master's `stop` does not wake connection threads. They leave when their receive returns
  (`StoppedMasterEmpties`), and once the heartbeat has ended, nothing else takes their nodes out of the registry
  (`SilentNodeStays`).
* A push after the last worker has left `stop` is lost; all others run (`StopDrains`, `LatePushesAreLost`).
* A dense layer's `no batch` branch and its `output + bias` fallback are unreachable, because 1-D by 2-D
  `dot` throws first (`Dot`, `DenseForward`, `DenseBackward`).

## Model

| member | source | states |
|---|---|---|
| PoolInvariant.FifoKept | Examples/Libraries/ThreadPool.hpp:51-76 | under every step the queue stays exactly the last pushes, in order: first in, first out |
| PoolInvariant.RunningKept | Examples/Libraries/ThreadPool.hpp:82-99 | every dequeued body is finished or runs on exactly one worker; no body runs twice |
| PoolInvariant.LogKept | Examples/Libraries/ThreadPool.hpp:82-99 | at every moment each body has processed exactly the elements that are not left for it to do |
| PoolInvariant.FuturesKept | Examples/Libraries/ThreadPool.hpp:61-76 | a body keeps only futures of bodies pushed after itself |
| PoolInvariant.ClientsKept | Examples/Libraries/ThreadPool.hpp:61-76 | a future belongs to the program its caller pushed, and is got only after that program has finished |
| PoolInvariant.WakeKept | Examples/Libraries/ThreadPool.hpp:51-99 | no lost wake-up: while any worker sleeps, every queued body has a wake-up of its own (a worker about to look or a notification on its way), and stopping with a sleeper means notify_all is still to come |
| PoolInvariant.StopKept | Examples/Libraries/ThreadPool.hpp:84-114 | workers leave only when the pool is stopping, and the count of bodies taken is fixed once all have left |
| PoolInvariant.RunKeepsInv | Examples/Libraries/ThreadPool.hpp:51-114 | all of these in every state of every run, for any pool size and schedule, spurious wake-ups included |
| PoolProgress.InternalStepDecreases | Examples/Libraries/ThreadPool.hpp:51-114 | a measure over queue, workers, notifications and callers falls with every step of the pool and its present callers |
| PoolProgress.SchedulesAreBounded | Examples/Libraries/ThreadPool.hpp:51-114 | without new calls and spurious wake-ups, no schedule is longer than the measure it starts from |
| PoolProgress.StuckMeansDoneOrDeadlocked | Examples/Libraries/ThreadPool.hpp:82-99 | if no step is possible and a worker is left, then either every pushed body has finished, every caller has returned and nobody asked to stop, or every worker that is left is blocked in a body of its own; never both |
| PoolProgress.WaitingIsNotStuck | Examples/Libraries/ThreadPool.hpp:61-99 | while fewer bodies wait than there are workers, a caller never waits in a pool that cannot move |
| PoolProgress.StoppingIsNotStuck | Examples/Libraries/ThreadPool.hpp:103-114 | if no body waits, stop never waits in join for a pool that cannot move |
| PoolNesting.LoadAfterStep | Examples/Libraries/ThreadPool.hpp:51-99 | the number of bodies that will wait, queued, running or still to come, never grows except by the programs of a new call |
| PoolNesting.LightLoadHasNoDeadlock | Examples/Libraries/ThreadPool.hpp:61-99 | with fewer such bodies than workers a running pool is not deadlocked |
| PoolNesting.NoLoadHasNoDeadlock | Examples/Libraries/ThreadPool.hpp:61-114 | without any, no pool is, not even one that is stopping |
| PoolNesting.DeadlockIsForever | Examples/Libraries/ThreadPool.hpp:61-99 | once every worker that is left is blocked, no body finishes in any continuation, whatever other threads do |
| PoolHangs.SomeScheduleEnds | Examples/Libraries/ThreadPool.hpp:82-99 | from every reachable state some schedule of the pool and its present callers comes to its end |
| PoolHangs.LightCallsReturn | Examples/Libraries/ThreadPool.hpp:61-99 | with fewer bodies that wait than workers, counting all descendants, every caller has returned when a schedule has come to its end; one way only |
| PoolHangs.NoWorkersNoReturn | Examples/Libraries/ThreadPool.hpp:61-101 | in a pool without workers nothing ever runs, and no caller that waits for anything returns, in any run with any number of calls |
| PoolHangs.LightCallReturnsIff | Examples/Libraries/ThreadPool.hpp:61-101 | a call with fewer bodies that wait than workers, or in a pool without workers, returns under every schedule if and only if there is a worker or nothing to wait for |
| PoolHangs.NestedCallDeadlocks | Examples/Libraries/ThreadPool.hpp:61-99 | for every n, a run from a new pool of n workers in which a call nested n levels deep blocks them all, the last on a queued body |
| PoolHangs.NestedCallReturnsIff | Examples/Libraries/ThreadPool.hpp:61-101 | a call nested to some depth returns under every schedule if and only if the pool has more workers than that |
| PoolBodies.RunBody | Examples/Libraries/ThreadPool.hpp:94 | a worker alone brings its body to its end if it does not wait, and otherwise to the first future it keeps, changing nothing else but the end of the queue |
| PoolWidth.WideCallHangs | Examples/Libraries/ThreadPool.hpp:61-99 | for any call with at least as many bodies that wait as workers, whatever they enqueue, a schedule that ends in a deadlock |
| PoolWidth.CallReturnsIff | Examples/Libraries/ThreadPool.hpp:61-101 | if what the bodies of a call enqueue does not wait, the call returns under every schedule if and only if fewer of its bodies wait than there are workers, or there are none |
| PoolStop.LoadlessStopReturns | Examples/Libraries/ThreadPool.hpp:103-114 | from any state without bodies that wait, stop has returned whenever a schedule has come to its end |
| PoolStop.StopCanHang | Examples/Libraries/ThreadPool.hpp:84-114 | for any call in which some body or descendant waits, and any number of workers, a schedule in which stop never returns |
| PoolStop.StopReturnsIff | Examples/Libraries/ThreadPool.hpp:84-114 | stop returns under every schedule of a call, whenever it is called, if and only if there are no workers or no body or descendant waits |
| PoolFairness.DueNeverGrows | Examples/Libraries/ThreadPool.hpp:51-114 | the work that is due before a given push is not raised by any step of anybody, new calls and spurious wake-ups included, and each dequeue or action of a due body lowers it |
| PoolFairness.DueIsBounded | Examples/Libraries/ThreadPool.hpp:51-114 | over any run, no more steps work on what was due than the due work at its start |
| PoolFairness.DueNeverBlocksStep | Examples/Libraries/ThreadPool.hpp:51-99 | bodies that are due and do not wait for others never come to wait for them |
| PoolFairness.DueCanBeDone | Examples/Libraries/ThreadPool.hpp:51-99 | while something is due and a worker is left, a step that lowers it is possible, or a notification is whose delivery makes one possible |
| PoolFairness.WorkStaysPossible | Examples/Libraries/ThreadPool.hpp:51-99 | what a worker can do for the due work it can still do after any step of another thread, unless that step lowered the due work |
| PoolFairness.NothingDueMeansFinished | Examples/Libraries/ThreadPool.hpp:51-99 | when nothing is due any more, every body pushed before has finished |
| PoolFairness.ClientCanReturn | Examples/Libraries/ThreadPool.hpp:61-76 | a caller whose last push is not due any more can get its futures by its own steps |
| PoolFairRuns.WorkerLowers | Examples/Libraries/ThreadPool.hpp:82-99 | in a run in which every thread that could move n times in a row moves, a worker that can work on what is due has lowered it n steps later |
| PoolFairRuns.DueFalls | Examples/Libraries/ThreadPool.hpp:51-99 | in such a run what is due has become less after 2n steps, whatever other threads do |
| PoolFairRuns.FairCallReturns | Examples/Libraries/ThreadPool.hpp:51-99 | in such a run a caller that has pushed its bodies has returned after 2n times the due work plus n times the number of its bodies plus one steps, if the bodies pushed up to its last do not wait; new calls and spurious wake-ups do not delay it |
| PoolProgress.StopDrains | Examples/Libraries/ThreadPool.hpp:84-114 | after the last join the bodies that have run are exactly those pushed before the last worker left, nested pushes included; all of them if and only if nothing was pushed later |
| PoolProgress.LatePushesAreLost | Examples/Libraries/ThreadPool.hpp:51-76 | what is pushed after the last worker has left never runs, in any continuation |
| PoolProgress.TakenInOrder | Examples/Libraries/ThreadPool.hpp:90-91 | a worker that takes a body takes the oldest queued one, and no other step takes any |
| PoolProgress.BodyRunsOnce | Examples/Libraries/ThreadPool.hpp:94 | a body never processes more than its elements in order, and all of them once it has finished |
| PoolProgress.ClientWorkDoneOnce | Examples/Libraries/ThreadPool.hpp:61-99 | when a waiting caller has returned, its bodies together processed each of its elements once, whatever ran in between |
| PoolWork.WorkIsConserved | Examples/Libraries/ThreadPool.hpp:51-99 | at every moment of every run, how often an element has been processed and how often it still will be add up to what the calls asked for, counting the bodies that bodies enqueue; so when everything has finished each element was processed exactly as often as asked |
| PoolWork.GetsInOrder | Examples/Libraries/ThreadPool.hpp:61-76 | from the moment a worker takes a body, whatever other threads do: after n gets of a kept future the first n bodies it kept have finished, and it holds the futures of the others, in order |
| ThreadPools.ThreadPool.constructor | Examples/Libraries/ThreadPool.hpp:78-101 | a new pool has numThreads workers about to look and an empty queue; it can serve calls exactly if numThreads is not 0 |
| ThreadPools.ThreadPool.WaitForTask | Examples/Libraries/ThreadPool.hpp:86-92 | the worker's critical section performs exactly the Look step and keeps the invariant |
| ThreadPools.ThreadPool.RunTask | Examples/Libraries/ThreadPool.hpp:94 | one action of a running body, including a nested enqueue and a nested get, performs exactly the Advance step |
| ThreadPools.ThreadPool.RunClient | Examples/Libraries/ThreadPool.hpp:61-76 | one action of a caller (push, notify, get) performs exactly the Proceed step |
| ThreadPools.ThreadPool.SetStopping | Examples/Libraries/ThreadPool.hpp:105-108 | sets the flag and owes notify_all, keeping the invariant |
| ThreadPools.ThreadPool.NotifyAll | Examples/Libraries/ThreadPool.hpp:110 | wakes exactly the sleepers |
| ThreadPools.ThreadPool.Register | Examples/Libraries/ThreadPool.hpp:61-76 | a new caller joins with its programs and nothing else changes |
| ThreadPools.ThreadPool.CallAndWait | Examples/Libraries/ThreadPool.hpp:61-99 | with fewer bodies that wait than workers, returns in whatever order the pool and the present callers take their steps, with every element of the caller's programs processed exactly once, and its futures got |
| ThreadPools.ThreadPool.Stop | Examples/Libraries/ThreadPool.hpp:103-114 | if no body waits, returns with all workers gone and, unless there never was one, every pushed body run completely |
| MachineInts.ToInt32Law | Examples/Libraries/ParallelFor.h:20 | a conversion to int gives the number between -2^31 and 2^31 - 1 that differs by a multiple of 2^32 |
| Chunking.TaskCount | Examples/Libraries/ParallelFor.h:15-22 | the greatest number that is 1 or within all three bounds: the wanted number (or four per thread), N, and the grain bound where it converts to a positive int; chunks over 4096 elements whenever there is more than one, even if that conversion wraps |
| Chunking.GreatestIsLeastBound | Examples/Libraries/ParallelFor.h:15-22 | where no conversion to int loses bits, that number is one of the three bounds, and no more than any of them |
| Chunking.CutRanges | Examples/Libraries/ParallelFor.h:29-38 | the loop's ranges are non-empty, contiguous and cover [begin,end) exactly; all but the last have the full chunk size |
| Chunking.PlanRanges | Examples/Libraries/ParallelFor.h:11-38 | the ranges of exactly that number of tasks: equal pieces of N / tasks rounded up, the last one possibly shorter, and no more pieces than N needs; they tile [begin,end); nothing for an empty range; all but the last hold more than 4096 elements |
| Chunking.CeilingDivision | Examples/Libraries/ParallelFor.h:24 | the chunk size is the least one with which k chunks suffice |
| Chunking.ChunksFitInt64 | Examples/Libraries/ParallelFor.h:24-32 | no 64-bit number of the loop reaches end + the number of tasks, so nothing overflows for ranges that end by 2^63 - 2^31 |
| Chunking.GrainKeepsChunksLarge | Examples/Libraries/ParallelFor.h:19-24 | the grain clamp keeps chunks above 4096 for every N, wrapped conversion included |
| ParallelLoops.TilesBodies | Examples/Libraries/ParallelFor.h:29-38 | the bodies of tiling ranges together hold each element of the whole range once |
| ParallelLoops.PermutationIsEachOnce | Examples/Libraries/ParallelFor.h:29-40 | an order with the elements of a range as its multiset hits each exactly once and nothing else |
| ParallelLoops.ParallelFor | Examples/Libraries/ParallelFor.h:7-41 | returns with every index of [begin,end) processed exactly once and no other, also when the iterations stand for blocks of different sizes; it made one call to the pool, with exactly the bodies of the planned ranges, or none for an empty range; the pool stays usable |
| ParallelLoops.ForEachRange | Examples/Libraries/Ops_Parallel.h:7-18 | the same with or without a pool, with the default number of tasks; without one, in ascending order |
| Kernels.UnaryMap | Examples/Libraries/Ops_Parallel.h:20-26 | dest[i] is fn of the old src[i] for i below num, the rest unchanged; dest may be src |
| Kernels.BinaryMap | Examples/Libraries/Ops_Parallel.h:28-34 | dst[i] is f of the old a[i] and b[i], the rest unchanged; dst may be either input |
| Kernels.MatmulRows | Examples/Libraries/Ops_Parallel.h:36-52 | whenever the offsets the code computes in int lie in the buffers and those of C are distinct, every cell is the left-to-right row-by-column sum over uninterpreted arithmetic and every other position is unchanged, for every schedule |
| Kernels.DotRow | Examples/Libraries/Ops_Parallel.h:46-48 | the inner loop computes that left-to-right sum |
| Kernels.AddBiasBroadcast | Examples/Libraries/Ops_Parallel.h:54-64 | under the same condition, every cell has the bias of its column added once, every other position unchanged |
| Schedules.UnaryMapAgrees | Examples/Libraries/Ops_Parallel.h:20-26 | run with any two pools, or with one and without, on equal buffers, the kernel leaves equal buffers, aliased or not |
| Schedules.BinaryMapAgrees | Examples/Libraries/Ops_Parallel.h:28-34 | the same, with the destination of either run aliased to either of its inputs or not |
| Schedules.MatmulRowsAgrees | Examples/Libraries/Ops_Parallel.h:36-52 | the same, over uninterpreted arithmetic |
| Schedules.AddBiasBroadcastAgrees | Examples/Libraries/Ops_Parallel.h:54-64 | the same, over uninterpreted addition |
| Kernels.SplitIndex | Examples/Libraries/Ops_Parallel.h:43-45 | every element number of the iteration space is one cell |
| Kernels.JoinIndex | Examples/Libraries/Ops_Parallel.h:43-45 | every cell has an element number that leads back to it |
| Reductions.SlicesTile | Examples/Libraries/Ops_Parallel.h:85-86 | the slices start at 0, end at n, meet without gap or overlap, and have size n/tasks rounded down or up, also for tasks > n |
| Reductions.SlicesAddUp | Examples/Libraries/Ops_Parallel.h:82-95 | the sums of the slices add up to the sum of the whole |
| Reductions.OwnerIsUnique | Examples/Libraries/Ops_Parallel.h:85-86 | every row belongs to exactly one slice, given by a closed formula |
| Reductions.GatherOne | Examples/Libraries/Ops_Parallel.h:88-91 | processing one element adds its value to its column of the slice that owns its row, and to no other |
| Reductions.AddElements | Examples/Libraries/Ops_Parallel.h:82-92 | after the elements of all slices have been added one by one in any order, every partial row holds the column sums of its slice |
| Reductions.ReduceSumRows | Examples/Libraries/Ops_Parallel.h:66-96 | out[j] grows by the plain sum of column j, for every pool size and schedule and without a pool |
| Reductions.AddProducts | Examples/Libraries/NeuralNetwork.cpp:187-192 | the same for the inner product: in any order of the elements, every partial result is the sum of its slice |
| Reductions.DotSlices | Examples/Libraries/NeuralNetwork.cpp:182-193 | every partial result is the sum of its slice, whatever the schedule |
| Reductions.DotVectors | Examples/Libraries/NeuralNetwork.cpp:180-201 | the plain inner product, for every pool size and without a pool |
| TensorIndex.UnravelOfIndex | Examples/Libraries/NeuralNetwork.cpp:276-291 | in-range coordinates have an index below the length, and division and modulo give them back |
| TensorIndex.IndexOfUnravel | Examples/Libraries/NeuralNetwork.cpp:276-291 | every index below the length is the index of in-range coordinates: a bijection |
| TensorIndex.UnravelAt | Examples/Libraries/NeuralNetwork.cpp:38-44 | coordinate i of element q is (q / strides[i]) % shape[i] |
| TensorIndex.IndexIsMonotone | Examples/Libraries/NeuralNetwork.cpp:276-291 | the index orders in-range coordinates lexicographically, both directions |
| TensorIndex.IntStridesAreExactIff | Examples/Libraries/NeuralNetwork.cpp:38-44 | the strides computed in int are the mathematical ones if and only if every product of trailing extents fits an int |
| TensorIndex.StrideOverflows | Examples/Libraries/NeuralNetwork.cpp:38-44 | the shape 1 by 65536 by 32768 has a negative first stride |
| TensorIndex.IntIndexIsExactIff | Examples/Libraries/NeuralNetwork.cpp:276-291 | every in-range index is computed right if and only if in each dimension the largest coordinate times its stride fits an int |
| TensorIndex.RowMajorIsInBufferIff | Examples/Libraries/NeuralNetwork.cpp:205-218 | the offsets computed for a row-major matrix all lie in its buffer if and only if it has at most 2^31 elements, or, through row pointers, its last row starts below 2^31 |
| TensorIndex.RowMajorIsSafe | Examples/Libraries/NeuralNetwork.cpp:38-44 | then every cell also has a position of its own |
| Tensors.Length | Examples/Libraries/NeuralNetwork.cpp:254-260 | the product of the extents modulo 2^64 |
| Tensors.ComputeStrides | Examples/Libraries/NeuralNetwork.cpp:38-44 | strides[i] is the product of the extents after i, wrapped to int, for every shape |
| Tensors.Create | Examples/Libraries/NeuralNetwork.cpp:29-45 | a valid tensor of the given shape, with its own zeroed buffer of the right length |
| Tensors.CreateFromList | Examples/Libraries/NeuralNetwork.cpp:47-67 | throws exactly if the number of extents differs from dims |
| Tensors.Copy | Examples/Libraries/NeuralNetwork.cpp:69-79 | an equal tensor with a buffer of its own |
| Tensors.ToLinearIndex | Examples/Libraries/NeuralNetwork.cpp:276-291 | throws exactly if some coordinate is out of range; otherwise the index in the code's integers, which is the row-major index inside the buffer if the products fit an int |
| Tensors.MatmulRowsIsMatMul | Examples/Libraries/NeuralNetwork.cpp:205-218 | what the strided kernel leaves in a row-major buffer is the mathematical matrix product |
| Tensors.Dot | Examples/Libraries/NeuralNetwork.cpp:170-224 | throws exactly for the shapes the code rejects; otherwise the inner product or the matrix product, in a fresh tensor, for all sizes at which the code finds its cells |
| Tensors.TransposeTensor | Examples/Libraries/NeuralNetwork.cpp:390-401 | throws exactly for tensors that are not 2-D, otherwise the transpose |
| Linear.AdjointOfInput | Examples/Libraries/NeuralNetwork.cpp:356 | <G, H W> = <G W^T, H> |
| Linear.AdjointOfWeights | Examples/Libraries/NeuralNetwork.cpp:359-360 | <G, X V> = <X^T G, V> |
| Linear.AdjointOfBias | Examples/Libraries/NeuralNetwork.cpp:363-371 | <G, broadcast v> = <column sums of G, v> |
| Backprop.LayerIsExact | Examples/Libraries/NeuralNetwork.cpp:337-494 | for each kind of layer, backward gives the exact change of <G, output> for every change of the input that crosses no kink |
| Backprop.ReluLaw | Examples/Libraries/NeuralNetwork.cpp:414-421 | every element of a ReLU layer's output is at least 0, at least the input element, and one of the two |
| Backprop.LeakyLaw | Examples/Libraries/NeuralNetwork.cpp:476-485 | every element of a leaky ReLU layer's output is the input element where that is positive, and alpha times it elsewhere |
| Backprop.DenseLaw | Examples/Libraries/NeuralNetwork.cpp:337-351 | cell (i, j) of a dense layer's output is the sum of the products of row i of the input and column j of the weights, plus bias j |
| Backprop.ParametersAreExact | Examples/Libraries/NeuralNetwork.cpp:353-376 | a dense layer's weight and bias gradients give the exact change for every change of its parameters |
| Backprop.DescentIsExact | Examples/Libraries/NeuralNetwork.cpp:378-384 | one SGD step changes <G, output> by exactly -lr (‖dW‖² + ‖db‖²) |
| Backprop.StackIsExact | Examples/Libraries/NeuralNetwork.cpp:510-527 | exact reverse mode for any stack: the backward fold gives the exact change for every input change with the same sign pattern |
| Backprop.StackGradientIsExact | Examples/Libraries/NeuralNetwork.cpp:518-527 | the same for a change of the weights and bias of any one layer of the stack |
| Training.PassAfterForward | Examples/Libraries/NeuralNetwork.cpp:510-527 | after forward(x), a backward pass throws nowhere, reads inside its buffers, and hands each layer the gradient of the fold at the old parameters |
| Training.PassDescendsExactly | Examples/Libraries/NeuralNetwork.cpp:518-527 | the pass equals: compute every gradient before the step, then let every layer take its step |
| Layers.Layer.Dense | Examples/Libraries/NeuralNetwork.cpp:317-327 | weights hold the draws, the bias is zero, both in fresh buffers |
| Layers.Layer.DenseForward | Examples/Libraries/NeuralNetwork.cpp:337-351 | records a copy of its input and gives X W + b; throws exactly for inputs that are not matching matrices |
| Layers.Layer.BiasGradient | Examples/Libraries/NeuralNetwork.cpp:363-371 | the column sums of the output gradient, in a fresh tensor |
| Layers.Layer.DenseBackward | Examples/Libraries/NeuralNetwork.cpp:353-387 | gives G W^T for the weights before the update and then moves exactly its own parameters; throws exactly when a product's shapes disagree, changing nothing |
| Layers.Layer.Update | Examples/Libraries/NeuralNetwork.cpp:379-384 | the in-place maps compute the SGD step although destination and input are one buffer |
| Layers.Layer.ReluForward | Examples/Libraries/NeuralNetwork.cpp:414-421 | records its input; each element of the result is at least 0, at least the input element, and one of the two |
| Layers.Layer.ReluBackward | Examples/Libraries/NeuralNetwork.cpp:423-430 | passes the gradient where the recorded input was positive |
| Layers.Layer.LeakyForward | Examples/Libraries/NeuralNetwork.cpp:476-485 | records its input; each element of the result is the input element where that is positive, and alpha times it elsewhere |
| Layers.Layer.LeakyBackward | Examples/Libraries/NeuralNetwork.cpp:487-494 | scales the gradient in place by 1 or alpha, by the sign of the recorded input |
| Layers.Layer.ForwardPass | Examples/Libraries/NeuralNetwork.cpp:299-302 | forward of any layer computes the layer's mathematical function and records its input |
| Layers.Layer.BackwardPass | Examples/Libraries/NeuralNetwork.cpp:299-302 | backward of any layer computes its adjoint at the old parameters and takes the layer's own step |
| Sequentials.ForwardStack | Examples/Libraries/NeuralNetwork.cpp:510-516 | the composition of the layers, every layer's input recorded, no parameter changed; throws exactly if some layer rejects what it gets |
| Sequentials.BackwardStack | Examples/Libraries/NeuralNetwork.cpp:518-527 | with in-place updates on the way down, every layer ends where the pass at the old parameters puts it, also when a layer throws in the middle |
| Sequentials.Sequential.Add | Examples/Libraries/NeuralNetwork.cpp:504-508 | any layer is appended with the stack's pool, parameters and record as they were; a stack of distinct layers stays one if the layer is new and shares no buffer |
| Sequentials.TrainingStep | Examples/Libraries/NeuralNetwork.cpp:510-527 | forward then backward on the objects: never throws, the gradient is that of the exact fold, and every layer has descended along its exact gradient |
| Sequentials.ChainIsForward | Examples/Libraries/NeuralNetwork.cpp:510-516 | the values handed from layer to layer are the recorded inputs of the composition |
| Wire.NetBytes | Examples/Linux/network/net/Protocol.hpp:29-40 | hostToNet32 leaves the big-endian bytes in memory on every host |
| Wire.NetToHostOfBytes | Examples/Linux/network/net/Protocol.hpp:41-46 | netToHost32 reads the same number from the same bytes on every host |
| Wire.HostToNet64 | Examples/Linux/network/net/Protocol.hpp:47-53 | the loop returns its argument |
| Framing.FrameFits | Examples/Linux/network/net/Connection.hpp:58-65 | the frame buffer holds the frame if and only if the payload has at most 2^32 - 6 bytes |
| Framing.BufferWrapsAround | Examples/Linux/network/net/Connection.hpp:58-61 | a payload of 2^32 - 5 bytes gets a buffer of size 0 |
| Framing.FrameLayout | Examples/Linux/network/net/Connection.hpp:56-66 | a frame is 1 + the payload size in four bytes, most significant first, then the type byte, then the payload |
| Framing.FrameIsNext | Examples/Linux/network/net/Connection.hpp:56-95 | a frame at the front of a stream is read back and the rest is left |
| Framing.CutFrameIsIncomplete | Examples/Linux/network/net/Connection.hpp:70-85 | no proper prefix of a frame is read as a message |
| Framing.DecodedOfEncoded | Examples/Linux/network/net/Connection.hpp:56-95 | round trip for any list of messages |
| Framing.DecodedOfPrefix | Examples/Linux/network/net/Connection.hpp:70-95 | of a stream cut off anywhere exactly the complete frames are delivered |
| Framing.CompleteFramesFit | Examples/Linux/network/net/Connection.hpp:56-66 | k frames count as complete if and only if their bytes lie before the cut |
| Framing.PrefixFree | Examples/Linux/network/net/Connection.hpp:56-66 | if one stream extends another, so do the messages |
| Framing.EncodingIsInjective | Examples/Linux/network/net/Connection.hpp:56-66 | different message lists never have the same bytes |
| Framing.ReportRoundTrip | Examples/Linux/network/net/Protocol.hpp:57-78 | a report survives if and only if the hosts agree on byte order or the RAM size reads the same both ways; the thread count always survives |
| Framing.ReportIsGarbled | Examples/Linux/network/net/Protocol.hpp:57-78 | one byte of RAM sent from a little-endian to a big-endian host arrives as 2^56 bytes |
| Framing.DecodeReport | Examples/Linux/network/net/Protocol.hpp:66-78 | throws exactly for buffers that are not 12 bytes long |
| Framing.ReportLayout | Examples/Linux/network/net/Protocol.hpp:57-65 | 12 bytes: eight of RAM size in the sender's byte order, then four of thread count, most significant first on every host |
| Framing.PingFrameIsPing | Examples/Linux/network/MasterServer.cpp:286-289 | the hand-built heartbeat frame is the bytes 0, 0, 0, 1, 2 and decodes as an empty PING on every host |
| Connections.Connection.SendAll | Examples/Linux/network/net/Connection.hpp:110-128 | everything goes out, in order, in pieces of any size; on failure some proper prefix has gone out |
| Connections.Connection.RecvAll | Examples/Linux/network/net/Connection.hpp:130-148 | the buffer is filled with exactly the next bytes; on a reliable socket it fails only at the end of the stream |
| Connections.Connection.SendMessage | Examples/Linux/network/net/Connection.hpp:56-67 | puts exactly the message's frame on the wire, or a proper prefix of it on failure |
| Connections.Connection.RecvMessage | Examples/Linux/network/net/Connection.hpp:70-95 | returns the next frame's message and consumes exactly its bytes; fails on a reliable socket exactly if there is no complete frame or its length is 0; lastSeen moves only on success |
| Connections.Connection.ReceiveAll | Examples/Linux/network/MasterServer.cpp:201-214 | receiving until failure delivers a prefix of the stream's messages, all of them on a reliable socket |
| Connections.Transfer | Examples/Linux/network/net/Connection.hpp:56-148 | from host to host, whatever the byte orders and the fragmentation on both sides, the received messages are the sent ones whose frames arrived whole, in order |
| Registries.ConnectionRegistry.Insert | Examples/Linux/network/net/Registry.hpp:16-23 | refuses exactly when full, even for a node that is already in; otherwise sets that one entry |
| Registries.ConnectionRegistry.Erase | Examples/Linux/network/net/Registry.hpp:25-29 | removes that entry and no other |
| Registries.ConnectionRegistry.MarkDead | Examples/Linux/network/net/Registry.hpp:31-37 | changes at most the alive flag of that entry |
| Registries.ConnectionRegistry.Update | Examples/Linux/network/net/Registry.hpp:39-45 | changes at most that entry, and never adds one |
| Registries.ConnectionRegistry.Get | Examples/Linux/network/net/Registry.hpp:47-53 | the entry, if there is one |
| Registries.ConnectionRegistry.Snapshot | Examples/Linux/network/net/Registry.hpp:55-63 | lists every entry exactly once |
| Registries.Updated | Examples/Linux/network/net/Registry.hpp:39-45 | an update keeps the set of nodes and every other entry |
| MasterModel.ExpiryThreshold | Examples/Linux/network/MasterServer.cpp:306-307 | with truncation to milliseconds, a node expires if and only if it was silent for (timeout + 1) * 1000000 ns, or, for a negative timeout, for longer than timeout * 1000000 ns |
| MasterInvariant.RunKeepsInv | Examples/Linux/network/MasterServer.cpp:154-323 | in every state of every run: capacity, an owner for every entry, times behind the clock, entries that agree with the history of handled messages, scans that are only ever out of date |
| MasterInvariant.HistoryKept | Examples/Linux/network/MasterServer.cpp:219-258 | lastSeen is the latest time at which a message of the node was handled, and alive says whether the last one handled was not a shutdown |
| MasterInvariant.ScanKept | Examples/Linux/network/MasterServer.cpp:302-314 | while a scan runs, every expired node it has looked at is gone, whatever other threads do |
| MasterEntries.HandleLaw | Examples/Linux/network/MasterServer.cpp:219-262 | handling a message removes it from the queue and changes at most the sender's entry, by type byte: 1 with 12 bytes sets RAM, threads, time and alive; 3 time and alive; 4 clears alive; every other type or size changes nothing |
| MasterEntries.ReportIsStored | Examples/Linux/network/MasterServer.cpp:221-228 | a report from a host of the master's byte order leaves its RAM size and its thread count, the time and alive in the entry, and changes nothing else |
| MasterEntries.EntryTells | Examples/Linux/network/MasterServer.cpp:184-228 | after any run, a registered entry has the address that accept returned for it and the RAM size and thread count of the last report handled for it, zeros if there was none |
| MasterEntries.MessagesHandledOnce | Examples/Linux/network/MasterServer.cpp:207-262 | over any run, the messages received and those waiting before are, as multisets, the messages handled and those waiting after |
| MasterResults.InsertAlwaysFits | Examples/Linux/network/MasterServer.cpp:169-189 | never more than maxNodes entries; the accept thread's insert always succeeds and overwrites nothing, although check and insert are separate critical sections |
| MasterThreads.RoomDecides | Examples/Linux/network/MasterServer.cpp:169-175 | an accepted connection, any steps of the other threads, then the size check: the accept thread goes on with it exactly if there is room, and otherwise the node is gone for good |
| MasterThreads.CheckedIsAdmitted | Examples/Linux/network/MasterServer.cpp:177-193 | whatever the other threads do before the stamp, the insertion and the start of the thread, a connection that passed the check gets an entry of its own with its address, zeros and the time of the stamp, and then a thread at the head of its loop |
| MasterThreads.OneIsAdmitted | Examples/Linux/network/MasterServer.cpp:161-193 | with room, taking a connection without interruption adds exactly its entry, with its address, zeros and the time, and starts its thread |
| MasterThreads.OneIsRefused | Examples/Linux/network/MasterServer.cpp:169-175 | with a full registry, taking a connection changes nothing but that its number is used |
| MasterThreads.RegistryFills | Examples/Linux/network/MasterServer.cpp:154-194 | for any distinct connections, at most maxNodes, the run that takes them one after the other ends with exactly their entries |
| MasterThreads.ClosedForGood | Examples/Linux/network/MasterServer.cpp:162-167 | after a failed accept no connection is ever taken again |
| MasterResults.RegistryDrains | Examples/Linux/network/MasterServer.cpp:198-267 | when all connection threads have returned, the registry is empty |
| MasterThreads.FailedThreadLeaves | Examples/Linux/network/MasterServer.cpp:207-213 | a failed receive marks the node dead; in every run from there its thread neither looks at the flag nor receives again, can leave as long as it is there, and after it has left the node is gone for good |
| MasterThreads.StoppedThreadLeaves | Examples/Linux/network/MasterServer.cpp:203-204 | the same for a thread that looks at the stop flag once it is set |
| MasterThreads.ServingStep | Examples/Linux/network/MasterServer.cpp:201-217 | a thread in service alternates between looking at the flag and receiving, and what it receives waits behind all other messages |
| MasterThreads.ThreadStays | Examples/Linux/network/MasterServer.cpp:201-217 | in a run without a failed receive of the node and without a stop, its thread stays in service and does not leave |
| MasterThreads.StoppingIff | Examples/Linux/network/MasterServer.cpp:129-133 | after any run the master is stopping if and only if it was before or `stop` has set the flag in the run; nothing takes that back |
| MasterThreads.StoppingIsShort | Examples/Linux/network/MasterServer.cpp:201-267 | once the master is stopping, a connection thread takes at most three more steps |
| MasterThreads.StoppedMasterEmpties | Examples/Linux/network/MasterServer.cpp:198-267 | after `stop` has set the flag each connection thread takes at most three more steps, in any run; and whenever none can take any and none is about to start, the registry is empty |
| MasterThreads.SilentNodeStays | Examples/Linux/network/MasterServer.cpp:129-152 | once the heartbeat has ended, a registered node whose thread is blocked in a receive stays registered as long as that receive does not return, whatever other threads do |
| MasterThreads.HeartbeatEnds | Examples/Linux/network/MasterServer.cpp:272-322 | the heartbeat ends only in a stopping master, and then for good |
| MasterResults.GoneForGood | Examples/Linux/network/MasterServer.cpp:217-262 | no late message brings an erased node back, in any run |
| MasterResults.RemovedBy | Examples/Linux/network/MasterServer.cpp:198-314 | a step removes a node if and only if it is the node's own thread leaving or the reaper finding it expired |
| MasterResults.LastSeenIsMonotone | Examples/Linux/network/MasterServer.cpp:221-240 | over any run, lastSeen of a registered node never goes back |
| MasterResults.ReaperSparesHeardNodes | Examples/Linux/network/MasterServer.cpp:303-314 | if the reaper removes a node, every report and pong handled for it is at least timeout + 1 ms older than the scan's now, or not older than now at all |
| MasterResults.ScanIsExact | Examples/Linux/network/MasterServer.cpp:303-314 | under every interleaving, of the nodes registered when a scan began exactly those remain that had been heard within timeout + 1 ms and whose own thread did not leave |
| MasterResults.LatePongDoesNotSave | Examples/Linux/network/MasterServer.cpp:303-314 | a pong handled between the snapshot and the reaper's turn updates the entry, and the reaper removes it all the same |
| MasterResults.LatePongHappens | Examples/Linux/network/MasterServer.cpp:154-314 | for every configuration with room for a node, a run from the start that does this |
| MasterResults.LastHandledWins | Examples/Linux/network/MasterServer.cpp:217-258 | of any two waiting messages of one node, the one handled last decides whether it is alive |
| MasterResults.ShutdownIsOverwritten | Examples/Linux/network/MasterServer.cpp:154-262 | a run from the start in which a node sends a pong and then a shutdown and is left alive |
| Masters.MasterServer.constructor | Examples/Linux/network/MasterServer.cpp:49-55 | an empty registry with the configured capacity, nothing running |
| Masters.MasterServer.CheckRoom | Examples/Linux/network/MasterServer.cpp:170-175 | performs exactly the size check step, which `RoomDecides` and `RegistryFills` pin |
| Masters.MasterServer.InsertNode | Examples/Linux/network/MasterServer.cpp:189 | performs exactly the insertion, and the result the code ignores is always true |
| Masters.MasterServer.ConnectionFailed | Examples/Linux/network/MasterServer.cpp:207-213 | performs exactly the step of a failed receive, which `FailedThreadLeaves` pins: the node is dead and its thread leaves |
| Masters.MasterServer.LeaveRegistry | Examples/Linux/network/MasterServer.cpp:265-267 | erases exactly this node and ends its thread |
| Masters.MasterServer.HandleTask | Examples/Linux/network/MasterServer.cpp:217-262 | a report sets RAM, threads, time and alive; a pong time and alive; a shutdown clears alive; a bad report, a ping or an unknown type changes nothing; absent nodes stay absent |
| Masters.MasterServer.CopyRegistry | Examples/Linux/network/MasterServer.cpp:304 | the copy lists every entry once, as it is at that moment |
| Masters.MasterServer.ReapOne | Examples/Linux/network/MasterServer.cpp:306-313 | erases the node exactly if its copied entry has expired |
| Masters.MasterServer.HeartbeatRound | Examples/Linux/network/MasterServer.cpp:302-314 | one round, with arbitrary steps of all other threads before the copy and before each verdict, is a run of the step system and leaves exactly the copied nodes that were heard within timeout + 1 ms and whose own thread did not leave |
| Masters.MasterServer.Meanwhile | Examples/Linux/network/MasterServer.cpp:154-267 | any steps of the other threads make a run, keep the invariant, and leave the scan alone |

## Left out

Contracts that say less than the code allows, or ask for more:

- ThreadPools.ThreadPool.CallAndWait: while it waits, no new callers arrive and no worker wakes up spuriously; the same holds for the other methods that wait (`Stop`, `ParallelFor`, the kernels). That calls return when they do is `FairCallReturns`. It asks for more workers than bodies that wait, counting all descendants, which is enough but not always needed: `CallReturnsIff` and `NestedCallReturnsIff` are exact for two families of calls.
- ThreadPools.ThreadPool.Stop: asks that no body waits, which is exact by `StopReturnsIff`, and its callers do not push after it; what happens to such pushes is in `StopDrains` and `LatePushesAreLost`.
- PoolWidth.CallReturnsIff: an exact condition for calls whose descendants wait in other shapes than a chain is not given.
- ParallelLoops.ParallelFor: excludes pools for which `threads * 4` overflows int.
- Kernels.MatmulRows: the elements are written on the array in the order in which the pool processed them; the pool model itself carries only element numbers, and memory is sequentially consistent at the granularity of one element. The same holds for the other kernels.
- Reductions.DotVectors: the local accumulator of a slice is the partial result itself; adding it at the end of the slice gives the same number.
- Tensors.Dot: asks that the offsets of its operands and result do not overflow (`DotFits`), beyond which the code reads outside its buffers; the layers ask for matrices of at most 2^31 elements (`ForwardFits`, `ReadsInside`).
- Tensors.Create: no dimensions at all and negative extents are excluded: the constructors would write outside their arrays or ask for a huge buffer. The default tensor appears only as a layer that has not recorded an input.
- Sequentials.ForwardStack: the layers of a stack are distinct objects that share no parameters; so do the other operations of a stack.
- Sequentials.BackwardStack: asks that no activation reads more elements than it recorded, which the code does not check; `PassAfterForward` shows that it never happens after a forward call.
- Connections.Connection.SendMessage: payloads over 2^32 - 6 bytes are excluded; there the code writes outside its frame buffer.
- Masters.MasterServer.ReapOne: the shutdown and close of the reaped socket are left out; the connection thread's receive may fail at any time. The same holds for `Masters.MasterServer.HeartbeatRound`.
- MasterThreads.StoppedMasterEmpties: bounds the steps of a thread, not the time it is blocked in a receive; in the model a receive may return at any time.
- Layers.Layer.ForwardPass: the virtual layer classes are one class with a kind.

Not modelled:

- Floating point: numbers are reals, so rounding, overflow and NaN do not appear. `Sigmoid` is left out with its `exp`.
- Exceptions thrown through a future, and failing allocations.
- Memory ownership: move operations, destructors, `delete` of layers; assignment appears as a copy.
- Tensor operators other than `dot`, and `equalsSize`: elementwise maps behind a shape check.
- Reuse of socket numbers: `accept` is taken to return numbers no earlier connection had, and a second `close` of one number has no effect.
- Listener, `start` and the joins of `stop` in the master: stopping is one step that sets the flag, and `accept` may fail at any time.
- Sending the PING frame: only its bytes are modelled.
- Socket set-up, `select` loops, platform branches, DNS, logging, and the node client with its JSON conversion.
- `ModelPartitioner`, the `on_*` hooks, `compute_and_send_configs`, `Blob` and `Game`: placeholders or unfinished.
- `ThreadPool.cpp` and `NeuralNetwork.hpp`: a duplicate of the header pool, and a declaration list that does not match the code.
