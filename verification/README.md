# fuego Stream engine in Dafny

A model of the core of fuego, a Go library of lazy streams. A `Stream` is a value pair: a
Go channel, which may be nil, and a concurrency level. The model covers the constructors
(`NewStream`, `NewConcurrentStream`, `NewStreamFromSlice`), the level accessors
(`Concurrency`, `Concurrent`), the ordered concurrent `Map`, and the terminal `ForEach`.

- `stream.dfy`, module `Fuego`. A channel is `Nil` or `Chan(items)`. `items` is everything
  the producer sends before it closes the channel, so only finite producers are modelled.
  A Go consumer is a state transformer `(W, T) -> W`. `ForEach` returns the log of the
  consumer's calls together with the final state.
- `pipeline.dfy`, module `OrderedPipeline`. This is the dispatch/complete/collect machine
  behind `orderlyConcurrentDo`. The state holds:
  - the unread input;
  - the slots sent on the slot queue and not yet emitted, each `Pending(x)` or `Done(r)`;
  - whether the reader has received the oldest slot and is blocked on it;
  - whether the writer has closed the queue;
  - the emitted output.

  A step is one of: `Enqueue` (a buffered send, which needs buffer room), `Handoff` (a send
  straight to a waiting reader; this is the only send when the capacity is 0), `Receive`,
  `Complete(i)` (the worker of slot `i` writes its only result), `Emit`, and `CloseQueue`.
  A slot's worker exists exactly while the slot is `Pending` in the queue, so a worker
  starts only after its slot has been sent.
- Goroutine scheduling becomes a parameter `sched` of `Map`: in each state it picks the
  next step, including which worker finishes. A choice that is not enabled is replaced by
  a canonical enabled step. Every finite interleaving is also covered directly, as a
  `trace` of steps.

The main property: for every concurrency level and every interleaving, `Map` emits `f` of
each input element in input order. The proof rests on an invariant. The output so far,
then the values the queued slots hold or will hold, then `f` of the unread input, always
equals `f` mapped over the original input.

Facts about the code that the model keeps:
- `NewStream` performs no nil check (stream.go:57-59). `NewStream(nil)` therefore returns
  a Stream over a nil channel. The doc comment at stream.go:10 says nil channels are
  prohibited, and stream_test.go:520-522 expects `NewStream(nil)` to panic, but the
  code raises no panic.
- `NewConcurrentStream` and `Concurrent` store any `int` level as given, negative ones
  included (stream.go:62-66, 118-123). A negative level makes `make` panic at
  stream.go:150. That line is reached only when the channel is non-nil.
- Up to capacity + 1 workers can be in flight (stream.go:150-173). The buffer of the slot
  queue holds up to `capacity` slots. The reader holds one more slot while it waits for
  that slot's result. `InFlightBoundIsReached` shows this bound is reached for every
  capacity.

How the steps of `OrderedPipeline.Next` map to the code:

| step | Go statement |
|---|---|
| `Enqueue`, `Handoff` | stream.go:155-161: receive `val`, make its slot, send the slot, start its worker |
| `Complete(i)` | stream.go:158-161: the worker of slot `i` sends `fn(val)` into its slot |
| `Receive` | stream.go:170: the reader's `range` receives the next slot |
| `Emit` | stream.go:171: the reader takes the slot's result and sends it to the output |
| `CloseQueue` | stream.go:153: the writer's deferred `close` once the input is exhausted |

## Model

| member | source | states |
|---|---|---|
| Fuego.NewConcurrentStream | stream.go:61-67 | the Stream wraps the given channel and reports exactly the given level, negative values included |
| Fuego.NewStream | stream.go:54-59 | the Stream wraps the given channel unchanged (a nil channel included, there is no check) with level 0 |
| Fuego.Concurrency | stream.go:85-88 | the level together with the channel is the whole handle: a Stream is rebuilt exactly from its channel and its reported level |
| Fuego.Concurrent | stream.go:90-123 | the result shares the very same channel (not copied, not consumed) and `Concurrency` then reports the new level |
| Fuego.ConcurrentRestores | stream.go:85-123 | re-applying the old level after `Concurrent(n)` gives back the original Stream: only the level changes |
| Fuego.NewStreamFromSlice | stream.go:69-83 | the channel is non-nil and yields exactly the slice's elements in slice order, then closes; empty slice gives an empty channel; level 0 |
| Fuego.OrderlyConcurrentDo | stream.go:137-178 | nil input channel: an already-closed empty output; otherwise the output is f of each input element in order, for every schedule |
| Fuego.Map | stream.go:128-135 | the result keeps the source level, its channel is non-nil, has one value per input element and the i-th value is f of the i-th input |
| Fuego.MapIgnoresScheduleAndLevel | stream.go:140-174 | two Maps of the same Stream under any two schedules and any two non-negative levels emit the same values |
| Fuego.MapOfNilIsClosedEmpty | stream.go:143-148 | Map over a nil channel gives a non-nil, closed, empty channel whatever the level |
| Fuego.MapDoublesInOrder | stream_test.go:53-71 | doubling 1, 3, 2 emits 2, 6, 4 at every non-negative level and under every schedule |
| Fuego.ForEach | stream.go:180-205 | nil channel: no consumer call and the state is untouched; otherwise one call per element in channel order, and the final state is the left fold of the calls |
| Fuego.ForEachCountsAndSums | stream_test.go:196-246 | ForEach with a counting and summing consumer: over a nil channel zero calls and total 0; over 4, 1, 3 three calls and total 8 |
| OrderedPipeline.Next | stream.go:152-173 | one writer, worker or reader step: the capacity never changes, a closed queue stays closed, at most one input element is consumed and only from the front, the output only grows and by at most one value, and a new worker starts only when an input element is consumed |
| OrderedPipeline.NextPreservesInvariants | stream.go:150-173 | every writer, worker or reader step keeps the reader's slot existing, the buffer within capacity, the queue closed only after the input ends, and leaves unchanged what the run has emitted plus what it is committed to emit |
| OrderedPipeline.NextDecreasesMeasure | stream.go:152-174 | every step brings the run closer to its end: input is finite, each slot is filled once and emitted once, the queue is closed once |
| OrderedPipeline.Ready | stream.go:152-174 | deadlock freedom: in any well-formed state that has not finished, some step is enabled |
| OrderedPipeline.Run | stream.go:143-175 | under any schedule the run reaches the end (queue closed and drained) and its output is what it was committed to: the output so far, the queued slots' values, then f of the unread input |
| OrderedPipeline.TracePreservesInvariants | stream.go:150-173 | after any finite interleaving of enabled steps the structural invariant and the order invariant still hold and the capacity is unchanged |
| OrderedPipeline.ReachableSafety | stream.go:150-161 | at every point of every interleaving the output is a prefix of f mapped over the input, the buffer holds at most capacity slots and at most capacity + 1 workers are in flight |
| OrderedPipeline.FinishedRunMapsInput | stream.go:143-174 | an interleaving that has closed and drained the queue has emitted exactly f mapped over the input, whatever order workers finished in |
| OrderedPipeline.InFlightBoundIsReached | stream.go:150-161 | for every capacity n and n + 1 inputs, a hand-off to the reader then n buffered sends is a valid interleaving that leaves n + 1 workers in flight |

## Left out

- Goroutines, channel blocking and buffer sizes appear only as the interleaving of steps
  and the slot queue's capacity. The output channel's buffer (`cap(s.stream)`,
  stream.go:141) and `bufsize` (stream.go:73) are not modelled. `NewStreamFromSlice`
  only requires that `bufsize` is non-negative, since `make` panics otherwise.
- Reading an input element and sending its slot are one atomic step, and so are sending a
  slot and starting its worker. In Go the writer receives `val` from the input channel
  (stream.go:155) before its send at stream.go:157 can block. The upstream producer can
  therefore see one more element consumed than the model has taken from `input`. At level
  c, Go can have pulled c + 2 elements that are not yet emitted, while the model allows at
  most c + 1.
- Channel consumption and sharing are not modelled. A channel is a value, so draining a
  Stream twice gives the same elements twice, whereas Go's second drain gets nothing.
- zap logging calls (stream.go:197, 202) are observability only.
- Producers that never close their channel (stream.go:26-28) are not modelled. The model
  has finite inputs only.
- Panics inside the mapper or consumer are not modelled. Neither are timing and the
  performance notes at stream.go:105-117.
- The `Entry` value types and the `R any` alias are not modelled. The model is generic
  over `T` and `R`.
- Only stream.go is modelled. The other operations used by stream_test.go (`Filter`,
  `Reduce`, `ToSlice`, `GroupBy` and the rest) have no implementation in that file.
- The nil-channel panic that stream_test.go:520-522 expects is not modelled, because
  `NewStream` raises none.
- Fuego.Map: the mapper is a pure function `T -> R`. In Go, `fn` runs inside worker
  goroutines (stream.go:158-161). At a level of 1 or more these run concurrently and in
  schedule order, so a stateful mapper's results can depend on the schedule. The output
  equals `f` mapped over the input only for a deterministic mapper.
- Fuego.OrderlyConcurrentDo: a negative level with a non-nil channel is excluded by a
  precondition. The source panics there: `make(chan chan R, s.concurrency)` at
  stream.go:150 panics inside the pipeline goroutine, which crashes the process. The
  model does not represent that crash. The same precondition is on `Fuego.Map`.
