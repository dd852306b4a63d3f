/** The ordered fan-out/fan-in pipeline behind `Stream.Map` (orderlyConcurrentDo).

    Three roles share a bounded queue of one-shot result slots:
    - the writer takes the next input element, enqueues a fresh slot for it and only then
      starts the worker that will fill that slot;
    - each worker writes exactly one result into its own slot;
    - the reader receives slots from the queue in FIFO order, blocks on the slot it holds
      and emits its value.

    Goroutine scheduling is not modelled as real parallelism: the state below is the
    shared state of the three roles, and every interleaving is a sequence of `Step`s. */
module OrderedPipeline {

  /** The reference meaning of a one-to-one transformation: `f` applied to every element, in order. */
  function MapSeq<T, R>(f: T -> R, xs: seq<T>): seq<R>
  {
    seq(|xs|, i requires 0 <= i < |xs| => f(xs[i]))
  }

  /** A one-shot result slot: its worker is still running, or has written its only result. */
  datatype Slot<T, R> = Pending(arg: T) | Done(result: R)

  /** The value a slot holds or will hold once its worker finishes. */
  function SlotValue<T, R>(f: T -> R, s: Slot<T, R>): R
  {
    match s
    case Pending(x) => f(x)
    case Done(r) => r
  }

  function Values<T, R>(f: T -> R, slots: seq<Slot<T, R>>): seq<R>
  {
    seq(|slots|, i requires 0 <= i < |slots| => SlotValue(f, slots[i]))
  }

  /** Number of slots whose worker has not finished yet, i.e. workers in flight. */
  function InFlight<T, R>(slots: seq<Slot<T, R>>): nat
  {
    if |slots| == 0 then 0
    else (if slots[0].Pending? then 1 else 0) + InFlight(slots[1..])
  }

  /** Shared state of writer, workers and reader.
      - `capacity`: buffer size of the slot queue (the stream's concurrency level);
      - `input`: elements the writer has not read yet;
      - `slots`: slots sent on the queue and not yet emitted, oldest first; when `taken`
        the first of them has been received by the reader, which is blocked on it;
      - `closed`: the writer has closed the slot queue;
      - `output`: values the reader has emitted so far. */
  datatype Pipeline<T, R> = Pipeline(
    capacity: nat,
    input: seq<T>,
    slots: seq<Slot<T, R>>,
    taken: bool,
    closed: bool,
    output: seq<R>)

  /** Slots sitting in the queue's buffer (the one held by the reader is no longer buffered). */
  function Buffered<T, R>(st: Pipeline<T, R>): int
  {
    |st.slots| - (if st.taken then 1 else 0)
  }

  /** The reader's loop has ended: the queue is closed and drained. The output is closed then. */
  predicate Finished<T, R>(st: Pipeline<T, R>)
  {
    st.closed && |st.slots| == 0 && !st.taken
  }

  /** The state right after the pipeline goroutine has made the slot queue. */
  function Start<T, R>(xs: seq<T>, capacity: nat): Pipeline<T, R>
  {
    Pipeline(capacity, xs, [], false, false, [])
  }

  datatype Step =
    | Enqueue          // writer: send a new slot into the queue's buffer
    | Handoff          // writer: send a new slot straight to the waiting reader
    | Receive          // reader: take the oldest buffered slot
    | Complete(index: nat)  // a worker writes the result of the index-th slot
    | Emit             // reader: the held slot has its result; emit it
    | CloseQueue       // writer: input exhausted, close the queue

  /** When a step can happen. A Go channel send into a buffer needs room in it; an
      unbuffered send (and any send when the buffer is empty and the reader is waiting)
      is a direct hand-off to the reader. A worker completes only a slot still pending. */
  predicate Enabled<T, R>(st: Pipeline<T, R>, step: Step)
  {
    match step
    case Enqueue => |st.input| > 0 && !st.closed && Buffered(st) < st.capacity
    case Handoff => |st.input| > 0 && !st.closed && !st.taken && |st.slots| == 0
    case Receive => !st.taken && |st.slots| > 0
    case Complete(i) => i < |st.slots| && st.slots[i].Pending?
    case Emit => st.taken && |st.slots| > 0 && st.slots[0].Done?
    case CloseQueue => |st.input| == 0 && !st.closed
  }

  /** One step. Enqueue and Handoff: the writer's loop body (stream.go:155-161), reading one
      element, sending its fresh slot and then starting its worker. Receive and Emit: the
      reader's loop (stream.go:170-171). Complete: a worker's send into its own slot
      (stream.go:158-161). CloseQueue: the writer's deferred close (stream.go:153). */
  function Next<T, R>(f: T -> R, st: Pipeline<T, R>, step: Step): (st': Pipeline<T, R>)
    requires Enabled(st, step)
    ensures st'.capacity == st.capacity
    ensures st.closed ==> st'.closed
    ensures |st.input| - 1 <= |st'.input| <= |st.input|
    ensures st'.input == st.input[|st.input| - |st'.input|..]
    ensures |st.output| <= |st'.output| <= |st.output| + 1
    ensures st'.output[..|st.output|] == st.output
    ensures InFlight(st'.slots) > InFlight(st.slots) ==> |st'.input| + 1 == |st.input|
  {
    match step
    case Enqueue =>
      InFlightAppend(st.slots, [Pending(st.input[0])]);
      st.(input := st.input[1..], slots := st.slots + [Pending(st.input[0])])
    case Handoff => st.(input := st.input[1..], slots := [Pending(st.input[0])], taken := true)
    case Receive => st.(taken := true)
    case Complete(i) =>
      InFlightComplete(st.slots, i, f(st.slots[i].arg));
      st.(slots := st.slots[i := Done(f(st.slots[i].arg))])
    case Emit => st.(output := st.output + [st.slots[0].result], slots := st.slots[1..], taken := false)
    case CloseQueue => st.(closed := true)
  }

  /** Structural invariant: the reader only holds a slot that exists, the buffer never
      exceeds its capacity, and the queue is closed only once the input is exhausted. */
  predicate Wf<T, R>(st: Pipeline<T, R>)
  {
    && (st.taken ==> |st.slots| > 0)
    && Buffered(st) <= st.capacity
    && (st.closed ==> |st.input| == 0)
  }

  /** Everything the run has emitted or is committed to emit: the output so far, then what the
      queued slots hold or will hold, then `f` of the unread input. */
  function Promised<T, R>(f: T -> R, st: Pipeline<T, R>): seq<R>
  {
    st.output + Values(f, st.slots) + MapSeq(f, st.input)
  }

  /** Order invariant: the run is committed to exactly `f` mapped over the original input. */
  ghost predicate Accounts<T, R>(f: T -> R, original: seq<T>, st: Pipeline<T, R>)
  {
    Promised(f, st) == MapSeq(f, original)
  }

  function Measure<T, R>(st: Pipeline<T, R>): nat
  {
    5 * |st.input| + 3 * |st.slots| + InFlight(st.slots)
    + (if st.taken then 0 else 1) + (if st.closed then 0 else 1)
  }

  lemma {:induction false} InFlightAppend<T, R>(a: seq<Slot<T, R>>, b: seq<Slot<T, R>>)
    ensures InFlight(a + b) == InFlight(a) + InFlight(b)
    decreases |a|
  {
    if a == [] {
      assert a + b == b;
    } else {
      assert (a + b)[1..] == a[1..] + b;
      InFlightAppend(a[1..], b);
    }
  }

  lemma {:induction false} InFlightComplete<T, R>(slots: seq<Slot<T, R>>, i: nat, r: R)
    requires i < |slots| && slots[i].Pending?
    ensures InFlight(slots[i := Done(r)]) + 1 == InFlight(slots)
    decreases i
  {
    if i > 0 {
      assert slots[i := Done(r)][1..] == slots[1..][i - 1 := Done(r)];
      InFlightComplete(slots[1..], i - 1, r);
    }
  }

  lemma {:induction false} InFlightAtMostSlots<T, R>(slots: seq<Slot<T, R>>)
    ensures InFlight(slots) <= |slots|
    decreases |slots|
  {
    if slots != [] {
      InFlightAtMostSlots(slots[1..]);
    }
  }

  /** Every step makes progress towards the end of the run. */
  lemma NextDecreasesMeasure<T, R>(f: T -> R, st: Pipeline<T, R>, step: Step)
    requires Enabled(st, step)
    ensures Measure(Next(f, st, step)) < Measure(st)
  {
    match step
    case Enqueue =>
      InFlightAppend(st.slots, [Pending(st.input[0])]);
    case Handoff =>
      var one: seq<Slot<T, R>> := [Pending(st.input[0])];
      assert one[1..] == [];
    case Receive =>
    case Complete(i) =>
      InFlightComplete(st.slots, i, f(st.slots[i].arg));
    case Emit =>
    case CloseQueue =>
  }

  lemma MapSeqCons<T, R>(f: T -> R, xs: seq<T>)
    requires |xs| > 0
    ensures MapSeq(f, xs) == [f(xs[0])] + MapSeq(f, xs[1..])
  {
  }

  lemma ValuesCons<T, R>(f: T -> R, slots: seq<Slot<T, R>>)
    requires |slots| > 0
    ensures Values(f, slots) == [SlotValue(f, slots[0])] + Values(f, slots[1..])
  {
  }

  lemma ValuesSnoc<T, R>(f: T -> R, slots: seq<Slot<T, R>>, x: T)
    ensures Values(f, slots + [Pending(x)]) == Values(f, slots) + [f(x)]
  {
  }

  /** A worker's write does not change the value its slot stands for. */
  lemma ValuesComplete<T, R>(f: T -> R, slots: seq<Slot<T, R>>, i: nat)
    requires i < |slots| && slots[i].Pending?
    ensures Values(f, slots[i := Done(f(slots[i].arg))]) == Values(f, slots)
  {
  }

  /** Every step keeps both invariants. */
  lemma NextPreservesInvariants<T, R>(f: T -> R, st: Pipeline<T, R>, step: Step)
    requires Wf(st) && Enabled(st, step)
    ensures Wf(Next(f, st, step))
    ensures Promised(f, Next(f, st, step)) == Promised(f, st)
  {
    match step
    case Enqueue =>
      MapSeqCons(f, st.input);
      ValuesSnoc(f, st.slots, st.input[0]);
    case Handoff =>
      MapSeqCons(f, st.input);
      ValuesSnoc(f, st.slots, st.input[0]);
    case Receive =>
    case Complete(i) =>
      ValuesComplete(f, st.slots, i);
    case Emit =>
      ValuesCons(f, st.slots);
    case CloseQueue =>
  }

  /** Deadlock freedom: a run that has not finished always has an enabled step. */
  function Ready<T, R>(st: Pipeline<T, R>): (step: Step)
    requires Wf(st) && !Finished(st)
    ensures Enabled(st, step)
  {
    if st.taken then (if st.slots[0].Pending? then Complete(0) else Emit)
    else if |st.slots| > 0 then Receive
    else if |st.input| > 0 then Handoff
    else CloseQueue
  }

  /** Runs the pipeline to its end. `sched` stands for the Go scheduler: in each state it
      picks which role moves next and which worker finishes; a choice that is not enabled
      is replaced by `Ready`. Arbitrary interleavings, finished or not, are covered by
      `TracePreservesInvariants`, `ReachableSafety` and `FinishedRunMapsInput`. */
  function Run<T, R>(f: T -> R, st: Pipeline<T, R>, sched: Pipeline<T, R> -> Step): (r: Pipeline<T, R>)
    requires Wf(st)
    ensures Finished(r)
    ensures r.output == Promised(f, st)
    decreases Measure(st)
  {
    if Finished(st) then
      st
    else
      var step := if Enabled(st, sched(st)) then sched(st) else Ready(st);
      NextDecreasesMeasure(f, st, step);
      NextPreservesInvariants(f, st, step);
      Run(f, Next(f, st, step), sched)
  }

  /** A finite interleaving of steps, each enabled in the state the previous ones led to. */
  predicate ValidTrace<T, R>(f: T -> R, st: Pipeline<T, R>, trace: seq<Step>)
    decreases |trace|
  {
    |trace| == 0 || (Enabled(st, trace[0]) && ValidTrace(f, Next(f, st, trace[0]), trace[1..]))
  }

  function Apply<T, R>(f: T -> R, st: Pipeline<T, R>, trace: seq<Step>): Pipeline<T, R>
    requires ValidTrace(f, st, trace)
    decreases |trace|
  {
    if |trace| == 0 then st else Apply(f, Next(f, st, trace[0]), trace[1..])
  }

  /** Both invariants hold after every interleaving of steps. */
  lemma {:induction false} TracePreservesInvariants<T, R>(
    f: T -> R, original: seq<T>, st: Pipeline<T, R>, trace: seq<Step>)
    requires Wf(st) && Accounts(f, original, st) && ValidTrace(f, st, trace)
    ensures Wf(Apply(f, st, trace)) && Accounts(f, original, Apply(f, st, trace))
    ensures Apply(f, st, trace).capacity == st.capacity
    decreases |trace|
  {
    if trace != [] {
      NextPreservesInvariants(f, st, trace[0]);
      TracePreservesInvariants(f, original, Next(f, st, trace[0]), trace[1..]);
    }
  }

  /** At every point of every interleaving the reader has emitted a prefix of `f` mapped over
      the input, the queue buffer is within its capacity, and at most capacity + 1 workers are
      in flight (capacity buffered slots plus the one the reader is blocked on). */
  lemma ReachableSafety<T, R>(f: T -> R, xs: seq<T>, capacity: nat, trace: seq<Step>)
    requires ValidTrace(f, Start(xs, capacity), trace)
    ensures var st := Apply(f, Start(xs, capacity), trace);
      && |st.output| <= |xs|
      && st.output == MapSeq(f, xs)[..|st.output|]
      && Buffered(st) <= capacity
      && InFlight(st.slots) <= capacity + 1
  {
    var st0: Pipeline<T, R> := Start(xs, capacity);
    assert Values(f, st0.slots) == [];
    TracePreservesInvariants(f, xs, st0, trace);
    var st := Apply(f, st0, trace);
    var whole := st.output + Values(f, st.slots) + MapSeq(f, st.input);
    assert |whole| == |MapSeq(f, xs)|;
    assert st.output == whole[..|st.output|];
    InFlightAtMostSlots(st.slots);
  }

  /** Order preservation: an interleaving that reaches the end has emitted exactly
      `f` mapped over the input, whatever order the workers finished in. */
  lemma FinishedRunMapsInput<T, R>(f: T -> R, xs: seq<T>, capacity: nat, trace: seq<Step>)
    requires ValidTrace(f, Start(xs, capacity), trace)
    requires Finished(Apply(f, Start(xs, capacity), trace))
    ensures Apply(f, Start(xs, capacity), trace).output == MapSeq(f, xs)
  {
    var st0: Pipeline<T, R> := Start(xs, capacity);
    assert Values(f, st0.slots) == [];
    TracePreservesInvariants(f, xs, st0, trace);
    var st := Apply(f, st0, trace);
    assert Values(f, st.slots) == [];
    assert st.output + Values(f, st.slots) + MapSeq(f, st.input) == st.output;
  }

  /** `k` writer sends into the buffer in a row. */
  function Enqueues(k: nat): seq<Step>
  {
    if k == 0 then [] else [Enqueue] + Enqueues(k - 1)
  }

  /** While the buffer has room and input remains, each buffered send starts one more worker. */
  lemma {:induction false} EnqueuesStartWorkers<T, R>(f: T -> R, st: Pipeline<T, R>, k: nat)
    requires k <= |st.input| && !st.closed && Buffered(st) + k <= st.capacity
    ensures ValidTrace(f, st, Enqueues(k))
    ensures InFlight(Apply(f, st, Enqueues(k)).slots) == InFlight(st.slots) + k
    decreases k
  {
    if k > 0 {
      var st' := Next(f, st, Enqueue);
      var one: seq<Slot<T, R>> := [Pending(st.input[0])];
      assert one[1..] == [];
      InFlightAppend(st.slots, one);
      assert Enqueues(k)[0] == Enqueue && Enqueues(k)[1..] == Enqueues(k - 1);
      EnqueuesStartWorkers(f, st', k - 1);
    }
  }

  /** The capacity + 1 bound is reached for every capacity `n`: with n + 1 inputs, a hand-off to
      the waiting reader followed by `n` buffered sends leaves n + 1 workers in flight. */
  lemma InFlightBoundIsReached<T, R>(f: T -> R, xs: seq<T>, n: nat)
    requires |xs| == n + 1
    ensures ValidTrace(f, Start(xs, n), [Handoff] + Enqueues(n))
    ensures InFlight(Apply(f, Start(xs, n), [Handoff] + Enqueues(n)).slots) == n + 1
  {
    var st0: Pipeline<T, R> := Start(xs, n);
    var st1 := Next(f, st0, Handoff);
    var one: seq<Slot<T, R>> := [Pending(xs[0])];
    assert st1.slots == one && one[1..] == [];
    EnqueuesStartWorkers(f, st1, n);
    var trace := [Handoff] + Enqueues(n);
    assert trace[0] == Handoff && trace[1..] == Enqueues(n);
  }
}
