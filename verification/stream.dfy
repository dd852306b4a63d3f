/** The fuego Stream handle: a channel plus a concurrency level, its constructors, the
    ordered `Map` built on the pipeline of module OrderedPipeline, and `ForEach`.

    A channel is modelled by everything its producer sends before closing it: finite
    producers only. A nil Go channel is the separate case `Nil`. */
module Fuego {
  import opened OrderedPipeline

  datatype Channel<T> = Nil | Chan(items: seq<T>)

  /** A value pair: the underlying channel and the degree of concurrency. */
  datatype Stream<T> = Stream(stream: Channel<T>, concurrency: int)

  /** Builds a Stream with concurrency level `n`; any `int` is accepted and kept as is. */
  function NewConcurrentStream<T>(c: Channel<T>, n: int): (s: Stream<T>)
    ensures s.stream == c
    ensures Concurrency(s) == n
  {
    Stream(c, n)
  }

  /** Builds a sequential Stream over `c`. The channel is neither checked nor closed,
      so a nil channel gives a Stream over a nil channel. */
  function NewStream<T>(c: Channel<T>): (s: Stream<T>)
    ensures s.stream == c
    ensures Concurrency(s) == 0
  {
    NewConcurrentStream(c, 0)
  }

  /** The level a Stream was built with; with its channel it makes up the whole handle. */
  function Concurrency<T>(s: Stream<T>): (n: int)
    ensures Stream(s.stream, n) == s
  {
    s.concurrency
  }

  /** The same channel, not copied nor consumed, with a new concurrency level. */
  function Concurrent<T>(s: Stream<T>, n: int): (r: Stream<T>)
    ensures r.stream == s.stream
    ensures Concurrency(r) == n
  {
    NewConcurrentStream(s.stream, n)
  }

  /** Setting the level and then restoring the old one gives back the original Stream:
      `Concurrent` changes nothing but the level. */
  lemma ConcurrentRestores<T>(s: Stream<T>, n: int)
    ensures Concurrent(Concurrent(s, n), Concurrency(s)) == s
  {
  }

  /** Publishes a finite slice on a fresh channel, element by element in slice order, then
      closes the channel. A nil slice ranges like an empty one, so both give a non-nil,
      empty channel. A negative buffer size makes Go's `make` panic. */
  method NewStreamFromSlice<T>(slice: seq<T>, bufsize: int) returns (s: Stream<T>)
    requires bufsize >= 0
    ensures s.stream.Chan?
    ensures s.stream.items == slice
    ensures Concurrency(s) == 0
  {
    var sent: seq<T> := [];
    var i := 0;
    while i < |slice|
      invariant 0 <= i <= |slice|
      invariant sent == slice[..i]
    {
      sent := sent + [slice[i]];
      i := i + 1;
    }
    s := NewStream(Chan(sent));
  }

  /** The channel of the result of `Map`. On a nil channel the output is made and closed at
      once: no slot queue, no workers. Otherwise the pipeline runs to its end under the
      goroutine schedule `sched`; a negative level makes `make` panic on that path only. */
  function OrderlyConcurrentDo<T, R>(s: Stream<T>, f: T -> R, sched: Pipeline<T, R> -> Step): (out: Channel<R>)
    requires s.stream.Nil? || s.concurrency >= 0
    ensures out.Chan?
    ensures s.stream.Nil? ==> out.items == []
    ensures s.stream.Chan? ==> out.items == MapSeq(f, s.stream.items)
  {
    if s.stream.Nil? then
      Chan([])
    else
      var start: Pipeline<T, R> := Start(s.stream.items, s.concurrency);
      assert Values(f, start.slots) == [];
      Chan(Run(f, start, sched).output)
  }

  /** `f` applied to every element, in input order, for every concurrency level and every
      schedule; the result keeps the source's concurrency level. */
  function Map<T, R>(s: Stream<T>, f: T -> R, sched: Pipeline<T, R> -> Step): (r: Stream<R>)
    requires s.stream.Nil? || s.concurrency >= 0
    ensures Concurrency(r) == Concurrency(s)
    ensures r.stream.Chan?
    ensures |r.stream.items| == (if s.stream.Nil? then 0 else |s.stream.items|)
    ensures forall i :: 0 <= i < |r.stream.items| ==> s.stream.Chan? && r.stream.items[i] == f(s.stream.items[i])
  {
    NewConcurrentStream(OrderlyConcurrentDo(s, f, sched), s.concurrency)
  }

  /** Two runs of `Map` under different schedules and different non-negative levels emit the
      same values: the worker completion order and the level are invisible in the output. */
  lemma MapIgnoresScheduleAndLevel<T, R>(
    s: Stream<T>, f: T -> R, n1: nat, n2: nat,
    sched1: Pipeline<T, R> -> Step, sched2: Pipeline<T, R> -> Step)
    ensures Map(Concurrent(s, n1), f, sched1).stream == Map(Concurrent(s, n2), f, sched2).stream
  {
  }

  /** `Map` over a Stream with a nil channel yields a made, closed, empty channel, whatever the
      level, since the goroutine returns before the slot queue is made. */
  lemma MapOfNilIsClosedEmpty<T, R>(n: int, f: T -> R, sched: Pipeline<T, R> -> Step)
    ensures Map(Stream(Nil, n), f, sched).stream == Chan([])
  {
    assert |Map(Stream(Nil, n), f, sched).stream.items| == 0;
  }

  function Double(x: int): int
  {
    2 * x
  }

  lemma DoubleOfOneThreeTwo()
    ensures MapSeq(Double, [1, 3, 2]) == [2, 6, 4]
  {
    var m := MapSeq(Double, [1, 3, 2]);
    var xs := [1, 3, 2];
    assert m[0] == Double(xs[0]) && m[1] == Double(xs[1]) && m[2] == Double(xs[2]);
  }

  /** Doubling 1, 3, 2 emits 2, 6, 4 at every level and under every schedule. */
  lemma MapDoublesInOrder(s: Stream<int>, sched: Pipeline<int, int> -> Step)
    requires s.stream == Chan([1, 3, 2]) && s.concurrency >= 0
    ensures Map(s, Double, sched).stream == Chan([2, 6, 4])
  {
    assert Map(s, Double, sched).stream == Chan(MapSeq(Double, [1, 3, 2]));
    DoubleOfOneThreeTwo();
  }

  /** The effect of calling `consume` on each of `xs` in order, starting from `w`. */
  function Fold<T, W>(consume: (W, T) -> W, w: W, xs: seq<T>): W
    decreases |xs|
  {
    if |xs| == 0 then w else consume(Fold(consume, w, xs[..|xs| - 1]), xs[|xs| - 1])
  }

  /** Drains the Stream, calling the consumer once per element in channel order. The consumer's
      side effects are a state `W` it transforms; `calls` logs the argument of every call.
      A nil channel is a no-op. */
  method ForEach<T, W>(s: Stream<T>, consume: (W, T) -> W, w0: W) returns (calls: seq<T>, w: W)
    ensures s.stream.Nil? ==> |calls| == 0 && w == w0
    ensures s.stream.Chan? ==> calls == s.stream.items
    ensures w == Fold(consume, w0, calls)
  {
    calls, w := [], w0;
    if s.stream.Nil? {
      return;
    }
    var items := s.stream.items;
    var i := 0;
    while i < |items|
      invariant 0 <= i <= |items|
      invariant calls == items[..i]
      invariant w == Fold(consume, w0, calls)
    {
      assert (calls + [items[i]])[..i] == calls;
      w := consume(w, items[i]);
      calls := calls + [items[i]];
      i := i + 1;
    }
  }

  /** A consumer that counts its calls and sums their arguments. */
  function CountAndSum(w: (int, int), x: int): (int, int)
  {
    (w.0 + 1, w.1 + x)
  }

  /** ForEach with that consumer: a nil channel makes no call and leaves count and total at
      zero; a channel carrying 4, 1, 3 makes three calls totalling 8. */
  method ForEachCountsAndSums() returns (nilCalls: nat, nilState: (int, int), calls: nat, state: (int, int))
    ensures nilCalls == 0 && nilState == (0, 0)
    ensures calls == 3 && state == (3, 8)
  {
    var log, w := ForEach(Stream(Nil, 0), CountAndSum, (0, 0));
    nilCalls, nilState := |log|, w;
    log, w := ForEach(Stream(Chan([4, 1, 3]), 0), CountAndSum, (0, 0));
    assert log == [4, 1, 3];
    assert log[..2] == [4, 1] && log[..2][..1] == [4] && log[..2][..1][..0] == [];
    calls, state := |log|, w;
  }
}
