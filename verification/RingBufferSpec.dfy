// What the ring-buffer queue of pkg/collections is for: a FIFO sequence held in a buffer
// whose capacity doubles when full and halves at one quarter.
//
// `Bounded` is the abstract state: the FIFO contents, the capacity, the configured maximum
// and the number of elements resize has copied so far.  The class in RingBuffer.dfy refines
// it; here the runs of operations are studied.

module RingBufferSpec {
  import opened Options
  import opened PowersOfTwo

  const MIN_CAPACITY: nat := 2

  datatype Bounded<T> = Bounded(items: seq<Option<T>>, capacity: nat, maxlen: int, copied: nat) {
    predicate WellFormed() {
      |items| <= capacity
    }

    // The buffer is full and growIfFull declines to grow it.
    predicate AtLimit() {
      0 < capacity == |items| && maxlen <= |items|
    }
  }

  function Empty<T>(maxlen: int): Bounded<T> {
    Bounded([], 0, maxlen, 0)
  }

  function AfterPush<T>(b: Bounded<T>, x: Option<T>): Bounded<T>
    requires b.WellFormed() && !b.AtLimit()
  {
    if b.capacity == 0 then
      b.(items := b.items + [x], capacity := MIN_CAPACITY)
    else if |b.items| == b.capacity then
      b.(items := b.items + [x], capacity := 2 * |b.items|, copied := b.copied + |b.items|)
    else
      b.(items := b.items + [x])
  }

  function AfterPop<T>(b: Bounded<T>): Bounded<T>
    requires b.WellFormed()
  {
    if b.items == [] then b
    else
      var rest := b.items[1..];
      if b.capacity > MIN_CAPACITY && 4 * |rest| == b.capacity then
        b.(items := rest, capacity := 2 * |rest|, copied := b.copied + |rest|)
      else
        b.(items := rest)
  }

  // The value Pop and Peek return: nil on an empty queue.
  function Front<T>(items: seq<Option<T>>): Option<T> {
    if items == [] then None else items[0]
  }

  /* Runs */

  datatype Op<T> = Push(elem: Option<T>) | Pop | Peek

  // The result of a run: lost when some Push met a full buffer that could not grow.
  datatype Outcome<T> = Lost | Kept(state: Bounded<T>, results: seq<Option<T>>)

  function Run<T>(b: Bounded<T>, ops: seq<Op<T>>): Outcome<T>
    requires b.WellFormed()
    decreases |ops|
  {
    if ops == [] then Kept(b, [])
    else
      match ops[0]
      case Push(x) =>
        if b.AtLimit() then Lost else Run(AfterPush(b, x), ops[1..])
      case Pop => Observe(Front(b.items), Run(AfterPop(b), ops[1..]))
      case Peek => Observe(Front(b.items), Run(b, ops[1..]))
  }

  function Observe<T>(x: Option<T>, o: Outcome<T>): Outcome<T> {
    if o.Lost? then Lost else o.(results := [x] + o.results)
  }

  // The reference: a plain, unbounded FIFO sequence.
  function FifoStep<T>(items: seq<Option<T>>, op: Op<T>): seq<Option<T>> {
    match op
    case Push(x) => items + [x]
    case Pop => if items == [] then [] else items[1..]
    case Peek => items
  }

  function FifoContents<T>(items: seq<Option<T>>, ops: seq<Op<T>>): seq<Option<T>>
    decreases |ops|
  {
    if ops == [] then items else FifoContents(FifoStep(items, ops[0]), ops[1..])
  }

  function FifoResults<T>(items: seq<Option<T>>, ops: seq<Op<T>>): seq<Option<T>>
    decreases |ops|
  {
    if ops == [] then []
    else (if ops[0].Push? then [] else [Front(items)]) + FifoResults(FifoStep(items, ops[0]), ops[1..])
  }

  // On the plain FIFO, no Push happens when `limit` elements are queued.
  predicate NeverPushedAt<T>(limit: nat, items: seq<Option<T>>, ops: seq<Op<T>>)
    decreases |ops|
  {
    ops == [] ||
    ((ops[0].Push? ==> |items| != limit) && NeverPushedAt(limit, FifoStep(items, ops[0]), ops[1..]))
  }

  function Pushes<T>(ops: seq<Op<T>>): nat {
    if ops == [] then 0 else (if ops[0].Push? then 1 else 0) + Pushes(ops[1..])
  }

  function Pops<T>(ops: seq<Op<T>>): nat {
    if ops == [] then 0 else (if ops[0].Pop? then 1 else 0) + Pops(ops[1..])
  }

  /* The capacity at which growth stops */

  function Doubled(c: nat, maxlen: int): nat
    requires c > 0
    decreases maxlen - c
  {
    if maxlen <= c then c else Doubled(2 * c, maxlen)
  }

  // Growth stops at the least power of two that is at least max(2, maxlen).
  function Limit(maxlen: int): nat {
    Doubled(MIN_CAPACITY, maxlen)
  }

  lemma {:induction false} DoubledIsLeast(c: nat, maxlen: int)
    requires IsPow2(c)
    ensures IsPow2(Doubled(c, maxlen)) && c <= Doubled(c, maxlen) && maxlen <= Doubled(c, maxlen)
    ensures Doubled(c, maxlen) == c || Doubled(c, maxlen) < 2 * maxlen
    ensures forall d: nat :: IsPow2(d) && c <= d && maxlen <= d ==> Doubled(c, maxlen) <= d
    decreases maxlen - c
  {
    if c < maxlen {
      DoubledIsLeast(2 * c, maxlen);
      forall d: nat | IsPow2(d) && c <= d && maxlen <= d ensures 2 * c <= d {
        Pow2Gap(c, d);
      }
    }
  }

  /* Invariants of every run */

  predicate Tight<T>(b: Bounded<T>) {
    if b.capacity == 0 then b.items == []
    else
      && IsPow2(b.capacity) && MIN_CAPACITY <= b.capacity <= Limit(b.maxlen)
      && |b.items| <= b.capacity
      && (b.capacity > MIN_CAPACITY ==> b.capacity < 4 * |b.items|)
  }

  // Credit stored in a state: two units per element above half the capacity, one unit per
  // element missing below it.
  function Credit<T>(b: Bounded<T>): nat
    requires Tight(b)
  {
    if b.capacity <= 2 * |b.items| then 2 * |b.items| - b.capacity
    else if b.capacity <= MIN_CAPACITY then 0
    else b.capacity / 2 - |b.items|
  }

  lemma LimitMeetsExactly<T>(b: Bounded<T>)
    requires Tight(b)
    ensures b.AtLimit() <==> |b.items| == Limit(b.maxlen)
  {
    DoubledIsLeast(MIN_CAPACITY, b.maxlen);
  }

  // A Push keeps the invariants and costs at most two amortised copies.
  lemma PushKeepsTight<T>(b: Bounded<T>, x: Option<T>)
    requires Tight(b) && !b.AtLimit()
    ensures var c := AfterPush(b, x);
      Tight(c) && c.copied + Credit(c) <= b.copied + Credit(b) + 2
  {
    DoubledIsLeast(MIN_CAPACITY, b.maxlen);
    if b.capacity != 0 && |b.items| == b.capacity {
      Pow2Gap(b.capacity, Limit(b.maxlen));
      assert IsPow2(2 * b.capacity);
    }
  }

  // A Pop keeps the invariants and costs at most one amortised copy.
  lemma PopKeepsTight<T>(b: Bounded<T>)
    requires Tight(b)
    ensures var c := AfterPop(b);
      Tight(c) && c.copied + Credit(c) <= b.copied + Credit(b) + 1
  {
    if b.capacity > MIN_CAPACITY {
      EvenPowers(b.capacity / 2);
      assert b.capacity % 4 == 0;
    }
  }

  // Where a run from `b` ends, given the plain FIFO run of the same operations.
  ghost predicate RunMeetsFifo<T>(b: Bounded<T>, ops: seq<Op<T>>) {
    Tight(b) &&
    var o := Run(b, ops);
    && (o.Kept? <==> NeverPushedAt(Limit(b.maxlen), b.items, ops))
    && (o.Kept? ==>
          && o.results == FifoResults(b.items, ops)
          && o.state.items == FifoContents(b.items, ops)
          && o.state.maxlen == b.maxlen
          && Tight(o.state)
          && o.state.copied + Credit(o.state) <= b.copied + Credit(b) + 2 * Pushes(ops) + Pops(ops))
  }

  lemma {:induction false} RunsFromTight<T>(b: Bounded<T>, ops: seq<Op<T>>)
    requires Tight(b)
    ensures RunMeetsFifo(b, ops)
    decreases |ops|
  {
    if ops != [] {
      LimitMeetsExactly(b);
      match ops[0]
      case Push(x) =>
        if !b.AtLimit() {
          PushKeepsTight(b, x);
          RunsFromTight(AfterPush(b, x), ops[1..]);
        }
      case Pop =>
        PopKeepsTight(b);
        RunsFromTight(AfterPop(b), ops[1..]);
      case Peek =>
        RunsFromTight(b, ops[1..]);
    }
  }

  // FIFO refinement and amortised cost, for every maxlen and every run: the contents survive
  // exactly when no Push is made at Limit(maxlen) queued elements, and then the run returns
  // what a plain FIFO returns and resize has copied at most two elements per Push and one per
  // Pop.
  lemma EveryRunIsFifo<T>(maxlen: int, ops: seq<Op<T>>)
    ensures var o := Run(Empty<T>(maxlen), ops);
      && (o.Kept? <==> NeverPushedAt(Limit(maxlen), [], ops))
      && (o.Kept? ==>
            && o.results == FifoResults([], ops)
            && o.state.items == FifoContents([], ops)
            && o.state.copied <= 2 * Pushes(ops) + Pops(ops))
  {
    RunsFromTight(Empty<T>(maxlen), ops);
  }

  // Space: along every surviving run the capacity is zero or a power of two, above two it is
  // strictly below four times the count, and it never exceeds max(2, 2 * (maxlen - 1)).
  lemma EveryRunIsTight<T>(maxlen: int, ops: seq<Op<T>>)
    requires NeverPushedAt(Limit(maxlen), [], ops)
    ensures var o := Run(Empty<T>(maxlen), ops);
      && o.Kept?
      && var b := o.state;
      && (b.capacity == 0 || IsPow2(b.capacity))
      && (b.capacity > 2 ==> b.capacity < 4 * |b.items|)
      && (b.capacity <= 2 || b.capacity <= 2 * (maxlen - 1))
  {
    RunsFromTight(Empty<T>(maxlen), ops);
    DoubledIsLeast(MIN_CAPACITY, maxlen);
    EvenPowers(Limit(maxlen));
  }

  lemma EvenPowers(n: nat)
    requires IsPow2(n) && n > 1
    ensures n % 2 == 0
  {
  }

  // A caller that never pushes at maxlen queued elements, as the bound intends, is safe.
  lemma RespectingMaxlenIsSafe<T>(maxlen: nat, ops: seq<Op<T>>)
    requires maxlen >= 1 && NeverPushedAt(maxlen, [], ops)
    ensures Run(Empty<T>(maxlen), ops).Kept?
  {
    DoubledIsLeast(MIN_CAPACITY, maxlen);
    SmallerBoundIsSafe(maxlen, Limit(maxlen), [], ops);
    EveryRunIsFifo(maxlen, ops);
  }

  lemma {:induction false} SmallerBoundIsSafe<T>(small: nat, large: nat, items: seq<Option<T>>, ops: seq<Op<T>>)
    requires |items| <= small <= large && NeverPushedAt(small, items, ops)
    ensures NeverPushedAt(large, items, ops)
    decreases |ops|
  {
    if ops != [] { SmallerBoundIsSafe(small, large, FifoStep(items, ops[0]), ops[1..]); }
  }

  // The default queue, documented as unbounded, loses its contents at the third element.
  lemma UnboundedModeHoldsTwo<T>(x: Option<T>)
    ensures Limit(0) == 2
    ensures Run(Empty<T>(0), [Push(x), Push(x), Push(x)]).Lost?
  {
    var ops := [Push(x), Push(x), Push(x)];
    assert ops[1..] == [Push(x), Push(x)] && ops[1..][1..] == [Push(x)];
    var b := AfterPush(AfterPush(Empty<T>(0), x), x);
    assert b.AtLimit() && Run(b, [Push(x)]).Lost?;
  }
}
