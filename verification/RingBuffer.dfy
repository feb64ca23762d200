// pkg/collections/ringbuffer.go: a queue over a circular buffer of power-of-two length with
// bitmask wraparound.  An element is an interface value, so None is Go's nil, both as an
// element a caller may push and as the content of an unused slot.

module RingBuffer {
  import opened Options
  import opened PowersOfTwo
  import opened RingBufferSpec

  /* A window of `count` slots of a circular buffer, starting at `head` */

  ghost function Window<T>(b: seq<T>, head: nat, count: nat): (s: seq<T>)
    requires count <= |b| && (|b| == 0 || head < |b|)
    ensures |s| == count
  {
    if |b| == 0 then [] else if head + count <= |b| then b[head..head + count]
    else b[head..] + b[..head + count - |b|]
  }

  ghost predicate NilOutside<T>(b: seq<Option<T>>, head: nat, count: nat) {
    forall i :: 0 <= i < |b| && !(head <= i < head + count) && !(i < head + count - |b|) ==> b[i] == None
  }

  // The position after i, and the position `count` steps after `head`, in a circle of n slots.
  function NextSlot(i: nat, n: nat): (j: nat)
    requires i < n
    ensures j < n
  {
    if i + 1 == n then 0 else i + 1
  }

  function Slot(head: nat, count: nat, n: nat): (j: nat)
    requires head < n
    ensures j < n
  {
    if count == 0 then head else NextSlot(Slot(head, count - 1, n), n)
  }

  lemma SlotAfter(head: nat, count: nat, n: nat)
    requires head < n
    ensures Slot(head, count + 1, n) == NextSlot(Slot(head, count, n), n)
  {
  }

  lemma {:induction false} SlotIsModulus(head: nat, count: nat, n: nat)
    requires head < n
    ensures Slot(head, count, n) == (head + count) % n
  {
    if count > 0 {
      SlotIsModulus(head, count - 1, n);
      NextIsModulus(head + count - 1, n);
    } else {
      ModulusUnique(head, n, 0, head);
    }
  }

  lemma NextIsModulus(a: nat, n: nat)
    requires n > 0
    ensures NextSlot(a % n, n) == (a + 1) % n
  {
    var q, r := a / n, a % n;
    if r + 1 < n {
      ModulusUnique(a + 1, n, q, r + 1);
    } else {
      ModulusUnique(a + 1, n, q + 1, 0);
    }
  }

  lemma {:induction false} SlotAt(head: nat, count: nat, n: nat)
    requires head < n && count <= n
    ensures Slot(head, count, n) == if head + count < n then head + count else head + count - n
  {
    if count > 0 { SlotAt(head, count - 1, n); }
  }

  lemma {:induction false} SlotFromNext(head: nat, count: nat, n: nat)
    requires head < n && count > 0
    ensures Slot(NextSlot(head, n), count - 1, n) == Slot(head, count, n)
  {
    if count > 1 { SlotFromNext(head, count - 1, n); }
  }

  lemma WindowPush<T>(b: seq<Option<T>>, head: nat, count: nat, x: Option<T>)
    requires head < |b| && count < |b|
    ensures var c := b[Slot(head, count, |b|) := x];
      && Window(c, head, count + 1) == Window(b, head, count) + [x]
      && (NilOutside(b, head, count) ==> NilOutside(c, head, count + 1))
  {
    SlotAt(head, count, |b|);
  }

  lemma WindowPop<T>(b: seq<Option<T>>, head: nat, count: nat)
    requires head < |b| && 0 < count <= |b|
    ensures var c := b[head := None];
      && Window(b, head, count)[0] == b[head]
      && Window(c, NextSlot(head, |b|), count - 1) == Window(b, head, count)[1..]
      && (NilOutside(b, head, count) ==> NilOutside(c, NextSlot(head, |b|), count - 1))
  {
  }

  lemma WindowAtFront<T>(c: seq<Option<T>>, w: seq<Option<T>>)
    requires 0 < |w| <= |c|
    requires forall i :: 0 <= i < |c| ==> c[i] == if i < |w| then w[i] else None
    ensures Window(c, 0, |w|) == w && NilOutside(c, 0, |w|)
  {
  }

  class Queue<T> {
    var buf: array<Option<T>>
    var head: nat
    var tail: nat
    var count: nat
    const maxlen: int
    ghost var copied: nat  // elements moved by resize since the queue was made

    // Holds after every operation, even after a Push has lost an element.
    ghost predicate Shape()
      reads this
    {
      if buf.Length == 0 then head == 0 && tail == 0 && count == 0
      else
        && IsPow2(buf.Length) && MIN_CAPACITY <= buf.Length
        && head < buf.Length
        && tail == Slot(head, count, buf.Length)
    }

    // The buffer holds exactly the queued elements; every other slot is nil.
    ghost predicate Valid()
      reads this, buf
    {
      && Shape()
      && count <= buf.Length
      && NilOutside(buf[..], head, count)
    }

    ghost function Contents(): (s: seq<Option<T>>)
      requires Shape() && count <= buf.Length
      reads this, buf
      ensures |s| == count
    {
      Window(buf[..], head, count)
    }

    ghost function Abstract(): Bounded<T>
      requires Shape() && count <= buf.Length
      reads this, buf
    {
      Bounded(Contents(), buf.Length, maxlen, copied)
    }

    constructor (maxlen: int)
      ensures Valid() && fresh(buf)
      ensures Abstract() == Empty(maxlen)
    {
      this.maxlen := maxlen;
      buf := new Option<T>[0];
      head, tail, count, copied := 0, 0, 0, 0;
    }

    // A Push keeps a valid queue valid, and appends to the FIFO contents, exactly when the
    // buffer is not full at or above maxlen.  Otherwise it overwrites the oldest element, and
    // the next Pop returns the newest one.
    method Push(elem: Option<T>)
      requires Shape()
      modifies this, buf
      ensures Shape() && (fresh(buf) || buf == old(buf))
      ensures old(Valid()) ==> (Valid() <==> !old(Abstract().AtLimit()))
      ensures old(Valid()) && Valid() ==> Abstract() == AfterPush(old(Abstract()), elem)
      ensures old(0 < buf.Length <= count && maxlen <= count) ==>
        && buf == old(buf) && head == old(head) && count == old(count) + 1 && copied == old(copied)
        && buf[..] == old(buf[..])[old(tail) := elem]
    {
      hide IsPow2, Slot, Window, NilOutside;
      GrowIfFull();
      ghost var was := buf[..];
      SlotAfter(head, count, buf.Length);
      if count < buf.Length { WindowPush(was, head, count, elem); }
      buf[tail] := elem;
      assert buf[..] == was[tail := elem];
      tail := Next(tail);
      count := count + 1;
    }

    // Pop returns the front element, or nil on an empty queue.
    method Pop() returns (ret: Option<T>)
      requires Shape()
      modifies this, buf
      ensures Shape() && (fresh(buf) || buf == old(buf))
      ensures ret == old(if count == 0 then None else buf[head])
      ensures old(Valid()) ==> ret == Front(old(Contents()))
      ensures old(Valid()) ==> Valid() && Abstract() == AfterPop(old(Abstract()))
    {
      hide IsPow2, Slot, Window, NilOutside;
      if count == 0 { return None; }
      ghost var slots, first, length := buf[..], head, count;
      ret := buf[head];
      buf[head] := None;
      head := Next(head);
      count := count - 1;
      SlotFromNext(first, length, buf.Length);
      assert buf[..] == slots[first := None];
      assert old(Valid()) ==>
        Valid() && ret == old(Contents())[0] && Contents() == old(Contents())[1..]
      by {
        if old(Valid()) { WindowPop(slots, first, length); }
      }
      ShrinkIfExcess();
    }

    method Peek() returns (ret: Option<T>)
      requires Shape()
      ensures ret == if count == 0 then None else buf[head]
      ensures Valid() ==> ret == Front(Contents())
    {
      if count == 0 { return None; }
      ret := buf[head];
    }

    // (i + 1) & (len(buf) - 1): the following position, wrapping around.
    function Next(i: nat): (j: nat)
      requires Shape() && i < buf.Length
      reads this
      ensures j == NextSlot(i, buf.Length)
    {
      MaskIsModulus(i + 1, buf.Length);
      SlotIsModulus(i, 1, buf.Length);
      BitAnd(i + 1, buf.Length - 1)
    }

    method GrowIfFull()
      requires Shape()
      modifies this
      ensures Shape() && buf.Length > 0 && count == old(count) && (fresh(buf) || buf == old(buf))
      ensures old(Valid()) ==>
        && Valid() && Contents() == old(Contents())
        && (buf.Length == count <==> old(Abstract().AtLimit()))
      ensures old(buf.Length > 0 && (count != buf.Length || maxlen <= count)) ==>
        buf == old(buf) && head == old(head) && tail == old(tail) && copied == old(copied)
      ensures old(buf.Length) == 0 ==> buf.Length == MIN_CAPACITY && copied == old(copied)
      ensures old(buf.Length > 0 && count == buf.Length && count < maxlen) ==>
        buf.Length == 2 * count && copied == old(copied) + count
    {
      if buf.Length == 0 {
        buf := new Option<T>[MIN_CAPACITY](_ => None);
        return;
      }
      if count == buf.Length && count < maxlen {
        assert IsPow2(2 * count);
        Resize();
      }
    }

    method ShrinkIfExcess()
      requires Shape()
      modifies this
      ensures Shape() && count == old(count) && (fresh(buf) || buf == old(buf))
      ensures old(Valid()) ==> Valid()
      ensures old(Valid()) ==> Contents() == old(Contents())
      ensures if old(buf.Length > MIN_CAPACITY && 4 * count == buf.Length)
        then buf.Length == 2 * count && copied == old(copied) + count
        else buf == old(buf) && head == old(head) && tail == old(tail) && copied == old(copied)
    {
      if buf.Length > MIN_CAPACITY && 4 * count == buf.Length {
        assert IsPow2(2 * count);
        Resize();
      }
    }

    // Moves the contents, in order, to the front of a new buffer of twice their number.
    method Resize()
      requires Shape() && 0 < count <= buf.Length && IsPow2(2 * count)
      modifies this
      ensures Valid() && fresh(buf)
      ensures Contents() == old(Contents()) && buf.Length == 2 * count
      ensures count == old(count) && copied == old(copied) + count
    {
      hide IsPow2, Slot, NilOutside;
      ghost var was := Contents();
      var newBuf, moved := Unrolled();
      WindowAtFront(newBuf[..], was);
      SlotAt(0, count, 2 * count);
      copied := copied + moved;
      head := 0;
      tail := count;
      buf := newBuf;
    }

    // The contents in order, one part before and one after the end of the buffer where they
    // wrap around, followed by as many nil slots.
    method Unrolled() returns (newBuf: array<Option<T>>, moved: nat)
      requires Shape() && 0 < count <= buf.Length
      ensures fresh(newBuf) && newBuf.Length == 2 * count && moved == count
      ensures forall i :: 0 <= i < 2 * count ==> newBuf[i] == if i < count then Contents()[i] else None
    {
      hide IsPow2, Slot;
      newBuf := new Option<T>[2 * count](_ => None);
      SlotAt(head, count, buf.Length);
      if tail > head {
        moved := CopyInto(newBuf, 0, buf, head, tail);
      } else {
        var n := CopyInto(newBuf, 0, buf, head, buf.Length);
        var m := CopyInto(newBuf, n, buf, 0, tail);
        moved := n + m;
      }
    }
  }

  // At the limit the slot a Push writes is the one the next Pop reads.
  lemma FullTailIsHead<T>(queue: Queue<T>)
    requires queue.Valid() && queue.Abstract().AtLimit()
    ensures queue.tail == queue.head < queue.buf.Length
  {
    SlotAt(queue.head, queue.count, queue.buf.Length);
  }

  // Three elements pushed on the default queue, documented as unbounded: the third comes out
  // first.
  method ThirdPushOverwrites<T>(x: Option<T>, y: Option<T>, z: Option<T>) returns (front: Option<T>)
    ensures front == z
  {
    hide Window, NilOutside, IsPow2, Slot;
    var queue := new Queue<T>(0);
    queue.Push(x);
    queue.Push(y);
    FullTailIsHead(queue);
    queue.Push(z);
    front := queue.Pop();
  }

  // Go's copy builtin on dst[at..] and src[lo..hi]: the number of elements moved is the
  // smaller of the two lengths.
  method CopyInto<A>(dst: array<A>, at: nat, src: array<A>, lo: nat, hi: nat) returns (n: nat)
    requires dst != src && at <= dst.Length && lo <= hi <= src.Length
    modifies dst
    ensures n == if dst.Length - at < hi - lo then dst.Length - at else hi - lo
    ensures forall i :: 0 <= i < dst.Length ==>
      dst[i] == if at <= i < at + n then src[lo + i - at] else old(dst[i])
  {
    n := 0;
    while n < dst.Length - at && n < hi - lo
      invariant n <= dst.Length - at && n <= hi - lo
      invariant forall i :: 0 <= i < dst.Length ==>
        dst[i] == if at <= i < at + n then src[lo + i - at] else old(dst[i])
    {
      dst[at + n] := src[lo + n];
      n := n + 1;
    }
  }
}
