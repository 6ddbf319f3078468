/**
 * The bounded history buffer: a FIFO of capacity `maxSize` that behaves like a
 * deque created with `maxlen`, so an append to a full queue silently drops the
 * oldest element (predict.py:16-34).
 */
module BoundedQueue {

  function Min(a: int, b: int): int { if a <= b then a else b }

  /** The newest `n` elements of `s` (all of `s` when it is shorter), oldest first. */
  function Newest<T>(s: seq<T>, n: nat): seq<T> {
    s[|s| - Min(n, |s|)..]
  }

  /**
   * Appending `x` to a queue of capacity `cap` already holding `h`: the element
   * goes to the back, and when the queue was full its front element is evicted.
   * With capacity 0 nothing is kept, as for `deque(maxlen=0)`.
   */
  function Push<T>(h: seq<T>, x: T, cap: nat): (r: seq<T>)
    requires |h| <= cap
    ensures |r| == Min(|h| + 1, cap)
    ensures r == Newest(h + [x], cap)
  {
    if |h| < cap then h + [x] else (h + [x])[1..]
  }

  /** The contents after appending every element of `xs`, in order, starting from `h`. */
  function PushAll<T>(h: seq<T>, xs: seq<T>, cap: nat): (r: seq<T>)
    requires |h| <= cap
    ensures |r| <= cap
    decreases |xs|
  {
    if xs == [] then h
    else Push(PushAll(h, xs[..|xs| - 1], cap), xs[|xs| - 1], cap)
  }

  /** Appending the elements of `xs` and then `x` is appending `xs + [x]`. */
  lemma PushAllSnoc<T>(h: seq<T>, xs: seq<T>, x: T, cap: nat)
    requires |h| <= cap
    ensures PushAll(h, xs + [x], cap) == Push(PushAll(h, xs, cap), x, cap)
  {
    assert (xs + [x])[..|xs|] == xs;
  }

  /** Keeping the newest `cap` of a sequence and then appending equals appending first. */
  lemma NewestSnoc<T>(s: seq<T>, x: T, cap: nat)
    ensures |Newest(s, cap)| <= cap
    ensures Newest(Newest(s, cap) + [x], cap) == Newest(s + [x], cap)
  {
  }

  /**
   * Whatever was in the queue and whatever was appended, the queue holds exactly
   * the newest `cap` elements of everything, in insertion order.
   */
  lemma {:induction false} PushAllKeepsNewest<T>(h: seq<T>, xs: seq<T>, cap: nat)
    requires |h| <= cap
    ensures PushAll(h, xs, cap) == Newest(h + xs, cap)
    decreases |xs|
  {
    if xs == [] {
      assert h + xs == h;
    } else {
      var ys, x := xs[..|xs| - 1], xs[|xs| - 1];
      PushAllKeepsNewest(h, ys, cap);
      NewestSnoc(h + ys, x, cap);
      assert h + xs == (h + ys) + [x];
    }
  }

  /** After at least `cap` appends the queue holds exactly the last `cap` of them. */
  lemma LastAppendsAfterFullCycle<T>(h: seq<T>, xs: seq<T>, cap: nat)
    requires |h| <= cap <= |xs|
    ensures PushAll(h, xs, cap) == xs[|xs| - cap..]
  {
    PushAllKeepsNewest(h, xs, cap);
    assert (h + xs)[|h + xs| - cap..] == xs[|xs| - cap..];
  }

  /** The queue itself; `items` is the deque, oldest element first. */
  class FixedSizeQueue<T> {
    const maxSize: nat
    var items: seq<T>

    ghost predicate Valid()
      reads this
    {
      |items| <= maxSize
    }

    constructor (maxSize: nat)
      ensures Valid()
      ensures this.maxSize == maxSize && items == []
    {
      this.maxSize := maxSize;
      items := [];
    }

    /** Appends `item`, evicting the oldest element when the queue is full. */
    method Add(item: T)
      requires Valid()
      modifies this
      ensures Valid()
      ensures items == Push(old(items), item, maxSize)
    {
      if |items| < maxSize {
        items := items + [item];
      } else {
        items := (items + [item])[1..];
      }
    }

    /** Removes the oldest element if there is one; an empty queue is left alone. */
    method Pop()
      requires Valid()
      modifies this
      ensures Valid()
      ensures old(items) == [] ==> items == []
      ensures old(items) != [] ==> items == old(items)[1..]
    {
      if |items| > 0 {
        items := items[1..];
      }
    }

    method Clear()
      requires Valid()
      modifies this
      ensures Valid()
      ensures items == []
    {
      items := [];
    }

    /** A snapshot of the contents, oldest first; the queue is not changed. */
    method GetQueue() returns (s: seq<T>)
      requires Valid()
      ensures s == items && |s| <= maxSize
    {
      s := items;
    }

    /** The number of stored elements, never above the capacity. */
    method Len() returns (n: nat)
      requires Valid()
      ensures n == |items| && n <= maxSize
    {
      n := |items|;
    }
  }
}
