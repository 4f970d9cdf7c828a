/**
 * The double-ended queue the stream extractor keeps its window in: a
 * growable ring buffer over an array. Like the library type it models, it
 * starts with a requested capacity and grows when a push finds it full.
 */
module Deque {
  import opened TailBase

  class RingBuf<T(0)> {
    /** The queued elements, oldest first. */
    ghost var Contents: seq<T>
    ghost var Repr: set<object>

    var data: array<T>
    var head: nat
    var len: nat

    /** The array slot of logical position `k`, wrapping once around the end. */
    function Slot(k: nat): nat
      reads this
    {
      if head + k < data.Length then head + k else head + k - data.Length
    }

    ghost predicate Valid()
      reads this, Repr
      ensures Valid() ==> this in Repr
    {
      && this in Repr && data in Repr
      && len <= data.Length
      && (data.Length == 0 ==> head == 0)
      && (0 < data.Length ==> head < data.Length)
      && |Contents| == len
      && forall k :: 0 <= k < len ==> Contents[k] == data[Slot(k)]
    }

    constructor WithCapacity(capacity: nat)
      ensures Valid() && fresh(Repr)
      ensures Contents == [] && data.Length == capacity
    {
      data := new T[capacity];
      head, len := 0, 0;
      Contents := [];
      Repr := {this, data};
    }

    function Length(): (n: nat)
      requires Valid()
      reads this, Repr
      ensures n == |Contents|
    {
      len
    }

    /** Moves the elements, in order, to the front of an array with room for more. */
    method Grow()
      requires Valid()
      modifies Repr
      ensures Valid() && fresh(Repr - old(Repr))
      ensures Contents == old(Contents) && len < data.Length
    {
      var bigger := new T[2 * data.Length + 1];
      var k := 0;
      while k < len
        modifies bigger
        invariant 0 <= k <= len
        invariant forall j :: 0 <= j < k ==> bigger[j] == Contents[j]
      {
        bigger[k] := data[Slot(k)];
        k := k + 1;
      }
      data, head := bigger, 0;
      Repr := {this, bigger};
    }

    method PushBack(x: T)
      requires Valid()
      modifies Repr
      ensures Valid() && fresh(Repr - old(Repr))
      ensures Contents == old(Contents) + [x]
    {
      if len == data.Length {
        Grow();
      }
      data[Slot(len)] := x;
      len := len + 1;
      Contents := Contents + [x];
    }

    /** Removes and returns the oldest element; an empty queue gives `None` and stays empty. */
    method PopFront() returns (r: Option<T>)
      requires Valid()
      modifies Repr
      ensures Valid() && fresh(Repr - old(Repr))
      ensures old(Contents) == [] ==> r == None && Contents == []
      ensures old(Contents) != [] ==> r == Some(old(Contents)[0]) && Contents == old(Contents)[1..]
    {
      if len == 0 {
        return None;
      }
      r := Some(data[head]);
      head := Slot(1);
      len := len - 1;
      Contents := Contents[1..];
    }
  }
}
