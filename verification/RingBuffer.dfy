/** lib/screentracker/ringbuffer.go: the circular buffer of recent screen snapshots. */
module RingBuffers {
  import opened Text

  /** Where the `i`th oldest of `count` items stands when the next one goes to `next`. */
  function Place(next: nat, count: nat, i: nat, size: nat): (p: nat)
    requires next < size && i < count <= size
    ensures p < size
  {
    if next + i < count then next + i + size - count else next + i - count
  }

  class RingBuffer<T(0)> {
    var items: array<T>
    var nextIndex: nat
    var count: nat
    const size: nat
    ghost var added: seq<T>  // everything ever added, oldest first

    /** The buffer holds the last `size` items added, going round from the oldest to `nextIndex`. */
    ghost predicate Valid()
      reads this, items
    {
      && items.Length == size
      && count == (if |added| < size then |added| else size)
      && (size > 0 ==> nextIndex < size)
      && (count < size ==> nextIndex == count)
      && forall i: nat :: i < count ==> items[Place(nextIndex, count, i, size)] == added[|added| - count + i]
    }

    constructor (size: nat)
      ensures Valid() && fresh(items)
      ensures added == [] && this.size == size
    {
      this.size := size;
      items := new T[size];
      nextIndex, count := 0, 0;
      added := [];
    }

    /** A buffer of size 0 has no slot to write: the source panics there. */
    method Add(item: T)
      requires Valid() && size > 0
      modifies this, items
      ensures Valid() && items == old(items)
      ensures added == old(added) + [item]
    {
      ghost var next, n := nextIndex, count;
      Wraps(nextIndex + 1, size);
      items[nextIndex] := item;
      nextIndex := (nextIndex + 1) % items.Length;
      if count < items.Length {
        count := count + 1;
      }
      added := added + [item];
      forall i: nat | i < count
        ensures items[Place(nextIndex, count, i, size)] == added[|added| - count + i]
      {
        if i < count - 1 {
          var was := i + n - (count - 1);
          assert Place(nextIndex, count, i, size) == Place(next, n, was, size) != next;
        } else {
          assert Place(nextIndex, count, i, size) == next;
        }
      }
    }

    /** The last `size` items added, oldest first. */
    method GetAll() returns (result: seq<T>)
      requires Valid()
      ensures result == LastN(added, size)
    {
      result := [];
      var i := 0;
      while i < count
        invariant 0 <= i <= count
        invariant result == added[|added| - count..|added| - count + i]
      {
        Wraps(nextIndex + i + items.Length - count, size);
        assert (nextIndex - count + i + items.Length) % items.Length == Place(nextIndex, count, i, size);
        result := result + [items[(nextIndex - count + i + items.Length) % items.Length]];
        i := i + 1;
      }
    }
  }

  /** An index that has gone round at most once. */
  lemma Wraps(x: nat, size: nat)
    requires x < 2 * size
    ensures x % size == if x < size then x else x - size
  {
    if x >= size {
      assert x / size == 1;
    }
  }
}
