/** The index arithmetic shared by the program's ring buffers: a fixed number of slots, the index
    of the next slot to write and of the next to read; equal indices mean empty. */
module Ring {

  datatype Ring<T> = Ring(slots: seq<T>, tail: nat, head: nat) {
    ghost predicate Valid() {
      tail < |slots| && head < |slots|
    }

    function Count(): (n: nat)
      requires Valid()
      ensures n < |slots|
    {
      if tail >= head then tail - head else |slots| + tail - head
    }

    /** The queued elements, oldest first. */
    function Contents(): (c: seq<T>)
      requires Valid()
      ensures |c| == Count()
    {
      if head <= tail then slots[head..tail] else slots[head..] + slots[..tail]
    }

    function Next(i: nat): nat {
      if i + 1 == |slots| then 0 else i + 1
    }

    function Put(x: T): Ring<T>
      requires Valid()
    {
      Ring(slots[tail := x], Next(tail), head)
    }

    function Drop(): Ring<T>
      requires Valid()
    {
      this.(head := Next(head))
    }
  }

  /** Writing appends; into a ring with one free slot it makes the ring look empty. */
  lemma PutContents<T>(r: Ring<T>, x: T)
    requires r.Valid()
    ensures r.Put(x).Valid()
    ensures r.Put(x).Contents() == if r.Count() < |r.slots| - 1 then r.Contents() + [x] else []
  {
    var s := r.Put(x);
    if r.Count() < |r.slots| - 1 {
      if r.head <= r.tail {
        assert s.slots[r.head..r.tail] == r.slots[r.head..r.tail];
        if r.tail + 1 == |r.slots| {
          assert s.slots[r.head..] == r.slots[r.head..r.tail] + [x];
        } else {
          assert s.slots[r.head..r.tail + 1] == r.slots[r.head..r.tail] + [x];
        }
      } else {
        assert s.slots[r.head..] == r.slots[r.head..];
        assert s.slots[..r.tail + 1] == r.slots[..r.tail] + [x];
      }
    }
  }

  lemma DropContents<T>(r: Ring<T>)
    requires r.Valid() && r.Count() > 0
    ensures r.Drop().Valid() && r.slots[r.head] == r.Contents()[0]
    ensures r.Drop().Contents() == r.Contents()[1..]
  {
    if r.head <= r.tail {
      assert r.slots[r.head + 1..r.tail] == r.slots[r.head..r.tail][1..];
    } else {
      DropWrapped(r);
    }
  }

  lemma DropWrapped<T>(r: Ring<T>)
    requires r.Valid() && r.tail < r.head
    ensures r.slots[r.head] == r.Contents()[0] && r.Drop().Contents() == r.Contents()[1..]
  {
    var first, second := r.slots[r.head..], r.slots[..r.tail];
    assert (first + second)[1..] == first[1..] + second;
    if r.head + 1 == |r.slots| {
      assert first[1..] == [];
    } else {
      assert r.slots[r.head + 1..] == first[1..];
    }
  }

  /** A slot outside the queue can be changed at will. */
  lemma FreeSlot<T>(r: Ring<T>, i: nat, x: T)
    requires r.Valid() && i < |r.slots| && (if r.head <= r.tail then i < r.head || r.tail <= i else r.tail <= i < r.head)
    ensures r.(slots := r.slots[i := x]).Valid()
    ensures r.(slots := r.slots[i := x]).Contents() == r.Contents()
  {
  }
}
