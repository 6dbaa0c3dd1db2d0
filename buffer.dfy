/**
 * `SpaceHandler<T>` of src/buffer.rs: a growable buffer backed by a `Vec`,
 * filled by appending and then read and overwritten by index.
 */
module Buffer {

  class SpaceHandler<T> {
    /** The backing `Vec`; the engine pops from it directly. */
    var back: seq<T>

    /** `allocate(len)`: `len` is only the capacity reserved; the buffer starts empty. */
    constructor Allocate(len: nat)
      ensures back == []
    {
      back := [];
    }

    /** `insert`: pushes `item` at the end. */
    method Insert(item: T)
      modifies this
      ensures back == old(back) + [item]
    {
      back := back + [item];
    }

    /** `len`: the number of stored elements. */
    function Len(): (n: nat)
      reads this
      ensures n == |back|
    {
      |back|
    }

    /** `Index::index`: the element at `key`; out-of-range access panics, so the caller must stay in range. */
    function Index(key: nat): (item: T)
      reads this
      requires key < |back|
      ensures item == back[key]
    {
      back[key]
    }

    /** A write through `IndexMut::index_mut`: replaces slot `key` and nothing else. */
    method IndexMut(key: nat, item: T)
      requires key < |back|
      modifies this
      ensures back == old(back)[key := item]
    {
      back := back[key := item];
    }
  }

  /** A write through `index_mut` followed by a read through `index` at the same slot returns what was written. */
  method WriteThenRead<T>(buf: SpaceHandler<T>, key: nat, item: T) returns (read: T)
    requires key < |buf.back|
    modifies buf
    ensures read == item
    ensures |buf.back| == |old(buf.back)|
  {
    buf.IndexMut(key, item);
    read := buf.Index(key);
  }
}
