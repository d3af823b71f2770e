/** One buffer of a pool, with the part of it in use, `examples/pgz.c`. */
module Spaces {

  class Space<T(0)> {
    var buf: array<T>
    var len: nat

    ghost predicate Valid()
      reads this
    {
      len <= buf.Length
    }

    ghost function Data(): seq<T>
      reads this, buf
      requires Valid()
    {
      buf[..len]
    }

    constructor (size: nat)
      ensures Valid() && fresh(buf) && buf.Length == size && Data() == []
    {
      buf := new T[size];
      len := 0;
    }

    /** Append one element. */
    method Put(x: T)
      requires Valid() && len < buf.Length
      modifies this`len, buf
      ensures Valid() && Data() == old(Data()) + [x]
    {
      buf[len] := x;
      len := len + 1;
    }

    /** Reallocate to a larger size, keeping the contents. */
    method Reallocate(size: nat)
      requires Valid() && size >= buf.Length && size > 0
      modifies this
      ensures Valid() && fresh(buf) && buf.Length == size
      ensures len == old(len) && Data() == old(Data())
    {
      var bigger := new T[size];
      for i := 0 to len
        invariant len <= buf.Length <= bigger.Length && len == old(len) && buf == old(buf)
        invariant bigger[..i] == buf[..i]
      {
        bigger[i] := buf[i];
      }
      buf := bigger;
    }

    /** Append the first `n` elements of another space. */
    method Append(from: Space<T>, n: nat)
      requires Valid() && from.Valid() && from != this && from.buf != buf
      requires n <= from.len && len + n <= buf.Length
      modifies this`len, buf
      ensures Valid() && Data() == old(Data()) + from.Data()[..n]
    {
      for i := 0 to n
        invariant buf == old(buf) && len == old(len)
        invariant buf[..len + i] == old(buf[..len]) + from.buf[..i]
      {
        buf[len + i] := from.buf[i];
      }
      len := len + n;
      assert from.Data()[..n] == from.buf[..n];
    }

    /** Remove the first `n` elements, moving the rest down in place. */
    method DropFront(n: nat)
      requires Valid() && n <= len
      modifies this`len, buf
      ensures Valid() && Data() == old(Data())[n..]
    {
      for i := 0 to len - n
        invariant buf == old(buf) && len == old(len)
        invariant forall j :: 0 <= j < i ==> buf[j] == old(buf[n + j])
        invariant forall j :: n + i <= j < len ==> buf[j] == old(buf[j])
      {
        buf[i] := buf[n + i];
      }
      len := len - n;
    }

    /** Replace the contents by the elements of another space from `start` on. */
    method TakeTail(from: Space<T>, start: nat)
      requires Valid() && from.Valid() && from != this && from.buf != buf
      requires start <= from.len && from.len - start <= buf.Length
      modifies this`len, buf
      ensures Valid() && Data() == from.Data()[start..]
    {
      for i := 0 to from.len - start
        invariant buf == old(buf) && from.len == old(from.len)
        invariant buf[..i] == from.buf[start..start + i]
      {
        buf[i] := from.buf[start + i];
      }
      len := from.len - start;
    }

    /** Keep only the first `n` elements. */
    method Truncate(n: nat)
      requires Valid() && n <= len
      modifies this`len
      ensures Valid() && Data() == old(Data())[..n]
    {
      len := n;
    }
  }
}
