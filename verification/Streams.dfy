/** Buffered input and output of the decompressors, `examples/pgz.c`. */
module Streams {
  import opened Basics

  const BUF := 32768
  const OUTSIZE := 32768

  /** Integers stored with the low byte first. */
  function Pull2(s: seq<Byte>): nat
    requires |s| >= 2
  {
    s[0] as int + 256 * (s[1] as int)
  }

  function Pull4(s: seq<Byte>): nat
    requires |s| >= 4
  {
    Pull2(s) + 65536 * Pull2(s[2..])
  }

  /** What the `k`-th call of `load` gives: the next 32K bytes, or what there is. */
  function BlockAt<T>(file: seq<T>, k: nat): seq<T> {
    file[Min(k * BUF, |file|)..Min((k + 1) * BUF, |file|)]
  }

  /** Reading on from where the calls before have come to. */
  lemma BlockIs<T>(file: seq<T>, k: nat, offset: nat, n: nat)
    requires offset == Min(k * BUF, |file|) && n == Min(BUF, |file| - offset)
    ensures offset + n == Min((k + 1) * BUF, |file|) && BlockAt(file, k) == file[offset..offset + n]
    ensures (k + 1) * BUF > |file| <==> n < BUF
  {
  }

  /** The input file and the buffer that `load` fills from it. */
  class Input {
    const file: seq<Byte>
    const in_buf: array<Byte>
    var offset: nat       // bytes of the file read so far
    var in_next: nat      // next unused byte in the buffer
    var in_left: nat      // number of unused bytes
    var in_eof: bool      // end of input reached
    var in_short: bool    // the last read did not fill the buffer
    ghost var loads: nat  // calls of `load` so far

    ghost predicate Valid()
      reads this
    {
      in_buf.Length == BUF && offset == Min(loads * BUF, |file|) && in_next + in_left <= BUF &&
      (in_short <==> loads * BUF > |file|) && (in_eof ==> in_left == 0 && in_short)
    }

    /** What has not been consumed yet. */
    ghost function Rest(): seq<Byte>
      reads this, in_buf
      requires Valid()
    {
      in_buf[in_next..in_next + in_left] + file[offset..]
    }

    constructor (file: seq<Byte>)
      ensures Valid() && fresh(in_buf) && Rest() == file && !in_eof
    {
      this.file := file;
      in_buf := new Byte[BUF](_ => 0);
      offset, in_next, in_left := 0, 0, 0;
      in_eof, in_short, loads := false, false, 0;
      new;
      assert Rest() == file;
    }

    /** Read `n` bytes of the file into the buffer. */
    method Read(n: nat)
      requires n <= in_buf.Length && offset + n <= |file|
      modifies in_buf
      ensures in_buf[..n] == file[offset..offset + n]
    {
      for i := 0 to n
        invariant in_buf[..i] == file[offset..offset + i]
      {
        in_buf[i] := file[offset + i];
      }
    }

    /** Replace whatever is left in the buffer by the next part of the file. */
    method Load() returns (got: nat)
      requires Valid()
      modifies this, in_buf
      ensures Valid() && Rest() == old(file[offset..]) && got == in_left
      ensures got == 0 <==> old(offset) == |file|
      ensures in_eof <==> got == 0
      ensures got < BUF ==> offset == |file|
      ensures loads == old(loads) + 1 && in_buf[in_next..in_next + in_left] == BlockAt(file, old(loads))
      ensures in_short <==> loads * BUF > |file|
    {
      hide BlockAt;
      BlockIs(file, loads, offset, Min(BUF, |file| - offset));
      loads := loads + 1;
      if in_short {
        in_eof := true;
        in_left := 0;
        return 0;
      }
      var n := Min(BUF, |file| - offset);
      Read(n);
      in_next, in_left := 0, n;
      assert file[offset..] == file[offset..offset + n] + file[offset + n..];
      offset := offset + n;
      if in_left < BUF {
        in_short := true;
        if in_left == 0 {
          in_eof := true;
        }
      }
      got := in_left;
    }

    /** Take the next byte of a non-empty buffer. */
    method Take() returns (got: Byte)
      requires Valid() && in_left > 0
      modifies this`in_left, this`in_next
      ensures Valid() && Rest() == old(Rest())[1..] && got == old(Rest())[0]
      ensures offset == old(offset) && in_next > 0 && in_buf[in_next - 1] == got
    {
      got := in_buf[in_next];
      assert in_buf[in_next..in_next + in_left] == [got] + in_buf[in_next + 1..in_next + in_left];
      in_left := in_left - 1;
      in_next := in_next + 1;
    }

    lemma NothingAtEof()
      requires Valid() && in_eof
      ensures Rest() == []
    {
    }

    /** An empty buffer leaves the unread part of the file. */
    lemma NothingBuffered()
      requires Valid() && in_left == 0
      ensures Rest() == file[offset..]
    {
      assert in_buf[in_next..in_next + in_left] == [];
    }

    /** The next byte, or -1 (and `in_eof`) exactly when nothing is left. */
    method Get() returns (got: int)
      requires Valid()
      modifies this, in_buf
      ensures Valid()
      ensures in_eof <==> got == -1
      ensures got != -1 ==> in_next > 0 && in_buf[in_next - 1] == got
      ensures if old(Rest()) == [] then got == -1 && Rest() == []
              else got == old(Rest())[0] && Rest() == old(Rest())[1..]
    {
      if in_left == 0 {
        NothingBuffered();
        if in_eof {
          return -1;
        }
        hide Rest;
        var n := Load();
        if n == 0 {
          return -1;
        }
      }
      got := Take();
    }

    /** Give back the byte taken last. */
    method Unget()
      requires Valid() && in_next > 0 && !in_eof
      modifies this`in_left, this`in_next
      ensures Valid() && Rest() == [in_buf[old(in_next) - 1]] + old(Rest())
    {
      in_left := in_left + 1;
      in_next := in_next - 1;
      assert in_buf[in_next..in_next + in_left] == [in_buf[in_next]] + in_buf[in_next + 1..in_next + in_left];
    }

    /** Two bytes, the low one first. At the end of input the missing bytes count
        as -1 in unsigned arithmetic. */
    method Get2() returns (got: nat)
      requires Valid()
      modifies this, in_buf
      ensures Valid() && (old(in_eof) ==> in_eof)
      ensures if |old(Rest())| >= 2 then got == Pull2(old(Rest())) && Rest() == old(Rest())[2..] && in_eof == old(in_eof)
              else in_eof && Rest() == []
    {
      var lo := Get();
      var hi := Get();
      got := (lo + 256 * hi) % 0x1_0000_0000;
    }

    /** Four bytes, the lowest one first. */
    method Get4() returns (got: nat)
      requires Valid()
      modifies this, in_buf
      ensures Valid() && (old(in_eof) ==> in_eof)
      ensures if |old(Rest())| >= 4 then got == Pull4(old(Rest())) && Rest() == old(Rest())[4..] && in_eof == old(in_eof)
              else in_eof && Rest() == []
    {
      var lo := Get2();
      var hi := Get2();
      got := lo + 65536 * hi;
    }

    /** Pass over `dist` bytes; false if there are fewer. */
    method Skip(dist: nat) returns (ok: bool)
      requires Valid()
      modifies this, in_buf
      ensures Valid() && ok == (|old(Rest())| >= dist)
      ensures ok ==> Rest() == old(Rest())[dist..] && in_eof == old(in_eof)
    {
      var togo: nat := dist;
      while togo > in_left
        invariant Valid() && togo <= dist
        invariant |old(Rest())| >= dist - togo && Rest() == old(Rest())[dist - togo..]
        invariant in_eof == old(in_eof)
        decreases |file| - offset, togo
      {
        BufferedFirst();
        togo := togo - in_left;
        var got := Load();
        if got == 0 {
          return false;
        }
      }
      BufferedFirst();
      Advance(togo);
      ok := true;
    }

    lemma BufferedFirst()
      requires Valid()
      ensures |Rest()| >= in_left && Rest()[in_left..] == file[offset..]
      ensures Rest()[..in_left] == in_buf[in_next..in_next + in_left]
    {
    }

    /** Pass over bytes in the buffer. */
    method Advance(n: nat)
      requires Valid() && n <= in_left
      modifies this`in_left, this`in_next
      ensures Valid() && n <= |old(Rest())| && Rest() == old(Rest())[n..] && in_left == old(in_left) - n
    {
      assert in_buf[in_next..in_next + in_left][n..] == in_buf[in_next + n..in_next + in_left];
      in_left := in_left - n;
      in_next := in_next + n;
    }
  }

  function Reversed(s: seq<Byte>): (r: seq<Byte>)
    ensures |r| == |s|
    ensures forall i :: 0 <= i < |s| ==> r[i] == s[|s| - 1 - i]
    decreases |s|
  {
    if s == [] then [] else Reversed(s[1..]) + [s[0]]
  }

  /** The output buffer and what has been written from it. */
  class Output {
    const out_buf: array<Byte>
    var outcnt: nat
    var written: seq<Byte>
    var out_tot: nat

    ghost predicate Valid()
      reads this
    {
      out_buf.Length == OUTSIZE && outcnt <= OUTSIZE && out_tot == |written|
    }

    /** Everything put out so far. */
    ghost function All(): seq<Byte>
      reads this, out_buf
      requires Valid()
    {
      written + out_buf[..outcnt]
    }

    constructor ()
      ensures Valid() && fresh(out_buf) && All() == [] && written == []
    {
      out_buf := new Byte[OUTSIZE](_ => 0);
      outcnt, written, out_tot := 0, [], 0;
    }

    method Put(b: Byte)
      requires Valid() && outcnt < OUTSIZE
      modifies this`outcnt, out_buf
      ensures Valid() && All() == old(All()) + [b] && outcnt == old(outcnt) + 1
    {
      out_buf[outcnt] := b;
      outcnt := outcnt + 1;
    }

    method Flush()
      requires Valid()
      modifies this`outcnt, this`written, this`out_tot
      ensures Valid() && All() == old(All()) && outcnt == 0 && written == All() && out_tot == |All()|
    {
      out_tot := out_tot + outcnt;
      written := written + out_buf[..outcnt];
      outcnt := 0;
    }

    /** Put out the `n` topmost bytes of a stack, from the top down. */
    method PutTop(stack: array<Byte>, top: nat, n: nat)
      requires Valid() && n <= top <= stack.Length && n <= OUTSIZE - outcnt && stack != out_buf
      modifies this`outcnt, out_buf
      ensures Valid() && outcnt == old(outcnt) + n
      ensures All() == old(All()) + Reversed(stack[top - n..top])
    {
      for i := 0 to n
        invariant Valid() && outcnt == old(outcnt) + i
        invariant All() == old(All()) + Reversed(stack[top - i..top])
      {
        assert stack[top - (i + 1)..top][1..] == stack[top - i..top];
        Put(stack[top - (i + 1)]);
      }
    }

    /** Put out a reversed string from the top of its stack down. */
    method PutReversed(stack: array<Byte>, height: nat)
      requires Valid() && 0 < height <= stack.Length && stack != out_buf
      modifies this`outcnt, this`written, this`out_tot, out_buf
      ensures Valid() && All() == old(All()) + Reversed(stack[..height])
    {
      hide Reversed;
      var top := height;
      while top > OUTSIZE - outcnt
        invariant Valid() && 0 < top <= height
        invariant All() == old(All()) + Reversed(stack[top..height])
        decreases top, outcnt
      {
        var n := OUTSIZE - outcnt;
        ReversedTop(stack[..height], top, n);
        PutTop(stack, top, n);
        top := top - n;
        Flush();
      }
      ReversedTop(stack[..height], top, top);
      PutTop(stack, top, top);
    }
  }

  lemma ReversedTop(s: seq<Byte>, top: nat, n: nat)
    requires n <= top <= |s|
    ensures Reversed(s[top - n..]) == Reversed(s[top..]) + Reversed(s[top - n..top])
  {
    ReversedSplit(s[top - n..], n);
    assert s[top - n..][..n] == s[top - n..top];
    assert s[top - n..][n..] == s[top..];
  }

  lemma {:induction false} ReversedSplit(s: seq<Byte>, n: nat)
    requires n <= |s|
    ensures Reversed(s) == Reversed(s[n..]) + Reversed(s[..n])
  {
  }
}
