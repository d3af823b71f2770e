/** Trailers of zip streams: what `put_trailer` writes, how `infchk` tells the
    variants of the data descriptor apart, and the end of the archive,
    `examples/pgz.c`. */
module Trailers {
  import opened Basics
  import opened Streams
  import opened Headers
  import opened HeaderWriter

  const SIG: nat := 0x08074b50

  // ---- Telling data descriptors apart ----

  datatype Outcome = Accepted(size: nat) | WrongCheck | WrongLength | Missing

  /** The `i`-th 32-bit word of the stream. */
  function Word(r: seq<Byte>, i: nat): nat
    requires 4 * i + 4 <= |r|
  {
    Pull4(r[4 * i..])
  }

  /** The second reading of the first three words: a signature comes first. */
  predicate HasSignature(c0: nat, c1: nat, c2: nat, check: nat, clen: nat) {
    c0 != check || (c0 == SIG && c1 == c0 && (clen != c0 || c2 == c0))
  }

  /** How `infchk` reads the descriptor at the head of `r`, when the data had this
      check value and these lengths (mod 2^32). */
  function Resolve(r: seq<Byte>, check: nat, clen: nat, ulen: nat): Outcome {
    if |r| < 12 then Missing
    else
      var c0, c1, c2 := Word(r, 0), Word(r, 1), Word(r, 2);
      if c0 != check && (c0 != SIG || c1 != check) then WrongCheck
      else
        var n := if HasSignature(c0, c1, c2, check, clen) then 4 else 3;
        if |r| < 4 * n then Missing
        else if Word(r, n - 1) == ulen then
          if Word(r, n - 2) == clen then Accepted(4 * n) else WrongLength
        else if |r| < 4 * n + 8 then Missing
        else if Word(r, n) == ulen && Word(r, n - 2) == clen then Accepted(4 * n + 8)
        else WrongLength
  }

  lemma {:induction false} WordsOf(words: seq<nat>, tail: seq<Byte>, i: nat)
    requires i < |words|
    ensures |Words(words)| == 4 * |words|
    ensures Word(Words(words) + tail, i) == words[i] % TWO32
    decreases |words|
  {
    hide Low4, Pull4;
    var rest := Words(words[1..]) + tail;
    assert Words(words) + tail == Low4(words[0]) + rest;
    if i == 0 {
      Pull4Low4(words[0], rest);
      assert (Words(words) + tail)[0..] == Low4(words[0]) + rest;
      WordsLength(words);
    } else {
      WordsOf(words[1..], tail, i - 1);
      assert (Low4(words[0]) + rest)[4 * i..] == rest[4 * (i - 1)..];
    }
  }

  lemma {:induction false} WordsLength(words: seq<nat>)
    ensures |Words(words)| == 4 * |words|
    decreases |words|
  {
    if words != [] {
      WordsLength(words[1..]);
    }
  }

  /** Integers one behind the other, as a descriptor has them. */
  function Words(words: seq<nat>): seq<Byte>
    decreases |words|
  {
    if words == [] then [] else Low4(words[0]) + Words(words[1..])
  }

  predicate Fits(words: seq<nat>) {
    forall i :: 0 <= i < |words| ==> words[i] < TWO32
  }

  lemma SmallWords(words: seq<nat>, tail: seq<Byte>)
    requires Fits(words)
    ensures |Words(words) + tail| >= 4 * |words|
    ensures forall i :: 0 <= i < |words| ==> 4 * i + 4 <= |Words(words) + tail| && Word(Words(words) + tail, i) == words[i]
  {
    hide Words, Word;
    WordsLength(words);
    forall i | 0 <= i < |words| ensures Word(Words(words) + tail, i) == words[i] {
      WordsOf(words, tail, i);
    }
  }

  /** The descriptor that `put_trailer` writes, with a signature and 32-bit
      lengths, is always read right, whatever the values. */
  lemma SignedIsRead(check: nat, clen: nat, ulen: nat, tail: seq<Byte>)
    requires check < TWO32 && clen < TWO32 && ulen < TWO32
    ensures Resolve(Words([SIG, check, clen, ulen]) + tail, check, clen, ulen) == Accepted(16)
  {
    hide Words, Word;
    SmallWords([SIG, check, clen, ulen], tail);
  }

  /** Without the signature it is read right unless all three values are equal
      to the signature. */
  lemma UnsignedIsRead(check: nat, clen: nat, ulen: nat, tail: seq<Byte>)
    requires check < TWO32 && clen < TWO32 && ulen < TWO32
    ensures Resolve(Words([check, clen, ulen]) + tail, check, clen, ulen) == Accepted(12) <==>
            !(check == SIG && clen == SIG && ulen == SIG)
  {
    hide Words, Word;
    SmallWords([check, clen, ulen], tail);
  }

  /** With a signature and 64-bit lengths it is read right unless the high half
      of the first length equals the low half of the second. */
  lemma SignedLongIsRead(check: nat, clen: nat, high: nat, ulen: nat, high2: nat, tail: seq<Byte>)
    requires Fits([SIG, check, clen, high, ulen, high2])
    ensures Resolve(Words([SIG, check, clen, high, ulen, high2]) + tail, check, clen, ulen) == Accepted(24) <==>
            high != ulen
  {
    hide Words, Word;
    var words := [SIG, check, clen, high, ulen, high2];
    assert words[1] < TWO32;
    SmallWords(words, tail);
  }

  lemma UnsignedLongIsRead(check: nat, clen: nat, high: nat, ulen: nat, high2: nat, tail: seq<Byte>)
    requires Fits([check, clen, high, ulen, high2])
    ensures Resolve(Words([check, clen, high, ulen, high2]) + tail, check, clen, ulen) == Accepted(20) <==>
            high != ulen && !(check == SIG && clen == SIG && high == SIG)
  {
    hide Words, Word;
    SmallWords([check, clen, high, ulen, high2], tail);
  }

  lemma Low4Pull4(s: seq<Byte>)
    requires |s| >= 4
    ensures Low4(Pull4(s)) == s[..4] && Pull4(s) < TWO32
  {
    hide Low2, Pull2;
    Pair(s);
    Pair(s[2..]);
    Halves(Pull2(s), Pull2(s[2..]));
    assert s[..4] == s[..2] + s[2..][..2];
  }

  lemma Halves(lo: nat, hi: nat)
    requires lo < 65536 && hi < 65536
    ensures (lo + 65536 * hi) % 65536 == lo && (lo + 65536 * hi) / 65536 == hi && lo + 65536 * hi < TWO32
  {
  }

  lemma Pair(s: seq<Byte>)
    requires |s| >= 2
    ensures Low2(Pull2(s)) == s[..2] && Pull2(s) < 65536
  {
  }

  /** Bytes are the words they are read as. */
  lemma {:induction false} WordsBack(r: seq<Byte>, words: seq<nat>)
    requires 4 * |words| <= |r| && forall i :: 0 <= i < |words| ==> Word(r, i) == words[i]
    ensures r[..4 * |words|] == Words(words)
    decreases |words|
  {
    hide Low4, Pull4;
    if words != [] {
      assert r[4 * 0..] == r;
      Low4Pull4(r);
      forall i | 0 <= i < |words| - 1 ensures Word(r[4..], i) == words[1..][i] {
        assert r[4..][4 * i..] == r[4 * (i + 1)..];
      }
      WordsBack(r[4..], words[1..]);
      assert r[..4 * |words|] == r[..4] + r[4..][..4 * (|words| - 1)];
    }
  }

  /** What is accepted is a descriptor of the data, in one of four forms: with or
      without a signature, with 32-bit or 64-bit lengths. */
  lemma AcceptedIsDescriptor(r: seq<Byte>, check: nat, clen: nat, ulen: nat)
    ensures var o := Resolve(r, check, clen, ulen);
            o.Accepted? ==>
              o.size <= |r| &&
              var d := r[..o.size];
              d == Words([check, clen, ulen]) || d == Words([0x08074b50, check, clen, ulen]) ||
              (exists high, high2 :: d == Words([check, clen, high, ulen, high2])) ||
              (exists high, high2 :: d == Words([0x08074b50, check, clen, high, ulen, high2]))
  {
    hide Words, Word, Low4, Pull4;
    var o := Resolve(r, check, clen, ulen);
    if o == Accepted(12) {
      WordsBack(r, [check, clen, ulen]);
    } else if o == Accepted(16) {
      WordsBack(r, [SIG, check, clen, ulen]);
    } else if o == Accepted(20) {
      WordsBack(r, [check, clen, Word(r, 2), ulen, Word(r, 4)]);
    } else if o == Accepted(24) {
      WordsBack(r, [SIG, check, clen, Word(r, 3), ulen, Word(r, 5)]);
    }
  }

  /** Data is refused for its check only if that is neither the first word nor the
      second behind a signature, and a descriptor is missing only if fewer than 24
      bytes are left. */
  lemma RefusedFor(r: seq<Byte>, check: nat, clen: nat, ulen: nat)
    requires check < TWO32
    ensures Resolve(r, check, clen, ulen) == WrongCheck <==>
            |r| >= 12 && r[..4] != Low4(check) && r[..8] != Low4(0x08074b50) + Low4(check)
    ensures Resolve(r, check, clen, ulen) == Missing ==> |r| < 24
    ensures |r| < 12 ==> Resolve(r, check, clen, ulen) == Missing
  {
    hide Low4, Pull4;
    if |r| >= 12 {
      assert r[4 * 0..] == r && r[4 * 1..] == r[4..] && r[..8] == r[..4] + r[4..][..4];
      WordIs(r, check);
      WordIs(r, SIG);
      WordIs(r[4..], check);
    }
  }

  lemma WordIs(s: seq<Byte>, x: nat)
    requires |s| >= 4 && x < TWO32
    ensures Pull4(s) == x <==> s[..4] == Low4(x)
  {
    hide Low4, Pull4;
    Low4Pull4(s);
    Pull4Low4(x, s[4..]);
    assert s == s[..4] + s[4..];
  }

  /** One word from the input. */
  method ReadWord(input: Input) returns (w: nat)
    requires input.Valid()
    modifies input, input.in_buf
    ensures input.Valid() && (old(input.in_eof) ==> input.in_eof)
    ensures if |old(input.Rest())| >= 4
            then w == Word(old(input.Rest()), 0) && input.Rest() == old(input.Rest())[4..] && input.in_eof == old(input.in_eof)
            else input.in_eof && input.Rest() == []
  {
    hide Input.Rest, Pull4;
    assert input.Rest()[4 * 0..] == input.Rest();
    w := input.Get4();
  }

  lemma WordLater(r: seq<Byte>, k: nat, i: nat)
    requires 4 * (k + i) + 4 <= |r|
    ensures Word(r[4 * k..], i) == Word(r, k + i)
  {
    assert r[4 * k..][4 * i..] == r[4 * (k + i)..];
  }

  /** The first three words, and the fourth if a signature comes first. */
  method ReadDescriptor(input: Input, check: nat, clen: nat)
    returns (outcome: Outcome, crc: nat, zclen: nat, zulen: nat, n: nat)
    requires input.Valid()
    modifies input, input.in_buf
    ensures input.Valid()
    ensures !outcome.Accepted? ==> forall ulen :: Resolve(old(input.Rest()), check, clen, ulen) == outcome
    ensures var r := old(input.Rest());
            outcome.Accepted? ==>
              |r| >= 12 && (Word(r, 0) == check || (Word(r, 0) == SIG && Word(r, 1) == check)) &&
              n == (if HasSignature(Word(r, 0), Word(r, 1), Word(r, 2), check, clen) then 4 else 3) &&
              |r| >= 4 * n && zclen == Word(r, n - 2) && zulen == Word(r, n - 1) &&
              crc == Word(r, n - 3) && input.Rest() == r[4 * n..] && !input.in_eof
  {
    hide Input.Rest, Word;
    ghost var r := input.Rest();
    if input.in_eof {
      input.NothingAtEof();
    }
    outcome, n := Accepted(0), 3;
    crc, zclen, zulen := ReadThree(input);
    if input.in_eof {
      return Missing, crc, zclen, zulen, n;
    }
    if crc != check && (crc != SIG || zclen != check) {
      return WrongCheck, crc, zclen, zulen, n;
    }
    if HasSignature(crc, zclen, zulen, check, clen) {
      n := 4;
      crc := zclen;
      zclen := zulen;
      zulen := ReadWord(input);
      if |r| >= 16 {
        WordLater(r, 3, 0);
      }
      if input.in_eof {
        return Missing, crc, zclen, zulen, n;
      }
    }
  }

  method ReadThree(input: Input) returns (c0: nat, c1: nat, c2: nat)
    requires input.Valid()
    modifies input, input.in_buf
    ensures input.Valid() && (old(input.in_eof) ==> input.in_eof)
    ensures var r := old(input.Rest());
            if |r| >= 12 && !old(input.in_eof)
            then c0 == Word(r, 0) && c1 == Word(r, 1) && c2 == Word(r, 2) && input.Rest() == r[12..] && !input.in_eof
            else input.in_eof
  {
    hide Input.Rest, Word;
    if |input.Rest()| >= 12 {
      WordLater(input.Rest(), 1, 0);
      WordLater(input.Rest(), 2, 0);
    }
    c0 := ReadWord(input);
    c1 := ReadWord(input);
    c2 := ReadWord(input);
  }

  /** The descriptor part of `infchk`. */
  method CheckDescriptor(input: Input, check: nat, clen: nat, ulen: nat) returns (outcome: Outcome)
    requires input.Valid()
    modifies input, input.in_buf
    ensures input.Valid() && outcome == Resolve(old(input.Rest()), check, clen, ulen)
    ensures outcome.Accepted? ==> outcome.size <= |old(input.Rest())| && input.Rest() == old(input.Rest())[outcome.size..]
    ensures outcome.Accepted? ==>
              outcome.size <= |old(input.Rest())| &&
              var d := old(input.Rest())[..outcome.size];
              d == Words([check, clen, ulen]) || d == Words([0x08074b50, check, clen, ulen]) ||
              (exists high, high2 :: d == Words([check, clen, high, ulen, high2])) ||
              (exists high, high2 :: d == Words([0x08074b50, check, clen, high, ulen, high2]))
  {
    hide Input.Rest, Word, HasSignature, Words;
    ghost var r := input.Rest();
    AcceptedIsDescriptor(r, check, clen, ulen);
    var n;
    var crc, zclen, zulen;
    outcome, crc, zclen, zulen, n := ReadDescriptor(input, check, clen);
    if !outcome.Accepted? {
      return;
    }
    var long := zulen != ulen;
    if long {
      if |r| >= 4 * n + 8 {
        WordLater(r, n, 0);
      }
      zulen := ReadWord(input);
      var high := ReadWord(input);
      if input.in_eof {
        return Missing;
      }
    }
    if zclen != clen || zulen != ulen {
      return WrongLength;
    }
    outcome := Accepted(4 * n + if long then 8 else 0);
  }

  // ---- Writing the trailer of a zip file ----

  /** The fixed part of a central directory header, section 4.3.12 of the
      PKWARE APPNOTE: up to the lengths of the data, and from that of the name. */
  function CentralStart(dos: nat, check: nat, clen: nat, ulen: nat): (s: seq<Byte>)
    ensures |s| == 28
  {
    Low4(0x02014b50) + [63, 255] + Low2(20) + Low2(8) + Low2(8) + Low4(dos) + Low4(check) + Low4(clen) + Low4(ulen)
  }

  function CentralRest(name: nat): (s: seq<Byte>)
    ensures |s| == 18
  {
    Low2(name) + Low2(9) + Low2(0) + Low2(0) + Low2(0) + Low4(0) + Low4(0)
  }

  function CentralHead(name: Option<seq<Byte>>, dos: nat, check: nat, clen: nat, ulen: nat): (s: seq<Byte>)
    ensures |s| == 46
  {
    CentralStart(dos, check, clen, ulen) + CentralRest(|ZipName(name)|)
  }

  function Central(name: Option<seq<Byte>>, mtime: int, dos: nat, check: nat, clen: nat, ulen: nat): seq<Byte> {
    CentralHead(name, dos, check, clen, ulen) + ZipName(name) + Stamp(mtime)
  }

  /** The end of central directory record, section 4.3.16 of the APPNOTE. */
  function EndRecord(size: nat, offset: nat): (s: seq<Byte>)
    ensures |s| == 22
  {
    Low4(0x06054b50) + Low2(0) + Low2(0) + Low2(1) + Low2(1) + Low4(size) + Low4(offset) + Low2(0)
  }

  function ZipTrailer(name: Option<seq<Byte>>, mtime: int, dos: nat, check: nat, clen: nat, ulen: nat, head: nat): seq<Byte> {
    var c := Central(name, mtime, dos, check, clen, ulen);
    Words([SIG, check, clen, ulen]) + c + EndRecord(|c|, head + clen + 16)
  }

  method PutDescriptor(tail: array<Byte>, check: nat, clen: nat, ulen: nat)
    requires tail.Length >= 16
    modifies tail
    ensures tail[..16] == Words([SIG, check, clen, ulen])
  {
    hide Low4;
    assert tail[..0] == [];
    Add4(tail, 0, SIG);
    Add4(tail, 4, check);
    Add4(tail, 8, clen);
    Add4(tail, 12, ulen);
    FourWords(SIG, check, clen, ulen);
  }

  lemma FourWords(a: nat, b: nat, c: nat, d: nat)
    ensures Words([a, b, c, d]) == Low4(a) + Low4(b) + Low4(c) + Low4(d)
  {
    hide Low4;
    assert Words([d]) == Low4(d) + Words([]);
    assert Words([c, d]) == Low4(c) + Words([d]);
    assert Words([b, c, d]) == Low4(b) + Words([c, d]);
    assert Words([a, b, c, d]) == Low4(a) + Words([b, c, d]);
  }

  method PutCentralStart(tail: array<Byte>, dos: nat, check: nat, clen: nat, ulen: nat)
    requires tail.Length >= 46
    modifies tail
    ensures tail[..28] == CentralStart(dos, check, clen, ulen)
  {
    hide Low2, Low4;
    assert tail[..0] == [];
    Add4(tail, 0, 0x02014b50);
    tail[4] := 63;
    tail[5] := 255;
    assert tail[..6] == tail[..4] + [63, 255];
    Add2(tail, 6, 20);
    Add2(tail, 8, 8);
    Add2(tail, 10, 8);
    Add4(tail, 12, dos);
    Add4(tail, 16, check);
    Add4(tail, 20, clen);
    Add4(tail, 24, ulen);
  }

  method PutCentralRest(tail: array<Byte>, name: nat, ghost start: seq<Byte>)
    requires tail.Length >= 46 && |start| == 28 && tail[..28] == start
    modifies tail
    ensures tail[..46] == start + CentralRest(name)
  {
    hide Low2, Low4;
    Add2(tail, 28, name);
    Add2(tail, 30, 9);
    Add2(tail, 32, 0);
    Add2(tail, 34, 0);
    Add2(tail, 36, 0);
    Add4(tail, 38, 0);
    Add4(tail, 42, 0);
  }

  method PutEndRecord(tail: array<Byte>, size: nat, offset: nat)
    requires tail.Length >= 22
    modifies tail
    ensures tail[..22] == EndRecord(size, offset)
  {
    hide Low2, Low4;
    assert tail[..0] == [];
    Add4(tail, 0, 0x06054b50);
    Add2(tail, 4, 0);
    Add2(tail, 6, 0);
    Add2(tail, 8, 1);
    Add2(tail, 10, 1);
    Add4(tail, 12, size);
    Add4(tail, 16, offset);
    Add2(tail, 20, 0);
  }

  /** `put_trailer` for zip. */
  method PutZipTrailer(out: seq<Byte>, name: Option<seq<Byte>>, mtime: int, dos: nat,
                       ulen: nat, clen: nat, check: nat, head: nat) returns (out': seq<Byte>)
    ensures out' == out + ZipTrailer(name, mtime, dos, check, clen, ulen, head)
  {
    hide Low2, Low4, CentralStart, CentralRest, Stamp, Words, EndRecord;
    var tail := new Byte[46](_ => 0);
    PutDescriptor(tail, check, clen, ulen);
    out' := out + tail[..16];
    PutCentralStart(tail, dos, check, clen, ulen);
    PutCentralRest(tail, |ZipName(name)|, CentralStart(dos, check, clen, ulen));
    out' := out' + tail[..46];
    var cent := 46;
    out' := out' + ZipName(name);
    cent := cent + |ZipName(name)|;
    PutStamp(tail, mtime);
    out' := out' + tail[..9];
    cent := cent + 9;
    StampLength(mtime);
    PutEndRecord(tail, cent, head + clen + 16);
    out' := out' + tail[..22];
  }

  lemma StampLength(mtime: int)
    ensures |Stamp(mtime)| == 9
  {
  }

  // ---- The archive ----

  lemma EndRecordFields(size: nat, offset: nat)
    ensures var e := EndRecord(size, offset);
            Pull4(e) == 0x06054b50 && e[4..12] == [0, 0, 0, 0, 1, 0, 1, 0] && e[20..] == [0, 0] &&
            Pull4(e[12..]) == size % TWO32 && Pull4(e[16..]) == offset % TWO32
  {
    hide Low2, Low4, Pull2, Pull4;
    var e := EndRecord(size, offset);
    var r0 := Low4(offset) + Low2(0);
    var r1 := Low4(size) + r0;
    var r2 := Low2(1) + r1;
    var p := Low4(0x06054b50) + Low2(0) + Low2(0) + Low2(1);
    assert e == p + r2;
    assert e[12..] == r1 && e[16..] == r0;
    assert e == Low4(0x06054b50) + e[4..];
    Pull4Low4(0x06054b50, e[4..]);
    Small2(0);
    Small2(1);
    assert e[4..12] == Low2(0) + Low2(0) + Low2(1) + Low2(1);
    assert e[20..] == Low2(0);
    Pull4Low4(size, r0);
    Pull4Low4(offset, Low2(0));
  }

  lemma Small2(x: nat)
    requires x < 256
    ensures Low2(x) == [x, 0]
  {
  }

  lemma StartFields(dos: nat, check: nat, clen: nat, ulen: nat, rest: seq<Byte>)
    ensures var c := CentralStart(dos, check, clen, ulen) + rest;
            Pull4(c) == 0x02014b50 && Pull4(c[16..]) == check % TWO32 &&
            Pull4(c[20..]) == clen % TWO32 && Pull4(c[24..]) == ulen % TWO32
  {
    hide Low2, Low4, Pull2, Pull4;
    var c := CentralStart(dos, check, clen, ulen) + rest;
    var p := Low4(0x02014b50) + [63, 255] + Low2(20) + Low2(8) + Low2(8) + Low4(dos);
    var q := p + Low4(check);
    var t := q + Low4(clen);
    assert c[16..] == Low4(check) + c[20..];
    assert c[20..] == Low4(clen) + c[24..];
    assert c[24..] == Low4(ulen) + rest;
    assert c == Low4(0x02014b50) + c[4..];
    Pull4Low4(0x02014b50, c[4..]);
    Pull4Low4(check, c[20..]);
    Pull4Low4(clen, c[24..]);
    Pull4Low4(ulen, rest);
  }

  lemma RestFields(name: nat, rest: seq<Byte>)
    ensures var c := CentralRest(name) + rest;
            Pull2(c) == name % 65536 && Pull4(c[14..]) == 0 && c[18..] == rest
  {
    hide Low2, Low4, Pull2, Pull4;
    var c := CentralRest(name) + rest;
    assert c == Low2(name) + c[2..];
    assert c[14..] == Low4(0) + rest;
    Pull2Low2(name, c[2..]);
    Pull4Low4(0, rest);
  }

  /** The central header repeats the values of the descriptor, says how long the
      name is, and points to the start of the file. */
  lemma CentralFields(name: Option<seq<Byte>>, mtime: int, dos: nat, check: nat, clen: nat, ulen: nat)
    ensures var c := Central(name, mtime, dos, check, clen, ulen);
            |c| == 55 + |ZipName(name)| && Pull4(c) == 0x02014b50 &&
            Pull4(c[16..]) == check % TWO32 && Pull4(c[20..]) == clen % TWO32 && Pull4(c[24..]) == ulen % TWO32 &&
            Pull2(c[28..]) == |ZipName(name)| % 65536 && Pull4(c[42..]) == 0 &&
            c[46..46 + |ZipName(name)|] == ZipName(name)
  {
    hide Pull2, Pull4, Stamp, CentralStart, CentralRest;
    StampLength(mtime);
    var c := Central(name, mtime, dos, check, clen, ulen);
    var rest := ZipName(name) + Stamp(mtime);
    var r := CentralRest(|ZipName(name)|) + rest;
    assert c == CentralStart(dos, check, clen, ulen) + r;
    assert c[28..] == r;
    assert c[42..] == r[14..];
    assert c[46..] == r[18..];
    StartFields(dos, check, clen, ulen, r);
    RestFields(|ZipName(name)|, rest);
    assert c[46..46 + |ZipName(name)|] == rest[..|ZipName(name)|];
  }

  /** The rest of it repeats the local header: version, flags, method and time,
      the lengths of name and extra field, and these themselves. Both say version
      2.0, bit 3 (a descriptor follows) and method 8. The entry has no comment,
      is on the first disk, and has no attributes. */
  lemma CentralLikeLocal(name: Option<seq<Byte>>, mtime: int, dos: nat, check: nat, clen: nat, ulen: nat)
    ensures var c, l := Central(name, mtime, dos, check, clen, ulen), ZipBytes(ZipOf(name, mtime, dos));
            |c| >= 46 && |l| >= 30 && l[..10] == [0x50, 0x4b, 3, 4, 20, 0, 8, 0, 8, 0] &&
            c[6..16] == l[4..14] && c[28..32] == l[26..30] && c[46..] == l[30..] &&
            c[4..6] == [63, 255] && c[32..46] == seq(14, _ => 0)
  {
    hide Low2, Low4, Stamp, ZipBytes, CentralStart, CentralRest, LocalHead;
    LocalHeadIs(name, mtime, dos);
    var l := LocalHead(name, dos);
    var a, b := CentralStart(dos, check, clen, ulen), CentralRest(|ZipName(name)|);
    StartParts(dos, check, clen, ulen);
    RestZero(|ZipName(name)|);
    LocalParts(name, dos);
    var t := ZipName(name) + Stamp(mtime);
    var c, z := Central(name, mtime, dos, check, clen, ulen), ZipBytes(ZipOf(name, mtime, dos));
    assert c == a + b + t && z == l + t;
    Middle(a, b, t);
    assert c[4..6] == a[4..6] && c[6..16] == a[6..16] && c[28..32] == b[..4] && c[32..46] == b[4..];
    assert z[..10] == l[..10] && z[4..14] == l[4..14] && z[26..30] == l[26..30] && z[30..] == t;
  }

  /** Version, flags, method and time, as in both headers. */
  function Common(dos: nat): (s: seq<Byte>)
    ensures |s| == 10
  {
    Low2(20) + Low2(8) + Low2(8) + Low4(dos)
  }

  lemma Middle(p: seq<Byte>, m: seq<Byte>, q: seq<Byte>)
    ensures (p + m + q)[|p|..|p| + |m|] == m && (p + m + q)[..|p|] == p && (p + m + q)[|p| + |m|..] == q
  {
  }

  lemma StartParts(dos: nat, check: nat, clen: nat, ulen: nat)
    ensures var a := CentralStart(dos, check, clen, ulen); a[4..6] == [63, 255] && a[6..16] == Common(dos)
  {
    hide Low2, Low4;
    var p := Low4(0x02014b50) + [63, 255];
    var q := Low4(check) + Low4(clen) + Low4(ulen);
    assert CentralStart(dos, check, clen, ulen) == p + Common(dos) + q;
    Middle(p, Common(dos), q);
    assert p[4..6] == [63, 255];
  }

  lemma LocalParts(name: Option<seq<Byte>>, dos: nat)
    ensures var l := LocalHead(name, dos);
            |l| == 30 && l[..10] == [0x50, 0x4b, 3, 4, 20, 0, 8, 0, 8, 0] && l[4..14] == Common(dos) &&
            l[26..30] == Low2(|ZipName(name)|) + Low2(9)
  {
    hide Low2, Low4;
    var p, q := Low4(0x04034b50), Low4(0) + Low4(0) + Low4(0);
    var r := Low2(|ZipName(name)|) + Low2(9);
    var l := LocalHead(name, dos);
    assert l == p + Common(dos) + (q + r);
    Middle(p, Common(dos), q + r);
    assert l[26..30] == (q + r)[12..16] == r;
    LocalSignature();
    Small2(8);
    Small2(20);
    assert l[..10] == p + Common(dos)[..6];
    assert Common(dos)[..6] == [20, 0, 8, 0, 8, 0];
  }

  lemma RestZero(name: nat)
    ensures CentralRest(name)[..4] == Low2(name) + Low2(9) && CentralRest(name)[4..] == seq(14, _ => 0)
  {
    hide Low2;
    Small2(0);
    assert Low4(0) == [0, 0, 0, 0];
  }

  /** In a complete file -- local header, data, trailer -- the end record leads
      to the central directory, whose header leads to the local header, exactly
      as long as the directory starts below 4 GB. */
  lemma ArchiveIsConsistent(header: seq<Byte>, data: seq<Byte>, name: Option<seq<Byte>>, mtime: int, dos: nat,
                            check: nat, ulen: nat)
    requires |ZipName(name)| < TWO32 - 55
    ensures var file := header + data + ZipTrailer(name, mtime, dos, check, |data|, ulen, |header|);
            var end := file[|file| - 22..];
            var start := |header| + |data| + 16;
            var c := Central(name, mtime, dos, check, |data|, ulen);
            Pull4(end) == 0x06054b50 && end[4..12] == [0, 0, 0, 0, 1, 0, 1, 0] && end[20..] == [0, 0] &&
            Pull4(end[12..]) == |c| &&
            file[start..start + |c|] == c && start + |c| + 22 == |file| && Pull4(c[42..]) == 0 &&
            (Pull4(end[16..]) == start <==> start < TWO32)
  {
    hide Low2, Low4, Pull2, Pull4, Central, EndRecord, Words, Resolve;
    var c := Central(name, mtime, dos, check, |data|, ulen);
    var d := Words([SIG, check, |data|, ulen]);
    var e := EndRecord(|c|, |header| + |data| + 16);
    var file := header + data + ZipTrailer(name, mtime, dos, check, |data|, ulen, |header|);
    CentralFields(name, mtime, dos, check, |data|, ulen);
    EndRecordFields(|c|, |header| + |data| + 16);
    WordsLength([SIG, check, |data|, ulen]);
    var start := |header| + |data| + 16;
    assert file == header + data + d + c + e;
    assert |header + data + d| == start;
    assert file[start..start + |c|] == c;
    assert file[|file| - 22..] == e;
  }

  /** The trailer begins with a descriptor that is read back as written. */
  lemma TrailerIsAccepted(name: Option<seq<Byte>>, mtime: int, dos: nat, check: nat, clen: nat, ulen: nat, head: nat)
    requires check < TWO32
    ensures Resolve(ZipTrailer(name, mtime, dos, check, clen, ulen, head), check, clen % TWO32, ulen % TWO32) == Accepted(16)
  {
    hide Low2, Low4, Pull2, Pull4, Central, EndRecord, Words, Resolve;
    var c := Central(name, mtime, dos, check, clen, ulen);
    var e := EndRecord(|c|, head + clen + 16);
    LowWords(check, clen, ulen);
    SignedIsRead(check, clen % TWO32, ulen % TWO32, c + e);
    assert ZipTrailer(name, mtime, dos, check, clen, ulen, head) == Words([SIG, check, clen, ulen]) + (c + e);
  }

  lemma LowWords(check: nat, clen: nat, ulen: nat)
    ensures Words([SIG, check, clen, ulen]) == Words([SIG, check, clen % TWO32, ulen % TWO32])
  {
    hide Words, Low4;
    FourWords(SIG, check, clen, ulen);
    FourWords(SIG, check, clen % TWO32, ulen % TWO32);
    LowWord(clen);
    LowWord(ulen);
  }

  lemma LowPair(h: nat)
    ensures Low2(h) == Low2(h % 65536)
  {
    var q, m := h / 65536, h % 65536;
    assert h == 256 * (256 * q) + m;
    Shifted(256 * q, m);
    Shifted(q, m / 256);
  }

  lemma Shifted(k: nat, m: nat)
    ensures (256 * k + m) % 256 == m % 256 && (256 * k + m) / 256 == k + m / 256
  {
  }

  lemma LowWord(x: nat)
    ensures Low4(x) == Low4(x % TWO32)
  {
    LowPair(x / 65536);
    LowHalves(x);
  }

  lemma LowHalves(x: nat)
    ensures (x % TWO32) % 65536 == x % 65536 && (x % TWO32) / 65536 == (x / 65536) % 65536
  {
  }
}
