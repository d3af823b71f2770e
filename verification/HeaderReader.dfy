/** `get_header` and its helpers of `examples/pgz.c`. */
module HeaderReader {
  import opened Basics
  import opened Streams
  import opened Headers

  /** The stream has at least `n` more bytes, after which come the bytes `rest`. */
  twostate predicate Consumed(input: Input, n: nat)
    reads input, input.in_buf
    requires old(input.Valid()) && input.Valid()
  {
    n <= |old(input.Rest())| && input.Rest() == old(input.Rest())[n..] && input.in_eof == old(input.in_eof)
  }

  /** Integers within a part of the stream. */
  lemma PullWithin(r: seq<Byte>, size: nat, at: nat)
    requires size <= |r|
    ensures at + 2 <= size ==> Pull2(r[at..]) == Pull2(r[..size][at..])
    ensures at + 4 <= size ==> Pull4(r[at..]) == Pull4(r[..size][at..]) < TWO32
  {
    if at + 4 <= size {
      var a, b := r[at..], r[..size][at..];
      assert a[0] == b[0] && a[1] == b[1] && a[2] == b[2] && a[3] == b[3];
      assert Pull2(a[2..]) == Pull2(b[2..]) < 65536 && Pull2(a) == Pull2(b) < 65536;
    }
  }

  lemma Zip64Parts(d: seq<Byte>, info: Info)
    ensures info.ulen == LOW32 && |d| >= 8 ==>
      Zip64(d, info) ==
        (if info.clen == LOW32 && |d| >= 16 then info.(ulen := Pull4(d), clen := Pull4(d[8..])) else info.(ulen := Pull4(d)))
    ensures !(info.ulen == LOW32 && |d| >= 8) ==>
      Zip64(d, info) == if info.clen == LOW32 && |d| >= 8 then info.(clen := Pull4(d)) else info
  {
  }

  /** The zip64 lengths of an extra block of `size` bytes; `left` are not read yet. */
  method ReadZip64(input: Input, size: nat, info: Info) returns (ok: bool, left: nat, info': Info)
    requires input.Valid()
    modifies input, input.in_buf
    ensures input.Valid()
    ensures |old(input.Rest())| >= size ==>
      ok && left <= size && Consumed(input, size - left) && info' == Zip64(old(input.Rest())[..size], info)
  {
    hide Pull4, Zip64, Input.Rest;
    ghost var d := input.Rest()[..if |input.Rest()| >= size then size else 0];
    Zip64Parts(d, info);
    if |input.Rest()| >= size {
      PullWithin(input.Rest(), size, 0);
      PullWithin(input.Rest(), size, 8);
      assert input.Rest()[0..] == input.Rest() && d[0..] == d;
    }
    left, info' := size, info;
    if info'.ulen == LOW32 && left >= 8 {
      var v := input.Get4();
      info' := info'.(ulen := v);
      ok := input.Skip(4);
      if !ok { return; }
      left := left - 8;
    }
    if info.clen == LOW32 && left >= 8 {
      var v := input.Get4();
      info' := info'.(clen := v);
      ok := input.Skip(4);
      if !ok { return; }
      left := left - 8;
    }
    ok := true;
  }

  /** The modification time of an extra block of `size` bytes. */
  method ReadStamp(input: Input, id: nat, size: nat, info: Info) returns (ok: bool, left: nat, info': Info)
    requires input.Valid()
    modifies input, input.in_buf
    ensures input.Valid()
    ensures |old(input.Rest())| >= size ==>
      ok && left <= size && Consumed(input, size - left) && info' == Stamped(id, old(input.Rest())[..size], info)
  {
    hide Pull4, Input.Rest;
    ok, left, info' := true, size, info;
    if input.in_eof {
      input.NothingAtEof();
    }
    if |input.Rest()| >= size {
      PullWithin(input.Rest(), size, 1);
      PullWithin(input.Rest(), size, 4);
    }
    if (id == 0x000d || id == 0x5855) && size >= 8 {
      ok := input.Skip(4);
      if !ok { return; }
      var v := input.Get4();
      info' := info.(stamp := Signed(v % TWO32));
      left := left - 8;
    }
    if id == 0x5455 && left >= 5 {
      left := left - 1;
      var b := input.Get();
      if b % 2 == 1 {
        var v := input.Get4();
        info' := info.(stamp := Signed(v % TWO32));
        left := left - 4;
      }
    }
  }

  lemma BlocksStep(e: seq<Byte>, info: Info, save: bool)
    requires |e| >= 4
    ensures var id, size := Pull2(e), Pull2(e[2..]);
            Blocks(e, info, save) ==
              if size > |e| - 4 then info
              else Blocks(e[4 + size..], Block(id, e[4..4 + size], info, save), save)
  {
  }

  /** The extra block after its number and size. */
  method ReadBlock(input: Input, id: nat, size: nat, info: Info, save: bool) returns (ok: bool, info': Info)
    requires input.Valid()
    modifies input, input.in_buf
    ensures input.Valid()
    ensures |old(input.Rest())| >= size ==>
      ok && Consumed(input, size) && info' == Block(id, old(input.Rest())[..size], info, save)
  {
    hide Zip64, Stamped, Pull4;
    var left := size;
    ok, info' := true, info;
    if id == 1 {
      ok, left, info' := ReadZip64(input, size, info);
      if !ok { return; }
    } else if save {
      ok, left, info' := ReadStamp(input, id, size, info);
      if !ok { return; }
    }
    ok := input.Skip(left);
  }

  /** One round of `read_extra`, with `left` bytes of the field to come. */
  method ReadOne(input: Input, left: nat, info: Info, save: bool) returns (ok: bool, more: bool, left': nat, info': Info)
    requires input.Valid() && left >= 4
    modifies input, input.in_buf
    ensures input.Valid() && left' <= left && (ok && more ==> left' < left)
    ensures |old(input.Rest())| >= left && !old(input.in_eof) ==>
      ok && Consumed(input, left - left') &&
      (var e := old(input.Rest())[..left];
        Blocks(e, info, save) == if more then Blocks(e[left - left'..], info', save) else info')
  {
    hide Blocks, Block, Pull2;
    ok, more, left', info' := false, true, left, info;
    ghost var r := input.Rest();
    var got, id, size := ReadIds(input);
    if !got {
      return;
    }
    ghost var good := |r| >= left;
    if good {
      PartOf(r, left, size, info, save);
    }
    left' := left - 4;
    if size > left' {
      ok, more := true, false;
      return;
    }
    left' := left' - size;
    ok, info' := ReadBlock(input, id, size, info, save);
  }

  /** The number and size of an extra block. */
  method ReadIds(input: Input) returns (ok: bool, id: nat, size: nat)
    requires input.Valid()
    modifies input, input.in_buf
    ensures input.Valid()
    ensures |old(input.Rest())| >= 4 && !old(input.in_eof) ==>
      ok && Consumed(input, 4) && id == Pull2(old(input.Rest())) && size == Pull2(old(input.Rest())[2..])
  {
    hide Pull2, Input.Rest;
    id := input.Get2();
    size := input.Get2();
    ok := !input.in_eof;
  }

  lemma PartOf(r: seq<Byte>, left: nat, size: nat, info: Info, save: bool)
    requires 4 <= left <= |r| && size == Pull2(r[2..])
    ensures var e := r[..left];
            Blocks(e, info, save) ==
              if size > left - 4 then info
              else Blocks(e[4 + size..], Block(Pull2(r), r[4..][..size], info, save), save)
  {
    hide Blocks, Block, Pull2;
    var e := r[..left];
    BlocksStep(e, info, save);
    PullWithin(r, left, 0);
    PullWithin(r, left, 2);
    assert r[0..] == r && e[0..] == e;
    if size <= left - 4 {
      assert r[4..][..size] == e[4..4 + size];
    }
  }

  /** `read_extra`: whatever the `len` bytes are, exactly these are consumed,
      and what they say is found. */
  method ReadExtra(input: Input, len: nat, info: Info, save: bool) returns (ok: bool, info': Info)
    requires input.Valid()
    modifies input, input.in_buf
    ensures input.Valid()
    ensures |old(input.Rest())| >= len && !old(input.in_eof) ==>
      ok && Consumed(input, len) && info' == Blocks(old(input.Rest())[..len], info, save)
  {
    hide Blocks;
    ok, info' := true, info;
    var left: nat, more := len, true;
    ghost var good := |input.Rest()| >= len && !input.in_eof;
    ghost var e := input.Rest()[..if good then len else 0];
    while more && left >= 4
      invariant input.Valid() && left <= len && (good ==> ok)
      invariant good ==> Consumed(input, len - left)
      invariant good ==> Blocks(e, info, save) == if more then Blocks(e[len - left..], info', save) else info'
      decreases more, left
    {
      ghost var was := left;
      assert good ==> input.Rest()[..left] == e[len - left..];
      ok, more, left, info' := ReadOne(input, left, info', save);
      if !ok { return; }
      assert good ==> e[len - was..][was - left..] == e[len - left..];
    }
    if good && more {
      FewBlocks(e[len - left..], info', save);
    }
    ok := input.Skip(left);
  }

  lemma FewBlocks(e: seq<Byte>, info: Info, save: bool)
    requires |e| < 4
    ensures Blocks(e, info, save) == info
  {
  }

  // ---- Strings ----

  /** The length of a zero-terminated string, or of everything. */
  function ToZero(s: seq<Byte>): (k: nat)
    ensures k <= |s| && (k < |s| ==> s[k] == 0)
    ensures forall i :: 0 <= i < k ==> s[i] != 0
    decreases |s|
  {
    if s == [] || s[0] == 0 then 0 else 1 + ToZero(s[1..])
  }

  lemma {:induction false} ToZeroIs(s: seq<Byte>, k: nat)
    requires k <= |s| && NoZero(s[..k]) && (k < |s| ==> s[k] == 0)
    ensures ToZero(s) == k
    decreases k
  {
    if k > 0 {
      assert s[0] == s[..k][0];
      assert s[1..][..k - 1] == s[..k][1..];
      ToZeroIs(s[1..], k - 1);
    }
  }

  /** `memchr`: the number of buffered bytes before a zero. */
  method FindZero(input: Input) returns (n: nat)
    requires input.Valid()
    ensures n <= input.in_left
    ensures forall i :: input.in_next <= i < input.in_next + n ==> input.in_buf[i] != 0
    ensures n < input.in_left ==> input.in_buf[input.in_next + n] == 0
  {
    n := 0;
    while n < input.in_left && input.in_buf[input.in_next + n] != 0
      invariant n <= input.in_left
      invariant forall i :: input.in_next <= i < input.in_next + n ==> input.in_buf[i] != 0
    {
      n := n + 1;
    }
  }

  /** Copy up to and with a zero from the buffer, or all that is in it. */
  method CopyString(input: Input) returns (part: seq<Byte>, ended: bool)
    requires input.Valid()
    modifies input`in_left, input`in_next
    ensures input.Valid() && NoZero(part)
    ensures var r := old(input.Rest());
            if ended then |part| < |r| && part == r[..|part|] && r[|part|] == 0 && input.Rest() == r[|part| + 1..]
            else |part| == old(input.in_left) <= |r| && part == r[..|part|] && input.Rest() == r[|part|..]
  {
    var n := FindZero(input);
    input.BufferedFirst();
    part := input.in_buf[input.in_next..input.in_next + n];
    assert part == input.in_buf[input.in_next..input.in_next + input.in_left][..n] == input.Rest()[..n];
    ended := n < input.in_left;
    input.Advance(if ended then n + 1 else n);
  }

  /** As much of a string as is in the buffer, filled if need be. */
  method ReadPart(input: Input) returns (ok: bool, part: seq<Byte>, ended: bool)
    requires input.Valid()
    modifies input, input.in_buf
    ensures input.Valid() && ok == (old(input.Rest()) != [])
    ensures ok ==> NoZero(part) && input.in_eof == old(input.in_eof) && (ended || part != [])
    ensures ok ==> |part| <= |old(input.Rest())| && part == old(input.Rest())[..|part|]
    ensures ok ==>
            if ended then |part| < |old(input.Rest())| && old(input.Rest())[|part|] == 0 && Consumed(input, |part| + 1)
            else Consumed(input, |part|)
  {
    part, ended := [], false;
    if input.in_left == 0 {
      input.NothingBuffered();
      hide input.Rest;
      var got := input.Load();
      if got == 0 {
        return false, part, ended;
      }
    }
    ok := true;
    part, ended := CopyString(input);
  }

  /** The name loop of `get_header`: whatever the buffer boundaries, the string
      up to the first zero is stored and the zero consumed. */
  method ReadString(input: Input) returns (ok: bool, s: seq<Byte>)
    requires input.Valid()
    modifies input, input.in_buf
    ensures input.Valid()
    ensures var r := old(input.Rest());
            var k := ToZero(r);
            ok == (k < |r|) && (ok ==> s == r[..k] && Consumed(input, k + 1))
  {
    hide ToZero, Input.Rest;
    ghost var r := input.Rest();
    s := [];
    var ended := false;
    while !ended
      invariant input.Valid() && NoZero(s)
      invariant input.in_eof == old(input.in_eof)
      invariant |s| <= |r| && s == r[..|s|]
      invariant if ended then |s| < |r| && r[|s|] == 0 && input.Rest() == r[|s| + 1..] else input.Rest() == r[|s|..]
      decreases |r| - |s|, !ended
    {
      ghost var was := |s|;
      var part;
      ok, part, ended := ReadPart(input);
      if !ok {
        ToZeroIs(r, |r|);
        return;
      }
      s := s + part;
      assert r[was..][..|part|] == r[was..was + |part|];
    }
    ToZeroIs(r, |s|);
    ok := true;
  }

  /** Pass over a zero-terminated string. */
  method SkipString(input: Input) returns (ok: bool)
    requires input.Valid()
    modifies input, input.in_buf
    ensures input.Valid()
    ensures var r := old(input.Rest());
            var k := ToZero(r);
            ok == (k < |r|) && (ok ==> Consumed(input, k + 1))
  {
    hide ToZero, Input.Rest;
    ghost var r := input.Rest();
    ghost var k := 0;
    if input.in_eof {
      input.NothingAtEof();
    }
    var b := input.Get();
    while b != 0
      invariant input.Valid() && k <= |r| && NoZero(r[..k])
      invariant input.in_eof <==> b == -1
      invariant if k < |r| then b == r[k] && input.Rest() == r[k + 1..] else b == -1
      decreases |r| - k, b
    {
      if input.in_eof {
        ToZeroIs(r, |r|);
        return false;
      }
      k := k + 1;
      b := input.Get();
    }
    ToZeroIs(r, k);
    ok := true;
  }

  // ---- gzip ----

  predicate Bit(flags: int, n: nat)
    requires n > 0
  {
    (flags / n) % 2 == 1
  }

  lemma FlagBits(h: Gzip)
    ensures var f := GzipFlags(h);
            f < 32 && (Bit(f, 2) <==> h.hcrc.Some?) && (Bit(f, 4) <==> h.extra.Some?) &&
            (Bit(f, 8) <==> h.name.Some?) && (Bit(f, 16) <==> h.comment.Some?)
  {
  }

  /** The fixed part of a gzip header. */
  method ReadFixed(input: Input, save: bool, info: Info) returns (error: int, cm: int, flags: int, info': Info)
    requires input.Valid()
    modifies input, input.in_buf
    ensures input.Valid() && error <= 0
    ensures var r := old(input.Rest());
            |r| >= 8 && !old(input.in_eof) ==> error == if r[1] >= 32 then -4 else 0
    ensures var r := old(input.Rest());
            |r| >= 8 && !old(input.in_eof) && r[1] < 32 ==>
              Consumed(input, 8) && cm == r[0] && flags == r[1] &&
              info' == if save then info.(stamp := Signed(Pull4(r[2..]))) else info
  {
    hide Pull4, Input.Rest;
    info' := info;
    if |input.Rest()| >= 8 {
      PullWithin(input.Rest(), 8, 2);
    }
    cm := input.Get();
    flags := input.Get();
    if input.in_eof {
      return -1, cm, flags, info';
    }
    if flags >= 32 {
      return -4, cm, flags, info';
    }
    if save {
      var v := input.Get4();
      info' := info.(stamp := Signed(v % TWO32));
    } else {
      var ok := input.Skip(4);
      if !ok { return -1, cm, flags, info'; }
    }
    var ok := input.Skip(2);
    error := if ok then 0 else -1;
  }

  /** The extra field of a gzip header, if there is one. */
  method SkipExtraField(input: Input, present: bool) returns (error: int)
    requires input.Valid()
    modifies input, input.in_buf
    ensures input.Valid() && error <= 0
    ensures !present ==> error == 0 && Consumed(input, 0)
    ensures var r := old(input.Rest());
            present && |r| >= 2 && |r| >= 2 + Pull2(r) && !old(input.in_eof) ==> error == 0 && Consumed(input, 2 + Pull2(r))
  {
    hide Pull2, Input.Rest;
    if present {
      var extra := input.Get2();
      if input.in_eof {
        return -3;
      }
      var ok := input.Skip(extra);
      if !ok { return -1; }
    }
    error := 0;
  }

  /** The name and the comment. */
  method ReadTexts(input: Input, hasName: bool, hasComment: bool, save: bool, info: Info)
    returns (error: int, info': Info)
    requires input.Valid()
    modifies input, input.in_buf
    ensures input.Valid() && error <= 0
    ensures var r := old(input.Rest());
            var n := if hasName then ToZero(r) + 1 else 0;
            n <= |r| ==>
              var m := if hasComment then ToZero(r[n..]) + 1 else 0;
              n + m <= |r| ==>
                error == 0 && Consumed(input, n + m) &&
                info' == if hasName && save then info.(name := Some(r[..n - 1])) else info
  {
    hide ToZero, Input.Rest;
    info' := info;
    if hasName && save {
      var ok, s := ReadString(input);
      if !ok { return -3, info'; }
      info' := info.(name := Some(s));
    } else if hasName {
      var ok := SkipString(input);
      if !ok { return -3, info'; }
    }
    if hasComment {
      var ok := SkipString(input);
      if !ok { return -3, info'; }
    }
    error := 0;
  }

  lemma TextEnds(s: seq<Byte>, rest: seq<Byte>)
    requires NoZero(s)
    ensures ToZero(Text(Some(s)) + rest) == |s| && |Text(Some(s))| == |s| + 1
    ensures (Text(Some(s)) + rest)[..|s|] == s && (Text(Some(s)) + rest)[|s| + 1..] == rest
  {
    var t := Text(Some(s)) + rest;
    assert t[..|s|] == s;
    ToZeroIs(t, |s|);
  }

  /** A header and what follows, field by field. */
  lemma GzipParts(h: Gzip, tail: seq<Byte>)
    ensures var p4 := CheckField(h.hcrc) + tail;
            var p3 := Text(h.comment) + p4;
            var p2 := Text(h.name) + p3;
            var p1 := ExtraField(h.extra) + p2;
            GzipRest(h) + tail == GzipFixed(h) + p1
  {
  }

  lemma FixedFields(h: Gzip, rest: seq<Byte>)
    requires h.mtime < TWO32
    ensures var r := GzipFixed(h) + rest;
            |r| >= 8 && r[0] == h.cm && r[1] == GzipFlags(h) && Pull4(r[2..]) == h.mtime && r[8..] == rest
  {
    var r := GzipFixed(h) + rest;
    assert r[2..] == Low4(h.mtime) + ([h.xfl, h.os] + rest);
    Pull4Low4(h.mtime, [h.xfl, h.os] + rest);
  }

  lemma ExtraEnds(e: seq<Byte>, rest: seq<Byte>)
    requires |e| < 65536
    ensures var r := ExtraField(Some(e)) + rest;
            |r| >= 2 + |e| && Pull2(r) == |e| && r[2 + |e|..] == rest
  {
    var r := ExtraField(Some(e)) + rest;
    assert r == Low2(|e|) + (e + rest);
    Pull2Low2(|e|, e + rest);
  }

  /** The texts of a header, and what is behind them. */
  lemma TextsEnd(name: Option<seq<Byte>>, comment: Option<seq<Byte>>, p4: seq<Byte>)
    requires (name.Some? ==> NoZero(name.value)) && (comment.Some? ==> NoZero(comment.value))
    ensures var r := Text(name) + (Text(comment) + p4);
            var n := if name.Some? then ToZero(r) + 1 else 0;
            n == |Text(name)| <= |r| &&
            (name.Some? ==> r[..n - 1] == name.value) &&
            (var m := if comment.Some? then ToZero(r[n..]) + 1 else 0;
              n + m <= |r| && r[n + m..] == p4)
  {
    hide ToZero, NoZero;
    var p3 := Text(comment) + p4;
    var r := Text(name) + p3;
    if name.Some? {
      TextEnds(name.value, p3);
    }
    assert r[|Text(name)|..] == p3;
    if comment.Some? {
      TextEnds(comment.value, p4);
    }
    assert r[|Text(name)|..][|Text(comment)|..] == p4;
  }

  method GetExtraField(input: Input, flags: int, ghost h: Gzip, ghost rest: seq<Byte>) returns (error: int)
    requires input.Valid()
    modifies input, input.in_buf
    ensures input.Valid() && error <= 0
    ensures old(input.Rest()) == ExtraField(h.extra) + rest && flags == GzipFlags(h) && GzipOk(h) && !old(input.in_eof) ==>
      error == 0 && input.Rest() == rest && !input.in_eof
  {
    hide Input.Rest, GzipFlags, ExtraField, Pull2, NoZero, Bit;
    FlagBits(h);
    NoField(h, rest);
    if GzipOk(h) && h.extra.Some? {
      ExtraEnds(h.extra.value, rest);
    }
    error := SkipExtraField(input, Bit(flags, 4));
  }

  method GetTexts(input: Input, flags: int, save: bool, info: Info, ghost h: Gzip, ghost rest: seq<Byte>)
    returns (error: int, info': Info)
    requires input.Valid()
    modifies input, input.in_buf
    ensures input.Valid() && error <= 0
    ensures old(input.Rest()) == Text(h.name) + (Text(h.comment) + rest) && flags == GzipFlags(h) && GzipOk(h) ==>
      error == 0 && input.Rest() == rest && input.in_eof == old(input.in_eof) &&
      info' == if save && h.name.Some? then info.(name := h.name) else info
  {
    hide Input.Rest, GzipFlags, ToZero, NoZero, Bit;
    FlagBits(h);
    if GzipOk(h) {
      TextsEnd(h.name, h.comment, rest);
    }
    error, info' := ReadTexts(input, Bit(flags, 8), Bit(flags, 16), save, info);
  }

  /** The fields that the flags announce. */
  method GetGzipFields(input: Input, flags: int, save: bool, info: Info, ghost h: Gzip, ghost tail: seq<Byte>)
    returns (error: int, info': Info)
    requires input.Valid()
    modifies input, input.in_buf
    ensures input.Valid() && error <= 0
    ensures old(input.Rest()) == ExtraField(h.extra) + (Text(h.name) + (Text(h.comment) + (CheckField(h.hcrc) + tail))) &&
            flags == GzipFlags(h) && GzipOk(h) && !old(input.in_eof) ==>
      error == 0 && input.Rest() == tail && !input.in_eof &&
      info' == if save && h.name.Some? then info.(name := h.name) else info
  {
    hide Input.Rest, GzipFlags, Text, ExtraField, NoZero, Bit;
    ghost var p4 := CheckField(h.hcrc) + tail;
    info' := info;
    FlagBits(h);
    error := GetExtraField(input, flags, h, Text(h.name) + (Text(h.comment) + p4));
    if error < 0 {
      return;
    }
    error, info' := GetTexts(input, flags, save, info, h, p4);
    if error < 0 {
      return;
    }
    if Bit(flags, 2) {
      var ok := input.Skip(2);
      if !ok { return -1, info'; }
    }
  }

  /** The rest of `get_header` for gzip, after the magic bytes: any header in the
      format is read to its end. */
  method GetGzip(input: Input, save: bool, info: Info, ghost h: Gzip, ghost tail: seq<Byte>)
    returns (cm: int, info': Info)
    requires input.Valid()
    modifies input, input.in_buf
    ensures input.Valid()
    ensures old(input.Rest()) == GzipRest(h) + tail && GzipOk(h) && !old(input.in_eof) ==>
      cm == h.cm && input.Rest() == tail && !input.in_eof && info' == GzipInfo(h, save, info)
  {
    hide Input.Rest, GzipFixed, GzipFlags, GzipRest, Text, ExtraField, Pull4, NoZero;
    if input.Rest() == GzipRest(h) + tail && GzipOk(h) {
      GzipParts(h, tail);
      FixedFields(h, ExtraField(h.extra) + (Text(h.name) + (Text(h.comment) + (CheckField(h.hcrc) + tail))));
      FlagBits(h);
    }
    var error, flags;
    error, cm, flags, info' := ReadFixed(input, save, info);
    if error < 0 {
      return error, info';
    }
    error, info' := GetGzipFields(input, flags, save, info', h, tail);
    if error < 0 {
      cm := error;
    }
  }

  /** What a gzip header says. */
  function GzipInfo(h: Gzip, save: bool, info: Info): Info {
    if save then info.(stamp := Signed(h.mtime), name := if h.name.Some? then h.name else info.name) else info
  }

  lemma NoField(h: Gzip, rest: seq<Byte>)
    ensures h.extra.None? ==> ExtraField(h.extra) + rest == rest
  {
  }

  // ---- zip ----

  method Get2Of(input: Input, ghost x: nat, ghost rest: seq<Byte>) returns (got: nat)
    requires input.Valid()
    modifies input, input.in_buf
    ensures input.Valid() && (old(input.in_eof) ==> input.in_eof)
    ensures old(input.Rest()) == Low2(x) + rest && !old(input.in_eof) ==>
      got == x % 65536 && input.Rest() == rest && !input.in_eof
  {
    hide Input.Rest, Pull2;
    Pull2Low2(x, rest);
    got := input.Get2();
  }

  method Get4Of(input: Input, ghost x: nat, ghost rest: seq<Byte>) returns (got: nat)
    requires input.Valid()
    modifies input, input.in_buf
    ensures input.Valid() && (old(input.in_eof) ==> input.in_eof)
    ensures old(input.Rest()) == Low4(x) + rest && !old(input.in_eof) ==>
      got == x % TWO32 && input.Rest() == rest && !input.in_eof
  {
    hide Input.Rest, Pull4, Low4;
    Pull4Low4(x, rest);
    got := input.Get4();
  }

  /** Copy bytes that are in the buffer. */
  method CopyPart(input: Input, n: nat) returns (part: seq<Byte>)
    requires input.Valid() && n <= input.in_left
    modifies input`in_left, input`in_next
    ensures input.Valid() && n <= |old(input.Rest())| && |part| == n
    ensures part == old(input.Rest())[..n] && input.Rest() == old(input.Rest())[n..]
    ensures input.in_left == old(input.in_left) - n
  {
    input.BufferedFirst();
    part := input.in_buf[input.in_next..input.in_next + n];
    assert part == input.in_buf[input.in_next..input.in_next + input.in_left][..n] == input.Rest()[..n];
    input.Advance(n);
  }

  /** The name of a zip entry: `n` bytes, whatever the buffer boundaries. */
  method ReadName(input: Input, n: nat) returns (ok: bool, s: seq<Byte>)
    requires input.Valid()
    modifies input, input.in_buf
    ensures input.Valid()
    ensures |old(input.Rest())| >= n && !old(input.in_eof) ==>
      ok && s == old(input.Rest())[..n] && input.Rest() == old(input.Rest())[n..] && !input.in_eof
  {
    hide Input.Rest;
    ghost var r := input.Rest();
    s := [];
    var left: nat := n;
    var part;
    while left > input.in_left
      invariant input.Valid() && |s| + left == n && |s| <= |r|
      invariant s == r[..|s|] && input.Rest() == r[|s|..]
      invariant old(input.in_eof) || !input.in_eof
      decreases left, input.in_left == 0
    {
      left := left - input.in_left;
      input.BufferedFirst();
      NextPart(r, |s|, input.in_left);
      part := CopyPart(input, input.in_left);
      s := s + part;
      input.NothingBuffered();
      var got := input.Load();
      if got == 0 {
        return false, s;
      }
    }
    input.BufferedFirst();
    NextPart(r, |s|, left);
    part := CopyPart(input, left);
    s := s + part;
    ok := true;
  }

  lemma NextPart(r: seq<Byte>, at: nat, n: nat)
    requires at + n <= |r|
    ensures r[..at] + r[at..][..n] == r[..at + n] && r[at..][n..] == r[at + n..]
  {
  }

  /** The lengths and the check of a zip header, after its flags and method. */
  method ReadZipNumbers(input: Input, save: bool, info: Info, dos2time: nat -> int, ghost h: Zip, ghost rest: seq<Byte>)
    returns (ok: bool, info': Info, fname: nat, extra: nat)
    requires input.Valid()
    modifies input, input.in_buf
    ensures input.Valid()
    ensures old(input.Rest()) == Low4(h.dos) + (Low4(h.crc) + (Low4(h.clen) + (Low4(h.ulen) +
              (Low2(|h.name|) + (Low2(|h.extra|) + rest))))) && ZipOk(h) && !old(input.in_eof) ==>
      ok && input.Rest() == rest && !input.in_eof && fname == |h.name| && extra == |h.extra| &&
      info' == info.(stamp := if save then dos2time(h.dos) else info.stamp, crc := h.crc, clen := h.clen, ulen := h.ulen)
  {
    hide Input.Rest, Low2, Low4;
    ghost var r5 := Low2(|h.extra|) + rest;
    ghost var r4 := Low2(|h.name|) + r5;
    ghost var r3 := Low4(h.ulen) + r4;
    ghost var r2 := Low4(h.clen) + r3;
    ghost var r1 := Low4(h.crc) + r2;
    ok, info', fname, extra := true, info, 0, 0;
    if save {
      var dos := Get4Of(input, h.dos, r1);
      info' := info'.(stamp := dos2time(dos));
    } else {
      ok := input.Skip(4);
      if !ok { return; }
      assert (Low4(h.dos) + r1)[4..] == r1;
    }
    var crc := Get4Of(input, h.crc, r2);
    var clen := Get4Of(input, h.clen, r3);
    var ulen := Get4Of(input, h.ulen, r4);
    fname := Get2Of(input, |h.name|, r5);
    extra := Get2Of(input, |h.extra|, rest);
    info' := info'.(crc := crc, clen := clen, ulen := ulen);
  }

  /** What a zip header says, with an unknown method for encrypted data. */
  function ZipInfo(h: Zip, save: bool, info: Info, dos2time: nat -> int): Info {
    var i1 := info.(stamp := if save then dos2time(h.dos) else info.stamp, crc := h.crc, clen := h.clen, ulen := h.ulen,
                    name := if save then Some(h.name) else info.name);
    Blocks(h.extra, i1, save).(form := 2 + (h.flags / 8) % 2)
  }

  lemma ZipParts(h: Zip, tail: seq<Byte>)
    ensures ZipRest(h) + tail == [3, 4] + (Low2(h.version) + (Low2(h.flags) + (Low2(h.cm) +
      (Low4(h.dos) + (Low4(h.crc) + (Low4(h.clen) + (Low4(h.ulen) +
        (Low2(|h.name|) + (Low2(|h.extra|) + (h.name + (h.extra + tail)))))))))))
  {
    hide Low2, Low4;
    var a := h.name + (h.extra + tail);
    assert ZipRest(h) + tail == [3, 4] + (ZipFixed(h) + a);
    ZipFixedParts(h, a);
  }

  lemma ZipFixedParts(h: Zip, a: seq<Byte>)
    ensures ZipFixed(h) + a == Low2(h.version) + (Low2(h.flags) + (Low2(h.cm) +
      (Low4(h.dos) + (Low4(h.crc) + (Low4(h.clen) + (Low4(h.ulen) + (Low2(|h.name|) + (Low2(|h.extra|) + a))))))))
  {
    hide Low2, Low4;
    var s8 := Low2(|h.name|) + Low2(|h.extra|);
    var s7 := Low4(h.ulen) + s8;
    var s6 := Low4(h.clen) + s7;
    var s5 := Low4(h.crc) + s6;
    var s4 := Low4(h.dos) + s5;
    var s3 := Low2(h.cm) + s4;
    var s2 := Low2(h.flags) + s3;
    assert ZipFixed(h) + a == Low2(h.version) + (s2 + a);
    assert s2 + a == Low2(h.flags) + (s3 + a);
    assert s3 + a == Low2(h.cm) + (s4 + a);
    assert s4 + a == Low4(h.dos) + (s5 + a);
    assert s5 + a == Low4(h.crc) + (s6 + a);
    assert s6 + a == Low4(h.clen) + (s7 + a);
    assert s7 + a == Low4(h.ulen) + (s8 + a);
    assert s8 + a == Low2(|h.name|) + (Low2(|h.extra|) + a);
  }

  /** The signature, flags and method of a zip header. */
  method ReadZipStart(input: Input, ghost h: Zip, ghost rest: seq<Byte>) returns (error: int, cm: int, flags: nat)
    requires input.Valid()
    modifies input, input.in_buf
    ensures input.Valid() && error <= 0
    ensures old(input.Rest()) == [3, 4] + (Low2(h.version) + (Low2(h.flags) + (Low2(h.cm) + rest))) &&
            h.flags < 16 && h.cm < 65536 && !old(input.in_eof) ==>
      error == 0 && input.Rest() == rest && !input.in_eof && flags == h.flags &&
      cm == if h.flags % 2 == 1 then 255 else h.cm
  {
    hide Input.Rest, Low2;
    ghost var r2 := Low2(h.cm) + rest;
    ghost var r1 := Low2(h.flags) + r2;
    cm, flags := 0, 0;
    var b := input.Get();
    if b != 3 { return -3, cm, flags; }
    b := input.Get();
    if b != 4 { return -3, cm, flags; }
    var ok := input.Skip(2);
    if !ok { return -1, cm, flags; }
    assert (Low2(h.version) + r1)[2..] == r1;
    flags := Get2Of(input, h.flags, r2);
    if input.in_eof { return -3, cm, flags; }
    if flags >= 16 { return -4, cm, flags; }
    cm := Get2Of(input, h.cm, rest);
    if flags % 2 == 1 {
      cm := 255;
    }
    error := if input.in_eof then -3 else 0;
  }

  /** The name and the extra field of a zip header. */
  method ReadZipTexts(input: Input, fname: nat, extra: nat, save: bool, info: Info, ghost h: Zip, ghost tail: seq<Byte>)
    returns (error: int, info': Info)
    requires input.Valid()
    modifies input, input.in_buf
    ensures input.Valid() && error <= 0
    ensures old(input.Rest()) == h.name + (h.extra + tail) && fname == |h.name| && extra == |h.extra| && !old(input.in_eof) ==>
      error == 0 && input.Rest() == tail && !input.in_eof &&
      info' == Blocks(h.extra, info.(name := if save then Some(h.name) else info.name), save)
  {
    hide Input.Rest, Blocks;
    info' := info;
    assert (h.name + (h.extra + tail))[|h.name|..] == h.extra + tail;
    assert (h.name + (h.extra + tail))[..|h.name|] == h.name;
    assert (h.extra + tail)[..|h.extra|] == h.extra && (h.extra + tail)[|h.extra|..] == tail;
    if save {
      var ok, s := ReadName(input, fname);
      if !ok { return -3, info'; }
      info' := info'.(name := Some(s));
    } else {
      var ok := input.Skip(fname);
      if !ok { return -1, info'; }
    }
    var ok;
    ok, info' := ReadExtra(input, extra, info', save);
    error := if input.in_eof then -3 else 0;
  }

  /** The rest of `get_header` for zip. */
  method GetZip(input: Input, save: bool, info: Info, dos2time: nat -> int, ghost h: Zip, ghost tail: seq<Byte>)
    returns (cm: int, info': Info)
    requires input.Valid()
    modifies input, input.in_buf
    ensures input.Valid()
    ensures old(input.Rest()) == ZipRest(h) + tail && ZipOk(h) && !old(input.in_eof) ==>
      cm == (if h.flags % 2 == 1 then 255 else h.cm) && input.Rest() == tail && !input.in_eof &&
      info' == ZipInfo(h, save, info, dos2time)
  {
    hide Input.Rest, ZipRest, Low2, Low4, Blocks;
    ghost var r2 := h.name + (h.extra + tail);
    ghost var r1 := Low4(h.dos) + (Low4(h.crc) + (Low4(h.clen) + (Low4(h.ulen) +
      (Low2(|h.name|) + (Low2(|h.extra|) + r2)))));
    ZipParts(h, tail);
    info' := info;
    var error, flags;
    error, cm, flags := ReadZipStart(input, h, r1);
    if error < 0 { return error, info'; }
    var ok, fname, extra;
    ok, info', fname, extra := ReadZipNumbers(input, save, info, dos2time, h, r2);
    if !ok { return -1, info'; }
    error, info' := ReadZipTexts(input, fname, extra, save, info', h, tail);
    if error < 0 { return error, info'; }
    info' := info'.(form := 2 + (flags / 8) % 2);
  }

  // ---- All forms ----

  predicate KnownMagic(a: Byte, b: Byte) {
    var m := 256 * (a as int) + b as int;
    m % 31 == 0 || m == 0x1f9d || m == 0x504b || m == 0x1f8b
  }

  /** `get_header`: every gzip and zip header in its format is read to its end
      and yields what it says, wherever the buffer boundaries fall; for the
      other streams the first bytes decide, and of an unknown one the second
      byte is given back. */
  method GetHeader(input: Input, save: bool, info: Info, dos2time: nat -> int,
                   ghost g: Gzip, ghost z: Zip, ghost tail: seq<Byte>)
    returns (cm: int, info': Info)
    requires input.Valid() && !input.in_eof
    modifies input, input.in_buf
    ensures input.Valid()
    ensures var r := old(input.Rest());
            var i0 := if save then info.(form := 0, stamp := 0, name := None) else info.(form := 0);
            (r == [] ==> cm == -1) && (|r| == 1 ==> cm == -2) &&
            (|r| >= 2 && ZlibBytes(r[..2]) ==> cm == r[0] % 16 && input.Rest() == r[2..] && info' == i0.(form := 1)) &&
            (|r| >= 2 && r[0] == 0x1f && r[1] == 0x9d ==> cm == 256 && input.Rest() == r[2..]) &&
            (|r| >= 2 && !KnownMagic(r[0], r[1]) ==> cm == -2 && input.Rest() == r[1..]) &&
            (r == GzipBytes(g) + tail && GzipOk(g) ==>
              cm == g.cm && input.Rest() == tail && !input.in_eof && info' == GzipInfo(g, save, i0)) &&
            (r == ZipBytes(z) + tail && ZipOk(z) ==>
              cm == (if z.flags % 2 == 1 then 255 else z.cm) && input.Rest() == tail && !input.in_eof &&
              info' == ZipInfo(z, save, i0, dos2time))
  {
    hide Input.Rest, GzipRest, ZipRest, GzipOk, ZipOk, GzipInfo, ZipInfo;
    info' := if save then info.(form := 0, stamp := 0, name := None) else info.(form := 0);
    MagicThenRest(g, z, tail);
    var magic1 := input.Get();
    if input.in_eof {
      return -1, info';
    }
    var magic2 := input.Get();
    if input.in_eof {
      return -2, info';
    }
    var magic := 256 * magic1 + magic2;
    if magic % 31 == 0 {
      return magic1 % 16, info'.(form := 1);
    }
    if magic == 0x1f9d {
      return 256, info';
    }
    if magic == 0x504b {
      cm, info' := GetZip(input, save, info', dos2time, z, tail);
      return;
    }
    if magic != 0x1f8b {
      input.Unget();
      return -2, info';
    }
    cm, info' := GetGzip(input, save, info', g, tail);
  }

  lemma MagicThenRest(g: Gzip, z: Zip, tail: seq<Byte>)
    ensures var r := GzipBytes(g) + tail; |r| >= 2 && r[0] == 31 && r[1] == 139 && r[2..] == GzipRest(g) + tail
    ensures var r := ZipBytes(z) + tail; |r| >= 2 && r[0] == 0x50 && r[1] == 0x4b && r[2..] == ZipRest(z) + tail
  {
    hide GzipRest, ZipRest;
  }
}
