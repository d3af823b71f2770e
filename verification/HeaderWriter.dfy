/** `put_header` of `examples/pgz.c`, and reading back what it writes. */
module HeaderWriter {
  import opened Basics
  import opened Streams
  import opened Headers
  import opened HeaderReader

  // ---- What is to be written ----

  const NONAME: seq<Byte> := [0x2d]

  /** The gzip header for a file. */
  function GzipOf(name: Option<seq<Byte>>, mtime: int, level: int): Gzip {
    Gzip(8, false, mtime % TWO32, if level == 9 then 2 else if level == 1 then 4 else 0, 3, None, name, None, None)
  }

  /** The extended timestamp that is the extra field of a zip header. */
  function Stamp(mtime: int): seq<Byte> {
    Low2(0x5455) + Low2(5) + [1] + Low4(mtime % TWO32)
  }

  function ZipName(name: Option<seq<Byte>>): seq<Byte> {
    if name.Some? then name.value else NONAME
  }

  function ZipOf(name: Option<seq<Byte>>, mtime: int, dos: nat): Zip {
    Zip(20, 8, 8, dos, 0, 0, 0, ZipName(name), Stamp(mtime))
  }

  /** The compression level as section 2.2 of RFC 1950 codes it. */
  function ZlibLevel(level: int): nat {
    if level == 9 then 3 else if level == 1 then 0 else if level >= 6 || level == -1 then 1 else 2
  }

  // ---- Writing ----

  function GzipHead(named: bool, mtime: int, level: int): seq<Byte> {
    [31, 139, 8, if named then 8 else 0] + Low4(mtime % TWO32) + [if level == 9 then 2 else if level == 1 then 4 else 0, 3]
  }

  method PutGzipHead(head: array<Byte>, named: bool, mtime: int, level: int)
    requires head.Length >= 10
    modifies head
    ensures head[..10] == GzipHead(named, mtime, level)
  {
    hide Low4;
    head[0] := 31;
    head[1] := 139;
    head[2] := 8;
    head[3] := if named then 8 else 0;
    Add4(head, 4, mtime % TWO32);
    assert head[..4] == [31, 139, 8, if named then 8 else 0];
    head[8] := if level == 9 then 2 else if level == 1 then 4 else 0;
    head[9] := 3;
    assert head[..10] == head[..8] + [head[8], head[9]];
  }

  lemma GzipHeadIs(name: Option<seq<Byte>>, mtime: int, level: int)
    ensures GzipBytes(GzipOf(name, mtime, level)) == GzipHead(name.Some?, mtime, level) + Text(name)
  {
    hide Low4;
  }

  /** The name is written with its terminating zero. */
  method PutGzip(out: seq<Byte>, name: Option<seq<Byte>>, mtime: int, level: int) returns (out': seq<Byte>, len: nat)
    ensures out' == out + GzipBytes(GzipOf(name, mtime, level)) && len == |out'| - |out|
  {
    hide GzipHead, GzipBytes;
    var head := new Byte[30](_ => 0);
    PutGzipHead(head, name.Some?, mtime, level);
    GzipHeadIs(name, mtime, level);
    out' := out + head[..10];
    len := 10;
    if name.Some? {
      out' := out' + (name.value + [0]);
      len := len + |name.value| + 1;
    }
  }

  method PutZlib(out: seq<Byte>, level: int) returns (out': seq<Byte>, len: nat)
    ensures len == 2 && |out'| == |out| + 2 && out'[..|out|] == out
    ensures ZlibBytes(out'[|out|..]) && out'[|out|] == 0x78 && out'[|out| + 1] / 64 == ZlibLevel(level)
  {
    var flg := 64 * ZlibLevel(level);
    flg := flg + 31 - (256 * 0x78 + flg) % 31;
    out' := out + [0x78, flg];
    len := 2;
  }

  /** Integers put one behind the other. */
  method Add2(a: array<Byte>, at: nat, x: nat)
    requires at + 2 <= a.Length
    modifies a
    ensures a[..at + 2] == old(a[..at]) + Low2(x)
  {
    hide Low2;
    Put2L(a, at, x);
  }

  method Add4(a: array<Byte>, at: nat, x: nat)
    requires at + 4 <= a.Length
    modifies a
    ensures a[..at + 4] == old(a[..at]) + Low4(x)
  {
    hide Low4;
    Put4L(a, at, x);
  }

  /** The fixed fields of a local header, in the order they are put. */
  function LocalHead(name: Option<seq<Byte>>, dos: nat): seq<Byte> {
    Low4(0x04034b50) + Low2(20) + Low2(8) + Low2(8) + Low4(dos) + Low4(0) + Low4(0) + Low4(0) +
    Low2(|ZipName(name)|) + Low2(9)
  }

  method PutLocalHead(head: array<Byte>, name: Option<seq<Byte>>, dos: nat)
    requires head.Length >= 30
    modifies head
    ensures head[..30] == LocalHead(name, dos)
  {
    hide Low2, Low4;
    assert head[..0] == [];
    Add4(head, 0, 0x04034b50);
    Add2(head, 4, 20);
    Add2(head, 6, 8);
    Add2(head, 8, 8);
    Add4(head, 10, dos);
    Add4(head, 14, 0);
    Add4(head, 18, 0);
    Add4(head, 22, 0);
    Add2(head, 26, |ZipName(name)|);
    Add2(head, 28, 9);
  }

  method PutStamp(head: array<Byte>, mtime: int)
    requires head.Length >= 9
    modifies head
    ensures head[..9] == Stamp(mtime)
  {
    hide Low2, Low4;
    assert head[..0] == [];
    Add2(head, 0, 0x5455);
    Add2(head, 2, 5);
    head[4] := 1;
    assert head[..5] == head[..4] + [1];
    Add4(head, 5, mtime % TWO32);
  }

  lemma LocalHeadIs(name: Option<seq<Byte>>, mtime: int, dos: nat)
    ensures ZipBytes(ZipOf(name, mtime, dos)) == LocalHead(name, dos) + ZipName(name) + Stamp(mtime)
  {
    hide Low2, Low4, Stamp, ZipFixed;
    var h := ZipOf(name, mtime, dos);
    LocalSignature();
    LocalRest(name, dos);
    assert ZipBytes(h) == [0x50, 0x4b, 3, 4] + ZipFixed(h) + h.name + h.extra;
  }

  lemma LocalSignature()
    ensures Low4(0x04034b50) == [0x50, 0x4b, 3, 4]
  {
  }

  lemma LocalRest(name: Option<seq<Byte>>, dos: nat)
    ensures forall mtime :: LocalHead(name, dos) == Low4(0x04034b50) + ZipFixed(ZipOf(name, mtime, dos))
  {
    hide Low2, Low4;
    var z := Low4(0);
    var n := Low2(|ZipName(name)|);
    var s8 := n + Low2(9);
    var s7 := z + s8;
    var s6 := z + s7;
    var s5 := z + s6;
    var s4 := Low4(dos) + s5;
    var s3 := Low2(8) + s4;
    var s2 := Low2(8) + s3;
    var p := Low4(0x04034b50);
    assert LocalHead(name, dos) == p + (Low2(20) + s2);
  }

  method PutZip(out: seq<Byte>, name: Option<seq<Byte>>, mtime: int, dos: nat) returns (out': seq<Byte>, len: nat)
    ensures out' == out + ZipBytes(ZipOf(name, mtime, dos)) && len == |out'| - |out|
  {
    hide Low2, Low4, LocalHead, Stamp, ZipBytes;
    var head := new Byte[30](_ => 0);
    PutLocalHead(head, name, dos);
    out' := out + head[..30];
    len := 30;
    out' := out' + ZipName(name);
    len := len + |ZipName(name)|;
    PutStamp(head, mtime);
    out' := out' + head[..9];
    len := len + 9;
    LocalHeadIs(name, mtime, dos);
  }

  datatype Form = GzipForm | ZlibForm | ZipForm

  /** `put_header`; the length it returns is that of what it writes. */
  method PutHeader(out: seq<Byte>, form: Form, name: Option<seq<Byte>>, mtime: int, level: int, dos: nat)
    returns (out': seq<Byte>, len: nat)
    ensures |out'| == |out| + len && out'[..|out|] == out
    ensures form == GzipForm ==> out'[|out|..] == GzipBytes(GzipOf(name, mtime, level))
    ensures form == ZlibForm ==>
              ZlibBytes(out'[|out|..]) && out'[|out|] == 0x78 &&
              out'[|out| + 1] / 64 ==
                if level == 9 then 3 else if level == 1 then 0 else if level >= 6 || level == -1 then 1 else 2
    ensures form == ZipForm ==> out'[|out|..] == ZipBytes(ZipOf(name, mtime, dos))
  {
    hide GzipBytes, ZipBytes, GzipOf, ZipOf;
    match form
    case GzipForm => out', len := PutGzip(out, name, mtime, level);
    case ZlibForm => out', len := PutZlib(out, level);
    case ZipForm => out', len := PutZip(out, name, mtime, dos);
  }

  // ---- Reading back ----

  lemma StampRead(mtime: int, info: Info)
    ensures |Stamp(mtime)| == 9
    ensures Blocks(Stamp(mtime), info, true) == info.(stamp := Signed(mtime % TWO32))
  {
    var e := Stamp(mtime);
    assert Low2(0x5455) == [0x55, 0x54] && Low2(5) == [5, 0];
    assert e[4..9] == [1] + Low4(mtime % TWO32);
    assert e[4..9][1..] == Low4(mtime % TWO32) + [];
    Pull4Low4(mtime % TWO32, []);
    assert Blocks(e[9..], info.(stamp := Signed(mtime % TWO32)), true) == info.(stamp := Signed(mtime % TWO32));
    assert Pull2(e) == 0x5455 && Pull2(e[2..]) == 5;
  }

  /** Read a header back, from its beginning. */
  method ReadBack(stream: seq<Byte>, dos2time: nat -> int, ghost g: Gzip, ghost z: Zip, ghost tail: seq<Byte>)
    returns (cm: int, info: Info, input: Input)
    ensures fresh(input) && fresh(input.in_buf) && input.Valid()
    ensures stream == GzipBytes(g) + tail && GzipOk(g) ==>
      cm == g.cm && input.Rest() == tail && info == GzipInfo(g, true, Info(0, 0, None, 0, 0, 0))
    ensures stream == ZipBytes(z) + tail && ZipOk(z) ==>
      cm == (if z.flags % 2 == 1 then 255 else z.cm) && input.Rest() == tail &&
      info == ZipInfo(z, true, Info(0, 0, None, 0, 0, 0), dos2time)
    ensures |stream| >= 2 && ZlibBytes(stream[..2]) ==>
      cm == stream[0] % 16 && input.Rest() == stream[2..] && info.form == 1
  {
    hide GzipBytes, ZipBytes, GzipInfo, ZipInfo, Input.Rest, GzipOk, ZipOk;
    input := new Input(stream);
    cm, info := GetHeader(input, true, Info(0, 0, None, 0, 0, 0), dos2time, g, z, tail);
  }

  /** Whatever header is written and whatever follows it, `get_header` finds the
      end of the header, the method and the form, the name (except for zlib, and
      "-" for a zip entry without one) and the time, reduced to a signed 32-bit
      number -- for zip if the name's length fits its 16-bit field. */
  method HeaderSurvives(form: Form, name: Option<seq<Byte>>, mtime: int, level: int, dos: nat,
                        tail: seq<Byte>, dos2time: nat -> int)
    returns (cm: int, info: Info, input: Input)
    requires name.Some? ==> NoZero(name.value)
    requires form == ZipForm ==> |ZipName(name)| < 65536 && dos < TWO32
    ensures fresh(input) && fresh(input.in_buf) && input.Valid() && input.Rest() == tail
    ensures cm == 8 && info.form == (match form case GzipForm => 0 case ZlibForm => 1 case ZipForm => 3)
    ensures form == GzipForm ==> info.name == name && info.stamp == Signed(mtime % TWO32)
    ensures form == ZipForm ==> info.name == Some(ZipName(name)) && info.stamp == Signed(mtime % TWO32)
    ensures form != ZlibForm ==>
              (info.stamp - mtime) % 0x1_0000_0000 == 0 && -0x8000_0000 <= info.stamp < 0x8000_0000
  {
    hide GzipBytes, ZipBytes, GzipOf, ZipOf, GzipInfo, ZipInfo, Input.Rest, GzipOk, ZipOk, NoZero;
    var out, len := PutHeader([], form, name, mtime, level, dos);
    assert out[0..] == out;
    SurvivesFacts(name, mtime, level, dos, Info(0, 0, None, 0, 0, 0), dos2time);
    SignedIs(mtime);
    assert form == ZlibForm ==> (out + tail)[..2] == out && (out + tail)[2..] == tail && (out + tail)[0] == 0x78;
    cm, info, input := ReadBack(out + tail, dos2time, GzipOf(name, mtime, level), ZipOf(name, mtime, dos), tail);
  }

  lemma SignedIs(mtime: int)
    ensures var t := Signed(mtime % TWO32);
            (t - mtime) % 0x1_0000_0000 == 0 && -0x8000_0000 <= t < 0x8000_0000
  {
  }

  lemma SurvivesFacts(name: Option<seq<Byte>>, mtime: int, level: int, dos: nat, info: Info, dos2time: nat -> int)
    requires name.Some? ==> NoZero(name.value)
    requires info == Info(0, 0, None, 0, 0, 0)
    ensures var g := GzipOf(name, mtime, level);
            GzipOk(g) && g.cm == 8 && GzipInfo(g, true, info) == Info(0, Signed(mtime % TWO32), name, 0, 0, 0)
    ensures var z := ZipOf(name, mtime, dos);
            (|ZipName(name)| < 65536 && dos < TWO32 ==> ZipOk(z)) && z.flags == 8 && z.cm == 8 &&
            (var i := ZipInfo(z, true, info, dos2time);
              i.form == 3 && i.name == Some(ZipName(name)) && i.stamp == Signed(mtime % TWO32))
  {
    hide Blocks, Stamp, Low2, Low4;
    var z := ZipOf(name, mtime, dos);
    StampRead(mtime, info.(stamp := dos2time(dos), crc := 0, clen := 0, ulen := 0, name := Some(z.name)));
  }
}
