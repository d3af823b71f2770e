/** Headers of gzip, zlib and zip streams as `put_header` writes them and as
    `get_header` reads them through the input buffer, `examples/pgz.c`. */
module Headers {
  import opened Basics
  import opened Streams

  const TWO32: nat := 0x1_0000_0000

  // ---- Integers ----

  /** `PUT2L` and `PUT4L`: the low byte first. */
  function Low2(x: nat): (s: seq<Byte>)
    ensures |s| == 2
  {
    [x % 256, (x / 256) % 256]
  }

  function Low4(x: nat): (s: seq<Byte>)
    ensures |s| == 4
  {
    Low2(x % 65536) + Low2(x / 65536)
  }

  lemma Pull2Low2(x: nat, t: seq<Byte>)
    ensures Pull2(Low2(x) + t) == x % 65536
  {
  }

  lemma Pull4Low4(x: nat, t: seq<Byte>)
    ensures Pull4(Low4(x) + t) == x % TWO32
  {
    var lo, hi := Low2(x % 65536), Low2(x / 65536);
    assert (Low4(x) + t)[2..] == hi + t;
    Pull2Low2(x / 65536, t);
    Pull2Low2(x % 65536, hi + t);
    assert Low4(x) + t == lo + (hi + t);
    HalvesOf(x);
  }

  lemma HalvesOf(x: nat)
    ensures x % 65536 + 65536 * ((x / 65536) % 65536) == x % TWO32
  {
  }

  /** `tolong`: a 32-bit value as signed. */
  function Signed(x: nat): int {
    if x < 0x8000_0000 then x else x - TWO32
  }

  method Put2L(a: array<Byte>, at: nat, x: nat)
    requires at + 2 <= a.Length
    modifies a
    ensures a[..] == old(a[..at]) + Low2(x) + old(a[at + 2..])
  {
    a[at] := x % 256;
    a[at + 1] := (x / 256) % 256;
  }

  method Put4L(a: array<Byte>, at: nat, x: nat)
    requires at + 4 <= a.Length
    modifies a
    ensures a[..] == old(a[..at]) + Low4(x) + old(a[at + 4..])
  {
    Put2L(a, at, x % 65536);
    Put2L(a, at + 2, x / 65536);
  }

  // ---- What headers look like ----

  /** A gzip header, section 2.3 of RFC 1952. */
  datatype Gzip = Gzip(cm: Byte, text: bool, mtime: nat, xfl: Byte, os: Byte,
                       extra: Option<seq<Byte>>, name: Option<seq<Byte>>, comment: Option<seq<Byte>>,
                       hcrc: Option<nat>)

  predicate NoZero(s: seq<Byte>) {
    forall i :: 0 <= i < |s| ==> s[i] != 0
  }

  predicate GzipOk(h: Gzip) {
    h.mtime < TWO32 && (h.extra.Some? ==> |h.extra.value| < 65536) &&
    (h.name.Some? ==> NoZero(h.name.value)) && (h.comment.Some? ==> NoZero(h.comment.value))
  }

  function Flag(b: bool, n: nat): nat { if b then n else 0 }

  function GzipFlags(h: Gzip): Byte {
    Flag(h.text, 1) + Flag(h.hcrc.Some?, 2) + Flag(h.extra.Some?, 4) + Flag(h.name.Some?, 8) + Flag(h.comment.Some?, 16)
  }

  function Text(s: Option<seq<Byte>>): seq<Byte> {
    if s.Some? then s.value + [0] else []
  }

  function ExtraField(s: Option<seq<Byte>>): seq<Byte> {
    if s.Some? then Low2(|s.value|) + s.value else []
  }

  function CheckField(c: Option<nat>): seq<Byte> {
    if c.Some? then Low2(c.value) else []
  }

  /** After the two magic bytes: the fixed fields, then those the flags announce. */
  function GzipFixed(h: Gzip): (s: seq<Byte>)
    ensures |s| == 8
  {
    [h.cm, GzipFlags(h)] + Low4(h.mtime) + [h.xfl, h.os]
  }

  function GzipRest(h: Gzip): seq<Byte> {
    GzipFixed(h) + (ExtraField(h.extra) + (Text(h.name) + (Text(h.comment) + CheckField(h.hcrc))))
  }

  function GzipBytes(h: Gzip): seq<Byte> {
    [31, 139] + GzipRest(h)
  }

  /** A zip local file header, section 4.3.7 of the PKWARE APPNOTE. */
  datatype Zip = Zip(version: nat, flags: nat, cm: nat, dos: nat, crc: nat, clen: nat, ulen: nat,
                     name: seq<Byte>, extra: seq<Byte>)

  predicate ZipOk(h: Zip) {
    h.flags < 16 && h.cm < 65536 && h.dos < TWO32 && h.crc < TWO32 && h.clen < TWO32 && h.ulen < TWO32 &&
    |h.name| < 65536 && |h.extra| < 65536
  }

  /** The fields between the signature and the name. */
  function ZipFixed(h: Zip): (s: seq<Byte>)
    ensures |s| == 26
  {
    Low2(h.version) + (Low2(h.flags) + (Low2(h.cm) + (Low4(h.dos) + (Low4(h.crc) + (Low4(h.clen) +
      (Low4(h.ulen) + (Low2(|h.name|) + Low2(|h.extra|))))))))
  }

  function ZipRest(h: Zip): seq<Byte> {
    [3, 4] + (ZipFixed(h) + (h.name + h.extra))
  }

  function ZipBytes(h: Zip): seq<Byte> {
    [0x50, 0x4b] + ZipRest(h)
  }

  /** A zlib header, section 2.2 of RFC 1950. */
  predicate ZlibBytes(s: seq<Byte>) {
    |s| == 2 && (256 * (s[0] as int) + s[1] as int) % 31 == 0
  }

  // ---- Extra fields of a zip header ----

  /** What `get_header` finds out. */
  datatype Info = Info(form: nat, stamp: int, name: Option<seq<Byte>>, crc: nat, clen: nat, ulen: nat)

  const LOW32: nat := 0xffff_ffff

  /** Zip64 lengths replace lengths of all ones, if there is room for them. */
  function Zip64(d: seq<Byte>, info: Info): Info {
    var i1 := if info.ulen == LOW32 && |d| >= 8 then info.(ulen := Pull4(d)) else info;
    var d1 := if info.ulen == LOW32 && |d| >= 8 then d[8..] else d;
    if info.clen == LOW32 && |d1| >= 8 then i1.(clen := Pull4(d1)) else i1
  }

  /** A Unix modification time in one of the known blocks. */
  function Stamped(id: nat, d: seq<Byte>, info: Info): Info {
    if (id == 0x000d || id == 0x5855) && |d| >= 8 then info.(stamp := Signed(Pull4(d[4..])))
    else if id == 0x5455 && |d| >= 5 && d[0] % 2 == 1 then info.(stamp := Signed(Pull4(d[1..])))
    else info
  }

  function Block(id: nat, d: seq<Byte>, info: Info, save: bool): Info {
    if id == 1 then Zip64(d, info) else if save then Stamped(id, d, info) else info
  }

  /** All blocks up to one that does not fit. */
  function Blocks(e: seq<Byte>, info: Info, save: bool): Info
    decreases |e|
  {
    if |e| < 4 then info
    else
      var id, size := Pull2(e), Pull2(e[2..]);
      if size > |e| - 4 then info
      else Blocks(e[4 + size..], Block(id, e[4..4 + size], info, save), save)
  }
}
