/** Extra fields as a zip writer encodes them, section 4.5 of the PKWARE
    APPNOTE, and what module Headers makes of each. */
module ExtraFields {
  import opened Basics
  import opened Streams
  import opened Headers
  import opened HeaderReader

  /** An extra field: its number, its length and its data. */
  function Field(id: nat, data: seq<Byte>): seq<Byte> {
    Low2(id) + Low2(|data|) + data
  }

  lemma FieldThen(id: nat, data: seq<Byte>, e: seq<Byte>, info: Info, save: bool)
    requires id < 65536 && |data| < 65536
    ensures Blocks(Field(id, data) + e, info, save) == Blocks(e, Block(id, data, info, save), save)
  {
    hide Low2, Pull2, Block;
    var f := Field(id, data) + e;
    var t := Low2(|data|) + (data + e);
    assert f == Low2(id) + t;
    assert f[2..] == t && f[4..4 + |data|] == data && f[4 + |data|..] == e;
    Pull2Low2(id, t);
    Pull2Low2(|data|, data + e);
  }

  /** Zip64: of the two lengths, those that are all ones in the header are given
      here in 64 bits each, the uncompressed one first. The low halves replace
      them, and nothing else changes. */
  lemma LongLengths(u: nat, uhigh: nat, c: nat, chigh: nat, e: seq<Byte>, info: Info, save: bool)
    requires u < TWO32 && c < TWO32
    ensures var needs, needc := info.ulen == 0xffff_ffff, info.clen == 0xffff_ffff;
            var data := (if needs then Low4(u) + Low4(uhigh) else []) + (if needc then Low4(c) + Low4(chigh) else []);
            Blocks(Field(1, data) + e, info, save) ==
            Blocks(e, info.(ulen := if needs then u else info.ulen, clen := if needc then c else info.clen), save)
  {
    hide Low4, Pull4, Blocks, Field;
    var a, b := Low4(u) + Low4(uhigh), Low4(c) + Low4(chigh);
    var data := (if info.ulen == LOW32 then a else []) + (if info.clen == LOW32 then b else []);
    FieldThen(1, data, e, info, save);
    Pull4Low4(u, Low4(uhigh));
    Pull4Low4(c, Low4(chigh));
    Pull4Low4(u, Low4(uhigh) + b);
    assert a + b == Low4(u) + (Low4(uhigh) + b) && (a + b)[8..] == b;
    assert a + [] == a && [] + b == b && a == Low4(u) + Low4(uhigh) && b == Low4(c) + Low4(chigh);
  }

  /** The two older Unix fields: access time, then modification time, which is
      taken if wanted; the rest does not matter. */
  lemma UnixTimes(id: nat, access: nat, mtime: nat, more: seq<Byte>, e: seq<Byte>, info: Info, save: bool)
    requires (id == 0x000d || id == 0x5855) && |more| < 65528 && mtime < TWO32
    ensures Blocks(Field(id, Low4(access) + Low4(mtime) + more) + e, info, save) ==
            Blocks(e, if save then info.(stamp := Signed(mtime)) else info, save)
  {
    hide Low4, Pull4, Blocks, Field;
    var data := Low4(access) + Low4(mtime) + more;
    FieldThen(id, data, e, info, save);
    assert data[4..] == Low4(mtime) + more;
    Pull4Low4(mtime, more);
  }

  /** The extended timestamp: its modification time is taken if wanted and if bit 0
      of the first byte says that it is there. */
  lemma Timestamp(flags: Byte, mtime: nat, more: seq<Byte>, e: seq<Byte>, info: Info, save: bool)
    requires |more| < 65531 && mtime < TWO32
    ensures Blocks(Field(0x5455, [flags] + Low4(mtime) + more) + e, info, save) ==
            Blocks(e, if save && flags % 2 == 1 then info.(stamp := Signed(mtime)) else info, save)
  {
    hide Low4, Pull4, Blocks, Field;
    var data := [flags] + Low4(mtime) + more;
    FieldThen(0x5455, data, e, info, save);
    assert data[1..] == Low4(mtime) + more;
    Pull4Low4(mtime, more);
  }

  /** Any other field is passed over. */
  lemma OtherField(id: nat, data: seq<Byte>, e: seq<Byte>, info: Info, save: bool)
    requires id < 65536 && |data| < 65536 && id !in {0x0001, 0x000d, 0x5455, 0x5855}
    ensures Blocks(Field(id, data) + e, info, save) == Blocks(e, info, save)
  {
    hide Blocks, Field;
    FieldThen(id, data, e, info, save);
  }

  /** A field that is longer than what is left ends the fields. */
  lemma NoMoreFields(id: nat, size: nat, e: seq<Byte>, info: Info, save: bool)
    requires id < 65536 && |e| < size < 65536
    ensures Blocks(Low2(id) + Low2(size) + e, info, save) == info
  {
    hide Low2, Pull2;
    var f := Low2(id) + Low2(size) + e;
    assert f == Low2(id) + (Low2(size) + e) && f[2..] == Low2(size) + e;
    Pull2Low2(id, Low2(size) + e);
    Pull2Low2(size, e);
  }

  /** What a zip header without extra fields says, and a gzip header. */
  lemma PlainHeaders(z: Zip, g: Gzip, save: bool, info: Info, dos2time: nat -> int)
    requires z.extra == []
    ensures var i := ZipInfo(z, save, info, dos2time);
            i.crc == z.crc && i.clen == z.clen && i.ulen == z.ulen &&
            i.form == (if z.flags % 16 >= 8 then 3 else 2) &&
            i.name == (if save then Some(z.name) else info.name) &&
            i.stamp == if save then dos2time(z.dos) else info.stamp
    ensures var i := GzipInfo(g, save, info);
            i.name == (if save && g.name.Some? then g.name else info.name) &&
            i.stamp == (if save then Signed(g.mtime) else info.stamp) && i.form == info.form
  {
  }
}
