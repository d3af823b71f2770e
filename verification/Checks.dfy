/** The check value of a stream, in either of its kinds, and their combination
    (the `CHECK` and `COMB` macros of `examples/pgz.c`). */
module Checks {
  import Crc
  import Adler

  datatype Check = CrcValue(crc: bv32) | AdlerValue(adler: nat)

  /** Adler-32 for zlib streams, CRC-32 otherwise. */
  function CheckOf(zlib: bool, data: seq<bv8>): Check {
    if zlib then AdlerValue(Adler.Adler32(data)) else CrcValue(Crc.Crc32(data))
  }

  function Combine(a: Check, b: Check, len: nat): Check {
    match (a, b)
    case (CrcValue(x), CrcValue(y)) => CrcValue(Crc.Comb(x, y, len))
    case (AdlerValue(x), AdlerValue(y)) => AdlerValue(Adler.Comb(x, y, len))
    case _ => a
  }

  lemma CombineConcat(zlib: bool, a: seq<bv8>, b: seq<bv8>)
    ensures Combine(CheckOf(zlib, a), CheckOf(zlib, b), |b|) == CheckOf(zlib, a + b)
  {
    hide Crc.Comb, Crc.Crc32, Adler.Comb, Adler.Adler32;
    if zlib {
      Adler.CombWords(a, b);
    } else {
      Crc.CombConcat(a, b);
    }
  }

  /** The check value of a stream, from its bytes. */
  lemma CheckIs(zlib: bool, data: seq<bv8>)
    ensures CheckOf(zlib, data) ==
      if zlib then AdlerValue(65536 * (Adler.RunningSums(data) % 65521) + (1 + Adler.ByteSum(data)) % 65521)
      else CrcValue(Crc.TableCrc(data))
  {
    hide Adler.Adler32, Crc.Crc32;
    Adler.AdlerIs(data);
    Crc.CrcIs(data);
  }
}
