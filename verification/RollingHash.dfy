/** The rolling hash that places block boundaries for rsync, `examples/pgz.c`. */
module RollingHash {
  import opened Basics

  const RSYNCBITS := 12
  const RSYNCMASK: bv32 := 0xfff
  const RSYNCHIT: bv32 := 0x7ff

  function Step(hash: bv32, b: bv8): bv32 {
    ((hash << 1) ^ (b as bv32)) & RSYNCMASK
  }

  function Fold(hash: bv32, data: seq<bv8>): bv32
    decreases |data|
  {
    if data == [] then hash else Fold(Step(hash, data[0]), data[1..])
  }

  /** The hash after the first `p` bytes of the input. */
  function HashAt(input: seq<bv8>, p: nat): bv32
    requires p <= |input|
  {
    Fold(RSYNCHIT, input[..p])
  }

  /** A block ends after byte `p`. */
  predicate Hit(input: seq<bv8>, p: nat)
    requires p <= |input|
  {
    HashAt(input, p) == RSYNCHIT
  }

  lemma {:induction false} FoldAppend(hash: bv32, a: seq<bv8>, b: seq<bv8>)
    ensures Fold(hash, a + b) == Fold(Fold(hash, a), b)
    decreases |a|
  {
    hide Step;
    if a == [] {
      assert a + b == b;
    } else {
      assert (a + b)[1..] == a[1..] + b;
      FoldAppend(Step(hash, a[0]), a[1..], b);
    }
  }

  lemma HashNext(input: seq<bv8>, p: nat)
    requires p < |input|
    ensures HashAt(input, p + 1) == Step(HashAt(input, p), input[p])
  {
    hide Step;
    assert input[..p + 1] == input[..p] + [input[p]];
    FoldAppend(RSYNCHIT, input[..p], [input[p]]);
    assert Fold(HashAt(input, p), [input[p]]) == Fold(Step(HashAt(input, p), input[p]), []);
  }

  // ---- Forgetting ----

  /** How a difference between two hashes moves in one step. */
  function Drop(d: bv32): bv32 { (d << 1) & RSYNCMASK }

  function Drift(d: bv32, n: nat): bv32
    decreases n
  {
    if n == 0 then d else Drift(Drop(d), n - 1)
  }

  lemma StepDrift(h: bv32, g: bv32, b: bv8)
    ensures Xor(Step(h, b), Step(g, b)) == Drop(Xor(h, g))
  {
  }

  lemma {:induction false} FoldDrift(h: bv32, g: bv32, data: seq<bv8>)
    ensures Xor(Fold(h, data), Fold(g, data)) == Drift(Xor(h, g), |data|)
    decreases |data|
  {
    hide Step, Xor, Drop;
    if data != [] {
      StepDrift(h, g, data[0]);
      FoldDrift(Step(h, data[0]), Step(g, data[0]), data[1..]);
    }
  }

  lemma FourDrops(d: bv32)
    ensures Drop(Drop(Drop(Drop(d)))) == (d << 4) & RSYNCMASK
  {
  }

  lemma DriftFour(d: bv32, n: nat)
    requires n >= 4
    ensures Drift(d, n) == Drift(Drop(Drop(Drop(Drop(d)))), n - 4)
  {
    hide Drop;
    var d1 := Drop(d);
    var d2 := Drop(d1);
    var d3 := Drop(d2);
    assert Drift(d, n) == Drift(d1, n - 1) == Drift(d2, n - 2) == Drift(d3, n - 3);
  }

  lemma AllDropped(d: bv32)
    ensures (((((d << 4) & RSYNCMASK) << 4) & RSYNCMASK) << 4) & RSYNCMASK == 0
  {
  }

  lemma DriftGone(d: bv32)
    ensures Drift(d, RSYNCBITS) == 0
  {
    hide Drop;
    var e := (d << 4) & RSYNCMASK;
    var f := (e << 4) & RSYNCMASK;
    DriftFour(d, 12);
    FourDrops(d);
    DriftFour(e, 8);
    FourDrops(e);
    DriftFour(f, 4);
    FourDrops(f);
    AllDropped(d);
  }

  lemma XorZero(x: bv32, y: bv32)
    requires Xor(x, y) == 0
    ensures x == y
  {
  }

  /** After the last twelve bytes the hash has forgotten everything before
      them, whatever it was. */
  lemma Forgets(h: bv32, g: bv32, data: seq<bv8>)
    requires |data| >= RSYNCBITS
    ensures Fold(h, data) == Fold(g, data)
  {
    hide Step, Xor, Drop;
    var skip := |data| - RSYNCBITS;
    var last := data[skip..];
    assert data == data[..skip] + last;
    FoldAppend(h, data[..skip], last);
    FoldAppend(g, data[..skip], last);
    var h', g' := Fold(h, data[..skip]), Fold(g, data[..skip]);
    FoldDrift(h', g', last);
    DriftGone(Xor(h', g'));
    XorZero(Fold(h', last), Fold(g', last));
  }

  /** Two inputs that share a run of twelve or more bytes, at whatever
      offsets, agree on every hit from the twelfth shared byte to its end. */
  lemma Resynchronises(x: seq<bv8>, y: seq<bv8>, i: nat, j: nat, n: nat)
    requires RSYNCBITS <= n && i + n <= |x| && j + n <= |y|
    requires x[i..i + n] == y[j..j + n]
    ensures Hit(x, i + n) == Hit(y, j + n)
  {
    hide Step, Fold;
    assert x[..i + n] == x[..i] + x[i..i + n];
    assert y[..j + n] == y[..j] + y[j..j + n];
    FoldAppend(RSYNCHIT, x[..i], x[i..i + n]);
    FoldAppend(RSYNCHIT, y[..j], y[j..j + n]);
    Forgets(Fold(RSYNCHIT, x[..i]), Fold(RSYNCHIT, y[..j]), x[i..i + n]);
  }

  // ---- The hash spelled out ----

  /** Four bytes, each shifted once for every byte behind it. */
  function Quad(a: bv8, b: bv8, c: bv8, d: bv8): bv32 {
    ((a as bv32) << 3) ^ ((b as bv32) << 2) ^ ((c as bv32) << 1) ^ (d as bv32)
  }

  /** The hash behind four bytes. */
  function Four(h: bv32, q: bv32): bv32 { ((h << 4) ^ q) & 0xfff }

  lemma FourSteps(h: bv32, a: bv8, b: bv8, c: bv8, d: bv8)
    ensures Step(Step(Step(Step(h, a), b), c), d) == Four(h, Quad(a, b, c, d))
  {
  }

  lemma FoldFour(h: bv32, s: seq<bv8>)
    requires |s| >= 4
    ensures Fold(h, s) == Fold(Four(h, Quad(s[0], s[1], s[2], s[3])), s[4..])
  {
    hide Step, Quad, Four;
    var h1 := Step(h, s[0]);
    var h2 := Step(h1, s[1]);
    var h3 := Step(h2, s[2]);
    FourSteps(h, s[0], s[1], s[2], s[3]);
    assert s[1..][1..] == s[2..] && s[2..][1..] == s[3..] && s[3..][1..] == s[4..];
    assert Fold(h, s) == Fold(h1, s[1..]) == Fold(h2, s[2..]) == Fold(h3, s[3..]);
  }

  /** Three times four bytes: their low twelve bits. */
  function Twelve(q: bv32, r: bv32, t: bv32): bv32 { ((q << 8) ^ (r << 4) ^ t) & 0xfff }

  lemma Folded(h: bv32, q: bv32, r: bv32, t: bv32)
    ensures Four(Four(Four(h, q), r), t) == Twelve(q, r, t)
  {
  }

  /** A block ends after byte `p` exactly when the last twelve bytes, each shifted
      once for every byte behind it, combine to 0x7ff in their low twelve bits. */
  lemma HitIs(input: seq<bv8>, p: nat)
    requires 12 <= p <= |input|
    ensures var a := input[p - 12..p];
            Hit(input, p) <==>
            Twelve(Quad(a[0], a[1], a[2], a[3]), Quad(a[4], a[5], a[6], a[7]), Quad(a[8], a[9], a[10], a[11])) == 0x7ff
  {
    hide Step, Quad, Four, Twelve;
    var a := input[p - 12..p];
    assert input[..p] == input[..p - 12] + a;
    FoldAppend(RSYNCHIT, input[..p - 12], a);
    var h := Fold(RSYNCHIT, input[..p - 12]);
    var q, r, t := Quad(a[0], a[1], a[2], a[3]), Quad(a[4], a[5], a[6], a[7]), Quad(a[8], a[9], a[10], a[11]);
    FoldFour(h, a);
    FoldFour(Four(h, q), a[4..]);
    FoldFour(Four(Four(h, q), r), a[8..]);
    assert a[4..][4..] == a[8..] && a[8..][4..] == [];
    Folded(h, q, r, t);
  }

  // ---- Spacing ----

  lemma NoEarlyHit(b1: bv8, b2: bv8, b3: bv8, b4: bv8)
    ensures Step(RSYNCHIT, b1) != RSYNCHIT
    ensures Step(Step(RSYNCHIT, b1), b2) != RSYNCHIT
    ensures Step(Step(Step(RSYNCHIT, b1), b2), b3) != RSYNCHIT
    ensures Step(Step(Step(Step(RSYNCHIT, b1), b2), b3), b4) != RSYNCHIT
  {
  }

  /** Hits are at least five bytes apart; the start of the input counts as one. */
  lemma Spacing(input: seq<bv8>, p: nat, q: nat)
    requires p < q <= |input| && Hit(input, p) && Hit(input, q)
    ensures q >= p + RSYNCBITS - 7
  {
    hide Step, Fold;
    if q < p + 5 {
      HashNext(input, p);
      if p + 1 < q { HashNext(input, p + 1); }
      if p + 2 < q { HashNext(input, p + 2); }
      if p + 3 < q { HashNext(input, p + 3); }
      NoEarlyHit(input[p],
                 if p + 1 < q then input[p + 1] else 0,
                 if p + 2 < q then input[p + 2] else 0,
                 if p + 3 < q then input[p + 3] else 0);
    }
  }

  /** The bound five is reached. */
  lemma SpacingTight()
    ensures exists s: seq<bv8> :: |s| == 5 && Fold(RSYNCHIT, s) == RSYNCHIT
  {
    var s: seq<bv8> := [0x80, 0, 0, 0, 0x1f];
    assert Step(RSYNCHIT, s[0]) == 0xf7e;
  }

  /** The first hit is five bytes from the start, or later. */
  lemma HitAtStart(input: seq<bv8>, q: nat)
    requires 0 < q <= |input| && Hit(input, q)
    ensures Hit(input, 0) && q >= RSYNCBITS - 7
  {
    assert input[..0] == [];
    Spacing(input, 0, q);
  }
}
