/** internal/chunk/chunk.go: the content-defined chunker.

    `Chunks` is the simple recursive definition, "first cut, then the rest", over the
    whole byte sequence. `StreamChunks` is the streaming loop with its refill buffer and
    carry. The gear table is a parameter: every result holds for every table. */
module Chunker {
  import opened Base

  const DEFAULT_AVG := 64 * 1024
  const DEFAULT_MIN := 16 * 1024
  const DEFAULT_MAX := 256 * 1024

  type GearTable = g: seq<uint32> | |g| == 256 witness seq(256, i => 0)

  datatype Options = Options(avg: uint32, min: uint32, max: uint32)

  function Normalized(o: Options): Options {
    var avg := if o.avg == 0 then DEFAULT_AVG else o.avg;
    var min := if o.min == 0 then DEFAULT_MIN else o.min;
    var max := if o.max == 0 then DEFAULT_MAX else o.max;
    var min' := if min > avg then (if avg / 4 < 1024 then 1024 else avg / 4) else min;
    var max' := if max < avg then U32(avg * 4) else max;
    Options(avg, min', max')
  }

  /** The engine and the relay set only the average. Then 0 < min < max exactly for the
      averages named here, and the buffer is empty (so that streamChunks spins without
      reading) exactly at the non-zero multiples of 2^30. */
  lemma NormalizedFromAverage(avg: uint32)
    ensures var n := Normalized(Options(avg, 0, 0));
            && 0 < n.min
            && (n.min < n.max <==> avg < 0x4000_0000 || avg % 0x4000_0000 > 4096)
            && (n.max == 0 <==> avg >= 0x4000_0000 && avg % 0x4000_0000 == 0)
            && n.avg == (if avg == 0 then 65536 else avg)
            && n.min == (if avg == 0 || avg >= 16384 then 16384 else if avg < 4096 then 1024 else avg / 4)
            && (avg <= DEFAULT_MAX ==> n.max == 262144)
            && (DEFAULT_MAX < avg < 0x4000_0000 ==> n.max == 4 * avg)
  {
    if avg >= 0x4000_0000 {
      assert U32(avg * 4) == 4 * (avg % 0x4000_0000);
    }
  }

  /** For arbitrary options: when exactly the normalised maximum is zero. */
  lemma ZeroBufferIff(o: Options)
    ensures var avg := if o.avg == 0 then DEFAULT_AVG else o.avg;
            var max := if o.max == 0 then DEFAULT_MAX else o.max;
            Normalized(o).max == 0 <==> max < avg && avg % 0x4000_0000 == 0
  {
    var avg: int := if o.avg == 0 then DEFAULT_AVG else o.avg;
    assert U32(avg * 4) == 4 * (avg % 0x4000_0000);
  }

  /** Sizes that are given and in order are kept, a given average always is, and the minimum is
      never zero. */
  lemma NormalizedKeeps(o: Options)
    ensures 0 < o.min <= o.avg <= o.max ==> Normalized(o) == o
    ensures 0 < Normalized(o).min && Normalized(o).avg == if o.avg == 0 then 65536 else o.avg
  {}

  // ---------------------------------------------------------------- masks

  function Pow2(b: nat): nat { if b == 0 then 1 else 2 * Pow2(b - 1) }

  lemma Pow2Values()
    ensures Pow2(8) == 256 && Pow2(31) == 0x8000_0000 && Pow2(32) == TWO32
  {
    assert Pow2(8) == 256;
    assert Pow2(16) == 256 * 256;
    assert Pow2(24) == 256 * 256 * 256;
  }

  /** Bitwise and. */
  function And(x: nat, y: nat): nat {
    if x == 0 || y == 0 then 0
    else (if x % 2 == 1 && y % 2 == 1 then 1 else 0) + 2 * And(x / 2, y / 2)
  }

  function Log2(n: nat): nat { if n <= 1 then 0 else 1 + Log2(n / 2) }

  lemma {:induction false} Log2Brackets(n: nat)
    requires 1 <= n
    ensures Pow2(Log2(n)) <= n < Pow2(Log2(n) + 1)
  {
    if n > 1 { Log2Brackets(n / 2); }
  }

  lemma {:induction false} Log2AtLeast(b: nat, n: nat)
    requires Pow2(b) <= n
    ensures b <= Log2(n)
  {
    if b > 0 {
      Pow2Positive(b - 1);
      Log2AtLeast(b - 1, n / 2);
    }
  }

  lemma {:induction false} Log2Below(b: nat, n: nat)
    requires n < Pow2(b)
    ensures b == 0 || Log2(n) < b
  {
    if b > 0 && n > 1 { Log2Below(b - 1, n / 2); }
  }

  lemma {:induction false} Pow2Positive(b: nat)
    ensures 0 < Pow2(b)
  {
    if b > 0 { Pow2Positive(b - 1); }
  }

  lemma {:induction false} Pow2Monotone(a: nat, b: nat)
    requires a <= b
    ensures 0 < Pow2(a) <= Pow2(b)
    decreases b
  {
    Pow2Positive(a);
    if a < b { Pow2Monotone(a, b - 1); }
  }

  lemma Pow2Below32(b: nat)
    requires b < 32
    ensures 0 < Pow2(b) < TWO32
  {
    Pow2Values();
    Pow2Monotone(b, 31);
  }

  /** How many low bits the mask has. */
  function MaskBits(avg: uint32): nat { if Log2(avg) < 8 then 8 else Log2(avg) }

  /** The mask has as many bits as the highest power of two not above avg, at least 8. */
  lemma MaskBitsBracket(avg: uint32)
    ensures 8 <= MaskBits(avg) < 32
    ensures if avg < 256 then MaskBits(avg) == 8
            else Pow2(MaskBits(avg)) <= avg < Pow2(MaskBits(avg) + 1)
  {
    Pow2Values();
    Log2Below(32, avg);
    if avg >= 256 {
      Log2Brackets(avg);
      Log2AtLeast(8, avg);
    } else {
      Log2Below(8, avg);
    }
  }

  function MaskOf(avg: uint32): uint32 {
    MaskBitsBracket(avg);
    Pow2Below32(MaskBits(avg));
    Pow2(MaskBits(avg)) - 1
  }

  method MaskForAvg(avg0: uint32) returns (mask: uint32)
    ensures mask == MaskOf(avg0)
  {
    var avg: nat := avg0;
    var count: nat := 0;
    while avg > 1
      invariant count + Log2(avg) == Log2(avg0)
    {
      avg := avg / 2;
      count := count + 1;
    }
    if count < 8 { count := 8; }
    MaskBitsBracket(avg0);
    Pow2Below32(count);
    mask := U32(Pow2(count)) - 1; // 1 << bits
  }

  // ---------------------------------------------------------------- cut points

  /** One step of the 32-bit wrapping hash: shift left by one and add. */
  function GearStep(h: uint32, b: byte, gear: GearTable): uint32 {
    U32(2 * h + gear[b as int])
  }

  function GearHash(s: Bytes, gear: GearTable): uint32 {
    if s == [] then 0 else GearStep(GearHash(s[..|s| - 1], gear), s[|s| - 1], gear)
  }

  /** The cut test on the bytes hashed so far. */
  function GearTest(mask: uint32, gear: GearTable): Bytes -> bool {
    s => And(GearHash(s, gear), mask) == 0
  }

  /** The parameters of one chunking: normalised sizes and the cut test. What follows up to
      `Chunks` holds for every cut test; `ParamsOf` is the one the program uses. */
  datatype Params = Params(min: uint32, max: uint32, test: Bytes -> bool)

  function ParamsOf(o: Options, gear: GearTable): Params {
    var n := Normalized(o);
    Params(n.min, n.max, GearTest(MaskOf(n.avg), gear))
  }

  /** The cut test at position i, on the bytes after the first min. */
  predicate Hit(p: Params, d: Bytes, i: nat)
    requires p.min <= i < |d|
  {
    p.test(d[p.min..i + 1])
  }

  /** One more than the first position in [i, n) that passes the cut test, or 0. */
  function FirstHit(p: Params, d: Bytes, i: nat, n: nat): (r: nat)
    requires p.min <= i && n <= |d|
    ensures r == 0 || i < r <= n
    decreases n - i
  {
    if i >= n then 0 else if Hit(p, d, i) then i + 1 else FirstHit(p, d, i + 1, n)
  }

  /** FirstHit is the first: it hits, and nothing before it does. */
  lemma {:induction false} FirstHitIsFirst(p: Params, d: Bytes, i: nat, n: nat)
    requires p.min <= i && n <= |d|
    ensures var r := FirstHit(p, d, i, n);
            && (r != 0 ==> Hit(p, d, r - 1))
            && forall k :: i <= k < (if r == 0 then n else r - 1) ==> !Hit(p, d, k)
    decreases n - i
  {
    if i < n && !Hit(p, d, i) { FirstHitIsFirst(p, d, i + 1, n); }
  }

  /** What findCut returns: a position in (min, max], or 0 when data holds no cut. */
  function Cut(p: Params, d: Bytes): (c: nat)
    ensures |d| < TWO32 ==> c <= |d| && c <= p.max
  {
    if U32(|d|) <= p.min then 0
    else
      var n := if U32(|d|) > p.max then p.max else |d|;
      var c := FirstHit(p, d, p.min, n);
      if c != 0 then c else if U32(|d|) >= p.max then p.max else 0
  }

  /** c is where findCut cuts d: at the first position that hits, or at max, or nowhere. */
  ghost predicate CutsFirst(p: Params, d: Bytes, c: nat)
    requires p.min < p.max
  {
    if c == 0 then
      |d| <= p.min || (|d| < p.max && forall k :: p.min <= k < |d| ==> !Hit(p, d, k))
    else
      && p.min < c <= |d| && c <= p.max && (c == p.max || Hit(p, d, c - 1))
      && forall k :: p.min <= k < c - 1 ==> !Hit(p, d, k)
  }

  lemma CutIsFirst(p: Params, d: Bytes)
    requires p.min < p.max && |d| < TWO32
    ensures CutsFirst(p, d, Cut(p, d))
  {
    if p.min < |d| { FirstHitIsFirst(p, d, p.min, if |d| > p.max then p.max else |d|); }
    hide FirstHit, Hit;
  }

  lemma GearHashExtend(d: Bytes, lo: nat, i: nat, gear: GearTable)
    requires lo <= i < |d|
    ensures GearHash(d[lo..i + 1], gear) == GearStep(GearHash(d[lo..i], gear), d[i], gear)
  {
    assert d[lo..i + 1][..i - lo] == d[lo..i];
  }

  /** The hash loop of findCut over positions [min, n). */
  method ScanForCut(d: Bytes, n: nat, p: Params, mask: uint32, gear: GearTable) returns (c: nat)
    requires n <= |d| && p.test == GearTest(mask, gear)
    ensures c == FirstHit(p, d, p.min, n)
  {
    var hash: uint32 := 0;
    var i: nat := p.min;
    while i < n
      invariant p.min <= i
      invariant i <= n ==> hash == GearHash(d[p.min..i], gear)
      invariant FirstHit(p, d, p.min, n) == FirstHit(p, d, i, n)
    {
      GearHashExtend(d, p.min, i, gear);
      hash := GearStep(hash, d[i], gear);
      assert hash == GearHash(d[p.min..i + 1], gear);
      var hit := And(hash, mask) == 0;
      assert hit == Hit(p, d, i);
      if hit { return i + 1; }
      i := i + 1;
    }
    return 0;
  }

  method FindCut(d: Bytes, p: Params, mask: uint32, gear: GearTable) returns (c: nat)
    requires p.test == GearTest(mask, gear)
    ensures c == Cut(p, d)
    ensures p.min < p.max && |d| < TWO32 ==> CutsFirst(p, d, c)
  {
    if p.min < p.max && |d| < TWO32 { CutIsFirst(p, d); }
    hide CutsFirst;
    var n := |d|;
    if U32(n) <= p.min { return 0; }
    if U32(n) > p.max { n := p.max; }
    c := ScanForCut(d, n, p, mask, gear);
    if c == 0 && U32(|d|) >= p.max { c := p.max; }
  }

  // ---------------------------------------------------------------- the simple definition

  /** The first piece of s: look at one window of at most max bytes; without a cut the
      whole window is the piece. */
  function FirstCut(p: Params, s: Bytes): (c: nat)
    requires s != [] && 0 < p.max
    ensures 0 < c <= |s| && c <= p.max
  {
    var w := s[..Min(|s|, p.max)];
    var c := Cut(p, w);
    if c == 0 then |w| else c
  }

  /** The first chunk of total[off..]. */
  function FirstChunk(p: Params, total: Bytes, off: nat): (c: Chunk)
    requires off < |total| && 0 < p.max
    ensures c.offset == off && 0 < c.length && off + c.length <= |total|
  {
    var n := FirstCut(p, total[off..]);
    Chunk(off, n, Sum(total[off..off + n]))
  }

  /** First chunk, then the rest: the chunks of total[off..]. */
  function Chunks(p: Params, total: Bytes, off: nat): seq<Chunk>
    requires off <= |total| && 0 < p.max
    decreases |total| - off
  {
    if off == |total| then []
    else
      var c := FirstChunk(p, total, off);
      [c] + Chunks(p, total, off + c.length)
  }

  function SignatureOf(p: Params, s: Bytes): Signature
    requires 0 < p.max
  {
    Signature(|s|, Sum(s), Chunks(p, s, 0))
  }

  lemma HitOfPrefix(p: Params, d: Bytes, e: Bytes, i: nat)
    requires p.min <= i < |d| && d <= e
    ensures Hit(p, d, i) == Hit(p, e, i)
  {
    assert d[p.min..i + 1] == e[p.min..i + 1];
  }

  /** Reading on behind d neither moves the first hit nor creates one inside d. */
  lemma {:induction false} FirstHitOfPrefix(p: Params, d: Bytes, e: Bytes, i: nat, m: nat)
    requires p.min <= i && d <= e && |d| <= m <= |e|
    ensures FirstHit(p, d, i, |d|) != 0 ==> FirstHit(p, e, i, m) == FirstHit(p, d, i, |d|)
    decreases |d| - i
  {
    if i < |d| {
      HitOfPrefix(p, d, e, i);
      FirstHitOfPrefix(p, d, e, i + 1, m);
    }
  }

  /** A genuine cut stays put when more bytes arrive behind it. */
  lemma CutOfPrefix(p: Params, d: Bytes, e: Bytes)
    requires d <= e && |e| <= p.max
    requires Cut(p, d) != 0
    ensures Cut(p, e) == Cut(p, d)
  {
    if FirstHit(p, d, p.min, |d|) != 0 {
      FirstHitOfPrefix(p, d, e, p.min, |e|);
    } else {
      assert d == e;
    }
  }

  /** s starts with the bytes d the loop holds; a cut found in d is the first cut of s. */
  lemma FirstCutOfPrefix(p: Params, d: Bytes, s: Bytes)
    requires 0 < |d| <= p.max && d <= s
    requires Cut(p, d) != 0 || d == s || |d| == p.max
    ensures FirstCut(p, s) == (if Cut(p, d) == 0 then |d| else Cut(p, d))
  {
    var w := s[..Min(|s|, p.max)];
    assert d <= w;
    if Cut(p, d) != 0 { CutOfPrefix(p, d, w); } else { assert d == w; }
  }
}
