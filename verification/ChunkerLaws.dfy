/** Laws of the simple chunking: it tiles its input, keeps its bounds, survives appends,
    resynchronises, and its cut test looks at a fixed window only. */
module ChunkerLaws {
  import opened Base
  import opened Chunker

  lemma ChunksUnfold(p: Params, x: Bytes, i: nat)
    requires i < |x| && 0 < p.max
    ensures var c := FirstChunk(p, x, i);
            Chunks(p, x, i) == [c] + Chunks(p, x, i + c.length)
  {}

  lemma ChunksEnd(p: Params, x: Bytes)
    requires 0 < p.max
    ensures Chunks(p, x, |x|) == []
  {}

  lemma FirstChunkNamesItsBytes(p: Params, s: Bytes, off: nat)
    requires off < |s| && 0 < p.max
    ensures ChunkOf(FirstChunk(p, s, off), s)
  {
    hide FirstCut;
  }

  lemma TilesCons(c: Chunk, rest: seq<Chunk>, s: Bytes, off: nat)
    requires off <= |s| && c.offset == off && ChunkOf(c, s) && Tiles(rest, s, off + c.length)
    ensures Tiles([c] + rest, s, off)
  {
    hide ChunkOf;
    assert ([c] + rest)[1..] == rest;
  }

  lemma TilesNil(s: Bytes)
    ensures Tiles([], s, |s|)
  {}

  /** The pieces tile the input in order, each with its own digest. */
  lemma {:induction false} ChunksTile(p: Params, s: Bytes, off: nat)
    requires off <= |s| && 0 < p.max
    ensures Tiles(Chunks(p, s, off), s, off)
    decreases |s| - off
  {
    hide *;
    if off == |s| {
      ChunksEnd(p, s);
      TilesNil(s);
    } else {
      var c := FirstChunk(p, s, off);
      ChunksTile(p, s, off + c.length);
      ChunksUnfold(p, s, off);
      FirstChunkNamesItsBytes(p, s, off);
      TilesCons(c, Chunks(p, s, off + c.length), s, off);
    }
  }

  /** The signature of a file is the truth about it. */
  lemma SignatureOfIsTrue(p: Params, s: Bytes)
    requires 0 < p.max
    ensures TrueSignature(SignatureOf(p, s), s)
  {
    ChunksTile(p, s, 0);
  }

  lemma FirstChunkSize(p: Params, s: Bytes, off: nat)
    requires off < |s| && 0 < p.max
    ensures var n := FirstChunk(p, s, off).length;
            && 0 < n <= p.max
            && (off + n < |s| ==> p.min < n || (p.max <= p.min && n == p.max))
  {
    hide FirstHit;
    var w := s[off..][..Min(|s| - off, p.max)];
    CutAboveMin(p, w);
  }

  lemma CutAboveMin(p: Params, d: Bytes)
    requires |d| <= p.max
    ensures var c := Cut(p, d); c == 0 || p.min < c
  {}

  /** No piece is longer than max; every piece but the last is longer than min (or exactly
      max long, in the degenerate case where min is not below max). */
  lemma {:induction false} ChunkSizes(p: Params, s: Bytes, off: nat, k: nat)
    requires off <= |s| && 0 < p.max && k < |Chunks(p, s, off)|
    ensures var cs := Chunks(p, s, off);
            && 0 < cs[k].length <= p.max
            && (k < |cs| - 1 ==> p.min < cs[k].length || (p.max <= p.min && cs[k].length == p.max))
    decreases |s| - off
  {
    hide *;
    ChunksEnd(p, s);
    var c := FirstChunk(p, s, off);
    ChunksUnfold(p, s, off);
    FirstChunkSize(p, s, off);
    if k > 0 {
      ChunkSizes(p, s, off + c.length, k - 1);
    } else if |Chunks(p, s, off)| == 1 {
    } else {
      ChunksEnd(p, s);
    }
  }

  /** The first chunk at off ends at a cut, and not merely at the end of the file. */
  predicate EndsAtCut(p: Params, s: Bytes, off: nat)
    requires off < |s| && 0 < p.max
  {
    var w := s[off..][..Min(|s| - off, p.max)];
    Cut(p, w) != 0 || |w| == p.max
  }

  lemma FirstChunkOfPrefix(p: Params, x: Bytes, y: Bytes, off: nat)
    requires off < |x| && 0 < p.max
    requires EndsAtCut(p, x, off) || off + FirstChunk(p, x, off).length < |x|
    ensures FirstChunk(p, x + y, off) == FirstChunk(p, x, off)
  {
    var w := x[off..][..Min(|x| - off, p.max)];
    var s := (x + y)[off..];
    assert w <= s;
    FirstCutOfPrefix(p, w, s);
    var n := FirstCut(p, x[off..]);
    assert (x + y)[off..off + n] == x[off..off + n];
  }

  /** Appending y keeps every chunk of x that ends at a cut, so at most the last moves. */
  lemma {:induction false} AppendStable(p: Params, x: Bytes, y: Bytes, off: nat)
    requires off <= |x| && 0 < p.max
    ensures forall k :: 0 <= k < |Chunks(p, x, off)|
              && (k < |Chunks(p, x, off)| - 1
                  || (Chunks(p, x, off)[k].offset < |x| && EndsAtCut(p, x, Chunks(p, x, off)[k].offset)))
              ==> k < |Chunks(p, x + y, off)| && Chunks(p, x + y, off)[k] == Chunks(p, x, off)[k]
    decreases |x| - off
  {
    hide *;
    ChunksEnd(p, x);
    if off < |x| {
      var c := FirstChunk(p, x, off);
      var next := off + c.length;
      ChunksUnfold(p, x, off);
      if next < |x| || EndsAtCut(p, x, off) {
        FirstChunkOfPrefix(p, x, y, off);
        ChunksUnfold(p, x + y, off);
        AppendStable(p, x, y, next);
      }
    }
  }

  /** Two chunks with the same bytes, at the same distance from i and j. */
  predicate SameFrom(c: Chunk, i: nat, d: Chunk, j: nat) {
    c.offset - i == d.offset - j && c.length == d.length && c.digest == d.digest
  }

  ghost predicate AllSameFrom(cs: seq<Chunk>, i: nat, ds: seq<Chunk>, j: nat) {
    |cs| == |ds| && forall k :: 0 <= k < |cs| ==> SameFrom(cs[k], i, ds[k], j)
  }

  lemma NothingSame(i: nat, j: nat)
    ensures AllSameFrom([], i, [], j)
  {}

  lemma PrependSame(c: Chunk, cs: seq<Chunk>, i: nat, d: Chunk, ds: seq<Chunk>, j: nat, n: nat)
    requires SameFrom(c, i, d, j) && AllSameFrom(cs, i + n, ds, j + n)
    ensures AllSameFrom([c] + cs, i, [d] + ds, j)
  {
    forall k | 0 <= k < |cs| ensures SameFrom(cs[k], i, ds[k], j) {
      assert SameFrom(cs[k], i + n, ds[k], j + n);
    }
  }

  /** Chunking from a position on sees only the bytes from there on. */
  lemma {:induction false} ChunksSeeSuffix(p: Params, x: Bytes, i: nat, y: Bytes, j: nat)
    requires i <= |x| && j <= |y| && 0 < p.max
    requires x[i..] == y[j..]
    ensures AllSameFrom(Chunks(p, x, i), i, Chunks(p, y, j), j)
    decreases |x| - i
  {
    hide *;
    assert |x| - i == |x[i..]| == |y[j..]| == |y| - j;
    if i == |x| {
      ChunksEnd(p, x);
      ChunksEnd(p, y);
      NothingSame(i, j);
    } else {
      FirstChunkSeesSuffix(p, x, i, y, j);
      var c, d := FirstChunk(p, x, i), FirstChunk(p, y, j);
      ChunksSeeSuffix(p, x, i + c.length, y, j + d.length);
      ChunksUnfold(p, x, i);
      ChunksUnfold(p, y, j);
      PrependSame(c, Chunks(p, x, i + c.length), i, d, Chunks(p, y, j + d.length), j, c.length);
    }
  }

  lemma FirstChunkSeesSuffix(p: Params, x: Bytes, i: nat, y: Bytes, j: nat)
    requires i < |x| && j < |y| && 0 < p.max
    requires x[i..] == y[j..]
    ensures var c, d := FirstChunk(p, x, i), FirstChunk(p, y, j);
            && SameFrom(c, i, d, j) && c.length == d.length
            && x[i + c.length..] == y[j + d.length..]
  {
    hide Cut;
    var n := FirstCut(p, x[i..]);
    assert x[i..i + n] == x[i..][..n] && y[j..j + n] == y[j..][..n];
    assert x[i + n..] == x[i..][n..] && y[j + n..] == y[j..][n..];
  }

  /** From its k-th boundary on, a chunk list is the chunking of the rest. */
  lemma {:induction false} ChunksFromBoundary(p: Params, x: Bytes, off: nat, k: nat)
    requires off < |x| && 0 < p.max && k < |Chunks(p, x, off)|
    ensures var o := Chunks(p, x, off)[k].offset;
            off <= o < |x| && Chunks(p, x, off)[k..] == Chunks(p, x, o)
    decreases k
  {
    hide *;
    var c := FirstChunk(p, x, off);
    ChunksUnfold(p, x, off);
    var cs, rest := Chunks(p, x, off), Chunks(p, x, off + c.length);
    if k > 0 {
      ChunksEnd(p, x);
      ChunksFromBoundary(p, x, off + c.length, k - 1);
      assert cs[k] == rest[k - 1] && cs[k..] == rest[k - 1..];
    }
  }

  /** Resynchronisation: once two files have boundaries with equal bytes from there on, all
      their later chunks agree up to the offset shift. */
  lemma Resynchronise(p: Params, x: Bytes, y: Bytes, k: nat, l: nat)
    requires 0 < p.max
    requires k < |Chunks(p, x, 0)| && l < |Chunks(p, y, 0)|
    requires var i, j := Chunks(p, x, 0)[k].offset, Chunks(p, y, 0)[l].offset;
             i <= |x| && j <= |y| && x[i..] == y[j..]
    ensures var cs, ds := Chunks(p, x, 0), Chunks(p, y, 0);
            AllSameFrom(cs[k..], cs[k].offset, ds[l..], ds[l].offset)
  {
    hide *;
    ChunksEnd(p, x);
    ChunksEnd(p, y);
    ChunksFromBoundary(p, x, 0, k);
    ChunksFromBoundary(p, y, 0, l);
    ChunksSeeSuffix(p, x, Chunks(p, x, 0)[k].offset, y, Chunks(p, y, 0)[l].offset);
  }

  // ---------------------------------------------------------------- the hash window

  lemma ModCongruent(x: int, y: int, m: int, q: int)
    requires 0 < m && x - y == m * q
    ensures x % m == y % m
  {
    var a, b := x / m, y / m;
    assert x == m * a + x % m && y == m * b + y % m;
    assert m * (a - b - q) == y % m - x % m by {
      assert m * (a - b - q) == m * a - m * b - m * q;
    }
    MulAway(m, a - b - q);
  }

  lemma MulAway(m: int, d: int)
    requires 0 < m
    ensures d >= 1 ==> m * d >= m
    ensures d <= -1 ==> m * d <= -m
  {}

  lemma ModDouble(x: int, y: int, g: int, m: int)
    requires 0 < m && x % m == y % m
    ensures (2 * x + g) % (2 * m) == (2 * y + g) % (2 * m)
  {
    var q := x / m - y / m;
    assert x - y == m * q by {
      assert x == m * (x / m) + x % m && y == m * (y / m) + y % m;
      assert m * q == m * (x / m) - m * (y / m);
    }
    assert 2 * (m * q) == (2 * m) * q;
    ModCongruent(2 * x + g, 2 * y + g, 2 * m, q);
  }

  lemma {:induction false} Pow2Sum(a: nat, b: nat)
    ensures Pow2(a + b) == Pow2(a) * Pow2(b)
  {
    if a > 0 {
      Pow2Sum(a - 1, b);
      Pow2Next(a - 1);
      Pow2Next(a - 1 + b);
      hide Pow2;
      MulAssoc(2, Pow2(a - 1), Pow2(b));
    }
  }

  lemma Pow2Next(n: nat)
    ensures Pow2(n + 1) == 2 * Pow2(n)
  {}

  lemma MulAssoc(a: int, b: int, c: int)
    ensures (a * b) * c == a * (b * c)
  {}

  /** Wrapping at 32 bits does not disturb the low b bits. */
  lemma WrapKeepsLowBits(x: nat, b: nat)
    requires b <= 32
    ensures 0 < Pow2(b) && U32(x) % Pow2(b) == x % Pow2(b)
  {
    Pow2Positive(b);
    if x >= TWO32 {
      Pow2Sum(b, 32 - b);
      Pow2Values();
      var q := x / TWO32;
      var m, r := Pow2(b), Pow2(32 - b);
      MulAssoc(m, r, q);
      assert U32(x) == x % TWO32 == x - TWO32 * q;
      ModCongruent(x, U32(x), m, r * q);
    }
  }

  lemma SameTailShorter(s: Bytes, t: Bytes, b: nat)
    requires 0 < b <= |s| && b <= |t| && s[|s| - b..] == t[|t| - b..]
    ensures s[|s| - 1] == t[|t| - 1]
    ensures s[..|s| - 1][|s| - b..] == t[..|t| - 1][|t| - b..]
  {
    assert s[|s| - 1] == s[|s| - b..][b - 1] && t[|t| - 1] == t[|t| - b..][b - 1];
    assert s[..|s| - 1][|s| - b..] == s[|s| - b..][..b - 1] && t[..|t| - 1][|t| - b..] == t[|t| - b..][..b - 1];
  }

  /** One step of the hash, seen modulo 2m. */
  lemma GearStepModulo(h: uint32, k: uint32, x: byte, gear: GearTable, b: nat)
    requires b < 32 && 0 < Pow2(b) && h % Pow2(b) == k % Pow2(b)
    ensures 0 < Pow2(b + 1) && GearStep(h, x, gear) % Pow2(b + 1) == GearStep(k, x, gear) % Pow2(b + 1)
  {
    hide U32;
    var g: int := gear[x as int];
    ModDouble(h, k, g, Pow2(b));
    WrapKeepsLowBits(2 * h + g, b + 1);
    WrapKeepsLowBits(2 * k + g, b + 1);
  }

  /** The low b bits of the gear hash are decided by the last b bytes. */
  lemma {:induction false} GearWindow(s: Bytes, t: Bytes, gear: GearTable, b: nat)
    requires b <= 32 && b <= |s| && b <= |t|
    requires s[|s| - b..] == t[|t| - b..]
    ensures 0 < Pow2(b) && GearHash(s, gear) % Pow2(b) == GearHash(t, gear) % Pow2(b)
    decreases b
  {
    if b > 0 {
      SameTailShorter(s, t, b);
      GearWindow(s[..|s| - 1], t[..|t| - 1], gear, b - 1);
      hide U32, GearStep;
      GearStepModulo(GearHash(s[..|s| - 1], gear), GearHash(t[..|t| - 1], gear), s[|s| - 1], gear, b - 1);
    } else {
      assert Pow2(0) == 1;
    }
  }

  lemma ModUnique(x: int, m: int, q: int, r: int)
    requires 0 <= r < m && x == m * q + r
    ensures x % m == r
  {
    ModCongruent(x, r, m, q);
    SmallMod(r, m);
  }

  lemma SmallMod(r: int, m: int)
    requires 0 <= r < m
    ensures r % m == r
  {}

  lemma ModHalves(x: nat, m: nat)
    requires 0 < m
    ensures x % (2 * m) == x % 2 + 2 * ((x / 2) % m)
  {
    var q, r := (x / 2) / m, (x / 2) % m;
    var mq := m * q;
    assert x / 2 == mq + r;
    assert (2 * m) * q == 2 * mq;
    ModUnique(x, 2 * m, q, x % 2 + 2 * r);
  }

  /** One bit of the mask: an odd mask 2 * (m - 1) + 1 takes the low bit of x. */
  lemma AndOddMask(x: nat, m: nat)
    requires 0 < m
    ensures And(x, 2 * m - 1) == x % 2 + 2 * And(x / 2, m - 1)
  {
    assert (2 * m - 1) % 2 == 1 && (2 * m - 1) / 2 == m - 1;
  }

  /** Masking with the low b bits is the remainder modulo 2^b. */
  lemma {:induction false} AndLowMask(x: nat, b: nat)
    ensures 0 < Pow2(b) && And(x, Pow2(b) - 1) == x % Pow2(b)
    decreases b
  {
    Pow2Positive(b);
    if b > 0 {
      var m := Pow2(b - 1);
      Pow2Positive(b - 1);
      Pow2Next(b - 1);
      hide *;
      AndLowMask(x / 2, b - 1);
      AndOddMask(x, m);
      ModHalves(x, m);
    }
  }

  /** The cut test at a position depends only on the last b bytes hashed, b being the width
      of the mask, whatever the buffers, positions and options. */
  lemma CutTestIsWindowed(o: Options, gear: GearTable, d: Bytes, i: nat, e: Bytes, j: nat)
    requires var p, b := ParamsOf(o, gear), MaskBits(Normalized(o).avg);
             && p.min + b <= i + 1 <= |d| && p.min + b <= j + 1 <= |e|
             && d[i + 1 - b..i + 1] == e[j + 1 - b..j + 1]
    requires MaskBits(Normalized(o).avg) > 0
    ensures Hit(ParamsOf(o, gear), d, i) == Hit(ParamsOf(o, gear), e, j)
  {
    var p, b := ParamsOf(o, gear), MaskBits(Normalized(o).avg);
    var s, t := d[p.min..i + 1], e[p.min..j + 1];
    MaskBitsBracket(Normalized(o).avg);
    assert s[|s| - b..] == d[i + 1 - b..i + 1] && t[|t| - b..] == e[j + 1 - b..j + 1];
    GearWindow(s, t, gear, b);
    AndLowMask(GearHash(s, gear), b);
    AndLowMask(GearHash(t, gear), b);
  }
}
