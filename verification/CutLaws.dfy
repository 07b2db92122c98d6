/** internal/chunk/chunk.go: where the cuts are, said of the bytes alone. The cut test is a
    remainder of a weighted sum of the last bytes, a chunk ends at the first position that
    passes it, and no other list of chunks does that. */
module CutLaws {
  import opened Base
  import opened Chunker
  import opened ChunkerLaws

  // ---------------------------------------------------------------- the cut test

  /** The gear hash without wrap-around: each byte's gear value, doubled once for every byte
      that follows. */
  function Weighted(s: Bytes, gear: GearTable): nat {
    if s == [] then 0 else gear[s[0] as int] * Pow2(|s| - 1) + Weighted(s[1..], gear)
  }

  lemma {:induction false} WeightedExtend(s: Bytes, b: byte, gear: GearTable)
    ensures Weighted(s + [b], gear) == 2 * Weighted(s, gear) + gear[b as int]
  {
    if s == [] {
      assert [b][1..] == [] && Weighted([b], gear) == gear[b as int] * Pow2(0) + Weighted([], gear);
    } else {
      var t := s + [b];
      assert t[0] == s[0] && t[1..] == s[1..] + [b] && |t| - 1 == |s|;
      WeightedExtend(s[1..], b, gear);
      Pow2Next(|s| - 1);
      TwiceProduct(gear[s[0] as int], Pow2(|s| - 1));
    }
  }

  lemma TwiceProduct(g: int, m: int)
    ensures g * (2 * m) == 2 * (g * m)
  {}

  lemma SameModulo(h: nat, w: nat, g: nat, m: nat)
    requires 0 < m && h % m == w % m
    ensures (2 * h + g) % m == (2 * w + g) % m
  {
    var q := h / m - w / m;
    assert h - w == m * q by {
      assert h == m * (h / m) + h % m && w == m * (w / m) + w % m;
      assert m * q == m * (h / m) - m * (w / m);
    }
    assert (2 * h + g) - (2 * w + g) == 2 * (m * q);
    TwiceProduct(m, q);
    ModCongruent(2 * h + g, 2 * w + g, m, 2 * q);
  }

  /** The wrapping hash has the low bits of the weighted sum. */
  lemma {:induction false} HashIsWeighted(s: Bytes, gear: GearTable, b: nat)
    requires b <= 32
    ensures 0 < Pow2(b) && GearHash(s, gear) % Pow2(b) == Weighted(s, gear) % Pow2(b)
    decreases |s|
  {
    Pow2Positive(b);
    if s != [] {
      var init, last := s[..|s| - 1], s[|s| - 1];
      assert s == init + [last];
      HashIsWeighted(init, gear, b);
      WeightedExtend(init, last, gear);
      var g: nat := gear[last as int];
      assert GearHash(s, gear) == U32(2 * GearHash(init, gear) + g);
      hide U32, GearHash, Weighted;
      WrapKeepsLowBits(2 * GearHash(init, gear) + g, b);
      SameModulo(GearHash(init, gear), Weighted(init, gear), g, Pow2(b));
    }
  }

  /** The cut test of the program, position by position: the weighted sum of the bytes after
      the first min is divisible by the mask's power of two. */
  lemma HitIff(o: Options, gear: GearTable, d: Bytes, i: nat)
    requires ParamsOf(o, gear).min <= i < |d|
    ensures var p, m := ParamsOf(o, gear), Pow2(MaskBits(Normalized(o).avg));
            0 < m && (Hit(p, d, i) <==> Weighted(d[p.min..i + 1], gear) % m == 0)
  {
    var p, b := ParamsOf(o, gear), MaskBits(Normalized(o).avg);
    MaskBitsBracket(Normalized(o).avg);
    HashIsWeighted(d[p.min..i + 1], gear, b);
    AndLowMask(GearHash(d[p.min..i + 1], gear), b);
    hide GearHash, Weighted, And, MaskBits;
  }

  // ---------------------------------------------------------------- the cuts

  /** The chunk ends at the first position after min that passes the test, or is max long, or
      ends the file. */
  ghost predicate CutAtHit(p: Params, x: Bytes, c: Chunk) {
    var n := c.length;
    && 0 < n <= p.max && c.offset + n <= |x|
    && var s := x[c.offset..];
       && (forall k :: p.min <= k < n - 1 ==> !Hit(p, s, k))
       && (n == p.max || c.offset + n == |x| || (p.min < n && Hit(p, s, n - 1)))
  }

  lemma FirstChunkAtHit(p: Params, x: Bytes, off: nat)
    requires off < |x| && 0 < p.min < p.max
    ensures CutAtHit(p, x, FirstChunk(p, x, off))
  {
    var s, c := x[off..], FirstChunk(p, x, off);
    var w, n := s[..Min(|s|, p.max)], c.length;
    FirstHitIsFirst(p, w, p.min, |w|);
    hide FirstHit;
    forall k | p.min <= k < |w| ensures Hit(p, w, k) == Hit(p, s, k) { HitOfPrefix(p, w, s, k); }
    hide Hit;
  }

  lemma {:induction false} ChunksAtHits(p: Params, x: Bytes, off: nat, k: nat)
    requires off <= |x| && 0 < p.min < p.max && k < |Chunks(p, x, off)|
    ensures CutAtHit(p, x, Chunks(p, x, off)[k])
    decreases |x| - off
  {
    hide *;
    ChunksEnd(p, x);
    var c := FirstChunk(p, x, off);
    ChunksUnfold(p, x, off);
    FirstChunkAtHit(p, x, off);
    if k > 0 { ChunksAtHits(p, x, off + c.length, k - 1); }
  }

  /** Two chunks at one place that end where they should end at the same place. */
  lemma SameCut(p: Params, x: Bytes, c: Chunk, d: Chunk)
    requires 0 < p.min < p.max && CutAtHit(p, x, c) && CutAtHit(p, x, d) && c.offset == d.offset
    ensures c.length == d.length
  {
    hide Hit;
    if c.length < d.length { assert false; }
    if d.length < c.length { assert false; }
  }

  /** The chunks of the simple definition are the only ones that tile the bytes and end where
      they should. */
  lemma {:induction false} OnlyChunksAtHits(p: Params, x: Bytes, off: nat, cs: seq<Chunk>)
    requires off <= |x| && 0 < p.min < p.max
    requires Tiles(cs, x, off) && forall k :: 0 <= k < |cs| ==> CutAtHit(p, x, cs[k])
    ensures cs == Chunks(p, x, off)
    decreases |cs|
  {
    if cs == [] {
      ChunksEnd(p, x);
    } else {
      var c := cs[0];
      assert CutAtHit(p, x, c) && ChunkOf(c, x) && c.offset == off;
      FirstChunkAtHit(p, x, off);
      FirstChunkNamesItsBytes(p, x, off);
      SameCut(p, x, c, FirstChunk(p, x, off));
      assert c == FirstChunk(p, x, off);
      assert cs == [c] + cs[1..];
      ChunksUnfold(p, x, off);
      forall k | 0 <= k < |cs[1..]| ensures CutAtHit(p, x, cs[1..][k]) { assert cs[1..][k] == cs[k + 1]; }
      hide CutAtHit, Chunks, FirstChunk;
      OnlyChunksAtHits(p, x, off + c.length, cs[1..]);
    }
  }
}
