/** Where an undisturbed transfer fails: a cached destination signature may hold chunks
    longer than the reuse cap (internal/transport/reuse.go:16), and the engine asks to reuse
    them all the same. */
module EngineLimits {
  import opened Base
  import opened Chunker
  import opened Delta
  import opened Ranges
  import opened WriteSession
  import opened Transfer
  import opened SignatureCache
  import opened Endpoints
  import opened Evidence
  import opened Engine
  import opened ChunkerLaws

  const MIB := 0x10_0000

  /** With an odd gear value for the byte 0, runs of zeros hash to odd values. */
  lemma {:induction false} ZerosHashOdd(n: nat, gear: GearTable)
    requires 0 < n && gear[0] % 2 == 1
    ensures GearHash(Zeros(n), gear) % 2 == 1
  {
    var s := Zeros(n);
    assert s[..n - 1] == Zeros(n - 1);
    if n > 1 { ZerosHashOdd(n - 1, gear); }
    assert s[n - 1] == 0;
    hide Zeros, GearStep;
    StepOdd(GearHash(s[..n - 1], gear), gear);
  }

  lemma StepOdd(h: uint32, gear: GearTable)
    requires gear[0] % 2 == 1
    ensures GearStep(h, 0, gear) % 2 == 1
  {
    var x: int := h;
    WrapKeepsParity(2 * x + gear[0]);
  }

  lemma WrapKeepsParity(x: nat)
    ensures U32(x) % 2 == x % 2
  {}

  lemma OddPassesNoMask(x: nat, m: nat)
    requires x % 2 == 1 && m % 2 == 1
    ensures And(x, m) != 0
  {}

  lemma ZerosMissAt(p: Params, mask: uint32, gear: GearTable, d: Bytes, i: nat)
    requires p.test == GearTest(mask, gear) && mask % 2 == 1 && gear[0] % 2 == 1
    requires p.min <= i < |d| && d == Zeros(|d|)
    ensures !Hit(p, d, i)
  {
    var s := d[p.min..i + 1];
    assert s == Zeros(i + 1 - p.min);
    ZerosHashOdd(i + 1 - p.min, gear);
    hide GearHash, And, Zeros;
    OddPassesNoMask(GearHash(s, gear), mask);
  }

  lemma {:induction false} ZerosNeverHit(p: Params, mask: uint32, gear: GearTable, d: Bytes, i: nat, n: nat)
    requires p.test == GearTest(mask, gear) && mask % 2 == 1 && gear[0] % 2 == 1
    requires p.min <= i && n <= |d| && d == Zeros(|d|)
    ensures FirstHit(p, d, i, n) == 0
    decreases n - i
  {
    hide GearTest, Zeros, Hit;
    if i < n {
      ZerosMissAt(p, mask, gear, d, i);
      ZerosNeverHit(p, mask, gear, d, i + 1, n);
    }
  }

  /** A chunk of maximal length, all zeros, and one more byte. */
  function FullThen(p: Params, b: byte): Bytes { Zeros(p.max) + [b] }

  /** A chunking whose mask rejects the odd hashes of zeros. */
  ghost predicate SkipsZeros(p: Params, gear: GearTable) {
    && gear[0] % 2 == 1 && 0 < p.min < p.max
    && exists mask: uint32 :: mask % 2 == 1 && p.test == GearTest(mask, gear)
  }

  lemma MaskIsOdd(avg: uint32)
    ensures MaskOf(avg) % 2 == 1
  {
    hide Log2, MaskBits;
    MaskBitsBracket(avg);
    assert Pow2(MaskBits(avg)) == 2 * Pow2(MaskBits(avg) - 1);
  }

  /** Every average below 2^30 gives such a chunking. */
  lemma EngineSkipsZeros(avg: uint32, gear: GearTable)
    requires avg < 0x4000_0000 && gear[0] % 2 == 1
    ensures SkipsZeros(ParamsOf(Options(avg, 0, 0), gear), gear)
    ensures avg == MIB ==> ParamsOf(Options(avg, 0, 0), gear).max == 4 * MIB
    ensures avg == 0 ==> ParamsOf(Options(avg, 0, 0), gear).max == DEFAULT_MAX
  {
    NormalizedFromAverage(avg);
    var mask := MaskOf(Normalized(Options(avg, 0, 0)).avg);
    MaskIsOdd(Normalized(Options(avg, 0, 0)).avg);
    hide MaskOf;
    assert ParamsOf(Options(avg, 0, 0), gear).test == GearTest(mask, gear);
  }

  lemma CutAtMax(p: Params, gear: GearTable, z: Bytes)
    requires SkipsZeros(p, gear) && z == Zeros(p.max)
    ensures Cut(p, z) == p.max
  {
    var mask: uint32 :| mask % 2 == 1 && p.test == GearTest(mask, gear);
    hide GearTest, Zeros, FirstHit;
    ZerosNeverHit(p, mask, gear, z, p.min, p.max);
  }

  lemma FirstChunkIsFull(p: Params, gear: GearTable, x: Bytes)
    requires SkipsZeros(p, gear) && Zeros(p.max) <= x
    ensures FirstChunk(p, x, 0) == Chunk(0, p.max, Sum(Zeros(p.max)))
  {
    var z := Zeros(p.max);
    hide Cut, SkipsZeros, Zeros;
    CutAtMax(p, gear, z);
    assert x[0..] == x && x[..p.max] == z && x[0..p.max] == z;
  }

  lemma LastChunkIsByte(p: Params, b: byte)
    requires 0 < p.min < p.max
    ensures FirstChunk(p, FullThen(p, b), p.max) == Chunk(p.max, 1, Sum([b]))
  {
    hide FirstHit, Zeros;
    var x := FullThen(p, b);
    assert x[p.max..] == [b] && [b][..1] == [b] && x[p.max..p.max + 1] == [b];
    assert Cut(p, [b]) == 0;
  }

  /** The chunks of maximal runs of zeros, alone and with one more byte. */
  lemma ChunksOfExample(p: Params, gear: GearTable, b: byte)
    requires SkipsZeros(p, gear)
    ensures Chunks(p, Zeros(p.max), 0) == [Chunk(0, p.max, Sum(Zeros(p.max)))]
    ensures Chunks(p, FullThen(p, b), 0) == [Chunk(0, p.max, Sum(Zeros(p.max))), Chunk(p.max, 1, Sum([b]))]
  {
    var z, x := Zeros(p.max), FullThen(p, b);
    assert z <= z && z <= x && |x| == p.max + 1;
    FirstChunkIsFull(p, gear, z);
    FirstChunkIsFull(p, gear, x);
    LastChunkIsByte(p, b);
    hide FirstChunk, Zeros, FullThen;
    assert Chunks(p, x, |x|) == [] && Chunks(p, z, |z|) == [];
    assert Chunks(p, x, p.max) == [Chunk(p.max, 1, Sum([b]))];
  }

  /** The shared chunk of the example is reusable. */
  lemma FullChunkReusable(p: Params, gear: GearTable, b: byte)
    requires SkipsZeros(p, gear)
    ensures var have := Have(Chunks(p, FullThen(p, b), 0));
            Reusable(Chunk(0, p.max, Sum(Zeros(p.max))), have) && Chunks(p, FullThen(p, b), 0) != []
  {
    ChunksOfExample(p, gear, b);
    var cs, c := Chunks(p, FullThen(p, b), 0), Chunk(0, p.max, Sum(Zeros(p.max)));
    hide Chunks, FullThen, Have;
    HaveIff(cs);
    var k :| 0 <= k < |cs| && cs[k].digest == c.digest && Have(cs)[c.digest] == Loc(cs[k].offset, cs[k].length);
    assert |Zeros(p.max)| > 1;
    assert Sum(Zeros(p.max)).content != Sum([b]).content;
  }

  // ---------------------------------------------------------------- a transfer that fails each time

  /** At an average of 1 MiB, two files that differ in the last byte share a chunk of 4 MiB. */
  lemma LargeChunkBlocks(u: Setup)
    requires u.avg == MIB && u.gear[0] % 2 == 1
    ensures 0 < CdcParams(u).max
    ensures var x, y := FullThen(CdcParams(u), 1), FullThen(CdcParams(u), 2);
            && x != y && |x| == |y| < TWO63 && SignatureOf(CdcParams(u), y).chunks != []
            && !AllWork(u, true, SignatureOf(CdcParams(u), x), SignatureOf(CdcParams(u), y), x)
  {
    EngineSkipsZeros(MIB, u.gear);
    var p := CdcParams(u);
    var x, y := FullThen(p, 1), FullThen(p, 2);
    assert x[p.max] != y[p.max];
    ChunksOfExample(p, u.gear, 1);
    FullChunkReusable(p, u.gear, 2);
    hide SkipsZeros, FullThen, Zeros;
    var sig, dest := SignatureOf(p, x), SignatureOf(p, y);
    var c := sig.chunks[0];
    SignatureOfIsTrue(p, x);
    TilesCoherent(sig.chunks, x);
    LookupNeverMisses(sig.chunks, Have(dest.chunks), 0);
    hide Chunks, Encode, Have, PlanFor, Coherent, Tiles;
    assert !Works(JobFor(u.packed, u.pref, sig, dest, true), c, DataOf(x, c));
  }

  /** The destination holds y, and the cache what a copy of y leaves there. */
  ghost predicate LargeCached(u: Setup, modNano: int, files: Files, entries: CacheMap)
    requires 0 < CdcParams(u).max
  {
    var y := FullThen(CdcParams(u), 2);
    && u.meta.path in files && files[u.meta.path] == File(y, modNano)
    && u.meta.path in entries
    && entries[u.meta.path] == Entry(|y|, modNano, Sum(y), u.avg, SignatureOf(CdcParams(u), y).chunks)
  }

  /** Whatever the journal holds, an orderly attempt to bring x over y fails, and leaves the
      file and its cached entry as they are. */
  lemma LargeCachedChunkFails(u: Setup, entry: Option<JournalEntry>, putFails: bool, modNano: int, files: Files,
                              entries: CacheMap)
    requires u.avg == MIB && u.gear[0] % 2 == 1 && !u.cfg.checksum && !u.cfg.dryRun && u.meta.modNano != modNano
    requires 0 < CdcParams(u).max && LargeCached(u, modNano, files, entries) && Honest(entries, u.gear)
    ensures var x := FullThen(CdcParams(u), 1);
            && |x| < TWO63
            && AttemptOf(u, entry, true, putFails, File(x, u.meta.modNano), files, entries) ==
                Outcome(Failed(false), false, entries)
  {
    LargeChunkBlocks(u);
    var x, y := FullThen(CdcParams(u), 1), FullThen(CdcParams(u), 2);
    var src, f := File(x, u.meta.modNano), Lookup(files, u.meta.path);
    CachedIsUsed(u, modNano, files, entries);
    var kept := CacheAfterLook(u.cfg, false, entries, f, u.meta.path, u.avg);
    hide *;
    NotSettledByMetadata(u, entry, src, f, y, modNano);
    CopiesIff(u, entry, true, putFails, src, files, entries);
    assert kept == entries;
  }

  lemma CachedIsUsed(u: Setup, modNano: int, files: Files, entries: CacheMap)
    requires u.avg == MIB && u.gear[0] % 2 == 1 && !u.cfg.checksum
    requires 0 < CdcParams(u).max && LargeCached(u, modNano, files, entries)
    ensures var f, y := Lookup(files, u.meta.path), FullThen(CdcParams(u), 2);
            && f == Some(File(y, modNano)) && !SameBytes(f, FullThen(CdcParams(u), 1))
            && Used(u, false, f, entries) == SignatureOf(CdcParams(u), y)
            && CacheAfterLook(u.cfg, false, entries, f, u.meta.path, u.avg) == entries
  {
    LargeChunkBlocks(u);
    SignatureOfFields(CdcParams(u), FullThen(CdcParams(u), 2));
    hide FullThen, SignatureOf, AllWork, CdcParams;
  }

  lemma NotSettledByMetadata(u: Setup, entry: Option<JournalEntry>, src: File, f: Option<File>, y: Bytes, modNano: int)
    requires f == Some(File(y, modNano)) && modNano != u.meta.modNano
    ensures ShortcutOf(u, entry, Some(src), f) == None && !Disproved(u.cfg, u.meta, entry, Some(src), f)
  {}

  /** A source, a destination and a cache at which the example stands. */
  ghost predicate Stands(u: Setup, modNano: int, src: Option<File>, files: Files, entries: CacheMap)
    requires 0 < CdcParams(u).max
  {
    && u.avg == MIB && u.gear[0] % 2 == 1 && !u.cfg.checksum && !u.cfg.dryRun && u.meta.modNano != modNano && u.calm
    && src == Some(File(FullThen(CdcParams(u), 1), u.meta.modNano)) && u.meta.size == |FullThen(CdcParams(u), 1)|
    && LargeCached(u, modNano, files, entries) && Honest(entries, u.gear)
  }

  /** Where it stands an attempt fails, whatever the journal holds, and it stands again. */
  lemma StandsFails(u: Setup, entry: Option<JournalEntry>, putFails: bool, modNano: int, src: Option<File>,
                    files: Files, files': Files, entries: CacheMap)
    requires 0 < CdcParams(u).max && Stands(u, modNano, src, files, entries)
    requires Lookup(files', u.meta.path) == Lookup(files, u.meta.path)
    ensures Stands(u, modNano, src, files', entries)
    ensures Orderly(u, true, true, true, src, files', entries) && |src.value.content| < TWO63
    ensures AttemptOf(u, entry, true, putFails, src.value, files', entries) == Outcome(Failed(false), false, entries)
  {
    LargeChunkBlocks(u);
    assert Orderly(u, true, true, true, src, files, entries);
    hide FullThen, AttemptOf, LargeCached, Honest, CdcParams, AllWork, SignatureOf;
    OrderlyLocal(u, true, true, true, src, files, files', entries);
    LargeCachedLocal(u, modNano, files, files', entries);
    LargeCachedChunkFails(u, entry, putFails, modNano, files', entries);
  }

  /** Any number of attempts, with any journal: each fails, and no quiet path ever changes. */
  method FailsEachTime(u: Setup, src: Source, dst: Dest, idx: Cache, putFails: bool, modNano: int, n: nat)
    returns (failures: nat)
    requires 0 < CdcParams(u).max && src.Sure() && dst.Sure(u.meta.path) && dst.supportsReuse
    requires Stands(u, modNano, src.file, dst.tree.files, idx.entries)
    modifies src, dst.tree, idx
    ensures failures == n
    ensures Same(dst.quiet, old(dst.tree.files), dst.tree.files) && idx.entries == old(idx.entries)
  {
    hide *;
    failures := 0;
    ghost var files0, entries0, file0 := dst.tree.files, idx.entries, src.file;
    SameStart(dst.quiet, files0);
    SureIs(src, dst, u.meta.path);
    for i := 0 to n
      invariant failures == i
      invariant src.file == file0 && idx.entries == entries0 && Same(dst.quiet, files0, dst.tree.files)
    {
      var line: Option<JournalEntry> := *;
      ghost var before := dst.tree.files;
      SameAt(dst.quiet, files0, before, u.meta.path);
      StandsFails(u, line, putFails, modNano, file0, files0, before, entries0);
      var a;
      ghost var seen, putFailed, reused;
      a, seen, putFailed, reused := TryTransfer(u, line, true, putFails, src, dst, idx);
      Unplaced(a, putFailed, u.meta.path, File(seen, u.meta.modNano), dst.quiet, before, dst.tree.files);
      SameTwice(dst.quiet, files0, before, dst.tree.files);
      if a == Failed(false) { failures := failures + 1; }
    }
  }

  lemma Unplaced(a: Attempt, putFailed: bool, path: Path, file: File, quiet: Path -> bool, files0: Files, files: Files)
    requires TreeAfter(a, putFailed, path, file, quiet, files0, files) && !a.Copied? && !putFailed
    ensures Same(quiet, files0, files)
  {}

  lemma LargeCachedLocal(u: Setup, modNano: int, files: Files, files': Files, entries: CacheMap)
    requires 0 < CdcParams(u).max && LargeCached(u, modNano, files, entries)
    requires Lookup(files', u.meta.path) == Lookup(files, u.meta.path)
    ensures LargeCached(u, modNano, files', entries)
  {
    hide FullThen, SignatureOf;
  }

  // ---------------------------------------------------------------- a dry run that overstates

  /** The pair of signatures: nothing is missing, yet the files differ. */
  lemma NothingMissing(gear: GearTable, b: byte)
    requires gear[0] % 2 == 1
    ensures var p := DefaultParams(gear);
            var x, y := Zeros(p.max), FullThen(p, b);
            && p == ParamsOf(Options(0, 0, 0), gear) && p.max == DEFAULT_MAX && |y| == p.max + 1
            && PayloadOf(PlanFor(Chunks(p, x, 0), Have(Chunks(p, y, 0))).missing) == 0
  {
    EngineSkipsZeros(0, gear);
    var p := DefaultParams(gear);
    ChunksOfExample(p, gear, b);
    FullChunkReusable(p, gear, b);
    var c, have := Chunk(0, p.max, Sum(Zeros(p.max))), Have(Chunks(p, FullThen(p, b), 0));
    hide Chunks, Have, Zeros, Reusable;
    assert Chunks(p, Zeros(p.max), 0) == [c] && [c][..0] == [];
    assert PlanFor([c], have).missing == [];
  }

  lemma NotSettledBySize(u: Setup, entry: Option<JournalEntry>, src: File, f: Option<File>, y: Bytes, modNano: int)
    requires f == Some(File(y, modNano)) && |y| != u.meta.size
    ensures ShortcutOf(u, entry, Some(src), f) == None && !Disproved(u.cfg, u.meta, entry, Some(src), f)
    ensures ShortcutOf(Dry(u), entry, Some(src), f) == None && !Disproved(Dry(u).cfg, u.meta, entry, Some(src), f)
  {}

  /** With the default chunking, 256 KiB of zeros brought over the same and one more byte: the
      copy sends nothing, and the dry run reports 262144 bytes. */
  lemma DryRunOverstates(u: Setup, entry: Option<JournalEntry>, b: byte, modNano: int)
    requires u.avg == 0 && u.gear[0] % 2 == 1 && !u.cfg.dryRun && 0 < CdcParams(u).max
    requires u.meta.size == DEFAULT_MAX && u.calm
    ensures var src, y := File(Zeros(DEFAULT_MAX), u.meta.modNano), FullThen(CdcParams(u), b);
            var files := map[u.meta.path := File(y, modNano)];
            var copy := AttemptOf(u, entry, true, false, src, files, map[]).a;
            && AttemptOf(Dry(u), entry, true, false, src, files, map[]).a == WouldCopy(262144)
            && copy.Copied? && copy.payload == 0
  {
    NothingMissing(u.gear, b);
    var p := CdcParams(u);
    var x, y := Zeros(DEFAULT_MAX), FullThen(p, b);
    var src, files := File(x, u.meta.modNano), map[u.meta.path := File(y, modNano)];
    var f, sig, destSig := Lookup(files, u.meta.path), SignatureOf(p, x), SignatureOf(p, y);
    assert Honest(map[], u.gear) && CdcParams(Dry(u)) == p && CapFor(map[], u.meta.path) == DEFAULT_MAX;
    assert f == Some(File(y, modNano)) && !SameBytes(f, x) && Sum(x).content != Sum(y).content;
    assert Used(u, false, f, map[]) == destSig;
    assert sig.chunks == Chunks(p, x, 0) && destSig.chunks == Chunks(p, y, 0) && sig.digest == Sum(x)
        && destSig.digest == Sum(y);
    assert Orderly(u, true, true, true, Some(src), files, map[]);
    hide *;
    NotSettledBySize(u, entry, src, f, y, modNano);
    WouldCopyIff(Dry(u), entry, true, false, src, files, map[]);
    DryReports(u, entry, true, src, files, map[]);
    DryRunIs(sig, destSig);
    OrderlyUsed(u, false, x, Some(src), files, files, map[], destSig);
    CapsSuffice(u, true, destSig, x, f, DEFAULT_MAX);
    CopiesIff(u, entry, true, false, src, files, map[]);
    CopyReports(u, entry, true, src, files, map[]);
    CopyCounts(u, true, sig, destSig, x, files);
  }
}
