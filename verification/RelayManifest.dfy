/** internal/relay/relay.go: the manifest of a mid-hop job and its validation. */
module RelayManifest {
  import opened Base
  import opened WriteSession

  const MAX_JSON := 32 * 1024 * 1024
  const MAX_CHUNK := 64 * 1024 * 1024
  const SCHEMA := 1

  /** A chunk reference as it travels in JSON: a 64-bit offset and a 32-bit length. */
  type WireChunk = c: Chunk | c.offset < TWO64 && c.length < TWO32 witness Chunk(0, 0, ZeroDigest)

  datatype ManifestFile = ManifestFile(path: Path, size: int64, digest: Digest, modNano: int, chunks: seq<WireChunk>)

  datatype Manifest = Manifest(version: int, job: string, files: seq<ManifestFile>)

  /** Bytes covered by the first k chunks. */
  function Covered(cs: seq<Chunk>, k: nat): nat
    requires k <= |cs|
  {
    if k == 0 then 0 else Covered(cs, k - 1) + cs[k - 1].length
  }

  /** The loop's accumulator after k chunks: a uint64, which wraps. */
  function Next(cs: seq<Chunk>, k: nat): uint64
    requires k <= |cs|
  {
    Wrap(Covered(cs, k), TWO64)
  }

  /** What the loop of validateManifestFile accepts. */
  predicate ValidChunk(cs: seq<Chunk>, i: nat)
    requires i < |cs|
  {
    cs[i].offset == Next(cs, i) && 0 < cs[i].length <= MAX_CHUNK
  }

  ghost predicate ValidFile(f: ManifestFile, clean: Path -> bool) {
    && clean(f.path) && 0 <= f.size
    && (forall i :: 0 <= i < |f.chunks| ==> ValidChunk(f.chunks, i))
    && f.size == I64(Next(f.chunks, |f.chunks|))
  }

  ghost predicate Distinct(files: seq<ManifestFile>, n: nat)
    requires n <= |files|
  {
    forall i, j :: 0 <= i < j < n ==> files[i].path != files[j].path
  }

  ghost predicate Valid(man: Manifest, job: string, clean: Path -> bool) {
    && man.version == SCHEMA && man.job == job
    && (forall i :: 0 <= i < |man.files| ==> ValidFile(man.files[i], clean))
    && Distinct(man.files, |man.files|)
  }

  lemma NextStep(cs: seq<Chunk>, k: nat)
    requires k < |cs|
    ensures U64(Next(cs, k) + cs[k].length) == Next(cs, k + 1)
  {
    var a, b := Covered(cs, k), cs[k].length;
    assert (a % TWO64 + b) % TWO64 == (a + b) % TWO64;
  }

  lemma NextStart(cs: seq<Chunk>)
    ensures Next(cs, 0) == 0
  {}

  method ValidateFile(f: ManifestFile, clean: Path -> bool) returns (ok: bool)
    ensures ok <==> ValidFile(f, clean)
  {
    hide Next, U64, I64;
    if !clean(f.path) || f.size < 0 { return false; }
    NextStart(f.chunks);
    var next: uint64 := 0;
    for i := 0 to |f.chunks|
      invariant next == Next(f.chunks, i)
      invariant forall k :: 0 <= k < i ==> ValidChunk(f.chunks, k)
    {
      var c := f.chunks[i];
      if c.offset != next || c.length == 0 || c.length > MAX_CHUNK {
        assert !ValidChunk(f.chunks, i);
        return false;
      }
      NextStep(f.chunks, i);
      next := U64(next + c.length);
    }
    return I64(next) == f.size;
  }

  /** The paths seen in the first n files. */
  ghost function Seen(files: seq<ManifestFile>, n: nat): set<Path>
    requires n <= |files|
  {
    set k | 0 <= k < n :: files[k].path
  }

  lemma SeenNext(files: seq<ManifestFile>, n: nat)
    requires n < |files|
    ensures Seen(files, n + 1) == Seen(files, n) + {files[n].path}
  {}

  lemma DistinctNext(files: seq<ManifestFile>, n: nat)
    requires n < |files| && Distinct(files, n)
    ensures Distinct(files, n + 1) <==> files[n].path !in Seen(files, n)
    ensures !Distinct(files, n + 1) ==> !Distinct(files, |files|)
  {
    if files[n].path in Seen(files, n) {
      var k :| 0 <= k < n && files[k].path == files[n].path;
    }
  }

  method Validate(man: Manifest, job: string, clean: Path -> bool) returns (ok: bool)
    ensures ok <==> Valid(man, job, clean)
  {
    if man.version != SCHEMA || man.job != job { return false; }
    var seen: set<Path> := {};
    assert Distinct(man.files, 0) && Seen(man.files, 0) == {};
    hide ValidFile, Distinct, Seen;
    for i := 0 to |man.files|
      invariant forall k :: 0 <= k < i ==> ValidFile(man.files[k], clean)
      invariant seen == Seen(man.files, i) && Distinct(man.files, i)
    {
      var good := ValidateFile(man.files[i], clean);
      if !good { return false; }
      DistinctNext(man.files, i);
      if man.files[i].path in seen { return false; }
      SeenNext(man.files, i);
      seen := seen + {man.files[i].path};
    }
    return true;
  }

  lemma {:induction false} CoveredBound(cs: seq<Chunk>, k: nat)
    requires k <= |cs| && forall i :: 0 <= i < k ==> 0 < cs[i].length <= MAX_CHUNK
    ensures k <= Covered(cs, k) <= k * MAX_CHUNK
  {
    if k > 0 { CoveredBound(cs, k - 1); }
  }

  /** The chunks lie end to end from 0 and cover exactly size bytes. */
  ghost predicate Contiguous(cs: seq<Chunk>, size: int) {
    && (forall i :: 0 <= i < |cs| ==> cs[i].offset == Covered(cs, i) && 0 < cs[i].length <= MAX_CHUNK)
    && Covered(cs, |cs|) == size
  }

  lemma {:induction false} CoveredMonotone(cs: seq<Chunk>, i: nat, j: nat)
    requires i <= j <= |cs|
    ensures Covered(cs, i) <= Covered(cs, j)
    decreases j
  {
    if i < j { CoveredMonotone(cs, i, j - 1); }
  }

  lemma SmallWrap(x: nat)
    requires x < TWO63
    ensures Wrap(x, TWO64) == x && I64(x) == x
  {}

  /** A manifest small enough to be read (32 MiB of JSON, so fewer chunks than that) is
      accepted exactly when its chunks tile the file: the wrap-around cannot be reached. */
  lemma AcceptedIffContiguous(f: ManifestFile, clean: Path -> bool)
    requires |f.chunks| <= MAX_JSON
    ensures ValidFile(f, clean) <==> clean(f.path) && Contiguous(f.chunks, f.size)
  {
    var cs := f.chunks;
    if forall i :: 0 <= i < |cs| ==> 0 < cs[i].length <= MAX_CHUNK {
      hide Wrap, I64, Covered;
      CoveredBound(cs, |cs|);
      forall i | 0 <= i <= |cs| ensures Next(cs, i) == Covered(cs, i) && I64(Covered(cs, i)) == Covered(cs, i) {
        CoveredMonotone(cs, i, |cs|);
        SmallWrap(Covered(cs, i));
      }
      forall i | 0 <= i < |cs| ensures ValidChunk(cs, i) <==> cs[i].offset == Covered(cs, i) {}
    } else {
      var i :| 0 <= i < |cs| && !(0 < cs[i].length <= MAX_CHUNK);
      assert !ValidChunk(cs, i);
    }
  }

  /** Without that cap the accumulator can come round: 2^38 chunks of 64 MiB pass for an
      empty file. */
  lemma WrappedCoverAccepted(d: Digest, clean: Path -> bool, path: Path)
    requires clean(path)
    ensures exists f: ManifestFile :: f.size == 0 && |f.chunks| == 0x40_0000_0000 && ValidFile(f, clean)
  {
    var n := 0x40_0000_0000;
    var cs := seq(n, i requires 0 <= i < n => Lap(i, d));
    forall k | 0 <= k <= n ensures Next(cs, k) == Wrap(k * MAX_CHUNK, TWO64) { EvenCover(cs, k); }
    assert Wrap(n * MAX_CHUNK, TWO64) == 0;
    var f := ManifestFile(path, 0, d, 0, cs);
    hide Wrap, Next;
    forall i | 0 <= i < n ensures ValidChunk(cs, i) { assert cs[i] == Lap(i, d); }
    assert ValidFile(f, clean);
  }

  function Lap(i: nat, d: Digest): WireChunk {
    Chunk(Wrap(i * MAX_CHUNK, TWO64), MAX_CHUNK, d)
  }

  lemma {:induction false} EvenCover(cs: seq<Chunk>, k: nat)
    requires k <= |cs| && forall i :: 0 <= i < |cs| ==> cs[i].length == MAX_CHUNK
    ensures Covered(cs, k) == k * MAX_CHUNK
  {
    if k > 0 { EvenCover(cs, k - 1); }
  }
}
