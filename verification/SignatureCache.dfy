/** internal/index/cache.go: destination signatures kept beside the job. */
module SignatureCache {
  import opened Base
  import opened Chunker
  import opened ChunkerLaws

  type Path = string

  datatype Entry = Entry(size: int, modNano: int, digest: Digest, avg: uint32, chunks: seq<Chunk>)

  function DefaultParams(gear: GearTable): (p: Params)
    ensures p.max == DEFAULT_MAX && p.min == DEFAULT_MIN
  {
    ParamsOf(Options(0, 0, 0), gear)
  }

  type CacheMap = map<Path, Entry>

  function SigOf(e: Entry): Signature { Signature(e.size, e.digest, e.chunks) }

  /** What Get answers. */
  function Found(entries: CacheMap, path: Path, size: int, modNano: int, avg: uint32): Option<Signature> {
    if path !in entries then None
    else
      var e := entries[path];
      if e.size != size || e.modNano != modNano then None
      else if avg != 0 && e.avg != avg then None
      else Some(SigOf(e))
  }

  class Cache {
    var entries: CacheMap

    method Get(path: Path, size: int, modNano: int, avg: uint32) returns (r: Option<Signature>)
      ensures r == Found(entries, path, size, modNano, avg)
    {
      if path !in entries { return None; }
      var e := entries[path];
      if e.size != size || e.modNano != modNano { return None; }
      if avg != 0 && e.avg != avg { return None; }
      return Some(Signature(e.size, e.digest, e.chunks));
    }

    method Put(path: Path, size: int, modNano: int, avg: uint32, sig: Signature)
      modifies this
      ensures entries == old(entries)[path := Entry(size, modNano, sig.digest, avg, sig.chunks)]
    {
      entries := entries[path := Entry(size, modNano, sig.digest, avg, sig.chunks)];
    }

    method Delete(path: Path)
      modifies this
      ensures entries == old(entries) - {path}
    {
      entries := entries - {path};
    }
  }

  /** The entry was put for some content chunked with its own average. */
  ghost predicate HonestEntry(e: Entry, gear: GearTable) {
    var p := ParamsOf(Options(e.avg, 0, 0), gear);
    0 < p.max && exists x :: SigOf(e) == SignatureOf(p, x)
  }

  ghost predicate Honest(entries: CacheMap, gear: GearTable) {
    forall path :: path in entries ==> HonestEntry(entries[path], gear)
  }

  /** The longest piece a signature for path can have. */
  function CapFor(entries: CacheMap, path: Path): nat {
    if path in entries then
      var m := Normalized(Options(entries[path].avg, 0, 0)).max;
      if m > DEFAULT_MAX then m else DEFAULT_MAX
    else DEFAULT_MAX
  }

  /** Put keeps the cache honest, and so does Delete: over every history of puts, deletes
      and hits the cache holds only true signatures of some content. */
  lemma PutKeepsHonest(entries: CacheMap, gear: GearTable, path: Path, modNano: int, avg: uint32, x: Bytes)
    requires Honest(entries, gear) && 0 < ParamsOf(Options(avg, 0, 0), gear).max
    ensures var sig := SignatureOf(ParamsOf(Options(avg, 0, 0), gear), x);
            Honest(entries[path := Entry(|x|, modNano, sig.digest, avg, sig.chunks)], gear)
  {
    var sig := SignatureOf(ParamsOf(Options(avg, 0, 0), gear), x);
    var e := Entry(|x|, modNano, sig.digest, avg, sig.chunks);
    assert HonestEntry(e, gear) by { assert SigOf(e) == SignatureOf(ParamsOf(Options(e.avg, 0, 0), gear), x); }
  }

  lemma DeleteKeepsHonest(entries: CacheMap, gear: GearTable, path: Path)
    requires Honest(entries, gear)
    ensures Honest(entries - {path}, gear)
  {
    hide HonestEntry;
  }

  /** An entry of an honest cache whose digest matches the live bytes y is their true
      signature: the cached chunk map agrees with what hashing y again would give. */
  lemma AcceptedIsTrue(entries: CacheMap, gear: GearTable, path: Path, size: int, modNano: int, avg: uint32, y: Bytes)
    requires Honest(entries, gear)
    requires var found := Found(entries, path, size, modNano, avg); found.Some? && found.value.digest == Sum(y)
    ensures var e := entries[path];
            && SigOf(e) == SignatureOf(ParamsOf(Options(e.avg, 0, 0), gear), y)
            && TrueSignature(SigOf(e), y)
            && forall k :: 0 <= k < |e.chunks| ==> e.chunks[k].length <= CapFor(entries, path)
  {
    var e := entries[path];
    assert HonestEntry(e, gear);
    var p := ParamsOf(Options(e.avg, 0, 0), gear);
    var x :| SigOf(e) == SignatureOf(p, x);
    SumInjective(x, y);
    SignatureOfIsTrue(p, y);
    forall k | 0 <= k < |e.chunks| ensures e.chunks[k].length <= CapFor(entries, path) {
      ChunkSizes(p, y, 0, k);
    }
  }

  /** Trusting size and mtime alone would be wrong: a digest that matches says nothing about
      the chunk map of an entry that was not put by the engine. */
  lemma DishonestEntryAccepted(y: Bytes, modNano: int)
    requires y != []
    ensures var e := Entry(|y|, modNano, Sum(y), 0, [Chunk(0, |y|, ZeroDigest)]);
            && Found(map["f" := e], "f", |y|, modNano, 0) == Some(SigOf(e))
            && SigOf(e).digest == Sum(y) && !TrueSignature(SigOf(e), y)
  {
    var e := Entry(|y|, modNano, Sum(y), 0, [Chunk(0, |y|, ZeroDigest)]);
    assert e.chunks[0].digest != Sum(y[0..|y|]);
    assert !ChunkOf(e.chunks[0], y);
  }
}
