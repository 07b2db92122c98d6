/** internal/relay/relay.go: Send, and what any number of senders do to one mid store. */
module RelayPublish {
  import opened Base
  import opened Chunker
  import opened ChunkerLaws
  import opened WriteSession
  import opened RelayManifest

  /** A JSON body in the store: its size, and what it decodes to. */
  datatype Blob = Blob(decoded: Option<Manifest>, size: nat)

  /** A lease; None stands for the zero time, which never expires. */
  datatype Lease = Lease(expires: Option<int>)

  /** The mid store under one job prefix: objects by the digest in their name, the lease, the
      manifest, the notify marker and the number of files acknowledged. */
  datatype Store = Store(objects: map<Digest, Bytes>, lease: Option<Lease>, manifest: Option<Blob>, notify: bool,
                         ack: Option<nat>)

  /** A walked source file and what opening and reading it gives. */
  datatype SourceFile = SourceFile(path: Path, size: int64, modNano: int, read: Option<Bytes>)

  /** The name of every object is the digest of its bytes. */
  predicate Addressed(objects: map<Digest, Bytes>) {
    forall d :: d in objects ==> d == Sum(objects[d])
  }

  predicate Grown(before: map<Digest, Bytes>, after: map<Digest, Bytes>) {
    forall d :: d in before ==> d in after && after[d] == before[d]
  }

  ghost predicate Stored(cs: seq<Chunk>, k: nat, objects: map<Digest, Bytes>)
    requires k <= |cs|
  {
    forall i :: 0 <= i < k ==> cs[i].digest in objects
  }

  /** One chunk of Send: skipped if this sender knows it or a Stat finds it, else put. */
  function Upload(objects: map<Digest, Bytes>, uploaded: set<Digest>, d: Digest, data: Bytes,
                  statFails: bool): (map<Digest, Bytes>, set<Digest>)
  {
    if d in uploaded || (d in objects && !statFails) then (objects, uploaded + {d})
    else (objects[d := data], uploaded + {d})
  }

  /** The JSON form of a chunk. */
  function WireOf(c: Chunk): WireChunk { Chunk(U64(c.offset), U32(c.length), c.digest) }

  function WireChunks(cs: seq<Chunk>, k: nat): seq<WireChunk>
    requires k <= |cs|
  {
    if k == 0 then [] else WireChunks(cs, k - 1) + [WireOf(cs[k - 1])]
  }

  /** Nothing is lost on the wire for a file whose size fits an int64. */
  lemma {:induction false} WireIsExact(cs: seq<Chunk>, x: Bytes, k: nat)
    requires k <= |cs| && |x| < TWO63 && Tiles(cs, x, 0)
    requires forall i :: 0 <= i < |cs| ==> cs[i].length < TWO32
    ensures WireChunks(cs, k) == cs[..k]
  {
    TilesPointwise(cs, x, 0);
    if k > 0 {
      WireIsExact(cs, x, k - 1);
      assert cs[..k] == cs[..k - 1] + [cs[k - 1]];
    }
  }

  /** The manifest entry that Send builds for f when its bytes are x. */
  function EntryOf(f: SourceFile, p: Params, x: Bytes): ManifestFile
    requires 0 < p.max
  {
    var cs := Chunks(p, x, 0);
    ManifestFile(f.path, f.size, Sum(x), f.modNano, WireChunks(cs, |cs|))
  }

  /** The size hint that StreamChunks enforces; a walked size of 0 disables it. */
  predicate HintHolds(f: SourceFile, x: Bytes) { f.size > 0 ==> f.size == |x| }

  predicate Sendable(f: SourceFile) { f.read.Some? && |f.read.value| < TWO63 && HintHolds(f, f.read.value) }

  predicate AllSendable(files: seq<SourceFile>, k: nat)
    requires k <= |files|
  {
    forall i :: 0 <= i < k ==> Sendable(files[i])
  }

  function Entries(files: seq<SourceFile>, p: Params, k: nat): seq<ManifestFile>
    requires k <= |files| && 0 < p.max && AllSendable(files, k)
  {
    if k == 0 then [] else Entries(files, p, k - 1) + [EntryOf(files[k - 1], p, files[k - 1].read.value)]
  }

  // ---------------------------------------------------------------- a manifest that can be read back

  /** The entry tells the truth about x and every chunk of it is in the store. */
  ghost predicate BackedBy(f: ManifestFile, x: Bytes, objects: map<Digest, Bytes>) {
    && f.digest == Sum(x) && Tiles(f.chunks, x, 0)
    && Stored(f.chunks, |f.chunks|, objects)
  }

  ghost predicate Backed(f: ManifestFile, objects: map<Digest, Bytes>) {
    exists x :: BackedBy(f, x, objects)
  }

  ghost predicate AllBacked(files: seq<ManifestFile>, objects: map<Digest, Bytes>) {
    forall i :: 0 <= i < |files| ==> Backed(files[i], objects)
  }

  /** The bytes that the chunks name, end to end. */
  function Assemble(cs: seq<Chunk>, objects: map<Digest, Bytes>): Bytes
    requires forall i :: 0 <= i < |cs| ==> cs[i].digest in objects
  {
    if cs == [] then [] else objects[cs[0].digest] + Assemble(cs[1..], objects)
  }

  lemma {:induction false} AssembleTiles(cs: seq<Chunk>, x: Bytes, from: nat, objects: map<Digest, Bytes>)
    requires from <= |x| && Tiles(cs, x, from) && Addressed(objects) && Stored(cs, |cs|, objects)
    ensures Assemble(cs, objects) == x[from..]
    ensures forall i :: 0 <= i < |cs| ==> |objects[cs[i].digest]| == cs[i].length
    decreases |cs|
  {
    if cs != [] {
      var n := cs[0].length;
      SumInjective(objects[cs[0].digest], x[from..from + n]);
      assert Stored(cs[1..], |cs| - 1, objects) by {
        forall i | 0 <= i < |cs| - 1 ensures cs[1..][i].digest in objects { assert cs[1..][i] == cs[i + 1]; }
      }
      AssembleTiles(cs[1..], x, from + n, objects);
      assert x[from..] == x[from..from + n] + x[from + n..];
      forall i | 0 <= i < |cs| ensures |objects[cs[i].digest]| == cs[i].length {
        if i > 0 { assert cs[i] == cs[1..][i - 1]; }
      }
    }
  }

  /** A backed entry can be read back: every object it names is there with the declared
      length, and end to end they are the file of the declared digest. */
  lemma BackedReadsBack(f: ManifestFile, objects: map<Digest, Bytes>)
    requires Addressed(objects) && Backed(f, objects)
    ensures forall i :: 0 <= i < |f.chunks| ==>
      f.chunks[i].digest in objects && |objects[f.chunks[i].digest]| == f.chunks[i].length
    ensures Sum(Assemble(f.chunks, objects)) == f.digest
  {
    hide Addressed, Tiles, Assemble;
    var x :| BackedBy(f, x, objects);
    AssembleTiles(f.chunks, x, 0, objects);
    assert x[0..] == x;
  }

  lemma BackedGrows(f: ManifestFile, before: map<Digest, Bytes>, after: map<Digest, Bytes>)
    requires Backed(f, before) && Grown(before, after)
    ensures Backed(f, after)
  {
    hide Tiles;
    var x :| BackedBy(f, x, before);
    assert BackedBy(f, x, after);
  }

  lemma AllBackedGrows(files: seq<ManifestFile>, before: map<Digest, Bytes>, after: map<Digest, Bytes>)
    requires AllBacked(files, before) && Grown(before, after)
    ensures AllBacked(files, after)
  {
    hide Backed, Grown;
    forall i | 0 <= i < |files| ensures Backed(files[i], after) { BackedGrows(files[i], before, after); }
  }

  lemma EntryIsBacked(f: SourceFile, p: Params, x: Bytes, objects: map<Digest, Bytes>)
    requires 0 < p.max < TWO32 && |x| < TWO63
    requires Stored(Chunks(p, x, 0), |Chunks(p, x, 0)|, objects)
    ensures EntryOf(f, p, x).chunks == Chunks(p, x, 0)
    ensures BackedBy(EntryOf(f, p, x), x, objects)
  {
    var cs := Chunks(p, x, 0);
    SignatureOfIsTrue(p, x);
    assert Tiles(cs, x, 0);
    hide Chunks, Tiles, WireChunks;
    forall i | 0 <= i < |cs| ensures cs[i].length < TWO32 { ChunkSizes(p, x, 0, i); }
    WireIsExact(cs, x, |cs|);
    assert cs[..|cs|] == cs;
  }

  ghost predicate Known(uploaded: set<Digest>, objects: map<Digest, Bytes>) {
    forall d :: d in uploaded ==> d in objects
  }

  /** Uploading a chunk stores it and disturbs no other object. */
  lemma UploadKeeps(objects: map<Digest, Bytes>, uploaded: set<Digest>, d: Digest, data: Bytes, statFails: bool)
    requires Addressed(objects) && d == Sum(data) && Known(uploaded, objects)
    ensures var (objects', uploaded') := Upload(objects, uploaded, d, data, statFails);
            && Addressed(objects') && Grown(objects, objects') && Known(uploaded', objects') && d in objects'
  {
    if d in objects { SumInjective(objects[d], data); }
  }

  lemma OneMoreBacked(files: seq<ManifestFile>, f: ManifestFile, x: Bytes, objects: map<Digest, Bytes>)
    requires AllBacked(files, objects) && BackedBy(f, x, objects)
    ensures AllBacked(files + [f], objects)
  {
    hide BackedBy;
  }

  lemma PieceData(p: Params, x: Bytes, k: nat)
    requires 0 < p.max && k < |Chunks(p, x, 0)|
    ensures Chunks(p, x, 0)[k].digest == Sum(DataOf(x, Chunks(p, x, 0)[k]))
  {
    SignatureOfIsTrue(p, x);
    TilesPointwise(Chunks(p, x, 0), x, 0);
  }

  lemma StoredGrows(cs: seq<Chunk>, k: nat, before: map<Digest, Bytes>, after: map<Digest, Bytes>)
    requires k <= |cs| && Stored(cs, k, before) && Grown(before, after)
    ensures Stored(cs, k, after)
    ensures k < |cs| && cs[k].digest in after ==> Stored(cs, k + 1, after)
  {}
}
