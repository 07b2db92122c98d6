/** internal/relay/relay.go: materialize and promoteStaged, one manifest file each. */
module RelayStage {
  import opened Base
  import opened Chunker
  import opened Delta
  import opened Ranges
  import opened WriteSession
  import opened Transfer
  import opened Endpoints
  import opened Evidence
  import opened RelayManifest
  import opened RelayPublish
  import opened RelaySend

  predicate Holds(objects: map<Digest, Bytes>, d: Digest, length: nat) {
    d in objects && Sum(objects[d]) == d && |objects[d]| == length && 0 < length <= MAX_CHUNK
  }

  /** What is stored stays: nobody else is there, or the others are honest and so is the store. */
  predicate Lasting(others: Others, objects: map<Digest, Bytes>) {
    others.Nobody? || (Trusted(others) && Addressed(objects))
  }

  lemma HoldsLater(others: Others, a: Store, b: Store, d: Digest, length: nat)
    requires May(others, a, b) && Lasting(others, a.objects) && Holds(a.objects, d, length)
    ensures Holds(b.objects, d, length)
  {}

  /** readObject: exactly the bytes that the name and the length promise, or nothing. */
  method Fetch(mid: Mid, want: Digest, length: nat, calm: bool) returns (r: Option<Bytes>)
    modifies mid
    ensures May(mid.others, old(mid.store), mid.store)
    ensures r.Some? ==> Sum(r.value) == want && |r.value| == length && 0 < length <= MAX_CHUNK
    ensures calm && Lasting(mid.others, old(mid.store.objects)) && Holds(old(mid.store.objects), want, length) ==>
              r.Some?
  {
    ghost var store0 := mid.store;
    MayNothing(mid.others, store0);
    if length == 0 || length > MAX_CHUNK { return None; }
    mid.Meanwhile();
    if Lasting(mid.others, store0.objects) && Holds(store0.objects, want, length) {
      HoldsLater(mid.others, store0, mid.store, want, length);
    }
    hide May, Lasting, Addressed;
    var fails := Trouble(calm);
    if fails || want !in mid.store.objects { return None; }
    var stored := mid.store.objects[want];
    var data := stored[..Min(|stored|, length + 1)];
    if |data| != length { return None; }
    assert data == stored;
    if Sum(data) != want { return None; } // poison
    r := Some(data);
  }

  /** The store can serve every chunk of f, whose bytes are x. */
  ghost predicate Serves(objects: map<Digest, Bytes>, f: ManifestFile, x: Bytes) {
    && Addressed(objects) && BackedBy(f, x, objects)
    && f.size == |x| && |x| + 1 < TWO63
    && forall i :: 0 <= i < |f.chunks| ==> f.chunks[i].length <= MAX_CHUNK
  }

  lemma ServesLater(others: Others, a: Store, b: Store, f: ManifestFile, x: Bytes)
    requires May(others, a, b) && Trusted(others) && Serves(a.objects, f, x)
    ensures Serves(b.objects, f, x)
  {
    hide Tiles;
  }

  lemma ServesChunk(others: Others, objects: map<Digest, Bytes>, f: ManifestFile, x: Bytes, i: nat)
    requires Serves(objects, f, x) && i < |f.chunks|
    ensures Trusted(others) ==> Lasting(others, objects)
    ensures Holds(objects, f.chunks[i].digest, f.chunks[i].length)
    ensures f.chunks[i].digest == Sum(DataOf(x, f.chunks[i]))
  {
    AssembleTiles(f.chunks, x, 0, objects);
    TilesPointwise(f.chunks, x, 0);
    hide Assemble, Tiles;
  }

  function SrcSig(f: ManifestFile): Signature { Signature(f.size, f.digest, f.chunks) }

  function JobOf(f: ManifestFile, destSig: Signature, supports: bool): Job {
    JobFor(map[], CodecNone, SrcSig(f), destSig, supports)
  }

  /** What is known of the leftover at the staged path. */
  ghost predicate LeftoverKnown(files: Files, staged: Path, destSig: Signature) {
    if destSig == ABSENT then true
    else staged in files && |files[staged].content| < TWO63 && TrueOf(destSig, Some(files[staged]), DEFAULT_MAX)
  }

  /** The chunks sent so far went through, and the session is where they lead. */
  ghost predicate OnTrack(job: Job, s0: Session, files: Files, cs: seq<Chunk>, x: Bytes, i: nat, s: Session)
    requires i <= |cs|
  {
    && SendAll(job, s0, files, cs, x, |cs|).err.None?
    && SendAll(job, s0, files, cs, x, i).err.None?
    && SendAll(job, s0, files, cs, x, i).session == s
  }

  lemma OnTrackNext(job: Job, s0: Session, files: Files, cs: seq<Chunk>, x: Bytes, i: nat, s: Session, data: Bytes)
    requires i < |cs| && OnTrack(job, s0, files, cs, x, i, s)
    requires Wired(job, cs[i]) || !job.canReuse ==> data == DataOf(x, cs[i])
    ensures var r := SendStep(job, s, files, cs[i], data);
            r.err.None? && OnTrack(job, s0, files, cs, x, i + 1, r.session)
  {
    ReuseIgnoresData(job, s, files, cs[i], data, DataOf(x, cs[i]));
    SendAllNext(job, s0, files, cs, x, i);
    hide SendAll, SendStep, Wired;
    if SendAll(job, s0, files, cs, x, i + 1).err.Some? { SendAllStops(job, s0, files, cs, x, i + 1, |cs|); }
  }

  lemma ReuseIgnoresData(job: Job, s: Session, files: Files, c: Chunk, data: Bytes, data': Bytes)
    requires Wired(job, c) || !job.canReuse ==> data == data'
    ensures SendStep(job, s, files, c, data) == SendStep(job, s, files, c, data')
  {
    hide WriteStep, ReuseStep, Encode, U64, I64;
  }

  lemma OnTrackStart(job: Job, s0: Session, files: Files, cs: seq<Chunk>, x: Bytes)
    requires SendAll(job, s0, files, cs, x, |cs|).err.None?
    ensures OnTrack(job, s0, files, cs, x, 0, s0)
  {}

  lemma OnTrackEnd(job: Job, s0: Session, files: Files, cs: seq<Chunk>, x: Bytes, s: Session)
    requires OnTrack(job, s0, files, cs, x, |cs|, s)
    ensures s == SendAll(job, s0, files, cs, x, |cs|).session
  {}

  /** A served file goes through and fills the staging session with its bytes, whatever
      leftover the staged path holds and whether or not chunks of it can be reused. */
  lemma ServedFills(objects: map<Digest, Bytes>, f: ManifestFile, x: Bytes, destSig: Signature, supports: bool,
                    files: Files, staged: Path)
    requires Serves(objects, f, x) && LeftoverKnown(files, staged, destSig)
    ensures var s := Begin(files, staged, f.size);
            var r := SendAll(JobOf(f, destSig, supports), s, files, f.chunks, x, |f.chunks|);
            r.err.None? && r.session == s.(staging := Some(x))
  {
    var s, job, cs := Begin(files, staged, f.size), JobOf(f, destSig, supports), f.chunks;
    var y := if destSig == ABSENT then None else Some(files[staged].content);
    ServedSetting(objects, f, x, destSig, files, staged);
    assert s.staging.Some? && f.size == |x|;
    assert job == JobFor(job.packed, job.pref, SrcSig(f), destSig, supports);
    assert job.pref == CodecNone && SrcSig(f).chunks == cs;
    ServedWorks(objects, f, x, destSig, supports, files, staged);
    hide *;
    SendAllFills(job, SrcSig(f), x, destSig, y, supports, s, files, |cs|);
    FilledWhole(job, s, cs, x, SendAll(job, s, files, cs, x, |cs|));
  }

  lemma ServedSetting(objects: map<Digest, Bytes>, f: ManifestFile, x: Bytes, destSig: Signature, files: Files,
                      staged: Path)
    requires Serves(objects, f, x) && LeftoverKnown(files, staged, destSig)
    ensures Setting(SrcSig(f), x, destSig, if destSig == ABSENT then None else Some(files[staged].content),
                    Begin(files, staged, f.size), files)
  {
    hide Tiles, Addressed, Stored;
  }

  lemma ServedWorks(objects: map<Digest, Bytes>, f: ManifestFile, x: Bytes, destSig: Signature, supports: bool,
                    files: Files, staged: Path)
    requires Serves(objects, f, x) && LeftoverKnown(files, staged, destSig)
    ensures forall i :: 0 <= i < |f.chunks| ==> Works(JobOf(f, destSig, supports), f.chunks[i], DataOf(x, f.chunks[i]))
  {
    var job := JobOf(f, destSig, supports);
    TilesPointwise(f.chunks, x, 0);
    TilesCoherent(f.chunks, x);
    assert forall k :: 0 <= k < |destSig.chunks| ==> destSig.chunks[k].length <= DEFAULT_MAX;
    hide Tiles, Coherent, Works, Stored, Addressed, JobFor;
    forall i | 0 <= i < |f.chunks| ensures Works(job, f.chunks[i], DataOf(x, f.chunks[i])) {
      ChunkWithinCaps(job, map[], CodecNone, SrcSig(f), destSig, supports, i, DataOf(x, f.chunks[i]), DEFAULT_MAX);
    }
  }

  /** The staged path holds a file of the manifest's digest, and no other quiet path has
      changed. */
  ghost predicate StagedAs(quiet: Path -> bool, files0: Files, files: Files, staged: Path, f: ManifestFile) {
    && staged in files && Sum(files[staged].content) == f.digest
    && Same(quiet, files0[staged := files[staged]], files)
  }

  predicate LeftoverFits(files: Files, path: Path) { path in files ==> |files[path].content| < TWO63 }

  /** GetSignature of the staged path; an error counts as nothing there. */
  method Leftover(dst: Dest, staged: Path, gear: GearTable) returns (destSig: Signature)
    modifies dst.tree
    ensures Same(dst.quiet, old(dst.tree.files), dst.tree.files)
    ensures dst.quiet(staged) && LeftoverFits(old(dst.tree.files), staged) ==>
              LeftoverKnown(old(dst.tree.files), staged, destSig)
  {
    destSig := ABSENT;
    ghost var files0 := dst.tree.files;
    if staged in files0 { FreshSignature(gear, files0[staged].content); }
    hide Same, SignatureOf, TrueSignature;
    var sig := dst.GetSignature(staged, gear);
    if sig.Some? { destSig := sig.value; }
  }

  lemma SrcSigFields(f: ManifestFile)
    ensures SrcSig(f).chunks == f.chunks
  {}

  lemma JobOfFields(f: ManifestFile, destSig: Signature, supports: bool)
    ensures var plan := PlanFor(SrcSig(f).chunks, Have(destSig.chunks));
            JobOf(f, destSig, supports) ==
            Job(map[], CodecNone, MissingSet(plan), ByNewOffset(plan.reuse), supports && |destSig.chunks| > 0,
                |destSig.chunks| == 0)
  {
    hide PlanFor, Have, MissingSet, ByNewOffset;
  }

  lemma BeginPath(quiet: Path -> bool, files0: Files, files: Files, path: Path, size: int64, ws: LocalSession)
    requires ws.View() == Begin(files, path, size) && Same(quiet, files0, files)
    ensures ws.path == path && !ws.committed
    ensures quiet(path) ==> ws.View() == Begin(files0, path, size)
  {
    SameAt(quiet, files0, files, path);
    hide Same;
  }

  lemma WiredIs(job: Job, c: Chunk)
    ensures Wired(job, c) <==> c.digest in job.missing || job.fullWire
  {}

  /** The bytes of one chunk, if they are needed. */
  method Piece(mid: Mid, job: Job, f: ManifestFile, i: nat, calm: bool, ghost served: bool, ghost x: Bytes)
    returns (got: Option<Bytes>)
    requires i < |f.chunks| && (served ==> calm && Trusted(mid.others) && Serves(mid.store.objects, f, x))
    modifies mid
    ensures May(mid.others, old(mid.store), mid.store)
    ensures served ==> got.Some? && Serves(mid.store.objects, f, x)
    ensures served && (Wired(job, f.chunks[i]) || !job.canReuse) ==> got.value == DataOf(x, f.chunks[i])
  {
    hide *;
    var c := f.chunks[i];
    ghost var store0 := mid.store;
    MayNothing(mid.others, store0);
    WiredIs(job, c);
    if c.digest !in job.missing && !job.fullWire && job.canReuse { return Some([]); }
    if served { ServesChunk(mid.others, store0.objects, f, x, i); }
    got := Fetch(mid, c.digest, c.length, calm);
    if served {
      ServesLater(mid.others, store0, mid.store, f, x);
      SumInjective(got.value, DataOf(x, c));
    }
  }

  /** One turn of the loop of materialize, from the mid store or reused from the leftover;
      `files0` is the tree at the start and `s0` the session then. */
  method CollectOne(mid: Mid, dst: Dest, ws: LocalSession, job: Job, f: ManifestFile, i: nat, calm: bool,
                    ghost files0: Files, ghost s0: Session, ghost served: bool, ghost x: Bytes)
    returns (ok: bool)
    requires i < |f.chunks| && Same(dst.quiet, files0, dst.tree.files)
    requires served ==> calm && Trusted(mid.others) && Serves(mid.store.objects, f, x)
    requires served ==> dst.quiet(ws.path) && OnTrack(job, s0, files0, f.chunks, x, i, ws.View())
    modifies mid, ws`staging, dst.tree
    ensures May(mid.others, old(mid.store), mid.store) && Same(dst.quiet, files0, dst.tree.files)
    ensures served ==> ok && Serves(mid.store.objects, f, x)
    ensures served ==> OnTrack(job, s0, files0, f.chunks, x, i + 1, ws.View())
  {
    hide *;
    ghost var files1, s1 := dst.tree.files, ws.View();
    var got := Piece(mid, job, f, i, calm, served, x);
    if got.None? { return false; }
    dst.Meanwhile();
    SameTwice(dst.quiet, files0, files1, dst.tree.files);
    if served {
      ViewPath(ws);
      OnTrackNext(job, s0, files0, f.chunks, x, i, s1, got.value);
      SameStep(dst.quiet, job, s1, files0, dst.tree.files, f.chunks[i], got.value);
    }
    var r := SendOne(job, ws, dst.tree, f.chunks[i], got.value);
    ok := r.err.None?;
  }

  method Collect(mid: Mid, dst: Dest, ws: LocalSession, job: Job, f: ManifestFile, calm: bool, ghost files0: Files,
                 ghost served: bool, ghost x: Bytes)
    returns (ok: bool)
    requires Same(dst.quiet, files0, dst.tree.files)
    requires served ==> calm && Trusted(mid.others) && Serves(mid.store.objects, f, x)
    requires served ==> dst.quiet(ws.path) && OnTrack(job, ws.View(), files0, f.chunks, x, 0, ws.View())
    modifies mid, ws`staging, dst.tree
    ensures May(mid.others, old(mid.store), mid.store) && Same(dst.quiet, files0, dst.tree.files)
    ensures served ==>
      ok && Serves(mid.store.objects, f, x) && OnTrack(job, old(ws.View()), files0, f.chunks, x, |f.chunks|, ws.View())
  {
    hide *;
    ghost var s0, store0 := ws.View(), mid.store;
    MayNothing(mid.others, store0);
    ok := true;
    for i := 0 to |f.chunks|
      invariant May(mid.others, store0, mid.store) && Same(dst.quiet, files0, dst.tree.files)
      invariant served ==> ok && Serves(mid.store.objects, f, x)
      invariant served ==> OnTrack(job, s0, files0, f.chunks, x, i, ws.View())
    {
      ghost var store1 := mid.store;
      ok := CollectOne(mid, dst, ws, job, f, i, calm, files0, s0, served, x);
      MayTwice(mid.others, store0, store1, mid.store);
      if !ok { return; }
    }
  }

  method CollectAndCommit(mid: Mid, dst: Dest, ws: LocalSession, job: Job, f: ManifestFile, calm: bool,
                          ghost files0: Files, ghost served: bool, ghost x: Bytes)
    returns (ok: bool)
    requires !ws.committed && Same(dst.quiet, files0, dst.tree.files)
    requires served ==> calm && Trusted(mid.others) && Serves(mid.store.objects, f, x) && dst.calm && dst.quiet(ws.path)
    requires served ==>
      var r := SendAll(job, ws.View(), files0, f.chunks, x, |f.chunks|);
      r.err.None? && r.session.staging == Some(x)
    modifies mid, ws, dst.tree
    ensures May(mid.others, old(mid.store), mid.store)
    ensures !ok ==> Same(dst.quiet, files0, dst.tree.files)
    ensures ok ==> StagedAs(dst.quiet, files0, dst.tree.files, ws.path, f)
    ensures served ==> ok
  {
    hide *;
    ghost var s0 := ws.View();
    if served { OnTrackStart(job, s0, files0, f.chunks, x); }
    ok := Collect(mid, dst, ws, job, f, calm, files0, served, x);
    if !ok { ws.Abort(); return; }
    if served {
      OnTrackEnd(job, s0, files0, f.chunks, x, ws.View());
      StagedBytes(mid.store.objects, f, x, ws);
    }
    ghost var files1 := dst.tree.files;
    ok := CommitIt(ws, dst, f);
    if !ok { ws.Abort(); return; }
    StagedIs(dst.quiet, files0, files1, dst.tree.files, ws.path, f);
  }

  /** materialize: fills the staged path, or changes nothing; what it commits has the
      manifest's digest whatever the store holds. */
  method Materialize(mid: Mid, dst: Dest, staged: Path, f: ManifestFile, gear: GearTable, calm: bool, ghost x: Bytes)
    returns (ok: bool)
    modifies mid, dst.tree
    ensures May(mid.others, old(mid.store), mid.store)
    ensures !ok ==> Same(dst.quiet, old(dst.tree.files), dst.tree.files)
    ensures ok ==> StagedAs(dst.quiet, old(dst.tree.files), dst.tree.files, staged, f)
    ensures calm && mid.Honest() && dst.Sure(staged) && Serves(old(mid.store.objects), f, x)
            && LeftoverFits(old(dst.tree.files), staged) ==>
              ok
  {
    ghost var objects, files0 := mid.store.objects, dst.tree.files;
    ghost var served := calm && mid.Honest() && dst.Sure(staged) && Serves(objects, f, x)
                        && LeftoverFits(files0, staged);
    assert served ==> dst.calm && dst.quiet(staged);
    hide *;
    MayNothing(mid.others, mid.store);
    ok := false;
    var destSig := Leftover(dst, staged, gear);
    SrcSigFields(f);
    var plan := Diff(SrcSig(f), destSig);
    var job := Job(map[], CodecNone, MissingSet(plan), ByNewOffset(plan.reuse),
                   dst.supportsReuse && |destSig.chunks| > 0, |destSig.chunks| == 0);
    JobOfFields(f, destSig, dst.supportsReuse);
    var fails := dst.Hiccup();
    if fails { return; }
    var ws := new LocalSession(dst.tree, staged, f.size);
    BeginPath(dst.quiet, files0, dst.tree.files, staged, f.size, ws);
    if served { ServedFills(objects, f, x, destSig, dst.supportsReuse, files0, staged); }
    ok := CollectAndCommit(mid, dst, ws, job, f, calm, files0, served, x);
  }

  lemma StagedIs(quiet: Path -> bool, files0: Files, files1: Files, files: Files, staged: Path, f: ManifestFile)
    requires Same(quiet, files0, files1) && staged in files && Sum(files[staged].content) == f.digest
    requires files == files1[staged := files[staged]]
    ensures StagedAs(quiet, files0, files, staged, f)
  {
    SameRenamed(quiet, files0, files1, staged, files[staged]);
    hide Same;
  }

  lemma StagedBytes(objects: map<Digest, Bytes>, f: ManifestFile, x: Bytes, ws: LocalSession)
    requires Serves(objects, f, x) && ws.View().staging == Some(x)
    ensures ws.staging == Some(x) && f.digest == Sum(x)
  {}

  method CommitIt(ws: LocalSession, dst: Dest, f: ManifestFile) returns (ok: bool)
    requires !ws.committed
    modifies ws, dst.tree
    ensures !ok ==> dst.tree.files == old(dst.tree.files)
    ensures ok ==> old(ws.staging).Some? && Sum(old(ws.staging).value) == f.digest
    ensures ok ==> dst.tree.files == old(dst.tree.files)[ws.path := File(old(ws.staging).value, f.modNano)]
    ensures dst.calm && old(ws.staging).Some? && Sum(old(ws.staging).value) == f.digest ==> ok
  {
    var fault: Fault := *;
    if dst.calm { fault := NoFault; }
    var err := ws.Commit(dst.tree, f.digest, f.modNano, fault);
    ok := err.None?;
  }

  /** A file of the size and digest that the manifest declares. */
  predicate Fits(file: File, f: ManifestFile) { |file.content| == f.size && Sum(file.content) == f.digest }

  predicate FitsAt(files: Files, path: Path, f: ManifestFile) { path in files && Fits(files[path], f) }

  /** A promotion moves data of the declared size and digest, the content of the staged file,
      to the target and drops that file. */
  ghost predicate PromotedAs(quiet: Path -> bool, files0: Files, files: Files, staged: Path, f: ManifestFile,
                             removed: bool, data: Bytes)
  {
    && Fits(File(data, f.modNano), f) && (quiet(staged) ==> staged in files0 && files0[staged].content == data)
    && var files' := files0[f.path := File(data, f.modNano)];
       Same(quiet, if removed then files' - {staged} else files', files)
  }

  /** LimitReader and ReadAll; the limit is an int64, and a negative one reads nothing. */
  function ReadUpTo(content: Bytes, limit: int64): Bytes {
    if limit <= 0 then [] else content[..Min(|content|, limit)]
  }

  lemma ReadsWhole(content: Bytes, size: int64)
    ensures |ReadUpTo(content, I64(size + 1))| == size ==> ReadUpTo(content, I64(size + 1)) == content
    ensures |content| == size && size + 1 < TWO63 ==> ReadUpTo(content, I64(size + 1)) == content
  {
    I64Exact(size + 1);
  }

  /** One raw write over the whole session leaves exactly the data. */
  lemma WholeWrite(s: Session, files: Files, path: Path, size: int64, data: Bytes)
    requires s == Begin(files, path, size) && |data| == size
    ensures s.path == path && !s.committed
    ensures WriteStep(s, 0, CodecNone, |data|, Plain(data)) == (s.(staging := Some(data)), None)
  {
    assert |s.staging.value| == size;
    assert WriteAt(s.staging.value, 0, data) == data;
    assert Decode(CodecNone, Plain(data), |data|) == Some(data);
    hide WriteAt, Decode, Begin;
    WriteWorks(s, 0, CodecNone, |data|, Plain(data), data);
    assert U64(0) == 0;
  }

  lemma PromotedIs(quiet: Path -> bool, files0: Files, files1: Files, files2: Files, files3: Files, staged: Path,
                   f: ManifestFile, removed: bool, data: Bytes)
    requires Same(quiet, files0, files1) && Same(quiet, files1[f.path := File(data, f.modNano)], files2)
    requires files3 == if removed then files2 - {staged} else files2
    requires |data| == f.size && Sum(data) == f.digest
    requires quiet(staged) ==> staged in files0 && files0[staged].content == data
    ensures PromotedAs(quiet, files0, files3, staged, f, removed, data)
  {
    var file := File(data, f.modNano);
    SameRenamed(quiet, files0, files1, f.path, file);
    SameTwice(quiet, files0[f.path := file], files1[f.path := file], files2);
    forall p | quiet(p) && removed
      ensures Lookup(files2 - {staged}, p) == Lookup(files0[f.path := file] - {staged}, p)
    {
      SameAt(quiet, files0[f.path := file], files2, p);
    }
  }

  /** promoteStaged. `at` is the tree at the rename: then the target is complete, whoever else
      writes there. */
  method Promote(dst: Dest, staged: Path, f: ManifestFile)
    returns (ok: bool, ghost removed: bool, ghost data: Bytes, ghost at: Files)
    modifies dst.tree
    ensures !ok ==> Same(dst.quiet, old(dst.tree.files), dst.tree.files)
    ensures ok ==> f.path in at && Fits(at[f.path], f) && at[f.path].modNano == f.modNano
    ensures ok ==> PromotedAs(dst.quiet, old(dst.tree.files), dst.tree.files, staged, f, removed, data)
    ensures dst.Sure(staged) && f.size + 1 < TWO63 ==> (ok <==> FitsAt(old(dst.tree.files), staged, f))
  {
    ghost var files0 := dst.tree.files;
    SameStart(dst.quiet, files0);
    FitsAtIs(files0, staged, f);
    assert dst.Sure(staged) ==> dst.calm && dst.quiet(staged);
    hide PromotedAs, Begin, I64, WriteStep, CommitStep, FitsAt, ReadUpTo, Same;
    ok, removed, data, at := false, false, [], files0;
    dst.Meanwhile();
    SameAt(dst.quiet, files0, dst.tree.files, staged);
    var fails := dst.Hiccup();
    if fails || staged !in dst.tree.files { return; }
    var content := dst.tree.files[staged].content;
    if !dst.quiet(staged) { content := *; } // read while others write
    ReadsWhole(content, f.size);
    var bytes := ReadUpTo(content, I64(f.size + 1));
    if |bytes| != f.size || Sum(bytes) != f.digest { return; }
    data := bytes;
    fails := dst.Hiccup(); // MkdirAll, BeginWrite
    if fails { return; }
    var ws := new LocalSession(dst.tree, f.path, f.size);
    WholeWrite(ws.View(), dst.tree.files, f.path, f.size, bytes);
    var err := ws.WriteChunk(0, CodecNone, |bytes|, Plain(bytes));
    fails := dst.Hiccup();
    if fails || err.Some? { ws.Abort(); return; }
    ghost var files1 := dst.tree.files;
    dst.Meanwhile();
    SameTwice(dst.quiet, files0, files1, dst.tree.files);
    ghost var files2 := dst.tree.files;
    ok := CommitIt(ws, dst, f);
    if !ok { ws.Abort(); return; }
    at := dst.tree.files;
    dst.Meanwhile();
    ghost var files3 := dst.tree.files;
    fails := dst.Hiccup(); // a failing Remove is ignored
    removed := !fails;
    if !fails { dst.tree.files := dst.tree.files - {staged}; }
    PromotedIs(dst.quiet, files0, files2, files3, dst.tree.files, staged, f, removed, bytes);
  }

  lemma FitsAtIs(files: Files, staged: Path, f: ManifestFile)
    ensures FitsAt(files, staged, f) <==>
            staged in files && |files[staged].content| == f.size && Sum(files[staged].content) == f.digest
  {}
}
