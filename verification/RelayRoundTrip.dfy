/** internal/relay/relay.go: Send, then Recv. */
module RelayRoundTrip {
  import opened Base
  import opened Chunker
  import ChunkerLaws
  import opened WriteSession
  import opened Endpoints
  import opened RelayManifest
  import opened RelayPublish
  import opened RelaySend
  import opened RelayStage
  import opened RelayRecv

  function Contents(files: seq<SourceFile>): seq<Bytes> {
    seq(|files|, i requires 0 <= i < |files| => if files[i].read.Some? then files[i].read.value else [])
  }

  /** A stable source tree of regular files: clean, distinct paths outside the staging area,
      each walked at its true size. */
  ghost predicate StableTree(files: seq<SourceFile>, root: string, clean: Path -> bool) {
    && (forall i :: 0 <= i < |files| ==>
          && clean(files[i].path) && files[i].read.Some?
          && files[i].size == |files[i].read.value| && |files[i].read.value| + 1 < TWO63)
    && (forall i, j :: 0 <= i < j < |files| ==> files[i].path != files[j].path)
    && (forall i, j :: 0 <= i < |files| && 0 <= j < |files| ==> files[i].path != Staged(root, files[j].path))
  }

  ghost predicate LeftoversFitFor(tree: Files, root: string, files: seq<SourceFile>) {
    forall i :: 0 <= i < |files| ==> LeftoverFits(tree, Staged(root, files[i].path))
  }

  lemma StableIsSendable(files: seq<SourceFile>, root: string, clean: Path -> bool)
    requires StableTree(files, root, clean)
    ensures AllSendable(files, |files|)
  {
    hide Staged;
  }

  /** The manifest of a stable tree in chunks of at most 64 MiB passes validateManifest. */
  lemma StableIsValid(files: seq<SourceFile>, p: Params, root: string, job: string, clean: Path -> bool)
    requires StableTree(files, root, clean) && 0 < p.max <= MAX_CHUNK
    ensures AllSendable(files, |files|) && Valid(ManifestOf(files, p, job), job, clean)
  {
    StableIsSendable(files, root, clean);
    hide Staged, Valid, ManifestOf, Chunks;
    forall i | 0 <= i < |files| ensures Receivable(files[i], p, clean) { ChunksFit(p, files[i].read.value); }
    SentManifestValidIff(files, p, job, clean);
  }

  /** An entry that Send has published can be served from the store. */
  lemma SentIsServed(f: SourceFile, p: Params, x: Bytes, objects: map<Digest, Bytes>)
    requires 0 < p.max <= MAX_CHUNK && |x| + 1 < TWO63 && f.size == |x|
    requires Addressed(objects) && Backed(EntryOf(f, p, x), objects)
    ensures Serves(objects, EntryOf(f, p, x), x)
  {
    var e := EntryOf(f, p, x);
    var y :| BackedBy(e, y, objects);
    assert Sum(y) == Sum(x) && e.size == |x|;
    SumInjective(x, y);
    Chunks64(f, p, x);
    hide EntryOf, BackedBy, Addressed;
  }

  lemma Chunks64(f: SourceFile, p: Params, x: Bytes)
    requires 0 < p.max <= MAX_CHUNK && |x| < TWO63
    ensures forall i :: 0 <= i < |EntryOf(f, p, x).chunks| ==> EntryOf(f, p, x).chunks[i].length <= MAX_CHUNK
  {
    var cs := Chunks(p, x, 0);
    ChunkerLaws.SignatureOfIsTrue(p, x);
    ChunksFit(p, x);
    assert Tiles(cs, x, 0);
    hide Chunks, Tiles, WireChunks;
    WireIsExact(cs, x, |cs|);
  }

  ghost predicate MineFor(quiet: Path -> bool, root: string, files: seq<SourceFile>) {
    forall i :: 0 <= i < |files| ==> quiet(files[i].path) && quiet(Staged(root, files[i].path))
  }

  lemma SentIsMine(files: seq<SourceFile>, p: Params, root: string, job: string, clean: Path -> bool,
                   quiet: Path -> bool, tree: Files)
    requires StableTree(files, root, clean) && 0 < p.max && AllSendable(files, |files|)
    requires LeftoversFitFor(tree, root, files) && MineFor(quiet, root, files)
    ensures var fs := ManifestOf(files, p, job).files;
            Apart(root, fs) && Promotable(root, fs) && Mine(quiet, root, fs) && LeftoversFit(tree, root, fs)
  {
    var fs := ManifestOf(files, p, job).files;
    EntriesAt(files, p, |files|);
    hide Staged, EntryOf, Entries, LeftoverFits;
    forall i | 0 <= i < |files| ensures fs[i].path == files[i].path {
      EntryFields(files[i], p, files[i].read.value);
    }
  }

  /** What a Send of a stable tree leaves in the store is all that a receiver needs. */
  lemma SentIsServeable(files: seq<SourceFile>, p: Params, root: string, job: string, clean: Path -> bool, store: Store,
                        quiet: Path -> bool, tree: Files, size: nat, expires: int, now: int)
    requires StableTree(files, root, clean) && 0 < p.max <= MAX_CHUNK && size <= MAX_JSON && now <= expires
    requires AllSendable(files, |files|) && LeftoversFitFor(tree, root, files) && MineFor(quiet, root, files)
    requires Addressed(store.objects) && AllBacked(ManifestOf(files, p, job).files, store.objects)
    requires store.lease == Some(Lease(Some(expires))) && store.notify
    requires store.manifest == Some(Blob(Some(ManifestOf(files, p, job)), size))
    ensures Serveable(quiet, store, tree, root, job, clean, now, Contents(files))
  {
    var man, xs := ManifestOf(files, p, job), Contents(files);
    StableIsValid(files, p, root, job, clean);
    EntriesAt(files, p, |files|);
    assert man.files == Entries(files, p, |files|);
    SentIsMine(files, p, root, job, clean, quiet, tree);
    hide Staged, Valid, EntryOf, Entries, Serves, Backed, Addressed, LeftoverFits, ManifestOf, Mine, LeftoversFit;
    forall i | 0 <= i < |files|
      ensures man.files[i].path == files[i].path && Serves(store.objects, man.files[i], xs[i])
    {
      EntryFields(files[i], p, files[i].read.value);
      SentIsServed(files[i], p, files[i].read.value, store.objects);
    }
  }

  ghost predicate Arrived(files: seq<SourceFile>, tree: Files) {
    forall i :: 0 <= i < |files| && files[i].read.Some? ==>
      files[i].path in tree && tree[files[i].path] == File(files[i].read.value, files[i].modNano)
  }

  lemma CompleteIsArrived(files: seq<SourceFile>, p: Params, job: string, tree: Files)
    requires 0 < p.max && AllSendable(files, |files|)
    requires forall i :: 0 <= i < |ManifestOf(files, p, job).files| ==>
        Complete(tree, ManifestOf(files, p, job).files[i])
    ensures Arrived(files, tree)
  {
    var fs := ManifestOf(files, p, job).files;
    EntriesAt(files, p, |files|);
    hide EntryOf, Entries;
    forall i | 0 <= i < |files| && files[i].read.Some?
      ensures files[i].path in tree && tree[files[i].path] == File(files[i].read.value, files[i].modNano)
    {
      EntryFields(files[i], p, files[i].read.value);
      assert Complete(tree, fs[i]);
      SumInjective(tree[files[i].path].content, files[i].read.value);
    }
  }

  /** What of the publication is still there after the others have had their turn. */
  lemma StillPublished(others: Others, a: Store, b: Store, c: Store, man: Manifest, size: nat, expires: int)
    requires OnlyObjects(others, Published(a, man, size, expires), b) && May(others, b, c)
    ensures Private(others) ==>
      c.lease == Some(Lease(Some(expires))) && c.manifest == Some(Blob(Some(man), size)) && c.notify
    ensures Trusted(others) && Addressed(b.objects) ==> Addressed(c.objects) && Grown(b.objects, c.objects)
  {
    hide Addressed;
  }

  lemma LeftoversLater(quiet: Path -> bool, a: Files, b: Files, root: string, files: seq<SourceFile>)
    requires Same(quiet, a, b) && MineFor(quiet, root, files) && LeftoversFitFor(a, root, files)
    ensures LeftoversFitFor(b, root, files)
  {
    hide Staged, Same;
    forall i | 0 <= i < |files| ensures LeftoverFits(b, Staged(root, files[i].path)) {
      SameAt(quiet, a, b, Staged(root, files[i].path));
    }
  }

  /** The round trip: a stable tree sent through a content-addressed store, which other jobs
      fill at the same time, arrives byte for byte, whatever was at the destination or left
      over in its staging area, whatever others do at its other paths, and whether or not the
      receiver can reuse chunks of that leftover. */
  method RoundTrip(files: seq<SourceFile>, p: Params, mid: Mid, dst: Dest, root: string, job: string,
                   clean: Path -> bool, size: nat, expires: int, now: int, ticks: nat, gear: GearTable)
    returns (sent: bool, r: Outcome)
    requires 0 < p.max <= MAX_CHUNK
    modifies mid, dst.tree
    ensures Private(mid.others) && Addressed(old(mid.store.objects)) && StableTree(files, root, clean)
            && size <= MAX_JSON && now <= expires && LeftoversFitFor(old(dst.tree.files), root, files)
            && dst.calm && MineFor(dst.quiet, root, files) ==>
      && sent && r == Acked && Arrived(files, dst.tree.files)
      && mid.store.ack == Some(|files|)
    // The one thing about the job's size: a manifest over 32 MiB is sent, never received.
    ensures Private(mid.others) && StableTree(files, root, clean) && size > MAX_JSON ==>
      sent && r == Refused && Same(dst.quiet, old(dst.tree.files), dst.tree.files)
  {
    assert Private(mid.others) ==> mid.Honest() && Trusted(mid.others);
    hide *;
    ghost var files0, objects0, store0 := dst.tree.files, mid.store.objects, mid.store;
    ghost var xs, stable := Contents(files), StableTree(files, root, clean);
    ghost var man, fs, ats;
    SameStart(dst.quiet, files0);
    if stable { StableIsSendable(files, root, clean); }
    sent, man := Send(mid, Some(files), p, job, size, expires, true);
    r := Refused;
    if !sent { return; }
    ghost var good := Private(mid.others) && Addressed(objects0) && stable && size <= MAX_JSON && now <= expires
                      && LeftoversFitFor(files0, root, files) && dst.calm && MineFor(dst.quiet, root, files);
    ghost var store1 := mid.store;
    mid.Meanwhile();
    dst.Meanwhile();
    StillPublished(mid.others, store0, store1, mid.store, man, size, expires);
    ghost var files1, store2 := dst.tree.files, mid.store;
    if good {
      KeptAddressed(mid.Honest(), objects0, store1.objects);
      AllBackedGrows(man.files, store1.objects, store2.objects);
      LeftoversLater(dst.quiet, files0, files1, root, files);
      SentIsServeable(files, p, root, job, clean, store2, dst.quiet, files1, size, expires, now);
      ServeableIs(dst.quiet, store2, files1, root, job, clean, now, xs);
      SentIsMine(files, p, root, job, clean, dst.quiet, files1);
      ManifestCount(files, p, job);
    }
    if size > MAX_JSON && Private(mid.others) { TooLarge(store2, job, clean, now); }
    r, fs, ats := Recv(mid, dst, root, job, clean, now, ticks, gear, true, xs);
    if good { CompleteIsArrived(files, p, job, dst.tree.files); }
    if r == Refused { SameTwice(dst.quiet, files0, files1, dst.tree.files); }
  }

  lemma KeptAddressed(honest: bool, before: map<Digest, Bytes>, after: map<Digest, Bytes>)
    requires Kept(honest, before, after) && honest && Addressed(before)
    ensures Addressed(after)
  {}

  lemma TooLarge(store: Store, job: string, clean: Path -> bool, now: int)
    requires store.manifest.Some? && store.manifest.value.size > MAX_JSON
    ensures !Offered(store, job, clean, now)
  {}

  lemma ManifestCount(files: seq<SourceFile>, p: Params, job: string)
    requires 0 < p.max && AllSendable(files, |files|)
    ensures |ManifestOf(files, p, job).files| == |files|
  {
    EntriesAt(files, p, |files|);
  }
}
