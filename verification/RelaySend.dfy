/** internal/relay/relay.go: Send, step by step on a mid store that others also write. */
module RelaySend {
  import opened Base
  import opened Chunker
  import opened ChunkerLaws
  import opened WriteSession
  import opened RelayManifest
  import opened RelayPublish
  import Transfer

  /** Who else uses the store: nobody; other jobs that add objects under their own digests,
      and other receivers of this one that acknowledge; honest clients, which may also write
      this job's lease, manifest and notify marker; or anybody. */
  datatype Others = Nobody | Adders | Clients | Anybody

  /** The lease, the manifest and the notify marker of the job are the same. */
  predicate SameJob(a: Store, b: Store) { b.lease == a.lease && b.manifest == a.manifest && b.notify == a.notify }

  /** What the others may do to the store between two steps. */
  predicate May(others: Others, a: Store, b: Store) {
    match others
    case Nobody => b == a
    case Adders => SameJob(a, b) && Kept(true, a.objects, b.objects)
    case Clients => Kept(true, a.objects, b.objects)
    case Anybody => true
  }

  lemma MayTwice(others: Others, a: Store, b: Store, c: Store)
    requires May(others, a, b) && May(others, b, c)
    ensures May(others, a, c)
  {}

  lemma MayNothing(others: Others, a: Store)
    ensures May(others, a, a)
  {}

  predicate Private(others: Others) { others.Nobody? || others.Adders? }

  predicate Trusted(others: Others) { !others.Anybody? }

  lemma MayMeans(others: Others, a: Store, b: Store)
    requires May(others, a, b)
    ensures Kept(Trusted(others), a.objects, b.objects)
    ensures Private(others) ==> SameJob(a, b)
  {}

  /** Nothing but objects, and what the others may touch, has changed. */
  predicate OnlyObjects(others: Others, a: Store, b: Store) { May(others, a.(objects := b.objects), b) }

  predicate OnlyObjectsAndLease(others: Others, a: Store, b: Store) {
    May(others, a.(objects := b.objects, lease := b.lease), b)
  }

  lemma OnlyTwice(others: Others, a: Store, b: Store, c: Store)
    ensures OnlyObjects(others, a, b) && OnlyObjects(others, b, c) ==> OnlyObjects(others, a, c)
    ensures OnlyObjectsAndLease(others, a, b) && OnlyObjects(others, b, c) ==> OnlyObjectsAndLease(others, a, c)
  {
    KeptSame(true, c.objects);
    hide Kept;
  }

  lemma OnlyIs(others: Others, a: Store, b: Store)
    ensures May(others, a, b) ==> OnlyObjects(others, a, b)
    ensures OnlyObjects(others, a, a.(objects := b.objects)) && OnlyObjectsAndLease(others, a, a)
    ensures OnlyObjects(others, a, b) ==> OnlyObjectsAndLease(others, a, b)
    ensures OnlyObjectsAndLease(others, a, b) ==> OnlyObjectsAndLease(others, a, b.(lease := a.lease))
    ensures forall l :: OnlyObjectsAndLease(others, a, b) ==> OnlyObjectsAndLease(others, a, b.(lease := l))
  {
    KeptSame(true, b.objects);
    KeptSame(true, a.objects);
    hide Kept;
  }

  /** The mid store, which the others may touch between any two steps. */
  class Mid {
    const others: Others
    var store: Store

    constructor (others: Others, store: Store)
      ensures this.others == others && this.store == store
    {
      this.others, this.store := others, store;
    }

    predicate Honest() { Trusted(others) }

    method Meanwhile()
      modifies this
      ensures May(others, old(store), store)
      ensures Kept(Honest(), old(store.objects), store.objects)
    {
      hide Kept;
      KeptSame(true, store.objects);
      MayNothing(others, store);
      var next: Store :| May(others, store, next);
      MayMeans(others, store, next);
      store := next;
    }
  }

  /** A failure that a calm environment does not have. */
  method Trouble(calm: bool) returns (b: bool)
    ensures calm ==> !b
  {
    b := *;
    b := b && !calm;
  }

  /** What uploading guarantees on an honest store, whatever happens. */
  predicate Kept(honest: bool, before: map<Digest, Bytes>, after: map<Digest, Bytes>) {
    honest && Addressed(before) ==> Addressed(after) && Grown(before, after)
  }

  lemma KeptTwice(honest: bool, a: map<Digest, Bytes>, b: map<Digest, Bytes>, c: map<Digest, Bytes>)
    requires Kept(honest, a, b) && Kept(honest, b, c)
    ensures Kept(honest, a, c)
  {}

  lemma KeptSame(honest: bool, a: map<Digest, Bytes>)
    ensures Kept(honest, a, a)
  {}

  /** On an honest store: nothing lost, and all of `uploaded`, the first k chunks and the
      finished entries are in the store. */
  ghost predicate Safe(honest: bool, before: map<Digest, Bytes>, now: map<Digest, Bytes>, uploaded: set<Digest>,
                       done: seq<ManifestFile>, cs: seq<Chunk>, k: nat)
    requires k <= |cs|
  {
    honest && Addressed(before) ==>
      Addressed(now) && Grown(before, now) && Known(uploaded, now) && AllBacked(done, now) && Stored(cs, k, now)
  }

  lemma SafeStart(honest: bool, before: map<Digest, Bytes>)
    ensures Safe(honest, before, before, {}, [], [], 0)
  {}

  lemma SafeIsKept(honest: bool, before: map<Digest, Bytes>, now: map<Digest, Bytes>, uploaded: set<Digest>,
                   done: seq<ManifestFile>, cs: seq<Chunk>, k: nat)
    requires k <= |cs| && Safe(honest, before, now, uploaded, done, cs, k)
    ensures Kept(honest, before, now)
    ensures honest && Addressed(before) ==> AllBacked(done, now)
  {
    hide AllBacked;
  }

  lemma SafeLater(honest: bool, before: map<Digest, Bytes>, now: map<Digest, Bytes>, later: map<Digest, Bytes>,
                  uploaded: set<Digest>, done: seq<ManifestFile>, cs: seq<Chunk>, k: nat)
    requires k <= |cs| && Safe(honest, before, now, uploaded, done, cs, k) && Kept(honest, now, later)
    ensures Safe(honest, before, later, uploaded, done, cs, k)
  {
    hide AllBacked;
    if honest && Addressed(before) { AllBackedGrows(done, now, later); }
  }

  lemma SafeUpload(honest: bool, before: map<Digest, Bytes>, now: map<Digest, Bytes>, uploaded: set<Digest>,
                   done: seq<ManifestFile>, cs: seq<Chunk>, k: nat, data: Bytes, statFails: bool)
    requires k < |cs| && Safe(honest, before, now, uploaded, done, cs, k) && cs[k].digest == Sum(data)
    ensures var (now', uploaded') := Upload(now, uploaded, cs[k].digest, data, statFails);
            Safe(honest, before, now', uploaded', done, cs, k + 1)
  {
    hide AllBacked, Upload, Stored, Known;
    if honest && Addressed(before) {
      UploadKeeps(now, uploaded, cs[k].digest, data, statFails);
      var (now', uploaded') := Upload(now, uploaded, cs[k].digest, data, statFails);
      StoredGrows(cs, k, now, now');
      AllBackedGrows(done, now, now');
    }
  }

  lemma SafeOpen(honest: bool, before: map<Digest, Bytes>, now: map<Digest, Bytes>, uploaded: set<Digest>,
                 done: seq<ManifestFile>, cs: seq<Chunk>)
    requires Safe(honest, before, now, uploaded, done, [], 0)
    ensures Safe(honest, before, now, uploaded, done, cs, 0)
  {
    hide AllBacked;
  }

  lemma SafeClose(honest: bool, before: map<Digest, Bytes>, now: map<Digest, Bytes>, uploaded: set<Digest>,
                  done: seq<ManifestFile>, f: SourceFile, p: Params, x: Bytes)
    requires 0 < p.max < TWO32 && |x| < TWO63
    requires Safe(honest, before, now, uploaded, done, Chunks(p, x, 0), |Chunks(p, x, 0)|)
    ensures Safe(honest, before, now, uploaded, done + [EntryOf(f, p, x)], [], 0)
  {
    hide AllBacked, EntryOf, BackedBy, Known, Chunks;
    if honest && Addressed(before) {
      EntryIsBacked(f, p, x, now);
      OneMoreBacked(done, EntryOf(f, p, x), x, now);
    }
  }

  /** The callback of Send for one chunk: the Stat, then the put. */
  method UploadOne(mid: Mid, uploaded: set<Digest>, d: Digest, data: Bytes, calm: bool)
    returns (ok: bool, uploaded': set<Digest>, ghost statFails: bool, ghost before: map<Digest, Bytes>)
    modifies mid
    ensures Kept(mid.Honest(), old(mid.store.objects), before)
    ensures OnlyObjects(mid.others, old(mid.store), mid.store)
    ensures ok ==> (mid.store.objects, uploaded') == Upload(before, uploaded, d, data, statFails)
    ensures !ok ==> mid.store.objects == before && uploaded' == uploaded
    ensures calm ==> ok
  {
    hide Kept, May, OnlyObjects;
    ghost var store0 := mid.store;
    KeptSame(mid.Honest(), mid.store.objects);
    OnlyIs(mid.others, store0, store0);
    MayNothing(mid.others, store0);
    statFails, before := false, mid.store.objects;
    if d in uploaded { return true, uploaded + {d}, statFails, before; }
    mid.Meanwhile();
    OnlyIs(mid.others, store0, mid.store);
    before := mid.store.objects;
    var hidden := Trouble(calm);
    statFails := hidden;
    if d in mid.store.objects && !hidden { return true, uploaded + {d}, statFails, before; }
    var fails := Trouble(calm);
    if fails { return false, uploaded, statFails, before; }
    ghost var store1 := mid.store;
    mid.store := mid.store.(objects := mid.store.objects[d := data]);
    OnlyIs(mid.others, store1, mid.store);
    OnlyTwice(mid.others, store0, store1, mid.store);
    return true, uploaded + {d}, statFails, before;
  }

  /** One file: its chunks are uploaded as they come, then the size hint is checked. */
  method SendFile(mid: Mid, uploaded0: set<Digest>, f: SourceFile, p: Params, calm: bool,
                  ghost before: map<Digest, Bytes>, ghost done: seq<ManifestFile>)
    returns (r: Option<ManifestFile>, uploaded: set<Digest>)
    requires 0 < p.max < TWO32
    requires Safe(mid.Honest(), before, mid.store.objects, uploaded0, done, [], 0)
    modifies mid
    ensures OnlyObjects(mid.others, old(mid.store), mid.store)
    ensures Kept(mid.Honest(), before, mid.store.objects)
    ensures r.Some? ==> Sendable(f) && r.value == EntryOf(f, p, f.read.value)
    ensures r.Some? ==> Safe(mid.Honest(), before, mid.store.objects, uploaded, done + [r.value], [], 0)
    ensures calm && Sendable(f) ==> r.Some?
  {
    SafeIsKept(mid.Honest(), before, mid.store.objects, uploaded0, done, [], 0);
    uploaded := uploaded0;
    ghost var store0 := mid.store;
    MayNothing(mid.others, store0);
    OnlyIs(mid.others, store0, store0);
    if f.read.None? || |f.read.value| >= TWO63 { return None, uploaded; }
    var x := f.read.value;
    var cs := Chunks(p, x, 0);
    var chunks := WireChunks(cs, 0);
    hide *;
    SafeOpen(mid.Honest(), before, mid.store.objects, uploaded, done, cs);
    var ok := true;
    for k := 0 to |cs|
      invariant OnlyObjects(mid.others, old(mid.store), mid.store)
      invariant Safe(mid.Honest(), before, mid.store.objects, uploaded, done, cs, k)
      invariant chunks == WireChunks(cs, k)
      invariant calm ==> ok
    {
      ghost var was, store1 := mid.store.objects, mid.store;
      ghost var known, statFails, then' := uploaded, false, was;
      PieceData(p, x, k);
      ok, uploaded, statFails, then' := UploadOne(mid, uploaded, cs[k].digest, DataOf(x, cs[k]), calm);
      OnlyTwice(mid.others, store0, store1, mid.store);
      SafeLater(mid.Honest(), before, was, then', known, done, cs, k);
      if !ok {
        SafeIsKept(mid.Honest(), before, mid.store.objects, uploaded, done, cs, k);
        return None, uploaded;
      }
      SafeUpload(mid.Honest(), before, then', known, done, cs, k, DataOf(x, cs[k]), statFails);
      WireNext(cs, k);
      chunks := chunks + [WireOf(cs[k])];
    }
    SafeIsKept(mid.Honest(), before, mid.store.objects, uploaded, done, cs, |cs|);
    SendableIs(f);
    if !HintHolds(f, x) { return None, uploaded; }
    SafeClose(mid.Honest(), before, mid.store.objects, uploaded, done, f, p, x);
    EntryFields(f, p, x);
    r := Some(ManifestFile(f.path, f.size, Sum(x), f.modNano, chunks));
  }

  lemma WireNext(cs: seq<Chunk>, k: nat)
    requires k < |cs|
    ensures WireChunks(cs, k + 1) == WireChunks(cs, k) + [WireOf(cs[k])]
  {}

  lemma SendableIs(f: SourceFile)
    requires f.read.Some? && |f.read.value| < TWO63
    ensures Sendable(f) <==> HintHolds(f, f.read.value)
  {}

  lemma EntryFields(f: SourceFile, p: Params, x: Bytes)
    requires 0 < p.max
    ensures var cs := Chunks(p, x, 0);
            EntryOf(f, p, x) == ManifestFile(f.path, f.size, Sum(x), f.modNano, WireChunks(cs, |cs|))
  {}

  /** The manifest that a Send of these files publishes. */
  function ManifestOf(files: seq<SourceFile>, p: Params, job: string): Manifest
    requires 0 < p.max && AllSendable(files, |files|)
  {
    Manifest(SCHEMA, job, Entries(files, p, |files|))
  }

  lemma SendableNext(files: seq<SourceFile>, p: Params, k: nat)
    requires k < |files| && AllSendable(files, k) && 0 < p.max
    ensures !Sendable(files[k]) ==> !AllSendable(files, |files|)
    ensures Sendable(files[k]) ==>
      && AllSendable(files, k + 1) && files[k].read.Some?
      && Entries(files, p, k + 1) == Entries(files, p, k) + [EntryOf(files[k], p, files[k].read.value)]
  {
    hide Sendable, EntryOf;
    if Sendable(files[k]) { SendableIsRead(files[k]); }
  }

  lemma SendableIsRead(f: SourceFile)
    requires Sendable(f)
    ensures f.read.Some?
  {}

  lemma ManifestIs(files: seq<SourceFile>, p: Params, job: string)
    requires 0 < p.max && AllSendable(files, |files|)
    ensures ManifestOf(files, p, job) == Manifest(SCHEMA, job, Entries(files, p, |files|))
  {}

  lemma EntriesNone(files: seq<SourceFile>, p: Params)
    requires 0 < p.max
    ensures AllSendable(files, 0) && Entries(files, p, 0) == []
  {}

  /** The store after a publication. */
  function Published(store: Store, man: Manifest, size: nat, expires: int): Store {
    store.(lease := Some(Lease(Some(expires))), manifest := Some(Blob(Some(man), size)), notify := true)
  }

  /** How far a publication has come, wherever it stops: nothing is announced yet, or this
      manifest is there, and only then the marker can have been set. */
  predicate Announced(a: Store, b: Store, man: Manifest, size: nat) {
    || (b.manifest == a.manifest && b.notify == a.notify)
    || (b.manifest == Some(Blob(Some(man), size)) && (a.notify ==> b.notify))
  }

  lemma PublishSteps(others: Others, a: Store, b: Store, c: Store, man: Manifest, size: nat, expires: int)
    requires May(others, a.(lease := Some(Lease(Some(expires)))), b)
    requires May(others, b.(manifest := Some(Blob(Some(man), size))), c)
    ensures May(others, Published(a, man, size, expires), c.(notify := true))
    ensures Kept(Trusted(others), a.objects, c.objects)
    ensures Private(others) ==>
      && Announced(a, b, man, size) && Announced(a, c, man, size) && Announced(a, c.(notify := true), man, size)
      && c.manifest == Some(Blob(Some(man), size)) && c.lease == Some(Lease(Some(expires)))
    ensures others.Nobody? ==> c.objects == a.objects
  {
    if !others.Anybody? { KeptTwice(true, a.objects, b.objects, c.objects); }
    hide Kept;
    if others.Anybody? { KeptAnyway(a.objects, c.objects); }
  }

  lemma KeptAnyway(a: map<Digest, Bytes>, b: map<Digest, Bytes>)
    ensures Kept(false, a, b)
  {}

  lemma LeaseStep(others: Others, a: Store, b: Store, man: Manifest, size: nat, expires: int)
    requires May(others, a.(lease := Some(Lease(Some(expires)))), b)
    ensures Private(others) ==> Announced(a, b, man, size)
    ensures others.Nobody? ==> b.objects == a.objects
  {
    hide Kept;
  }

  /** The last steps: the lease again, then the manifest, then the notify marker. */
  method PublishJob(mid: Mid, man: Manifest, size: nat, expires: int, calm: bool) returns (ok: bool)
    modifies mid
    ensures Kept(mid.Honest(), old(mid.store.objects), mid.store.objects)
    ensures ok ==> May(mid.others, Published(old(mid.store), man, size, expires), mid.store)
    ensures Private(mid.others) ==> Announced(old(mid.store), mid.store, man, size)
    ensures Private(mid.others) && ok ==>
      && mid.store.manifest == Some(Blob(Some(man), size)) && mid.store.notify
      && mid.store.lease == Some(Lease(Some(expires)))
    ensures mid.others.Nobody? ==> mid.store.objects == old(mid.store.objects)
    ensures calm ==> ok
  {
    hide Kept, May, Trusted, Private;
    ghost var store0 := mid.store;
    KeptSame(mid.Honest(), mid.store.objects);
    ok := false;
    var fails := Trouble(calm);
    if fails { return; }
    mid.store := mid.store.(lease := Some(Lease(Some(expires))));
    mid.Meanwhile();
    LeaseStep(mid.others, store0, mid.store, man, size, expires);
    fails := Trouble(calm);
    if fails { return; }
    ghost var store1 := mid.store;
    mid.store := mid.store.(manifest := Some(Blob(Some(man), size)));
    mid.Meanwhile();
    PublishSteps(mid.others, store0, store1, mid.store, man, size, expires);
    fails := Trouble(calm);
    if fails { return; }
    mid.store := mid.store.(notify := true);
    fails := Trouble(calm); // the optional signal
    ok := !fails;
  }

  /** The loop over the walked files, with a lease renewal after every 32. */
  method SendFiles(mid: Mid, files: seq<SourceFile>, p: Params, expires: int, calm: bool,
                   ghost before: map<Digest, Bytes>)
    returns (ok: bool, entries: seq<ManifestFile>)
    requires 0 < p.max < TWO32 && before == mid.store.objects
    modifies mid
    ensures OnlyObjectsAndLease(mid.others, old(mid.store), mid.store)
    ensures Kept(mid.Honest(), before, mid.store.objects)
    ensures ok ==> AllSendable(files, |files|) && entries == Entries(files, p, |files|)
    ensures ok && mid.Honest() && Addressed(before) ==> AllBacked(entries, mid.store.objects)
    ensures calm && AllSendable(files, |files|) ==> ok
  {
    hide *;
    var uploaded: set<Digest> := {};
    entries := [];
    ok := false;
    ghost var store0 := mid.store;
    OnlyIs(mid.others, store0, store0);
    EntriesNone(files, p);
    SafeStart(mid.Honest(), before);
    for k := 0 to |files|
      invariant AllSendable(files, k)
      invariant entries == Entries(files, p, k)
      invariant Safe(mid.Honest(), before, mid.store.objects, uploaded, entries, [], 0)
      invariant OnlyObjectsAndLease(mid.others, old(mid.store), mid.store)
    {
      SendableNext(files, p, k);
      var r: Option<ManifestFile>;
      ghost var store1 := mid.store;
      r, uploaded := SendFile(mid, uploaded, files[k], p, calm, before, entries);
      OnlyTwice(mid.others, store0, store1, mid.store);
      OnlyIs(mid.others, store0, mid.store);
      if r.None? { return; }
      entries := entries + [r.value];
      SafeIsKept(mid.Honest(), before, mid.store.objects, uploaded, entries, [], 0);
      if (k + 1) % 32 == 0 {
        var fails := Trouble(calm);
        if fails { return; }
        mid.store := mid.store.(lease := Some(Lease(Some(expires))));
      }
    }
    SafeIsKept(mid.Honest(), before, mid.store.objects, uploaded, entries, [], 0);
    ok := true;
  }

  lemma BackedKept(honest: bool, before: map<Digest, Bytes>, now: map<Digest, Bytes>, later: map<Digest, Bytes>,
                   done: seq<ManifestFile>)
    requires Kept(honest, before, now) && Kept(honest, now, later)
    requires honest && Addressed(before) ==> AllBacked(done, now)
    ensures honest && Addressed(before) ==> AllBacked(done, later)
  {
    hide AllBacked;
    if honest && Addressed(before) { AllBackedGrows(done, now, later); }
  }

  /** Send. `walk` is what the source lists, with what reading each file then gives, or None
      if the walk fails; `size` is the size of the manifest's JSON. */
  method Send(mid: Mid, walk: Option<seq<SourceFile>>, p: Params, job: string, size: nat, expires: int, calm: bool)
    returns (ok: bool, ghost man: Manifest)
    requires 0 < p.max < TWO32
    modifies mid
    ensures Kept(mid.Honest(), old(mid.store.objects), mid.store.objects)
    ensures ok ==> walk.Some? && AllSendable(walk.value, |walk.value|) && man == ManifestOf(walk.value, p, job)
    ensures ok && mid.Honest() && Addressed(old(mid.store.objects)) ==> AllBacked(man.files, mid.store.objects)
    ensures ok ==> OnlyObjects(mid.others, Published(old(mid.store), man, size, expires), mid.store)
    ensures Private(mid.others) && (walk.None? || !AllSendable(walk.value, |walk.value|)) ==>
      mid.store.manifest == old(mid.store.manifest) && mid.store.notify == old(mid.store.notify)
    ensures Private(mid.others) && walk.Some? && AllSendable(walk.value, |walk.value|) ==>
      Announced(old(mid.store), mid.store, ManifestOf(walk.value, p, job), size)
    ensures Private(mid.others) && ok ==>
      && mid.store.manifest == Some(Blob(Some(man), size)) && mid.store.notify
      && mid.store.lease == Some(Lease(Some(expires)))
    ensures Private(mid.others) && Addressed(old(mid.store.objects)) &&
            mid.store.manifest != old(mid.store.manifest) ==>
      && mid.store.manifest.Some? && mid.store.manifest.value.decoded.Some?
      && AllBacked(mid.store.manifest.value.decoded.value.files, mid.store.objects)
    ensures calm ==> (ok <==> walk.Some? && AllSendable(walk.value, |walk.value|))
  {
    hide Kept, May, OnlyObjects, OnlyObjectsAndLease, Published, AllSendable, AllBacked, Addressed, Entries, ManifestOf;
    ok, man := false, Manifest(SCHEMA, job, []);
    ghost var before, store0 := mid.store.objects, mid.store;
    KeptSame(mid.Honest(), before);
    OnlyIs(mid.others, store0, store0);
    var fails := Trouble(calm);
    if fails { return; }
    mid.store := mid.store.(lease := Some(Lease(Some(expires))));
    ghost var store1 := mid.store;
    if walk.None? { return; }
    var files, entries := walk.value, [];
    ok, entries := SendFiles(mid, files, p, expires, calm, before);
    SentSoFar(mid.others, store0, store1, mid.store, expires);
    if !ok {
      return;
    }
    ghost var now, store2 := mid.store.objects, mid.store;
    ManifestIs(files, p, job);
    man := Manifest(SCHEMA, job, entries);
    ok := PublishJob(mid, Manifest(SCHEMA, job, entries), size, expires, calm);
    if ok { SentAndPublished(mid.others, store0, store2, mid.store, man, size, expires); }
    KeptTwice(mid.Honest(), before, now, mid.store.objects);
    BackedKept(mid.Honest(), before, now, mid.store.objects, entries);
  }

  lemma SentSoFar(others: Others, a: Store, b: Store, c: Store, expires: int)
    requires b == a.(lease := Some(Lease(Some(expires)))) && OnlyObjectsAndLease(others, b, c)
    ensures OnlyObjectsAndLease(others, a, c)
    ensures Private(others) ==> c.manifest == a.manifest && c.notify == a.notify
  {
    hide Kept;
  }

  lemma SentAndPublished(others: Others, a: Store, b: Store, c: Store, man: Manifest, size: nat, expires: int)
    requires OnlyObjectsAndLease(others, a, b) && May(others, Published(b, man, size, expires), c)
    ensures OnlyObjects(others, Published(a, man, size, expires), c)
  {
    KeptSame(true, c.objects);
    hide Kept;
  }

  // ---------------------------------------------------------------- is what Send publishes valid?

  lemma {:induction false} TilesCovered(cs: seq<Chunk>, x: Bytes, k: nat)
    requires Tiles(cs, x, 0) && k <= |cs|
    ensures Covered(cs, k) == Transfer.StartOf(cs, x, k)
  {
    hide Tiles;
    Transfer.TilesAt(cs, x, 0, if k == 0 then 0 else k - 1);
    if k > 0 { TilesCovered(cs, x, k - 1); }
  }

  ghost predicate PiecesFit(p: Params, x: Bytes)
    requires 0 < p.max
  {
    forall k :: 0 <= k < |Chunks(p, x, 0)| ==> Chunks(p, x, 0)[k].length <= MAX_CHUNK
  }

  /** An entry that Send builds passes validateManifestFile exactly when its path is clean,
      the walked size is the size read, and no chunk exceeds 64 MiB. */
  lemma EntryValidIff(f: SourceFile, p: Params, x: Bytes, clean: Path -> bool)
    requires 0 < p.max < TWO32 && |x| < TWO63
    ensures ValidFile(EntryOf(f, p, x), clean) <==> clean(f.path) && f.size == |x| && PiecesFit(p, x)
  {
    var cs := Chunks(p, x, 0);
    SignatureOfIsTrue(p, x);
    assert Tiles(cs, x, 0);
    ChunksFit(p, x);
    hide Chunks, Tiles, Covered, WireChunks, I64, Wrap;
    WireIsExact(cs, x, |cs|);
    assert cs[..|cs|] == cs;
    TilesCovered(cs, x, |cs|);
    SmallWrap(|x|);
    forall k | 0 <= k < |cs| ensures ValidChunk(cs, k) <==> cs[k].length <= MAX_CHUNK {
      TilesCovered(cs, x, k);
      TilesPointwise(cs, x, 0);
      SmallWrap(cs[k].offset);
    }
  }

  lemma ChunksFit(p: Params, x: Bytes)
    requires 0 < p.max
    ensures forall k :: 0 <= k < |Chunks(p, x, 0)| ==> Chunks(p, x, 0)[k].length <= p.max
  {
    forall k | 0 <= k < |Chunks(p, x, 0)| ensures Chunks(p, x, 0)[k].length <= p.max { ChunkSizes(p, x, 0, k); }
  }

  lemma {:induction false} EntriesAt(files: seq<SourceFile>, p: Params, k: nat)
    requires k <= |files| && 0 < p.max && AllSendable(files, k)
    ensures |Entries(files, p, k)| == k
    ensures forall i :: 0 <= i < k ==>
        files[i].read.Some? && Entries(files, p, k)[i] == EntryOf(files[i], p, files[i].read.value)
  {
    hide EntryOf;
    if k > 0 { EntriesAt(files, p, k - 1); }
  }

  /** The manifest names the walked files in order, each with its size and mtime as walked and
      with the digest and the chunks of what was read. */
  lemma ManifestNames(files: seq<SourceFile>, p: Params, job: string)
    requires 0 < p.max < TWO32 && AllSendable(files, |files|)
    ensures var man := ManifestOf(files, p, job);
            && man.version == 1 && man.job == job && |man.files| == |files|
            && forall i :: 0 <= i < |files| ==>
                 && files[i].read.Some?
                 && var (e, f, x) := (man.files[i], files[i], files[i].read.value);
                    && e.path == f.path && e.size == f.size && e.modNano == f.modNano
                    && e.digest == Sum(x) && e.chunks == Chunks(p, x, 0)
  {
    EntriesAt(files, p, |files|);
    hide EntryOf, Entries, Chunks, WireChunks;
    var man := ManifestOf(files, p, job);
    forall i | 0 <= i < |files|
      ensures files[i].read.Some? && man.files[i].chunks == Chunks(p, files[i].read.value, 0)
      ensures man.files[i].path == files[i].path && man.files[i].size == files[i].size
      ensures man.files[i].modNano == files[i].modNano && man.files[i].digest == Sum(files[i].read.value)
    {
      EntryFields(files[i], p, files[i].read.value);
      WireIsChunks(p, files[i].read.value);
    }
  }

  lemma WireIsChunks(p: Params, x: Bytes)
    requires 0 < p.max < TWO32 && |x| < TWO63
    ensures WireChunks(Chunks(p, x, 0), |Chunks(p, x, 0)|) == Chunks(p, x, 0)
  {
    var cs := Chunks(p, x, 0);
    SignatureOfIsTrue(p, x);
    ChunksFit(p, x);
    assert Tiles(cs, x, 0);
    hide Chunks, Tiles, WireChunks;
    WireIsExact(cs, x, |cs|);
    assert cs[..|cs|] == cs;
  }

  ghost predicate Receivable(f: SourceFile, p: Params, clean: Path -> bool)
    requires 0 < p.max
  {
    f.read.Some? && clean(f.path) && f.size == |f.read.value| && PiecesFit(p, f.read.value)
  }

  /** The manifest of a successful Send passes validateManifest exactly when each entry is
      clean, walked at its true size (a walked size of 0 lets any content through Send) and
      in chunks of at most 64 MiB, and no path occurs twice. */
  lemma SentManifestValidIff(files: seq<SourceFile>, p: Params, job: string, clean: Path -> bool)
    requires 0 < p.max < TWO32 && AllSendable(files, |files|)
    ensures Valid(ManifestOf(files, p, job), job, clean) <==>
      && (forall i :: 0 <= i < |files| ==> Receivable(files[i], p, clean))
      && (forall i, j :: 0 <= i < j < |files| ==> files[i].path != files[j].path)
  {
    var man := ManifestOf(files, p, job);
    EntriesAt(files, p, |files|);
    hide ValidFile, EntryOf, Entries, PiecesFit;
    forall i | 0 <= i < |files|
      ensures man.files[i].path == files[i].path
      ensures ValidFile(man.files[i], clean) <==> Receivable(files[i], p, clean)
    {
      EntryFields(files[i], p, files[i].read.value);
      EntryValidIff(files[i], p, files[i].read.value, clean);
    }
  }

  /** A file walked at size 0 that has content when it is read: Send succeeds, and what it
      publishes can never be received. */
  lemma GrownFromEmpty(p: Params, job: string, clean: Path -> bool)
    requires 0 < p.max < TWO32
    ensures var files := [SourceFile("f", 0, 0, Some([1]))];
            AllSendable(files, 1) && !Valid(ManifestOf(files, p, job), job, clean)
  {
    var files := [SourceFile("f", 0, 0, Some([1]))];
    SentManifestValidIff(files, p, job, clean);
    assert !Receivable(files[0], p, clean);
  }
}
