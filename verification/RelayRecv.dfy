/** internal/relay/relay.go: Recv, from the first poll to the ack, failing or crashing
    anywhere, on arbitrary mid-store contents. */
module RelayRecv {
  import opened Base
  import opened Chunker
  import opened WriteSession
  import opened Endpoints
  import opened RelayManifest
  import opened RelayPublish
  import opened RelaySend
  import opened RelayStage

  /** path.Join(stagingRoot, rel) for clean paths. */
  function Staged(root: string, path: Path): Path { root + "/" + path }

  lemma StagedInjective(root: string, a: Path, b: Path)
    requires Staged(root, a) == Staged(root, b)
    ensures a == b
  {
    var n := |root| + 1;
    assert a == Staged(root, a)[n..] && b == Staged(root, b)[n..];
  }

  ghost function StagedSet(root: string, fs: seq<ManifestFile>): set<Path> {
    set i | 0 <= i < |fs| :: Staged(root, fs[i].path)
  }

  ghost function TargetSet(fs: seq<ManifestFile>): set<Path> {
    set i | 0 <= i < |fs| :: fs[i].path
  }

  /** No target is a staging path of the same job, as when all lie outside .quiksync. */
  ghost predicate Apart(root: string, fs: seq<ManifestFile>) {
    forall i, j :: 0 <= i < |fs| && 0 <= j < |fs| ==> fs[i].path != Staged(root, fs[j].path)
  }

  /** Nobody else writes the targets and the staging paths of the job. */
  ghost predicate Mine(quiet: Path -> bool, root: string, fs: seq<ManifestFile>) {
    forall i :: 0 <= i < |fs| ==> quiet(fs[i].path) && quiet(Staged(root, fs[i].path))
  }

  ghost predicate Unchanged(a: Files, b: Files, path: Path) { Lookup(b, path) == Lookup(a, path) }

  /** Quiet paths outside some set are as they were. */
  ghost predicate Untouched(quiet: Path -> bool, a: Files, b: Files, but: set<Path>) {
    forall path :: quiet(path) && path !in but ==> Unchanged(a, b, path)
  }

  lemma SameIsUntouched(quiet: Path -> bool, a: Files, b: Files, c: Files, but: set<Path>)
    requires Untouched(quiet, a, b, but) && Same(quiet, b, c)
    ensures Untouched(quiet, a, c, but)
  {
    forall p | quiet(p) && p !in but ensures Unchanged(a, c, p) {
      assert Unchanged(a, b, p);
      SameAt(quiet, b, c, p);
    }
  }

  /** The target holds the complete manifest content. */
  predicate Complete(files: Files, f: ManifestFile) {
    FitsAt(files, f.path, f) && files[f.path].modNano == f.modNano
  }

  // ---------------------------------------------------------------- staging

  /** The contents behind the manifest, when the store can serve them. */
  ghost predicate ServesAll(objects: map<Digest, Bytes>, fs: seq<ManifestFile>, xs: seq<Bytes>) {
    |xs| == |fs| && forall i :: 0 <= i < |fs| ==> Serves(objects, fs[i], xs[i])
  }

  lemma ServesAllLater(others: Others, a: Store, b: Store, fs: seq<ManifestFile>, xs: seq<Bytes>)
    requires May(others, a, b) && Trusted(others) && ServesAll(a.objects, fs, xs)
    ensures ServesAll(b.objects, fs, xs)
  {
    hide May, Trusted, Serves;
    forall i | 0 <= i < |fs| ensures Serves(b.objects, fs[i], xs[i]) { ServesLater(others, a, b, fs[i], xs[i]); }
  }

  ghost predicate LeftoversFit(files: Files, root: string, fs: seq<ManifestFile>) {
    forall i :: 0 <= i < |fs| ==> LeftoverFits(files, Staged(root, fs[i].path))
  }

  ghost predicate StageInv(quiet: Path -> bool, files0: Files, files: Files, root: string, fs: seq<ManifestFile>,
                           k: nat, served: bool)
    requires k <= |fs|
  {
    && Untouched(quiet, files0, files, StagedSet(root, fs))
    && (forall j :: k <= j < |fs| && quiet(Staged(root, fs[j].path)) ==>
          Unchanged(files0, files, Staged(root, fs[j].path)))
    && (served ==> Mine(quiet, root, fs) && forall j :: 0 <= j < k ==> FitsAt(files, Staged(root, fs[j].path), fs[j]))
  }

  lemma StagedApart(root: string, fs: seq<ManifestFile>, k: nat)
    requires k < |fs| && Distinct(fs, |fs|)
    ensures forall j :: 0 <= j < |fs| && j != k ==>
        fs[j].path != fs[k].path && Staged(root, fs[j].path) != Staged(root, fs[k].path)
    ensures Staged(root, fs[k].path) in StagedSet(root, fs) && fs[k].path in TargetSet(fs)
    ensures fs[k].path != Staged(root, fs[k].path)
  {
    forall j | 0 <= j < |fs| && j != k ensures Staged(root, fs[j].path) != Staged(root, fs[k].path) {
      if Staged(root, fs[j].path) == Staged(root, fs[k].path) { StagedInjective(root, fs[j].path, fs[k].path); }
    }
    assert |Staged(root, fs[k].path)| > |fs[k].path|;
  }

  /** Staging touches its own path only. */
  lemma StagedPointwise(quiet: Path -> bool, files: Files, files': Files, staged: Path, f: ManifestFile)
    requires StagedAs(quiet, files, files', staged, f)
    ensures forall p :: quiet(p) && p != staged ==> Unchanged(files, files', p)
    ensures staged in files'
  {
    forall p | quiet(p) && p != staged ensures Unchanged(files, files', p) {
      SameAt(quiet, files[staged := files'[staged]], files', p);
    }
  }

  lemma FitsUnchanged(files: Files, files': Files, path: Path, f: ManifestFile)
    requires FitsAt(files, path, f) && Unchanged(files, files', path)
    ensures FitsAt(files', path, f)
  {}

  lemma StageNext(quiet: Path -> bool, files0: Files, files: Files, files': Files, root: string, fs: seq<ManifestFile>,
                  k: nat, served: bool)
    requires k < |fs| && Distinct(fs, |fs|) && StageInv(quiet, files0, files, root, fs, k, served)
    requires StagedAs(quiet, files, files', Staged(root, fs[k].path), fs[k])
    requires served ==> FitsAt(files', Staged(root, fs[k].path), fs[k])
    ensures StageInv(quiet, files0, files', root, fs, k + 1, served)
  {
    StagedApart(root, fs, k);
    StagedPointwise(quiet, files, files', Staged(root, fs[k].path), fs[k]);
    hide Staged, StagedAs, FitsAt, StagedSet;
    if served {
      forall j | 0 <= j < k ensures FitsAt(files', Staged(root, fs[j].path), fs[j]) {
        FitsUnchanged(files, files', Staged(root, fs[j].path), fs[j]);
      }
    }
  }

  lemma StageStart(quiet: Path -> bool, files0: Files, root: string, fs: seq<ManifestFile>, served: bool)
    requires served ==> Mine(quiet, root, fs)
    ensures StageInv(quiet, files0, files0, root, fs, 0, served)
  {}

  lemma StageSame(quiet: Path -> bool, files0: Files, files: Files, files': Files, root: string, fs: seq<ManifestFile>,
                  k: nat)
    requires k <= |fs| && StageInv(quiet, files0, files, root, fs, k, false) && Same(quiet, files, files')
    ensures StageInv(quiet, files0, files', root, fs, k, false)
  {
    hide Same, Staged, StagedSet;
    SameIsUntouched(quiet, files0, files, files', StagedSet(root, fs));
    forall j | k <= j < |fs| && quiet(Staged(root, fs[j].path))
      ensures Unchanged(files0, files', Staged(root, fs[j].path))
    {
      SameAt(quiet, files, files', Staged(root, fs[j].path));
    }
  }

  // ---------------------------------------------------------------- promotion

  /** A target that is the staging path of a later entry takes the place of what was staged
      there: the promotions go through exactly when such entries have the same content. */
  ghost predicate Promotable(root: string, fs: seq<ManifestFile>) {
    forall i, k :: 0 <= i < k < |fs| && fs[i].path == Staged(root, fs[k].path) ==>
      fs[i].size == fs[k].size && fs[i].digest == fs[k].digest
  }

  /** Whose content the staging path of entry j holds after k promotions. */
  ghost predicate HeldFor(files: Files, root: string, fs: seq<ManifestFile>, k: nat, j: nat)
    requires k <= j < |fs|
  {
    var staged := Staged(root, fs[j].path);
    && (forall i :: 0 <= i < k && fs[i].path == staged ==> FitsAt(files, staged, fs[i]))
    && ((forall i :: 0 <= i < k ==> fs[i].path != staged) ==> FitsAt(files, staged, fs[j]))
  }

  ghost predicate PromoteInv(quiet: Path -> bool, files0: Files, files: Files, root: string, fs: seq<ManifestFile>,
                             k: nat, served: bool)
    requires k <= |fs|
  {
    && Untouched(quiet, files0, files, StagedSet(root, fs) + TargetSet(fs))
    && (Apart(root, fs) && Mine(quiet, root, fs) ==>
          && (forall j :: 0 <= j < k ==> Complete(files, fs[j]))
          && (forall j :: k <= j < |fs| ==> Unchanged(files0, files, fs[j].path)))
    && (served ==> Mine(quiet, root, fs) && forall j :: k <= j < |fs| ==> HeldFor(files, root, fs, k, j))
  }

  lemma PromoteStart(quiet: Path -> bool, files0: Files, files: Files, root: string, fs: seq<ManifestFile>,
                     served: bool)
    requires StageInv(quiet, files0, files, root, fs, |fs|, served)
    ensures PromoteInv(quiet, files0, files, root, fs, 0, served)
  {
    hide Staged, FitsAt;
  }

  /** A promotion touches its target and its staged path only, and completes the target. */
  lemma PromotedPointwise(quiet: Path -> bool, files: Files, files': Files, staged: Path, f: ManifestFile,
                          removed: bool, data: Bytes)
    requires PromotedAs(quiet, files, files', staged, f, removed, data) && f.path != staged
    ensures forall p :: quiet(p) && p !in {staged, f.path} ==> Unchanged(files, files', p)
    ensures quiet(f.path) ==> Complete(files', f)
  {
    var moved := files[f.path := File(data, f.modNano)];
    var next := if removed then moved - {staged} else moved;
    forall p | quiet(p) && p !in {staged, f.path} ensures Unchanged(files, files', p) {
      SameAt(quiet, next, files', p);
    }
    if quiet(f.path) { SameAt(quiet, next, files', f.path); }
  }

  lemma ApartAt(root: string, fs: seq<ManifestFile>, k: nat)
    requires k < |fs| && Apart(root, fs)
    ensures forall j :: 0 <= j < |fs| ==>
        fs[j].path != Staged(root, fs[k].path) && fs[k].path != Staged(root, fs[j].path)
    ensures forall j :: 0 <= j < |fs| ==> fs[j].path !in StagedSet(root, fs)
  {
    hide Staged;
  }

  lemma CompleteUnchanged(files: Files, files': Files, f: ManifestFile)
    requires Complete(files, f) && Unchanged(files, files', f.path)
    ensures Complete(files', f)
  {}

  lemma HeldNext(quiet: Path -> bool, files: Files, files': Files, root: string, fs: seq<ManifestFile>, k: nat, j: nat)
    requires k < j < |fs| && Distinct(fs, |fs|) && HeldFor(files, root, fs, k, j)
    requires forall p :: quiet(p) && p !in {Staged(root, fs[k].path), fs[k].path} ==> Unchanged(files, files', p)
    requires Complete(files', fs[k]) && Mine(quiet, root, fs)
    ensures HeldFor(files', root, fs, k + 1, j)
  {
    StagedApart(root, fs, j);
    var staged := Staged(root, fs[j].path);
    hide Staged, Fits, StagedSet, TargetSet;
    if fs[k].path == staged {
      forall i | 0 <= i < k + 1 && fs[i].path == staged ensures FitsAt(files', staged, fs[i]) {
        if i < k { assert false; }
      }
    } else {
      assert Unchanged(files, files', staged);
    }
  }

  lemma PromoteNext(quiet: Path -> bool, files0: Files, files: Files, files': Files, root: string,
                    fs: seq<ManifestFile>, k: nat, served: bool, removed: bool, data: Bytes)
    requires k < |fs| && Distinct(fs, |fs|) && PromoteInv(quiet, files0, files, root, fs, k, served)
    requires PromotedAs(quiet, files, files', Staged(root, fs[k].path), fs[k], removed, data)
    ensures PromoteInv(quiet, files0, files', root, fs, k + 1, served)
  {
    hide Staged, PromotedAs, Distinct, StagedSet, TargetSet, Apart, Complete, HeldFor;
    StagedApart(root, fs, k);
    PromotedPointwise(quiet, files, files', Staged(root, fs[k].path), fs[k], removed, data);
    if Apart(root, fs) && Mine(quiet, root, fs) {
      ApartAt(root, fs, k);
      forall j | 0 <= j < k ensures Complete(files', fs[j]) { CompleteUnchanged(files, files', fs[j]); }
    }
    if served {
      var n := k + 1;
      forall j | n <= j < |fs| ensures HeldFor(files', root, fs, n, j) {
        HeldNext(quiet, files, files', root, fs, k, j);
      }
    }
    forall p | quiet(p) && p !in StagedSet(root, fs) + TargetSet(fs) ensures Unchanged(files0, files', p) {
      assert Unchanged(files0, files, p) && Unchanged(files, files', p);
    }
  }

  lemma PromoteSame(quiet: Path -> bool, files0: Files, files: Files, files': Files, root: string,
                    fs: seq<ManifestFile>, k: nat)
    requires k <= |fs| && PromoteInv(quiet, files0, files, root, fs, k, false) && Same(quiet, files, files')
    ensures PromoteInv(quiet, files0, files', root, fs, k, false)
  {
    hide Same, Staged, StagedSet, TargetSet, Complete;
    SameIsUntouched(quiet, files0, files, files', StagedSet(root, fs) + TargetSet(fs));
    if Apart(root, fs) && Mine(quiet, root, fs) {
      forall j | 0 <= j < |fs|
        ensures j < k ==> Complete(files', fs[j])
        ensures k <= j ==> Unchanged(files0, files', fs[j].path)
      {
        SameAt(quiet, files, files', fs[j].path);
        if j < k { CompleteUnchanged(files, files', fs[j]); }
      }
    }
  }

  // ---------------------------------------------------------------- the whole receive

  /** Where a Recv ended. A crash is a failure without the deferred cleanup. */
  datatype Outcome = Refused | StagingFailed | PromotionFailed | Unacked | Acked

  /** What others do not touch: a failure before promotion leaves everything outside staging
      alone; every target holds its old content or the complete manifest content; after
      promotion all are complete. */
  ghost predicate FailClosed(quiet: Path -> bool, files0: Files, files: Files, root: string, fs: seq<ManifestFile>,
                             r: Outcome)
  {
    && Untouched(quiet, files0, files, StagedSet(root, fs) + TargetSet(fs))
    && (r.Refused? || r.StagingFailed? ==> Untouched(quiet, files0, files, StagedSet(root, fs)))
    && (Apart(root, fs) && Mine(quiet, root, fs) ==>
          && (forall i :: 0 <= i < |fs| ==> Unchanged(files0, files, fs[i].path) || Complete(files, fs[i]))
          && (r.Unacked? || r.Acked? ==> forall i :: 0 <= i < |fs| ==> Complete(files, fs[i])))
  }

  /** The trees at the renames onto the targets: each was complete then, whoever else writes. */
  ghost predicate Renamed(ats: seq<Files>, fs: seq<ManifestFile>) {
    |ats| <= |fs| && forall i :: 0 <= i < |ats| ==> Complete(ats[i], fs[i])
  }

  lemma NothingDone(quiet: Path -> bool, files: Files, root: string)
    ensures FailClosed(quiet, files, files, root, [], Refused)
  {}

  lemma StagingFailClosed(quiet: Path -> bool, files0: Files, files: Files, root: string, fs: seq<ManifestFile>, k: nat,
                          served: bool)
    requires k <= |fs| && StageInv(quiet, files0, files, root, fs, k, served)
    ensures FailClosed(quiet, files0, files, root, fs, StagingFailed)
  {
    hide Staged, Complete, FitsAt;
  }

  lemma PromotionFailClosed(quiet: Path -> bool, files0: Files, files: Files, root: string, fs: seq<ManifestFile>,
                            k: nat, served: bool)
    requires k <= |fs| && PromoteInv(quiet, files0, files, root, fs, k, served)
    ensures FailClosed(quiet, files0, files, root, fs, PromotionFailed)
    ensures k == |fs| ==>
      FailClosed(quiet, files0, files, root, fs, Acked) && FailClosed(quiet, files0, files, root, fs, Unacked)
  {
    hide Staged, Complete, FitsAt, StagedSet, TargetSet;
  }

  /** removeTree: `all` if every removal worked. */
  ghost predicate Cleaned(quiet: Path -> bool, files0: Files, files: Files, root: string, fs: seq<ManifestFile>,
                          all: bool)
  {
    && Untouched(quiet, files0, files, StagedSet(root, fs))
    && (all ==> forall p :: p in StagedSet(root, fs) && quiet(p) ==> p !in files)
  }

  lemma CleanKeeps(quiet: Path -> bool, files0: Files, files: Files, files': Files, root: string, fs: seq<ManifestFile>,
                   r: Outcome, all: bool)
    requires FailClosed(quiet, files0, files, root, fs, r) && Cleaned(quiet, files, files', root, fs, all)
    ensures FailClosed(quiet, files0, files', root, fs, r)
  {
    hide Staged, StagedSet, Apart, Complete, TargetSet;
    if Apart(root, fs) && Mine(quiet, root, fs) && |fs| > 0 {
      ApartAt(root, fs, 0);
      forall i | 0 <= i < |fs|
        ensures Unchanged(files, files', fs[i].path)
        ensures Complete(files, fs[i]) ==> Complete(files', fs[i])
      {
        if Complete(files, fs[i]) { CompleteUnchanged(files, files', fs[i]); }
      }
    }
  }

  method Cleanup(dst: Dest, root: string, fs: seq<ManifestFile>)
    modifies dst.tree
    ensures Cleaned(dst.quiet, old(dst.tree.files), dst.tree.files, root, fs, dst.calm)
  {
    ghost var files0 := dst.tree.files;
    for i := 0 to |fs|
      invariant Untouched(dst.quiet, files0, dst.tree.files, StagedSet(root, fs))
      invariant dst.calm ==> forall j :: 0 <= j < i && dst.quiet(Staged(root, fs[j].path)) ==>
                  Staged(root, fs[j].path) !in dst.tree.files
    {
      hide Staged, Same;
      ghost var files1 := dst.tree.files;
      dst.Meanwhile();
      SameIsUntouched(dst.quiet, files0, files1, dst.tree.files, StagedSet(root, fs));
      GoneStaysGone(dst.quiet, files1, dst.tree.files);
      var fails := dst.Hiccup();
      assert Staged(root, fs[i].path) in StagedSet(root, fs);
      if !fails { dst.tree.files := dst.tree.files - {Staged(root, fs[i].path)}; }
    }
    hide Staged;
  }

  lemma GoneStaysGone(quiet: Path -> bool, a: Files, b: Files)
    requires Same(quiet, a, b)
    ensures forall p :: quiet(p) && p !in a ==> p !in b
  {
    forall p | quiet(p) && p !in a ensures p !in b { SameAt(quiet, a, b, p); }
  }

  /** What a receiver sees at the job: a published, unexpired, well-formed manifest. */
  ghost predicate Offered(store: Store, job: string, clean: Path -> bool, now: int) {
    && (store.notify || store.manifest.Some?)
    && store.lease.Some? && (store.lease.value.expires.Some? ==> now <= store.lease.value.expires.value)
    && store.manifest.Some? && store.manifest.value.size <= MAX_JSON && store.manifest.value.decoded.Some?
    && Valid(store.manifest.value.decoded.value, job, clean)
  }

  lemma OfferedLater(a: Store, b: Store, job: string, clean: Path -> bool, now: int)
    requires SameJob(a, b)
    ensures Offered(a, job, clean, now) <==> Offered(b, job, clean, now)
  {
    hide Valid;
  }

  predicate Ready(store: Store) { store.notify || store.manifest.Some? }

  /** pollOnce: published, or a hard failure of the store. */
  method PollOnce(mid: Mid, calm: bool) returns (ready: bool, hard: bool)
    modifies mid
    ensures May(mid.others, old(mid.store), mid.store)
    ensures ready ==> Ready(mid.store)
    ensures Private(mid.others) && calm ==> ready == Ready(old(mid.store))
    ensures calm ==> !hard
  {
    hide Kept;
    mid.Meanwhile();
    ready := false;
    hard := Trouble(calm);
    if hard { return; }
    ready := mid.store.notify || mid.store.manifest.Some?; // a corrupt marker counts as none
  }

  /** waitForJob: a first poll, and one at each tick or signal until the time is up; five hard
      failures in a row end it. */
  method WaitForJob(mid: Mid, ticks: nat, calm: bool) returns (ok: bool)
    modifies mid
    ensures May(mid.others, old(mid.store), mid.store)
    ensures ok ==> Ready(mid.store)
    ensures Private(mid.others) && calm ==> ok == Ready(old(mid.store))
  {
    ghost var store0 := mid.store;
    var ready, hard := PollOnce(mid, calm);
    if ready { return true; }
    if hard { return false; }
    var hardFails := 0;
    for tick := 0 to ticks
      invariant May(mid.others, store0, mid.store)
      invariant Private(mid.others) && calm ==> !Ready(store0) && !Ready(mid.store)
      invariant 0 <= hardFails < 5
    {
      hide Kept;
      ghost var store1 := mid.store;
      ready, hard := PollOnce(mid, calm);
      MayTwice(mid.others, store0, store1, mid.store);
      if ready { return true; }
      hardFails := if hard then hardFails + 1 else 0;
      if hardFails >= 5 { return false; }
    }
    return false;
  }

  lemma StillOffered(others: Others, a: Store, b: Store, job: string, clean: Path -> bool, now: int)
    requires May(others, a, b)
    ensures Private(others) ==> SameJob(a, b) && (Offered(a, job, clean, now) <==> Offered(b, job, clean, now))
  {
    MayMeans(others, a, b);
    if Private(others) { OfferedLater(a, b, job, clean, now); }
    hide Offered;
  }

  /** The wait, the lease and the manifest. */
  method ReadManifest(mid: Mid, job: string, clean: Path -> bool, now: int, ticks: nat, calm: bool)
    returns (r: Option<Manifest>)
    modifies mid
    ensures May(mid.others, old(mid.store), mid.store)
    ensures r.Some? ==> Valid(r.value, job, clean)
    ensures Private(mid.others) && calm ==> (r.Some? <==> Offered(old(mid.store), job, clean, now))
    ensures Private(mid.others) && r.Some? ==>
      Offered(old(mid.store), job, clean, now) && r == old(mid.store).manifest.value.decoded
  {
    hide Valid, May, Private, Kept;
    ghost var store0 := mid.store;
    var ready := WaitForJob(mid, ticks, calm);
    ghost var store1 := mid.store;
    StillOffered(mid.others, store0, store1, job, clean, now);
    if !ready { return None; }
    mid.Meanwhile();
    MayTwice(mid.others, store0, store1, mid.store);
    StillOffered(mid.others, store0, mid.store, job, clean, now);
    var fails := Trouble(calm);
    if fails || mid.store.lease.None? { return None; }
    if mid.store.lease.value.expires.Some? && now > mid.store.lease.value.expires.value { return None; }
    ghost var store2 := mid.store;
    mid.Meanwhile();
    MayTwice(mid.others, store0, store2, mid.store);
    StillOffered(mid.others, store0, mid.store, job, clean, now);
    fails := Trouble(calm);
    if fails || mid.store.manifest.None? { return None; }
    var blob := mid.store.manifest.value;
    if blob.size > MAX_JSON || blob.decoded.None? { return None; }
    var ok := Validate(blob.decoded.value, job, clean);
    if !ok { return None; }
    return blob.decoded;
  }

  method StageAll(mid: Mid, dst: Dest, root: string, fs: seq<ManifestFile>, gear: GearTable, calm: bool,
                  ghost served: bool, ghost xs: seq<Bytes>)
    returns (ok: bool)
    requires Distinct(fs, |fs|)
    requires served ==> calm && dst.calm && mid.Honest() && Mine(dst.quiet, root, fs)
    requires served ==> ServesAll(mid.store.objects, fs, xs) && LeftoversFit(dst.tree.files, root, fs)
    modifies mid, dst.tree
    ensures May(mid.others, old(mid.store), mid.store)
    ensures FailClosed(dst.quiet, old(dst.tree.files), dst.tree.files, root, fs, StagingFailed)
    ensures ok ==> StageInv(dst.quiet, old(dst.tree.files), dst.tree.files, root, fs, |fs|, served)
    ensures served ==> ok
  {
    assert served ==> Trusted(mid.others);
    hide *;
    ghost var files0, store0 := dst.tree.files, mid.store;
    StageStart(dst.quiet, files0, root, fs, served);
    MayNothing(mid.others, store0);
    ok := false;
    for k := 0 to |fs|
      invariant May(mid.others, store0, mid.store)
      invariant served ==> ServesAll(mid.store.objects, fs, xs)
      invariant StageInv(dst.quiet, files0, dst.tree.files, root, fs, k, served)
    {
      ghost var before, store1, x := dst.tree.files, mid.store, [];
      if served {
        ServedAt(dst, files0, before, store1.objects, root, fs, xs, k);
        x := xs[k];
      }
      ok := Materialize(mid, dst, Staged(root, fs[k].path), fs[k], gear, calm, x);
      MayTwice(mid.others, store0, store1, mid.store);
      if !ok {
        StageLess(dst.quiet, files0, before, root, fs, k, served);
        StageSame(dst.quiet, files0, before, dst.tree.files, root, fs, k);
        StagingFailClosed(dst.quiet, files0, dst.tree.files, root, fs, k, false);
        return;
      }
      if served {
        ServesAllLater(mid.others, store1, mid.store, fs, xs);
        StagedFits(dst.quiet, store1.objects, dst.tree.files, Staged(root, fs[k].path), before, fs[k], x);
      }
      StageNext(dst.quiet, files0, before, dst.tree.files, root, fs, k, served);
    }
    StagingFailClosed(dst.quiet, files0, dst.tree.files, root, fs, |fs|, served);
    ok := true;
  }

  lemma StageLess(quiet: Path -> bool, files0: Files, files: Files, root: string, fs: seq<ManifestFile>, k: nat,
                  served: bool)
    requires k <= |fs| && StageInv(quiet, files0, files, root, fs, k, served)
    ensures StageInv(quiet, files0, files, root, fs, k, false)
  {
    hide Staged, StagedSet;
  }

  lemma ServedAt(dst: Dest, files0: Files, files: Files, objects: map<Digest, Bytes>, root: string,
                 fs: seq<ManifestFile>, xs: seq<Bytes>, k: nat)
    requires k < |fs| && ServesAll(objects, fs, xs) && LeftoversFit(files0, root, fs) && dst.calm
    requires StageInv(dst.quiet, files0, files, root, fs, k, true)
    ensures |xs| == |fs| && Serves(objects, fs[k], xs[k]) && LeftoverFits(files, Staged(root, fs[k].path))
    ensures dst.Sure(Staged(root, fs[k].path))
  {
    hide Staged, Serves, FitsAt, StagedSet;
    assert Unchanged(files0, files, Staged(root, fs[k].path));
  }

  lemma StagedFits(quiet: Path -> bool, objects: map<Digest, Bytes>, files: Files, staged: Path, before: Files,
                   f: ManifestFile, x: Bytes)
    requires Serves(objects, f, x) && StagedAs(quiet, before, files, staged, f)
    ensures FitsAt(files, staged, f)
  {
    hide Same;
    SumInjective(files[staged].content, x);
  }

  /** The loop of promotions. `ats` are the trees at the renames. */
  method PromoteAll(dst: Dest, root: string, fs: seq<ManifestFile>, ghost files0: Files, ghost served: bool)
    returns (ok: bool, ghost ats: seq<Files>)
    requires Distinct(fs, |fs|) && PromoteInv(dst.quiet, files0, dst.tree.files, root, fs, 0, served)
    requires served ==> dst.calm && forall i :: 0 <= i < |fs| ==> fs[i].size + 1 < TWO63
    modifies dst.tree
    ensures Renamed(ats, fs) && (ok ==> |ats| == |fs|)
    ensures FailClosed(dst.quiet, files0, dst.tree.files, root, fs, PromotionFailed)
    ensures ok ==> FailClosed(dst.quiet, files0, dst.tree.files, root, fs, Acked)
    ensures ok ==> FailClosed(dst.quiet, files0, dst.tree.files, root, fs, Unacked)
    ensures served ==> (ok <==> Promotable(root, fs))
  {
    hide *;
    ok, ats := false, [];
    NoneRenamed(fs);
    NoneToPromote(root, fs);
    for k := 0 to |fs|
      invariant PromoteInv(dst.quiet, files0, dst.tree.files, root, fs, k, served)
      invariant Renamed(ats, fs) && |ats| == k
      invariant served ==> PromotableTo(root, fs, k)
    {
      ghost var before, removed, data, at := dst.tree.files, false, [], dst.tree.files;
      if served { HeldOrNot(dst, files0, before, root, fs, k); }
      ok, removed, data, at := Promote(dst, Staged(root, fs[k].path), fs[k]);
      if !ok {
        PromoteLess(dst.quiet, files0, before, root, fs, k, served);
        PromoteSame(dst.quiet, files0, before, dst.tree.files, root, fs, k);
        PromotionFailClosed(dst.quiet, files0, dst.tree.files, root, fs, k, false);
        return;
      }
      PromoteNext(dst.quiet, files0, before, dst.tree.files, root, fs, k, served, removed, data);
      OneMoreRenamed(ats, at, fs);
      ats := ats + [at];
    }
    PromotionFailClosed(dst.quiet, files0, dst.tree.files, root, fs, |fs|, served);
    if served { AllPromotable(root, fs); }
    ok := true;
  }

  lemma NoneToPromote(root: string, fs: seq<ManifestFile>)
    ensures PromotableTo(root, fs, 0)
  {}

  lemma NoneRenamed(fs: seq<ManifestFile>)
    ensures Renamed([], fs)
  {}

  lemma OneMoreRenamed(ats: seq<Files>, at: Files, fs: seq<ManifestFile>)
    requires Renamed(ats, fs) && |ats| < |fs|
    requires var f := fs[|ats|]; f.path in at && Fits(at[f.path], f) && at[f.path].modNano == f.modNano
    ensures Renamed(ats + [at], fs)
  {
    hide Fits;
  }

  lemma PromoteLess(quiet: Path -> bool, files0: Files, files: Files, root: string, fs: seq<ManifestFile>, k: nat,
                    served: bool)
    requires k <= |fs| && PromoteInv(quiet, files0, files, root, fs, k, served)
    ensures PromoteInv(quiet, files0, files, root, fs, k, false)
  {
    hide Staged, StagedSet, TargetSet, Complete, HeldFor;
  }

  /** Promotable as far as the first n entries go. */
  ghost predicate PromotableTo(root: string, fs: seq<ManifestFile>, n: nat)
    requires n <= |fs|
  {
    forall i, k :: 0 <= i < k < n && fs[i].path == Staged(root, fs[k].path) ==>
      fs[i].size == fs[k].size && fs[i].digest == fs[k].digest
  }

  lemma AllPromotable(root: string, fs: seq<ManifestFile>)
    requires PromotableTo(root, fs, |fs|)
    ensures Promotable(root, fs)
  {
    hide Staged;
  }

  /** The next promotion goes through exactly when its staging path holds its content. */
  lemma HeldOrNot(dst: Dest, files0: Files, files: Files, root: string, fs: seq<ManifestFile>, k: nat)
    requires k < |fs| && Distinct(fs, |fs|) && PromoteInv(dst.quiet, files0, files, root, fs, k, true)
    requires PromotableTo(root, fs, k) && dst.calm && (forall i :: 0 <= i < |fs| ==> fs[i].size + 1 < TWO63)
    ensures dst.Sure(Staged(root, fs[k].path)) && fs[k].size + 1 < TWO63
    ensures FitsAt(files, Staged(root, fs[k].path), fs[k]) ==> PromotableTo(root, fs, k + 1)
    ensures !FitsAt(files, Staged(root, fs[k].path), fs[k]) ==> !Promotable(root, fs)
  {
    hide Staged, StagedSet, TargetSet, Complete;
    assert HeldFor(files, root, fs, k, k);
  }

  /** Staging, then promotion, of a valid manifest's files. */
  method StageAndPromote(mid: Mid, dst: Dest, root: string, fs: seq<ManifestFile>, gear: GearTable, calm: bool,
                         ghost served: bool, ghost xs: seq<Bytes>)
    returns (r: Outcome, ghost ats: seq<Files>)
    requires Distinct(fs, |fs|)
    requires served ==> calm && dst.calm && mid.Honest() && Mine(dst.quiet, root, fs)
    requires served ==> ServesAll(mid.store.objects, fs, xs) && LeftoversFit(dst.tree.files, root, fs)
    requires served ==> forall i :: 0 <= i < |fs| ==> fs[i].size + 1 < TWO63
    modifies mid, dst.tree
    ensures May(mid.others, old(mid.store), mid.store)
    ensures r.StagingFailed? || r.PromotionFailed? || r.Unacked?
    ensures FailClosed(dst.quiet, old(dst.tree.files), dst.tree.files, root, fs, r)
    ensures r.Unacked? ==> FailClosed(dst.quiet, old(dst.tree.files), dst.tree.files, root, fs, Acked)
    ensures Renamed(ats, fs) && (r.Unacked? ==> |ats| == |fs|)
    ensures served ==> r == if Promotable(root, fs) then Unacked else PromotionFailed
  {
    hide *;
    ghost var files0 := dst.tree.files;
    ats := [];
    NoneRenamed(fs);
    var ok := StageAll(mid, dst, root, fs, gear, calm, served, xs);
    if !ok { return StagingFailed, ats; }
    PromoteStart(dst.quiet, files0, dst.tree.files, root, fs, served);
    ok, ats := PromoteAll(dst, root, fs, files0, served);
    r := if ok then Unacked else PromotionFailed;
  }

  /** Nothing is left in the staging area, as far as others do not write there. */
  ghost predicate Swept(quiet: Path -> bool, files: Files, root: string, fs: seq<ManifestFile>) {
    forall i :: 0 <= i < |fs| && quiet(Staged(root, fs[i].path)) ==> Staged(root, fs[i].path) !in files
  }

  lemma CleanIsSwept(quiet: Path -> bool, files0: Files, files: Files, root: string, fs: seq<ManifestFile>)
    requires Cleaned(quiet, files0, files, root, fs, true)
    ensures Swept(quiet, files, root, fs)
  {
    hide Staged;
    forall i | 0 <= i < |fs| && quiet(Staged(root, fs[i].path)) ensures Staged(root, fs[i].path) !in files {
      assert Staged(root, fs[i].path) in StagedSet(root, fs);
    }
  }

  method Acknowledge(mid: Mid, files: nat, calm: bool, ghost store0: Store) returns (done: bool)
    requires May(mid.others, store0, mid.store)
    modifies mid
    ensures May(mid.others, store0.(ack := if done then Some(files) else store0.ack), mid.store)
    ensures done ==> mid.store.ack == Some(files)
    ensures calm ==> done
  {
    hide *;
    ghost var store1 := mid.store;
    mid.Meanwhile();
    MayTwice(mid.others, store0, store1, mid.store);
    AckOf(mid.others, store0, mid.store);
    var fails := Trouble(calm);
    if !fails { mid.store := mid.store.(ack := Some(files)); }
    done := !fails;
  }

  /** The deferred cleanup, unless the receiver crashes. */
  method CleanupUnlessCrashed(dst: Dest, root: string, fs: seq<ManifestFile>, r: Outcome, calm: bool,
                              ghost files0: Files)
    requires FailClosed(dst.quiet, files0, dst.tree.files, root, fs, r)
    modifies dst.tree
    ensures FailClosed(dst.quiet, files0, dst.tree.files, root, fs, r)
    ensures calm && dst.calm ==> Swept(dst.quiet, dst.tree.files, root, fs)
    ensures r.Acked? && calm && dst.calm && Mine(dst.quiet, root, fs) ==>
      ((forall i :: 0 <= i < |fs| ==> Complete(dst.tree.files, fs[i])) <==> Apart(root, fs))
  {
    hide *;
    var crashed := Trouble(calm);
    if crashed { return; }
    ghost var before := dst.tree.files;
    Cleanup(dst, root, fs);
    CleanKeeps(dst.quiet, files0, before, dst.tree.files, root, fs, r, dst.calm);
    if dst.calm { CleanIsSwept(dst.quiet, before, dst.tree.files, root, fs); }
    if dst.calm && r.Acked? && Mine(dst.quiet, root, fs) {
      CompleteIffApart(dst.quiet, files0, before, dst.tree.files, root, fs);
    }
  }

  /** Recv. `ats` are the trees at the renames onto the targets. */
  method Recv(mid: Mid, dst: Dest, root: string, job: string, clean: Path -> bool, now: int, ticks: nat,
              gear: GearTable, calm: bool, ghost xs: seq<Bytes>)
    returns (r: Outcome, ghost fs: seq<ManifestFile>, ghost ats: seq<Files>)
    modifies mid, dst.tree
    ensures FailClosed(dst.quiet, old(dst.tree.files), dst.tree.files, root, fs, r)
    ensures r.Refused? ==> Same(dst.quiet, old(dst.tree.files), dst.tree.files)
    // Every rename onto a target exposes complete content, and an ack needs all of them.
    ensures Renamed(ats, fs) && (r.Unacked? || r.Acked? ==> |ats| == |fs|)
    ensures r.Acked? && calm && dst.calm && Mine(dst.quiet, root, fs) ==>
      ((forall i :: 0 <= i < |fs| ==> Complete(dst.tree.files, fs[i])) <==> Apart(root, fs))
    ensures r != Refused && calm && dst.calm ==> Swept(dst.quiet, dst.tree.files, root, fs)
    // The store gets the ack and nothing else.
    ensures May(mid.others, old(mid.store).(ack := if r.Acked? then Some(|fs|) else old(mid.store.ack)), mid.store)
    ensures r.Acked? ==> mid.store.ack == Some(|fs|)
    ensures Private(mid.others) && r != Refused ==>
        Offered(old(mid.store), job, clean, now) && fs == old(mid.store).manifest.value.decoded.value.files
    // Undisturbed, what is offered and can be served is received exactly if it is promotable.
    ensures calm && dst.calm && Private(mid.others)
            && Serveable(dst.quiet, old(mid.store), old(dst.tree.files), root, job, clean, now, xs) ==>
      r == if Promotable(root, fs) then Acked else PromotionFailed
  {
    assert Private(mid.others) ==> mid.Honest();
    hide *;
    ghost var files0, store0 := dst.tree.files, mid.store;
    ghost var served := calm && dst.calm && Private(mid.others)
                        && Serveable(dst.quiet, store0, files0, root, job, clean, now, xs);
    r, fs, ats := Refused, [], [];
    NothingDone(dst.quiet, files0, root);
    NoneRenamed(fs);
    SameStart(dst.quiet, files0);
    if served { ServeableIs(dst.quiet, store0, files0, root, job, clean, now, xs); }
    var man := ReadManifest(mid, job, clean, now, ticks, calm);
    AckOf(mid.others, store0, mid.store);
    if man.None? { return; }
    fs := man.value.files;
    NoneRenamed(fs);
    ValidDistinct(man.value, job, clean);
    ghost var store1 := mid.store;
    if served { ServesAllLater(mid.others, store0, store1, fs, xs); }
    r, ats := StageAndPromote(mid, dst, root, man.value.files, gear, calm, served, xs);
    MayTwice(mid.others, store0, store1, mid.store);
    AckOf(mid.others, store0, mid.store);
    if r.Unacked? {
      var done := Acknowledge(mid, |man.value.files|, calm, store0);
      if done { r := Acked; }
    }
    CleanupUnlessCrashed(dst, root, man.value.files, r, calm, files0);
  }

  /** Acknowledging commutes with what the others may do. */
  lemma AckOf(others: Others, a: Store, b: Store)
    requires May(others, a, b)
    ensures May(others, a.(ack := a.ack), b)
    ensures forall n :: May(others, a.(ack := n), b.(ack := n))
  {
    hide Kept;
  }

  /** Everything an undisturbed receive needs. */
  ghost predicate Serveable(quiet: Path -> bool, store: Store, files: Files, root: string, job: string,
                            clean: Path -> bool, now: int, xs: seq<Bytes>)
  {
    && Offered(store, job, clean, now)
    && var fs := store.manifest.value.decoded.value.files;
       Mine(quiet, root, fs) && ServesAll(store.objects, fs, xs) && LeftoversFit(files, root, fs)
  }

  lemma ServeableIs(quiet: Path -> bool, store: Store, files: Files, root: string, job: string, clean: Path -> bool,
                    now: int, xs: seq<Bytes>)
    requires Serveable(quiet, store, files, root, job, clean, now, xs)
    ensures Offered(store, job, clean, now) && store.manifest.Some? && store.manifest.value.decoded.Some?
    ensures var fs := store.manifest.value.decoded.value.files;
            && Mine(quiet, root, fs) && ServesAll(store.objects, fs, xs) && LeftoversFit(files, root, fs)
            && forall i :: 0 <= i < |fs| ==> fs[i].size + 1 < TWO63
  {
    hide Valid, LeftoversFit, BackedBy, Addressed, Mine;
  }

  lemma ValidDistinct(man: Manifest, job: string, clean: Path -> bool)
    requires Valid(man, job, clean)
    ensures Distinct(man.files, |man.files|)
  {
    hide ValidFile;
  }

  /** After a cleanup that worked, a target survives unless it is a staging path. */
  lemma CompleteIffApart(quiet: Path -> bool, files0: Files, before: Files, files: Files, root: string,
                         fs: seq<ManifestFile>)
    requires FailClosed(quiet, files0, before, root, fs, Acked) && Cleaned(quiet, before, files, root, fs, true)
    requires Mine(quiet, root, fs)
    ensures (forall i :: 0 <= i < |fs| ==> Complete(files, fs[i])) <==> Apart(root, fs)
  {
    CleanKeeps(quiet, files0, before, files, root, fs, Acked, true);
    hide Staged;
    if !Apart(root, fs) {
      var i, j :| 0 <= i < |fs| && 0 <= j < |fs| && fs[i].path == Staged(root, fs[j].path);
      assert fs[i].path in StagedSet(root, fs);
      assert !Complete(files, fs[i]);
    }
  }

  // ---------------------------------------------------------------- a target that is lost

  /** Two empty files, the second in the staging area of the first. */
  function Overlapping(root: string, job: string): Manifest {
    Manifest(SCHEMA, job,
             [ManifestFile("a", 0, Sum([]), 0, []), ManifestFile(Staged(root, "a"), 0, Sum([]), 0, [])])
  }

  /** Nothing in validateManifest keeps a target out of the staging area: this manifest is
      accepted, can be served by any store, and its promotions go through. */
  lemma StagingTargetAccepted(root: string, job: string, clean: Path -> bool, objects: map<Digest, Bytes>)
    requires clean("a") && clean(Staged(root, "a")) && Addressed(objects)
    ensures var man := Overlapping(root, job);
            && Valid(man, job, clean) && !Apart(root, man.files) && Promotable(root, man.files)
            && ServesAll(objects, man.files, [[], []])
  {
    var man := Overlapping(root, job);
    assert |Staged(root, "a")| > 1;
    assert man.files[1].path == Staged(root, man.files[0].path);
    assert BackedBy(man.files[0], [], objects) && BackedBy(man.files[1], [], objects);
  }

  /** Received undisturbed, it is acknowledged, and the second of its targets is gone. */
  method StagingTargetLost(mid: Mid, dst: Dest, root: string, job: string, clean: Path -> bool, now: int,
                           gear: GearTable)
    returns (r: Outcome)
    requires clean("a") && clean(Staged(root, "a")) && Private(mid.others) && Addressed(mid.store.objects)
    requires mid.store.lease == Some(Lease(None)) && mid.store.manifest == Some(Blob(Some(Overlapping(root, job)), 0))
    requires dst.calm && (forall p :: dst.quiet(p)) && dst.tree.files == map[]
    modifies mid, dst.tree
    ensures r == Acked && Staged(root, "a") !in dst.tree.files
  {
    ghost var fs, ats := Overlapping(root, job).files, [];
    StagingTargetAccepted(root, job, clean, mid.store.objects);
    OverlappingServeable(dst.quiet, mid.store, dst.tree.files, root, job, clean, now);
    ghost var others, store0 := mid.others, mid.store;
    assert fs[0].path == "a" && dst.quiet(Staged(root, "a"));
    hide *;
    r, fs, ats := Recv(mid, dst, root, job, clean, now, 0, gear, true, [[], []]);
    LostIsSwept(dst.quiet, dst.tree.files, root, job);
  }

  lemma OverlappingServeable(quiet: Path -> bool, store: Store, files: Files, root: string, job: string,
                             clean: Path -> bool, now: int)
    requires store.lease == Some(Lease(None)) && store.manifest == Some(Blob(Some(Overlapping(root, job)), 0))
    requires Valid(Overlapping(root, job), job, clean) && (forall p :: quiet(p)) && files == map[]
    requires ServesAll(store.objects, Overlapping(root, job).files, [[], []])
    ensures Serveable(quiet, store, files, root, job, clean, now, [[], []])
    ensures store.manifest.value.decoded.value.files == Overlapping(root, job).files
  {
    hide Valid, Overlapping, ServesAll, Staged;
  }

  lemma LostIsSwept(quiet: Path -> bool, files: Files, root: string, job: string)
    requires Swept(quiet, files, root, Overlapping(root, job).files) && quiet(Staged(root, "a"))
    ensures Staged(root, "a") !in files
  {
    assert Overlapping(root, job).files[0].path == "a";
    hide Staged;
  }
}
