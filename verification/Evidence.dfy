/** internal/engine/engine.go: what an attempt goes by before it transfers: the journal's
    verdict, and the signature of the destination. */
module Evidence {
  import opened Base
  import opened Chunker
  import opened ChunkerLaws
  import opened WriteSession
  import opened SignatureCache
  import opened Endpoints

  datatype Verdict = Proceed(force: bool) | SkipNow | FailNow

  /** What the journal says about an undisturbed pair of files. */
  function JournalVerdict(cfg: Config, meta: Meta, entry: Option<JournalEntry>, src: Option<File>,
                          dst: Option<File>): Verdict
  {
    if !cfg.resume || entry.None? || !entry.value.complete then Proceed(false)
    else
      var e := entry.value;
      if e.srcSize != meta.size || e.srcModNano != meta.modNano || cfg.checksum then Proceed(false)
      else if !Matches(dst, e.srcSize, e.srcModNano) then Proceed(false)
      else if e.srcDigest.None? then Proceed(true)
      else if Sum(dst.value.content) != e.srcDigest.value then Proceed(true)
      else if src.None? || |src.value.content| >= TWO63 then FailNow
      else if Sum(src.value.content) == e.srcDigest.value then SkipNow
      else Proceed(true)
  }

  method CheckJournal(cfg: Config, meta: Meta, entry: Option<JournalEntry>, src: Source, dst: Dest, idx: Cache)
    returns (v: Verdict)
    modifies src, dst.tree, idx
    ensures src.stable ==> src.file == old(src.file)
    ensures Same(dst.quiet, old(dst.tree.files), dst.tree.files)
    ensures src.stable && dst.quiet(meta.path) && (v == SkipNow || (src.calm && dst.calm)) ==>
      v == JournalVerdict(cfg, meta, entry, src.file, Lookup(old(dst.tree.files), meta.path))
    ensures idx.entries == if v == Proceed(true) then old(idx.entries) - {meta.path} else old(idx.entries)
    ensures v == Proceed(true) ==> !cfg.checksum
  {
    ghost var files0 := dst.tree.files;
    SameStart(dst.quiet, files0);
    hide Same;
    v := Proceed(false);
    if !cfg.resume || entry.None? || !entry.value.complete { return; }
    var e := entry.value;
    if e.srcSize != meta.size || e.srcModNano != meta.modNano || cfg.checksum { return; }
    var dm := dst.Stat(meta.path);
    SameAt(dst.quiet, files0, dst.tree.files, meta.path);
    if dm.None? || dm.value.size != e.srcSize || dm.value.modNano != e.srcModNano { return; }
    if e.srcDigest.Some? {
      ghost var files1 := dst.tree.files;
      var m := dst.DigestMatches(meta.path, e.srcDigest.value);
      SameTwice(dst.quiet, files0, files1, dst.tree.files);
      if m.None? { return FailNow; }
      if m.value {
        var x := src.OpenRead();
        if x.None? { return FailNow; }
        if Sum(x.value) == e.srcDigest.value { return SkipNow; }
      }
    }
    v := Proceed(true);
    idx.Delete(meta.path);
  }

  /** The journal speaks of this file: the job resumes and does not compare contents, and a
      complete line, the walk and the destination agree on size and mtime. */
  predicate JournalApplies(cfg: Config, meta: Meta, entry: Option<JournalEntry>, dst: Option<File>) {
    && cfg.resume && !cfg.checksum && entry.Some? && entry.value.complete
    && entry.value.srcSize == meta.size && entry.value.srcModNano == meta.modNano
    && Matches(dst, meta.size, meta.modNano)
  }

  /** The line has a digest, and both files have it. */
  predicate JournalAgrees(entry: Option<JournalEntry>, src: Option<File>, dst: Option<File>) {
    && entry.Some? && entry.value.srcDigest.Some?
    && dst.Some? && Sum(dst.value.content) == entry.value.srcDigest.value
    && src.Some? && Sum(src.value.content) == entry.value.srcDigest.value
  }

  /** The source can be hashed. */
  predicate Readable(src: Option<File>) { src.Some? && |src.value.content| < TWO63 }

  /** The journal speaks of the file, and has no digest, or one that the destination lacks, or
      one that the source, when it can be read, lacks. */
  predicate Disproved(cfg: Config, meta: Meta, entry: Option<JournalEntry>, src: Option<File>, dst: Option<File>) {
    && JournalApplies(cfg, meta, entry, dst)
    && (entry.value.srcDigest.None?
        || Sum(dst.value.content) != entry.value.srcDigest.value
        || (Readable(src) && Sum(src.value.content) != entry.value.srcDigest.value))
  }

  /** The journal's verdict, in these terms. */
  lemma VerdictIs(cfg: Config, meta: Meta, entry: Option<JournalEntry>, src: Option<File>, dst: Option<File>)
    ensures JournalVerdict(cfg, meta, entry, src, dst) ==
            if !JournalApplies(cfg, meta, entry, dst) then Proceed(false)
            else if Disproved(cfg, meta, entry, src, dst) then Proceed(true)
            else if Readable(src) then SkipNow
            else FailNow
    ensures JournalApplies(cfg, meta, entry, dst) && Readable(src) ==>
              (Disproved(cfg, meta, entry, src, dst) <==> !JournalAgrees(entry, src, dst))
  {}

  /** When an undisturbed attempt may report "skipped": the bytes are equal, or size and
      mtime match, content checking is off and the journal has not disproved them. */
  predicate SkipJustified(cfg: Config, meta: Meta, entry: Option<JournalEntry>, src: Option<File>, dst: Option<File>) {
    || (src.Some? && dst.Some? && src.value.content == dst.value.content)
    || (!cfg.checksum && Matches(dst, meta.size, meta.modNano) && !Disproved(cfg, meta, entry, src, dst))
  }

  lemma JournalSkipMeansEqual(cfg: Config, meta: Meta, entry: Option<JournalEntry>, src: Option<File>,
                              dst: Option<File>)
    requires JournalVerdict(cfg, meta, entry, src, dst) == SkipNow
    ensures src.Some? && dst.Some? && src.value.content == dst.value.content
  {
    SumInjective(src.value.content, dst.value.content);
  }

  // ---------------------------------------------------------------- the destination signature

  /** sig is the truth about the destination file, or ABSENT, and its pieces are at most cap long. */
  ghost predicate TrueOf(sig: Signature, f: Option<File>, cap: nat) {
    && (if f.None? then sig == ABSENT else TrueSignature(sig, f.value.content))
    && forall k :: 0 <= k < |sig.chunks| ==> sig.chunks[k].length <= cap
  }

  /** The cached signature that the destination's size and mtime select, if the cache is asked. */
  function Candidate(cfg: Config, force: bool, entries: CacheMap, f: Option<File>, path: Path,
                     avg: uint32): Option<Signature>
  {
    if cfg.checksum || force || f.None? then None
    else Found(entries, path, |f.value.content|, f.value.modNano, avg)
  }

  /** A candidate that does not describe the live bytes: its entry is dropped. */
  predicate Stale(cfg: Config, force: bool, entries: CacheMap, f: Option<File>, path: Path, avg: uint32) {
    var cached := Candidate(cfg, force, entries, f, path, avg);
    cached.Some? && cached.value.digest != Sum(f.value.content)
  }

  /** The signature that stands for the destination: the candidate, if it describes the live
      bytes and has chunks; else a fresh one; else the zero signature. */
  function UsedSignature(cfg: Config, force: bool, entries: CacheMap, f: Option<File>, path: Path, avg: uint32,
                         gear: GearTable): Signature
  {
    var cached := Candidate(cfg, force, entries, f, path, avg);
    if cached.Some? && cached.value.digest == Sum(f.value.content) && |cached.value.chunks| > 0 then cached.value
    else if f.Some? then SignatureOf(DefaultParams(gear), f.value.content)
    else ABSENT
  }

  function CacheAfterLook(cfg: Config, force: bool, entries: CacheMap, f: Option<File>, path: Path,
                          avg: uint32): CacheMap
  {
    if Stale(cfg, force, entries, f, path, avg) then entries - {path} else entries
  }

  /** With an honest cache that signature is the truth. */
  lemma UsedIsTrue(cfg: Config, force: bool, entries: CacheMap, f: Option<File>, path: Path, avg: uint32,
                   gear: GearTable)
    requires Honest(entries, gear)
    ensures TrueOf(UsedSignature(cfg, force, entries, f, path, avg, gear), f, CapFor(entries, path))
  {
    var cached := Candidate(cfg, force, entries, f, path, avg);
    if f.Some? {
      FreshSignature(gear, f.value.content);
      if cached.Some? && cached.value.digest == Sum(f.value.content) {
        AcceptedIsTrue(entries, gear, path, |f.value.content|, f.value.modNano, avg, f.value.content);
      }
    }
    hide TrueSignature, SignatureOf, Honest;
  }

  lemma UsedDigest(cfg: Config, force: bool, entries: CacheMap, f: Option<File>, path: Path, avg: uint32,
                   gear: GearTable)
    ensures UsedSignature(cfg, force, entries, f, path, avg, gear).digest ==
            if f.Some? then Sum(f.value.content) else ZeroDigest
  {}

  /** What a look at the destination takes from the cache, and drops from it: the entry is
      selected by size, mtime and, if one is given, average. It is used if it describes the
      live bytes and has chunks, and dropped if it does not describe them. */
  lemma LookIff(cfg: Config, force: bool, entries: CacheMap, f: Option<File>, path: Path, avg: uint32, gear: GearTable)
    ensures var selected := !cfg.checksum && !force && f.Some? && path in entries
                            && entries[path].size == |f.value.content| && entries[path].modNano == f.value.modNano
                            && (avg == 0 || entries[path].avg == avg);
            && (CacheAfterLook(cfg, force, entries, f, path, avg) ==
                if selected && entries[path].digest != Sum(f.value.content) then entries - {path} else entries)
            && (UsedSignature(cfg, force, entries, f, path, avg, gear) ==
                if selected && entries[path].digest == Sum(f.value.content) && entries[path].chunks != [] then
                  Signature(entries[path].size, entries[path].digest, entries[path].chunks)
                else if f.Some? then SignatureOf(DefaultParams(gear), f.value.content)
                else ABSENT)
  {
    hide SignatureOf;
  }

  lemma LookIs(cfg: Config, force: bool, entries: CacheMap, f: Option<File>, path: Path, avg: uint32, gear: GearTable)
    ensures var cached := Candidate(cfg, force, entries, f, path, avg);
            var used := UsedSignature(cfg, force, entries, f, path, avg, gear);
            var anew := if f.Some? then SignatureOf(DefaultParams(gear), f.value.content) else ABSENT;
            if cached.Some? && cached.value.digest == Sum(f.value.content) then
              && used == (if |cached.value.chunks| > 0 then cached.value else anew)
              && CacheAfterLook(cfg, force, entries, f, path, avg) == entries
            else
              && used == anew
              && CacheAfterLook(cfg, force, entries, f, path, avg) ==
                 if cached.Some? then entries - {path} else entries
  {
    hide SignatureOf, Found;
  }

  /** The cached signature if it still describes the live bytes, else a fresh one. */
  method DestSignature(cfg: Config, force: bool, path: Path, avg: uint32, gear: GearTable, dst: Dest, idx: Cache)
    returns (r: Option<Signature>)
    modifies dst.tree, idx
    ensures Same(dst.quiet, old(dst.tree.files), dst.tree.files)
    ensures idx.entries in {old(idx.entries), old(idx.entries) - {path}}
    ensures dst.quiet(path) && r.Some? ==>
      r.value.digest == if path in old(dst.tree.files) then Sum(old(dst.tree.files)[path].content) else ZeroDigest
    ensures dst.Sure(path) ==>
      var f := Lookup(old(dst.tree.files), path);
      && r == Some(UsedSignature(cfg, force, old(idx.entries), f, path, avg, gear))
      && idx.entries == CacheAfterLook(cfg, force, old(idx.entries), f, path, avg)
  {
    ghost var files0 := dst.tree.files;
    SameStart(dst.quiet, files0);
    FreshDigest(gear);
    LookIs(cfg, force, idx.entries, Lookup(files0, path), path, avg, gear);
    hide SignatureOf, Same, UsedSignature, CacheAfterLook, Stale, Found;
    var sig := ABSENT;
    if !cfg.checksum && !force {
      var dm := dst.Stat(path);
      SameAt(dst.quiet, files0, dst.tree.files, path);
      if dm.Some? {
        var cached := idx.Get(path, dm.value.size, dm.value.modNano, avg);
        if cached.Some? {
          ghost var files1 := dst.tree.files;
          var m := dst.DigestMatches(path, cached.value.digest);
          SameTwice(dst.quiet, files0, files1, dst.tree.files);
          SameAt(dst.quiet, files0, dst.tree.files, path);
          if m.None? { return None; }
          if m.value {
            sig := cached.value;
          } else {
            idx.Delete(path);
          }
        }
      }
    }
    if |sig.chunks| > 0 { return Some(sig); }
    ghost var files2 := dst.tree.files;
    r := dst.GetSignature(path, gear);
    SameTwice(dst.quiet, files0, files2, dst.tree.files);
  }

  lemma FreshDigest(gear: GearTable)
    ensures forall x: Bytes :: SignatureOf(DefaultParams(gear), x).digest == Sum(x)
  {}

  lemma FreshSignature(gear: GearTable, x: Bytes)
    ensures TrueSignature(SignatureOf(DefaultParams(gear), x), x)
    ensures forall k :: 0 <= k < |Chunks(DefaultParams(gear), x, 0)| ==>
        Chunks(DefaultParams(gear), x, 0)[k].length <= DEFAULT_MAX
  {
    var p := DefaultParams(gear);
    SignatureOfIsTrue(p, x);
    forall k | 0 <= k < |Chunks(p, x, 0)| ensures Chunks(p, x, 0)[k].length <= DEFAULT_MAX {
      ChunkSizes(p, x, 0, k);
    }
  }
}
