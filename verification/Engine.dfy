/** internal/engine/engine.go: one attempt to bring one regular file across. */
module Engine {
  import opened Base
  import opened Chunker
  import opened ChunkerLaws
  import opened Delta
  import opened Ranges
  import opened WriteSession
  import opened Transfer
  import opened SignatureCache
  import opened Endpoints
  import opened Evidence

  // ---------------------------------------------------------------- the second pass

  /** The second pass over the bytes x that the second read yields, stopping at the first
      error. When nothing interferes it is SendAll. */
  method Fill(job: Job, ws: LocalSession, dst: Dest, cs: seq<Chunk>, x: Bytes, calm: bool, ghost files0: Files)
    returns (r: Sent)
    requires Same(dst.quiet, files0, dst.tree.files)
    modifies ws`staging, dst.tree
    ensures Same(dst.quiet, files0, dst.tree.files)
    ensures r.session == ws.View()
    ensures calm && dst.quiet(ws.path) ==> r == SendAll(job, old(ws.View()), files0, cs, x, |cs|)
  {
    hide *;
    ghost var s0 := ws.View();
    r := Sent(ws.View(), None, 0, 0, 0, 0);
    SendAllNone(job, s0, files0, cs, x);
    ViewPath(ws);
    var i := 0;
    var interrupted := false;
    while i < |cs| && r.err.None?
      invariant i <= |cs|
      invariant Same(dst.quiet, files0, dst.tree.files)
      invariant r.session == ws.View() && r.session.path == ws.path
      invariant calm && dst.quiet(ws.path) ==> r == SendAll(job, s0, files0, cs, x, i)
    {
      ghost var files1 := dst.tree.files;
      dst.Meanwhile();
      SameTwice(dst.quiet, files0, files1, dst.tree.files);
      interrupted := *;
      if interrupted && !calm {
        r := r.(err := Some(Interrupted));
      } else {
        if calm && dst.quiet(ws.path) {
          SendAllNext(job, s0, files0, cs, x, i);
          SameStep(dst.quiet, job, ws.View(), files0, dst.tree.files, cs[i], DataOf(x, cs[i]));
        }
        ViewPath(ws);
        var b := SendOne(job, ws, dst.tree, cs[i], DataOf(x, cs[i]));
        ViewPath(ws);
        PlusTakesSession(r, b);
        r := Plus(r, b);
      }
      i := i + 1;
    }
    if calm && dst.quiet(ws.path) && r.err.Some? { SendAllStops(job, s0, files0, cs, x, i, |cs|); }
  }

  // ---------------------------------------------------------------- one attempt

  datatype Attempt =
    | Skipped
    | WouldCopy(payload: nat)
    | Copied(payload: nat, wire: nat, reuses: nat, sent: nat)
    | Failed(unstable: bool)

  method SumPayload(missing: seq<Chunk>) returns (n: nat)
    ensures n == PayloadOf(missing)
  {
    n := 0;
    for i := 0 to |missing|
      invariant n == PayloadOf(missing[..i])
    {
      assert missing[..i + 1][..i] == missing[..i];
      n := n + missing[i].length;
    }
    assert missing[..|missing|] == missing;
  }

  /** How the destination tree comes out of an attempt that read `file`: it is renamed into
      place by an attempt that copies, and by one whose last journal write fails afterwards;
      quiet paths do not change otherwise. */
  ghost predicate TreeAfter(a: Attempt, putFailed: bool, path: Path, file: File, quiet: Path -> bool, files0: Files,
                            files: Files)
  {
    && (putFailed ==> a == Failed(false))
    && (a.Copied? || putFailed ==> path in files && files[path] == file)
    && Same(quiet, if a.Copied? || putFailed then files0[path := file] else files0, files)
  }

  lemma TreeUntouched(a: Attempt, path: Path, file: File, quiet: Path -> bool, files0: Files, files: Files)
    requires !a.Copied? && Same(quiet, files0, files)
    ensures TreeAfter(a, false, path, file, quiet, files0, files)
  {}

  /** Before a loud destination changes by itself, what it held counts for nothing. */
  lemma TreeAfterFrom(a: Attempt, putFailed: bool, path: Path, file: File, quiet: Path -> bool, files0: Files,
                      files1: Files, files: Files)
    requires TreeAfter(a, putFailed, path, file, quiet, files1, files) && Same(quiet, files0, files1)
    ensures TreeAfter(a, putFailed, path, file, quiet, files0, files)
  {
    SameRenamed(quiet, files0, files1, path, file);
    if a.Copied? || putFailed {
      SameTwice(quiet, files0[path := file], files1[path := file], files);
    } else {
      SameTwice(quiet, files0, files1, files);
    }
    hide Same;
  }

  /** The journal is written after the rename: if that fails, so does the attempt. */
  lemma CopiedThenFailed(path: Path, file: File, quiet: Path -> bool, files0: Files, files: Files)
    requires path in files && files[path] == file && Same(quiet, files0[path := file], files)
    ensures TreeAfter(Failed(false), true, path, file, quiet, files0, files)
  {}

  lemma CopiedIs(a: Attempt, path: Path, file: File, quiet: Path -> bool, files0: Files, files: Files)
    requires a.Copied? && TreeAfter(a, false, path, file, quiet, files0, files)
    ensures path in files && files[path] == file && Same(quiet, files0[path := file], files)
  {}

  /** A failure is blamed on an unstable source only if the source has changed: a stable one
      that can be read and whose file is as walked is never to blame. */
  ghost predicate BlameIsFair(a: Attempt, stable: bool, f: Option<File>, x: Bytes, meta: Meta) {
    a.Failed? && a.unstable && stable && SameBytes(f, x) ==> !Matches(f, meta.size, meta.modNano)
  }

  lemma NoBlame(a: Attempt, stable: bool, f: Option<File>, x: Bytes, meta: Meta)
    requires !a.Failed? || !a.unstable
    ensures BlameIsFair(a, stable, f, x, meta)
  {}

  lemma StatBlames(st: Option<Meta>, stable: bool, f: Option<File>, x: Bytes, meta: Meta)
    requires stable && f.Some? ==> st.Some?
    requires stable && st.Some? ==> f.Some? && st.value.size == |f.value.content| && st.value.modNano == f.value.modNano
    ensures StillAsWalked(st, meta) || BlameIsFair(Failed(true), stable, f, x, meta)
    ensures StillAsWalked(st, meta) <==> st.Some? && st.value.size == meta.size && st.value.modNano == meta.modNano
  {}

  /** The parts of an attempt that do not change while it runs. */
  datatype Setup = Setup(cfg: Config, meta: Meta, packed: map<Bytes, Bytes>, pref: Codec, avg: uint32,
                         gear: GearTable, calm: bool)

  function CdcParams(u: Setup): Params { ParamsOf(Options(u.avg, 0, 0), u.gear) }

  /** Nothing interferes, and what is known of both sides is true. */
  ghost predicate Undisturbed(u: Setup, stable: bool, quiet: bool, seen: Bytes, srcFile: Option<File>, files: Files,
                              destSig: Signature)
  {
    && stable && quiet && u.calm
    && srcFile == Some(File(seen, u.meta.modNano)) && |seen| == u.meta.size
    && var dst := Lookup(files, u.meta.path);
       if dst.None? then destSig == ABSENT
       else TrueSignature(destSig, dst.value.content) && |dst.value.content| < TWO63
  }

  /** Every chunk passes its cap: the exact condition for an undisturbed transfer. */
  ghost predicate AllWork(u: Setup, supports: bool, sig: Signature, destSig: Signature, x: Bytes) {
    var job := JobFor(u.packed, u.pref, sig, destSig, supports);
    forall i :: 0 <= i < |sig.chunks| ==> Works(job, sig.chunks[i], DataOf(x, sig.chunks[i]))
  }

  /** What the second pass leaves behind when nothing interferes. */
  lemma FillIsWhole(u: Setup, job: Job, supports: bool, sig: Signature, destSig: Signature, x: Bytes, s: Session,
                    files: Files)
    requires 0 < CdcParams(u).max && sig == SignatureOf(CdcParams(u), x) && |x| < TWO63
    requires Undisturbed(u, true, true, x, Some(File(x, u.meta.modNano)), files, destSig)
    requires job == JobFor(u.packed, u.pref, sig, destSig, supports)
    requires s == Begin(files, u.meta.path, |x|)
    ensures var r := SendAll(job, s, files, sig.chunks, x, |sig.chunks|);
            && (r.err.None? <==> AllWork(u, supports, sig, destSig, x))
            && (r.err.None? ==>
                 && r.session == s.(staging := Some(x))
                 && r.payload == PayloadOf(PlanFor(sig.chunks, Have(destSig.chunks)).missing)
                 && (supports || destSig.chunks == [] ==> r.payload + r.reused == |x|))
  {
    var dst := Lookup(files, u.meta.path);
    var y := if dst.Some? then Some(dst.value.content) else None;
    SignatureOfIsTrue(CdcParams(u), x);
    assert Tiles(sig.chunks, x, 0);
    UndisturbedIsSetting(u, sig, x, destSig, s, files);
    JobFlags(job, u.packed, u.pref, sig, destSig, supports);
    var r := SendAll(job, s, files, sig.chunks, x, |sig.chunks|);
    assert job.canReuse || job.fullWire <==> supports || destSig.chunks == [];
    hide Chunks, SendAll, JobFor, Setting, Undisturbed, Works, SignatureOf, Begin, FilledTo, DataOf, PlanFor, Have;
    hide PayloadOf, PayloadUpTo, Tiles;
    SendAllFills(job, sig, x, destSig, y, supports, s, files, |sig.chunks|);
    FilledWhole(job, s, sig.chunks, x, r);
    if r.err.None? {
      SendAllPayload(job, sig, x, destSig, supports, s, files, |sig.chunks|);
      PayloadEnds(sig.chunks, Have(destSig.chunks));
    }
  }

  lemma UndisturbedIsSetting(u: Setup, sig: Signature, x: Bytes, destSig: Signature, s: Session, files: Files)
    requires 0 < CdcParams(u).max && sig == SignatureOf(CdcParams(u), x) && |x| < TWO63
    requires Undisturbed(u, true, true, x, Some(File(x, u.meta.modNano)), files, destSig)
    requires s == Begin(files, u.meta.path, |x|)
    ensures var dst := Lookup(files, u.meta.path);
            Setting(sig, x, destSig, if dst.Some? then Some(dst.value.content) else None, s, files)
  {
    SignatureOfIsTrue(CdcParams(u), x);
    hide TrueSignature, SignatureOf;
  }

  lemma JobFlags(job: Job, packed: map<Bytes, Bytes>, pref: Codec, src: Signature, dest: Signature, supports: bool)
    requires job == JobFor(packed, pref, src, dest, supports)
    ensures job.canReuse == (supports && |dest.chunks| > 0) && job.fullWire == (|dest.chunks| == 0)
    ensures job.packed == packed && job.pref == pref && job == JobFor(job.packed, job.pref, src, dest, supports)
  {}

  /** After the second pass: is it the file of the first, is the source still the same, and
      does the staging file hold it? Then rename. */
  method Finalize(u: Setup, ws: LocalSession, src: Source, dst: Dest, sig: Signature, x: Bytes, ghost seen: Bytes)
    returns (ok: bool, unstable: bool)
    requires sig.digest == Sum(seen) && sig.size == |seen| && !ws.committed && ws.path == u.meta.path
    modifies src, dst.tree, ws
    ensures src.stable ==> src.file == old(src.file)
    ensures ok ==> u.meta.path in dst.tree.files && dst.tree.files[u.meta.path] == File(seen, u.meta.modNano)
    ensures Same(dst.quiet, if ok then old(dst.tree.files)[u.meta.path := File(seen, u.meta.modNano)]
                            else old(dst.tree.files), dst.tree.files)
    ensures ok ==> StillAsWalked(src.lastStat, u.meta)
    ensures !ok && unstable && x == seen ==> BlameIsFair(Failed(true), src.Sure(), src.file, seen, u.meta)
    ensures (src.Sure() && dst.calm && old(src.file) == Some(File(seen, u.meta.modNano)) && |seen| == u.meta.size
             && x == seen && old(ws.staging) == Some(seen)) ==> ok
  {
    ok, unstable := false, false;
    ghost var files0 := dst.tree.files;
    SameStart(dst.quiet, files0);
    hide Same, BlameIsFair, StillAsWalked;
    if u.meta.size > 0 && u.meta.size != |x| { return; } // StreamChunks: size mismatch
    if Sum(x) != sig.digest || |x| != sig.size { return false, true; }
    var st := src.Stat(u.meta.path);
    StatBlames(st, src.Sure(), src.file, seen, u.meta);
    if st.None? || st.value.size != u.meta.size || st.value.modNano != u.meta.modNano { return false, true; }
    dst.Meanwhile();
    SameRenamed(dst.quiet, files0, dst.tree.files, u.meta.path, File(seen, u.meta.modNano));
    var fault: Fault := *;
    if dst.calm { fault := NoFault; }
    if ws.staging.Some? && Sum(ws.staging.value) == sig.digest { SumInjective(seen, ws.staging.value); }
    var err := ws.Commit(dst.tree, sig.digest, u.meta.modNano, fault);
    ok := err.None?;
  }

  /** The undisturbed second pass over x, from a session begun on the tree `files`. */
  ghost function SecondPass(u: Setup, supports: bool, sig: Signature, destSig: Signature, x: Bytes, files: Files): Sent
    requires |x| < TWO63
  {
    SendAll(JobFor(u.packed, u.pref, sig, destSig, supports), Begin(files, u.meta.path, |x|), files, sig.chunks, x,
            |sig.chunks|)
  }

  /** An undisturbed attempt copies exactly when every chunk passes its cap. Then it reports
      the counters of the second pass; the payload is what the plan calls missing; and,
      unless the destination has chunks that it cannot reuse, payload and reused bytes make
      up the file. */
  ghost predicate CopiesExactly(u: Setup, supports: bool, sig: Signature, destSig: Signature, x: Bytes, files: Files,
                                a: Attempt, reused: nat)
    requires |x| < TWO63
  {
    var r, plan := SecondPass(u, supports, sig, destSig, x, files), PlanFor(sig.chunks, Have(destSig.chunks));
    && (a.Copied? <==> AllWork(u, supports, sig, destSig, x))
    && (!a.Copied? ==> a == Failed(false))
    && (a.Copied? ==>
          && a == Copied(r.payload, r.wire, |plan.reuse|, r.chunks) && reused == r.reused
          && r.payload == PayloadOf(plan.missing)
          && (supports || destSig.chunks == [] ==> r.payload + r.reused == |x|))
  }

  lemma NotCopied(u: Setup, supports: bool, sig: Signature, destSig: Signature, x: Bytes, files: Files, a: Attempt,
                  reused: nat)
    requires |x| < TWO63 && a == Failed(false) && !AllWork(u, supports, sig, destSig, x)
    ensures CopiesExactly(u, supports, sig, destSig, x, files, a, reused)
  {
    hide AllWork, SecondPass;
  }

  lemma AllCopied(u: Setup, supports: bool, sig: Signature, destSig: Signature, x: Bytes, files: Files, plan: Plan,
                  a: Attempt, reused: nat)
    requires |x| < TWO63 && plan == PlanFor(sig.chunks, Have(destSig.chunks)) && AllWork(u, supports, sig, destSig, x)
    requires var r := SecondPass(u, supports, sig, destSig, x, files);
             && a == Copied(r.payload, r.wire, |plan.reuse|, r.chunks) && reused == r.reused
             && r.payload == PayloadOf(plan.missing)
             && (supports || destSig.chunks == [] ==> r.payload + r.reused == |x|)
    ensures CopiesExactly(u, supports, sig, destSig, x, files, a, reused)
  {
    hide AllWork, SecondPass;
  }

  /** Begin, second pass, re-checks and commit, once the plan is made. */
  method Transmit(u: Setup, src: Source, dst: Dest, sig: Signature, destSig: Signature, ghost seen: Bytes)
    returns (a: Attempt, ghost reused: nat)
    requires 0 < CdcParams(u).max && sig == SignatureOf(CdcParams(u), seen) && |seen| < TWO63
    modifies src, dst.tree
    ensures src.stable ==> src.file == old(src.file)
    ensures a.Copied? || a.Failed?
    ensures a.Copied? ==> StillAsWalked(src.lastStat, u.meta)
    ensures BlameIsFair(a, src.Sure(), src.file, seen, u.meta)
    ensures TreeAfter(a, false, u.meta.path, File(seen, u.meta.modNano), dst.quiet, old(dst.tree.files), dst.tree.files)
    ensures Undisturbed(u, src.Sure(), dst.Sure(u.meta.path), seen, old(src.file), old(dst.tree.files), destSig) ==>
      CopiesExactly(u, dst.supportsReuse, sig, destSig, seen, old(dst.tree.files), a, reused)
  {
    hide Chunks, SignatureOf, Undisturbed, JobFor, Begin, AllWork, PlanFor, Have, ByNewOffset, MissingSet;
    hide TreeAfter, SendAll, CdcParams, Same;
    reused := 0;
    ghost var files0, file := dst.tree.files, File(seen, u.meta.modNano);
    ghost var calm := Undisturbed(u, src.Sure(), dst.Sure(u.meta.path), seen, src.file, files0, destSig);
    SameStart(dst.quiet, files0);
    if calm { UndisturbedGives(u, src.Sure(), dst.Sure(u.meta.path), seen, src.file, files0, destSig); }
    SignatureOfFields(CdcParams(u), seen);
    var plan := Diff(sig, destSig);
    var job := Job(u.packed, u.pref, MissingSet(plan), ByNewOffset(plan.reuse),
                   dst.supportsReuse && |destSig.chunks| > 0, |destSig.chunks| == 0);
    assert job == JobFor(u.packed, u.pref, sig, destSig, dst.supportsReuse) by {
      JobForFields(u.packed, u.pref, sig, destSig, dst.supportsReuse);
    }
    var blocked := dst.Hiccup();
    dst.Meanwhile();
    a := Failed(false);
    TreeUntouched(a, u.meta.path, file, dst.quiet, files0, dst.tree.files);
    if blocked { return; }
    var ws := new LocalSession(dst.tree, u.meta.path, sig.size);
    BeginSame(dst.quiet, files0, dst.tree.files, u.meta.path, sig.size);
    assert !ws.committed && ws.path == u.meta.path;
    if calm { SecondPassIs(u, job, dst.supportsReuse, sig, destSig, seen, files0); }
    var x := src.OpenRead();
    if x.None? { ws.Abort(); return; }
    var cs := Chunks(CdcParams(u), x.value, 0);
    if calm { FillIsWhole(u, job, dst.supportsReuse, sig, destSig, seen, ws.View(), files0); }
    hide *;
    SureIs(src, dst, u.meta.path);
    var r := Fill(job, ws, dst, cs, x.value, u.calm, files0);
    reused := r.reused;
    TreeUntouched(a, u.meta.path, file, dst.quiet, files0, dst.tree.files);
    if r.err.Some? {
      if calm { NotCopied(u, dst.supportsReuse, sig, destSig, seen, files0, a, reused); }
      NoBlame(a, src.Sure(), src.file, seen, u.meta);
      ws.Abort();
      return;
    }
    ghost var files1 := dst.tree.files;
    var ok, unstable := Finalize(u, ws, src, dst, sig, x.value, seen);
    if !ok {
      SameTwice(dst.quiet, files0, files1, dst.tree.files);
      ws.Abort();
      a := Failed(unstable);
      BlameOfFinalize(unstable, src.Sure(), src.file, x.value, seen, u.meta);
      TreeUntouched(a, u.meta.path, file, dst.quiet, files0, dst.tree.files);
      return;
    }
    a := Copied(r.payload, r.wire, |plan.reuse|, r.chunks);
    if calm { AllCopied(u, dst.supportsReuse, sig, destSig, seen, files0, plan, a, reused); }
    SameRenamed(dst.quiet, files0, files1, u.meta.path, file);
    SameTwice(dst.quiet, files0[u.meta.path := file], files1[u.meta.path := file], dst.tree.files);
    TreeCopied(a, u.meta.path, file, dst.quiet, files0, dst.tree.files);
    NoBlame(a, src.Sure(), src.file, seen, u.meta);
  }

  lemma BlameOfFinalize(unstable: bool, stable: bool, f: Option<File>, x: Bytes, seen: Bytes, meta: Meta)
    requires unstable && x == seen ==> BlameIsFair(Failed(true), stable, f, seen, meta)
    requires stable && f.Some? ==> x == f.value.content
    ensures BlameIsFair(Failed(unstable), stable, f, seen, meta)
  {}

  lemma SecondPassIs(u: Setup, job: Job, supports: bool, sig: Signature, destSig: Signature, x: Bytes, files: Files)
    requires |x| < TWO63 && job == JobFor(u.packed, u.pref, sig, destSig, supports)
    ensures SecondPass(u, supports, sig, destSig, x, files) ==
            SendAll(job, Begin(files, u.meta.path, |x|), files, sig.chunks, x, |sig.chunks|)
  {
    hide JobFor, SendAll, Begin;
  }

  lemma BeginSame(quiet: Path -> bool, files0: Files, files: Files, path: Path, size: int64)
    requires Same(quiet, files0, files)
    ensures var s := Begin(files, path, size); s.path == path && !s.committed
    ensures quiet(path) ==> Begin(files, path, size) == Begin(files0, path, size)
  {
    SameAt(quiet, files0, files, path);
    hide Same;
  }

  lemma TreeCopied(a: Attempt, path: Path, file: File, quiet: Path -> bool, files0: Files, files: Files)
    requires a.Copied? && path in files && files[path] == file && Same(quiet, files0[path := file], files)
    ensures TreeAfter(a, false, path, file, quiet, files0, files)
  {}

  lemma JobForFields(packed: map<Bytes, Bytes>, pref: Codec, src: Signature, dest: Signature, supports: bool)
    ensures var plan := PlanFor(src.chunks, Have(dest.chunks));
            JobFor(packed, pref, src, dest, supports) ==
            Job(packed, pref, MissingSet(plan), ByNewOffset(plan.reuse), supports && |dest.chunks| > 0,
                |dest.chunks| == 0)
  {
    hide PlanFor, Have, MissingSet, ByNewOffset;
  }

  lemma UndisturbedGives(u: Setup, stable: bool, quiet: bool, seen: Bytes, srcFile: Option<File>, files: Files,
                         destSig: Signature)
    requires Undisturbed(u, stable, quiet, seen, srcFile, files, destSig) && 0 < CdcParams(u).max
    ensures stable && quiet && u.calm && srcFile == Some(File(seen, u.meta.modNano)) && |seen| == u.meta.size
    ensures SignatureOf(CdcParams(u), seen).chunks == Chunks(CdcParams(u), seen, 0)
  {
    hide Chunks, TrueSignature;
  }

  /** An attempt may copy, whatever the caps: both caps are respected by every chunk. */
  lemma CapsSuffice(u: Setup, supports: bool, destSig: Signature, x: Bytes, y: Option<File>, cap: nat)
    requires 0 < CdcParams(u).max <= MAX_UNCOMPRESSED && cap <= DEFAULT_MAX && TrueOf(destSig, y, cap)
    ensures AllWork(u, supports, SignatureOf(CdcParams(u), x), destSig, x)
  {
    var sig := SignatureOf(CdcParams(u), x);
    var job := JobFor(u.packed, u.pref, sig, destSig, supports);
    SignatureOfIsTrue(CdcParams(u), x);
    TilesCoherent(sig.chunks, x);
    forall i | 0 <= i < |sig.chunks| ensures Works(job, sig.chunks[i], DataOf(x, sig.chunks[i])) {
      ChunkSizes(CdcParams(u), x, 0, i);
      ChunkWithinCaps(job, u.packed, u.pref, sig, destSig, supports, i, DataOf(x, sig.chunks[i]), cap);
    }
  }

  /** What an undisturbed attempt needs to know of its surroundings. */
  ghost predicate Orderly(u: Setup, stable: bool, quiet: bool, settled: bool, src: Option<File>, files: Files,
                          entries: CacheMap)
  {
    && stable && quiet && u.calm && settled && Honest(entries, u.gear)
    && Matches(src, u.meta.size, u.meta.modNano) && |src.value.content| < TWO63
    && (u.meta.path in files ==> |files[u.meta.path].content| < TWO63)
  }

  // ---------------------------------------------------------------- what an orderly attempt does

  /** What a dry run reports for two signatures. */
  function DryRunPayload(sig: Signature, destSig: Signature): nat
    requires 0 <= sig.size
  {
    var missing := PayloadOf(PlanFor(sig.chunks, Have(destSig.chunks)).missing);
    if missing == 0 && sig.digest != destSig.digest then sig.size else missing
  }

  datatype Exam = Done(a: Attempt) | Go

  /** The decision to transfer, from the two signatures. */
  function ExamOf(u: Setup, force: bool, sig: Signature, destSig: Signature): Exam
    requires 0 <= sig.size
  {
    if !force && !NeedsTransfer(sig, destSig, u.cfg.checksum) && sig.digest == destSig.digest then Done(Skipped)
    else if u.cfg.dryRun then Done(WouldCopy(DryRunPayload(sig, destSig)))
    else Go
  }

  /** The signature an attempt uses for the destination file f. */
  function Used(u: Setup, force: bool, f: Option<File>, entries: CacheMap): Signature {
    UsedSignature(u.cfg, force, entries, f, u.meta.path, u.avg, u.gear)
  }

  /** How an attempt ends: its report, whether the file was renamed into place, the cache. */
  datatype Outcome = Outcome(a: Attempt, placed: bool, entries: CacheMap)

  /** The counters of an undisturbed copy. */
  ghost function CopyOf(u: Setup, supports: bool, sig: Signature, destSig: Signature, x: Bytes, files: Files): Attempt
    requires |x| < TWO63
  {
    var r := SecondPass(u, supports, sig, destSig, x, files);
    Copied(r.payload, r.wire, |PlanFor(sig.chunks, Have(destSig.chunks)).reuse|, r.chunks)
  }

  function EntryFor(u: Setup, sig: Signature, size: nat): SignatureCache.Entry {
    Entry(size, u.meta.modNano, sig.digest, u.avg, sig.chunks)
  }

  /** An undisturbed attempt over the bytes x, from the comparison on. `putFails` says
      whether the last journal write fails. */
  ghost function CompareOf(u: Setup, force: bool, supports: bool, putFails: bool, x: Bytes, files: Files,
                           entries: CacheMap): Outcome
    requires 0 < CdcParams(u).max && |x| < TWO63
  {
    var f := Lookup(files, u.meta.path);
    var sig, destSig := SignatureOf(CdcParams(u), x), Used(u, force, f, entries);
    var looked := CacheAfterLook(u.cfg, force, entries, f, u.meta.path, u.avg);
    match ExamOf(u, force, sig, destSig)
    case Done(a) => Outcome(a, false, looked)
    case Go =>
      if !AllWork(u, supports, sig, destSig, x) then Outcome(Failed(false), false, looked)
      else
        Outcome(if putFails then Failed(false) else CopyOf(u, supports, sig, destSig, x, files),
                true, looked[u.meta.path := EntryFor(u, sig, |x|)])
  }

  /** What the journal and, failing that, size and mtime settle without reading. */
  function ShortcutOf(u: Setup, entry: Option<JournalEntry>, src: Option<File>, dst: Option<File>): Option<Attempt> {
    match JournalVerdict(u.cfg, u.meta, entry, src, dst)
    case SkipNow => Some(Skipped)
    case FailNow => Some(Failed(false))
    case Proceed(force) =>
      if !u.cfg.checksum && !force && Matches(dst, u.meta.size, u.meta.modNano) then Some(Skipped) else None
  }

  /** A whole undisturbed attempt to bring src across. */
  ghost function AttemptOf(u: Setup, entry: Option<JournalEntry>, supports: bool, putFails: bool, src: File,
                           files: Files, entries: CacheMap): Outcome
    requires 0 < CdcParams(u).max && |src.content| < TWO63
  {
    var dst := Lookup(files, u.meta.path);
    var force := Disproved(u.cfg, u.meta, entry, Some(src), dst);
    var kept := if force then entries - {u.meta.path} else entries;
    match ShortcutOf(u, entry, Some(src), dst)
    case Some(a) => Outcome(a, false, kept)
    case None => CompareOf(u, force, supports, putFails, src.content, files, kept)
  }

  // ---------------------------------------------------------------- laws of such an attempt

  /** Needing no transfer, with equal digests, is just having equal digests. */
  lemma ExamSkipsIff(u: Setup, force: bool, sig: Signature, x: Bytes, destSig: Signature, f: Option<File>, cap: nat)
    requires TrueSignature(sig, x) && TrueOf(destSig, f, cap)
    ensures ExamOf(u, force, sig, destSig) == Done(Skipped) <==> !force && SameBytes(f, x)
  {
    var y := if f.Some? then Some(f.value.content) else None;
    NeedsTransferIff(sig, x, destSig, y, u.cfg.checksum);
    if f.Some? && sig.digest == destSig.digest { SumInjective(x, f.value.content); }
    hide TrueSignature, NeedsTransfer, DryRunPayload;
  }

  lemma AttemptIs(u: Setup, entry: Option<JournalEntry>, supports: bool, putFails: bool, src: File, files: Files,
                  entries: CacheMap)
    requires 0 < CdcParams(u).max && |src.content| < TWO63
    ensures var dst := Lookup(files, u.meta.path);
            var force := Disproved(u.cfg, u.meta, entry, Some(src), dst);
            var kept := if force then entries - {u.meta.path} else entries;
            var quick := ShortcutOf(u, entry, Some(src), dst);
            AttemptOf(u, entry, supports, putFails, src, files, entries) ==
            if quick.Some? then Outcome(quick.value, false, kept)
            else CompareOf(u, force, supports, putFails, src.content, files, kept)
  {
    hide Disproved, ShortcutOf, CompareOf, CdcParams;
  }

  lemma CompareIs(u: Setup, force: bool, supports: bool, putFails: bool, x: Bytes, files: Files, entries: CacheMap)
    requires 0 < CdcParams(u).max && |x| < TWO63
    ensures var f := Lookup(files, u.meta.path);
            var sig, destSig := SignatureOf(CdcParams(u), x), Used(u, force, f, entries);
            var looked := CacheAfterLook(u.cfg, force, entries, f, u.meta.path, u.avg);
            var e, o := ExamOf(u, force, sig, destSig), CompareOf(u, force, supports, putFails, x, files, entries);
            && (e.Done? ==> o == Outcome(e.a, false, looked))
            && (e.Go? && !AllWork(u, supports, sig, destSig, x) ==> o == Outcome(Failed(false), false, looked))
            && (e.Go? && AllWork(u, supports, sig, destSig, x) ==>
                  && o.placed && o.entries == looked[u.meta.path := EntryFor(u, sig, |x|)]
                  && o.a == if putFails then Failed(false) else CopyOf(u, supports, sig, destSig, x, files))
  {
    hide AllWork, ExamOf, Used, CacheAfterLook, CopyOf, EntryFor, Chunks, CdcParams;
  }

  /** When exactly an undisturbed attempt skips: if the journal speaks of the file, when it has
      a digest and both files have it; otherwise when size and mtime match and contents are not
      compared, or when the bytes are equal. */
  lemma SkipsExactly(u: Setup, entry: Option<JournalEntry>, supports: bool, putFails: bool, src: File, files: Files,
                     entries: CacheMap)
    requires 0 < CdcParams(u).max && |src.content| < TWO63 && Honest(entries, u.gear)
    ensures var f, o := Lookup(files, u.meta.path), AttemptOf(u, entry, supports, putFails, src, files, entries);
            o.a.Skipped? <==>
              if JournalApplies(u.cfg, u.meta, entry, f) then JournalAgrees(entry, Some(src), f)
              else (!u.cfg.checksum && Matches(f, u.meta.size, u.meta.modNano)) || SameBytes(f, src.content)
  {
    var f := Lookup(files, u.meta.path);
    var force := Disproved(u.cfg, u.meta, entry, Some(src), f);
    var kept := if force then entries - {u.meta.path} else entries;
    VerdictIs(u.cfg, u.meta, entry, Some(src), f);
    if JournalAgrees(entry, Some(src), f) { SumInjective(src.content, f.value.content); }
    ShortcutIs(u, entry, Some(src), f);
    DeleteKeepsHonest(entries, u.gear, u.meta.path);
    assert JournalApplies(u.cfg, u.meta, entry, f) ==> !u.cfg.checksum && Matches(f, u.meta.size, u.meta.modNano);
    assert Readable(Some(src));
    hide *;
    AttemptIs(u, entry, supports, putFails, src, files, entries);
    ExamOfOrderly(u, force, src.content, f, kept);
    CompareIs(u, force, supports, putFails, src.content, files, kept);
    CopyIsCopied(u, supports, SignatureOf(CdcParams(u), src.content), Used(u, force, f, kept), src.content, files);
  }

  lemma ShortcutIs(u: Setup, entry: Option<JournalEntry>, src: Option<File>, dst: Option<File>)
    ensures ShortcutOf(u, entry, src, dst) ==
            match JournalVerdict(u.cfg, u.meta, entry, src, dst)
            case SkipNow => Some(Skipped)
            case FailNow => Some(Failed(false))
            case Proceed(force) =>
              if !u.cfg.checksum && !force && Matches(dst, u.meta.size, u.meta.modNano) then Some(Skipped) else None
  {
    hide JournalVerdict;
  }

  /** What an undisturbed attempt does once the journal has disproved the file: the cached entry
      is dropped, and the file is copied against a fresh signature of the destination, whatever
      the bytes are. */
  lemma DisprovedIsCopied(u: Setup, entry: Option<JournalEntry>, supports: bool, putFails: bool, src: File,
                          files: Files, entries: CacheMap)
    requires 0 < CdcParams(u).max && |src.content| < TWO63 && Honest(entries, u.gear)
    requires var f := Lookup(files, u.meta.path);
             JournalApplies(u.cfg, u.meta, entry, f) && !JournalAgrees(entry, Some(src), f)
    ensures var y, x := files[u.meta.path].content, src.content;
            var sig, destSig := SignatureOf(CdcParams(u), x), SignatureOf(DefaultParams(u.gear), y);
            var o, works := AttemptOf(u, entry, supports, putFails, src, files, entries),
                            AllWork(u, supports, sig, destSig, x);
            && (u.cfg.dryRun ==> o == Outcome(WouldCopy(DryRunPayload(sig, destSig)), false, entries - {u.meta.path}))
            && (!u.cfg.dryRun ==>
                  && (o.placed <==> works) && (o.a.Copied? <==> works && !putFails)
                  && (!works ==> o == Outcome(Failed(false), false, entries - {u.meta.path})))
  {
    var f, x := Lookup(files, u.meta.path), src.content;
    var kept := entries - {u.meta.path};
    VerdictIs(u.cfg, u.meta, entry, Some(src), f);
    ShortcutIs(u, entry, Some(src), f);
    assert Disproved(u.cfg, u.meta, entry, Some(src), f) && ShortcutOf(u, entry, Some(src), f) == None by {
      hide JournalVerdict, ShortcutOf;
    }
    DeleteKeepsHonest(entries, u.gear, u.meta.path);
    LookIff(u.cfg, true, kept, f, u.meta.path, u.avg, u.gear);
    assert f == Some(files[u.meta.path]);
    hide *;
    UsedIs(u, true, f, kept);
    AttemptIs(u, entry, supports, putFails, src, files, entries);
    ExamOfOrderly(u, true, x, f, kept);
    CompareIs(u, true, supports, putFails, x, files, kept);
    CopyIsCopied(u, supports, SignatureOf(CdcParams(u), x), Used(u, true, f, kept), x, files);
  }

  /** When an orderly attempt that compares contents stops: for equal bytes, or in a dry run. */
  lemma ExamOfOrderly(u: Setup, force: bool, x: Bytes, f: Option<File>, entries: CacheMap)
    requires 0 < CdcParams(u).max && Honest(entries, u.gear)
    ensures var sig, destSig := SignatureOf(CdcParams(u), x), Used(u, force, f, entries);
            ExamOf(u, force, sig, destSig) ==
            if !force && SameBytes(f, x) then Done(Skipped)
            else if u.cfg.dryRun then Done(WouldCopy(DryRunPayload(sig, destSig)))
            else Go
  {
    var sig, destSig := SignatureOf(CdcParams(u), x), Used(u, force, f, entries);
    SignatureOfIsTrue(CdcParams(u), x);
    SignatureOfFields(CdcParams(u), x);
    UsedIsTrue(u.cfg, force, entries, f, u.meta.path, u.avg, u.gear);
    UsedIs(u, force, f, entries);
    hide *;
    ExamSkipsIff(u, force, sig, x, destSig, f, CapFor(entries, u.meta.path));
    ExamIs(u, force, sig, destSig);
  }

  lemma CopyIsCopied(u: Setup, supports: bool, sig: Signature, destSig: Signature, x: Bytes, files: Files)
    requires |x| < TWO63
    ensures CopyOf(u, supports, sig, destSig, x, files).Copied?
  {}

  /** An orderly attempt that gets to the transfer copies exactly when every chunk passes its
      cap and the last journal write works; when the caps refuse, everything stays as it was;
      when that write fails, the file is in place all the same. */
  lemma CopiesIff(u: Setup, entry: Option<JournalEntry>, supports: bool, putFails: bool, src: File, files: Files,
                  entries: CacheMap)
    requires 0 < CdcParams(u).max && |src.content| < TWO63 && Honest(entries, u.gear)
    requires !u.cfg.dryRun && ShortcutOf(u, entry, Some(src), Lookup(files, u.meta.path)).None?
    requires var f := Lookup(files, u.meta.path);
             Disproved(u.cfg, u.meta, entry, Some(src), f) || !SameBytes(f, src.content)
    ensures var f := Lookup(files, u.meta.path);
            var force := Disproved(u.cfg, u.meta, entry, Some(src), f);
            var kept := if force then entries - {u.meta.path} else entries;
            var works := AllWork(u, supports, SignatureOf(CdcParams(u), src.content), Used(u, force, f, kept),
                                 src.content);
            var o := AttemptOf(u, entry, supports, putFails, src, files, entries);
            && (o.a.Copied? <==> works && !putFails)
            && (o.a == Failed(false) <==> !works || putFails)
            && (o.placed <==> works)
            && (!works ==> o.entries == CacheAfterLook(u.cfg, force, kept, f, u.meta.path, u.avg))
  {
    var f := Lookup(files, u.meta.path);
    var force := Disproved(u.cfg, u.meta, entry, Some(src), f);
    var kept := if force then entries - {u.meta.path} else entries;
    var sig, destSig := SignatureOf(CdcParams(u), src.content), Used(u, force, f, kept);
    DeleteKeepsHonest(entries, u.gear, u.meta.path);
    hide *;
    AttemptIs(u, entry, supports, putFails, src, files, entries);
    ExamOfOrderly(u, force, src.content, f, kept);
    CompareIs(u, force, supports, putFails, src.content, files, kept);
    CopyIsCopied(u, supports, sig, destSig, src.content, files);
  }

  /** An undisturbed attempt that puts the file in place has recorded the source's own
      signature: the cache finds it under the file's size, mtime and average. No attempt
      touches the entry of another file. */
  lemma PlacedIsRecorded(u: Setup, entry: Option<JournalEntry>, supports: bool, putFails: bool, src: File,
                         files: Files, entries: CacheMap)
    requires 0 < CdcParams(u).max && |src.content| < TWO63
    ensures var o, x := AttemptOf(u, entry, supports, putFails, src, files, entries), src.content;
            && o.entries - {u.meta.path} == entries - {u.meta.path}
            && (o.placed ==>
                  && Found(o.entries, u.meta.path, |x|, u.meta.modNano, u.avg) == Some(SignatureOf(CdcParams(u), x))
                  && o.entries[u.meta.path].avg == u.avg)
  {
    var f, x := Lookup(files, u.meta.path), src.content;
    var force := Disproved(u.cfg, u.meta, entry, Some(src), f);
    var kept := if force then entries - {u.meta.path} else entries;
    var looked := CacheAfterLook(u.cfg, force, kept, f, u.meta.path, u.avg);
    var sig := SignatureOf(CdcParams(u), x);
    SignatureOfFields(CdcParams(u), x);
    LookDrops(u.cfg, force, kept, f, u.meta.path, u.avg);
    EntryIsFound(u, sig, looked);
    assert kept - {u.meta.path} == entries - {u.meta.path};
    assert looked[u.meta.path := EntryFor(u, sig, |x|)] - {u.meta.path} == looked - {u.meta.path};
    hide *;
    AttemptIs(u, entry, supports, putFails, src, files, entries);
    CompareIs(u, force, supports, putFails, x, files, kept);
  }

  lemma LookDrops(cfg: Config, force: bool, entries: CacheMap, f: Option<File>, path: Path, avg: uint32)
    ensures CacheAfterLook(cfg, force, entries, f, path, avg) in {entries, entries - {path}}
    ensures CacheAfterLook(cfg, force, entries, f, path, avg) - {path} == entries - {path}
  {
    hide Stale;
  }

  lemma EntryIsFound(u: Setup, sig: Signature, entries: CacheMap)
    requires 0 <= sig.size
    ensures var now := entries[u.meta.path := EntryFor(u, sig, sig.size)];
            Found(now, u.meta.path, sig.size, u.meta.modNano, u.avg) == Some(sig) && now[u.meta.path].avg == u.avg
  {}

  /** Bringing a file across settles it: the next undisturbed attempt skips it, unless a
      journal line that speaks of the file names another digest or none. */
  lemma CopiedIsSettled(u: Setup, entry: Option<JournalEntry>, supports: bool, src: File, files: Files,
                        entries: CacheMap, line: Option<JournalEntry>)
    requires 0 < CdcParams(u).max && |src.content| < TWO63 && Honest(entries, u.gear)
    requires AttemptOf(u, entry, supports, false, src, files, entries).placed
    ensures var x, o := src.content, AttemptOf(u, entry, supports, false, src, files, entries);
            var after := files[u.meta.path := File(x, u.meta.modNano)];
            AttemptOf(u, line, supports, false, src, after, o.entries).a.Skipped? <==>
              (JournalApplies(u.cfg, u.meta, line, Lookup(after, u.meta.path)) ==> line.value.srcDigest == Some(Sum(x)))
  {
    var x, o := src.content, AttemptOf(u, entry, supports, false, src, files, entries);
    var after := files[u.meta.path := File(x, u.meta.modNano)];
    PlacedKeepsHonest(u, entry, supports, false, src, files, entries);
    hide AttemptOf, CdcParams, Honest;
    SkipsExactly(u, line, supports, false, src, after, o.entries);
  }

  lemma PlacedKeepsHonest(u: Setup, entry: Option<JournalEntry>, supports: bool, putFails: bool, src: File,
                          files: Files, entries: CacheMap)
    requires 0 < CdcParams(u).max && |src.content| < TWO63 && Honest(entries, u.gear)
    ensures Honest(AttemptOf(u, entry, supports, putFails, src, files, entries).entries, u.gear)
  {
    var f, x := Lookup(files, u.meta.path), src.content;
    var force := Disproved(u.cfg, u.meta, entry, Some(src), f);
    var kept := if force then entries - {u.meta.path} else entries;
    var looked := CacheAfterLook(u.cfg, force, kept, f, u.meta.path, u.avg);
    DeleteKeepsHonest(entries, u.gear, u.meta.path);
    DeleteKeepsHonest(kept, u.gear, u.meta.path);
    LookDrops(u.cfg, force, kept, f, u.meta.path, u.avg);
    hide *;
    RecordKeepsHonest(u, looked, x);
    AttemptIs(u, entry, supports, putFails, src, files, entries);
    CompareIs(u, force, supports, putFails, x, files, kept);
  }

  /** A dry run that gets to the comparison reports a copy exactly where one would be due. */
  lemma WouldCopyIff(u: Setup, entry: Option<JournalEntry>, supports: bool, putFails: bool, src: File, files: Files,
                     entries: CacheMap)
    requires 0 < CdcParams(u).max && |src.content| < TWO63 && Honest(entries, u.gear) && u.cfg.dryRun
    requires ShortcutOf(u, entry, Some(src), Lookup(files, u.meta.path)).None?
    ensures var f := Lookup(files, u.meta.path);
            var o := AttemptOf(u, entry, supports, putFails, src, files, entries);
            && !o.placed
            && (o.a.WouldCopy? <==> Disproved(u.cfg, u.meta, entry, Some(src), f) || !SameBytes(f, src.content))
            && (o.a.WouldCopy? || o.a.Skipped?)
  {
    var f := Lookup(files, u.meta.path);
    var force := Disproved(u.cfg, u.meta, entry, Some(src), f);
    var kept := if force then entries - {u.meta.path} else entries;
    DeleteKeepsHonest(entries, u.gear, u.meta.path);
    hide *;
    AttemptIs(u, entry, supports, putFails, src, files, entries);
    ExamOfOrderly(u, force, src.content, f, kept);
    CompareIs(u, force, supports, putFails, src.content, files, kept);
  }

  /** The failing branch is real: any source whose chunks fit 64 MiB, brought to a place where
      there is nothing yet, is left there, whole, by an attempt that reports a failure. */
  lemma FailedYetPlaced(u: Setup, supports: bool, src: File)
    requires 0 < CdcParams(u).max <= MAX_UNCOMPRESSED && |src.content| < TWO63 && !u.cfg.dryRun
    ensures var o := AttemptOf(u, None, supports, true, src, map[], map[]);
            o.a == Failed(false) && o.placed
  {
    var used := Used(u, false, None, map[]);
    assert used == ABSENT && Honest(map[], u.gear);
    CapsSuffice(u, supports, used, src.content, None, DEFAULT_MAX);
    hide AllWork, SignatureOf, CdcParams, CopyOf;
    CopiesIff(u, None, supports, true, src, map[], map[]);
  }

  /** The counters of an undisturbed copy: the payload is what the plan calls missing, in as
      many chunks, and with reuse it makes up the file with the bytes reused; and compression
      never adds to what goes over the wire. */
  lemma CopyCounts(u: Setup, supports: bool, sig: Signature, destSig: Signature, x: Bytes, files: Files)
    requires 0 < CdcParams(u).max && sig == SignatureOf(CdcParams(u), x) && |x| < TWO63
    requires Undisturbed(u, true, true, x, Some(File(x, u.meta.modNano)), files, destSig)
    requires AllWork(u, supports, sig, destSig, x)
    ensures var r := SecondPass(u, supports, sig, destSig, x, files);
            var plan := PlanFor(sig.chunks, Have(destSig.chunks));
            var raw := if supports || destSig.chunks == [] then r.payload else |x|;
            && CopyOf(u, supports, sig, destSig, x, files) == Copied(r.payload, r.wire, |plan.reuse|, |plan.missing|)
            && r.payload == PayloadOf(plan.missing)
            && (supports || destSig.chunks == [] ==> r.payload + r.reused == |x|)
            && r.wire <= raw && (u.pref == CodecNone ==> r.wire == raw)
  {
    var job, s := JobFor(u.packed, u.pref, sig, destSig, supports), Begin(files, u.meta.path, |x|);
    SignatureOfIsTrue(CdcParams(u), x);
    JobFlags(job, u.packed, u.pref, sig, destSig, supports);
    assert Tiles(sig.chunks, x, 0) && sig.chunks[..|sig.chunks|] == sig.chunks;
    hide AllWork, Undisturbed, SendAll, JobFor, Begin, PlanFor, Have, PayloadOf, SignatureOf, CdcParams, Tiles;
    FillIsWhole(u, job, supports, sig, destSig, x, s, files);
    SendAllCounts(job, sig, x, destSig, supports, s, files, |sig.chunks|);
  }

  /** The same attempt as a dry run. */
  function Dry(u: Setup): Setup { u.(cfg := u.cfg.(dryRun := true)) }

  /** What a dry run reports, in terms of the real attempt's signatures. */
  lemma DryReports(u: Setup, entry: Option<JournalEntry>, supports: bool, src: File, files: Files, entries: CacheMap)
    requires 0 < CdcParams(u).max && |src.content| < TWO63
    ensures var f, x := Lookup(files, u.meta.path), src.content;
            var force := Disproved(u.cfg, u.meta, entry, Some(src), f);
            var kept := if force then entries - {u.meta.path} else entries;
            var sig, destSig := SignatureOf(CdcParams(u), x), Used(u, force, f, kept);
            var dry := AttemptOf(Dry(u), entry, supports, false, src, files, entries);
            dry.a.WouldCopy? ==> sig.size == |x| && dry.a.payload == DryRunPayload(sig, destSig)
  {
    hide AllWork, SecondPass, DryRunPayload, UsedSignature, NeedsTransfer, EntryFor, Chunks, CacheAfterLook;
    var f := Lookup(files, u.meta.path);
    assert JournalVerdict(Dry(u).cfg, u.meta, entry, Some(src), f) ==
           JournalVerdict(u.cfg, u.meta, entry, Some(src), f);
    hide JournalVerdict;
    forall force, e: CacheMap ensures Used(Dry(u), force, f, e) == Used(u, force, f, e) { SameUsed(u, force, f, e); }
  }

  /** What an attempt that copies reports. */
  lemma CopyReports(u: Setup, entry: Option<JournalEntry>, supports: bool, src: File, files: Files, entries: CacheMap)
    requires 0 < CdcParams(u).max && |src.content| < TWO63
    ensures var f, x := Lookup(files, u.meta.path), src.content;
            var force := Disproved(u.cfg, u.meta, entry, Some(src), f);
            var kept := if force then entries - {u.meta.path} else entries;
            var sig, destSig := SignatureOf(CdcParams(u), x), Used(u, force, f, kept);
            var copy := AttemptOf(u, entry, supports, false, src, files, entries);
            copy.a.Copied? ==>
              copy.a == CopyOf(u, supports, sig, destSig, x, files) && AllWork(u, supports, sig, destSig, x)
  {
    hide AllWork, SecondPass, DryRunPayload, Used, NeedsTransfer, EntryFor, Chunks, CacheAfterLook, JournalVerdict;
  }

  lemma SameUsed(u: Setup, force: bool, f: Option<File>, entries: CacheMap)
    ensures Used(Dry(u), force, f, entries) == Used(u, force, f, entries)
  {}

  /** A dry run of an orderly attempt predicts the payload of the copy exactly, unless by the
      two signatures nothing is missing although the files differ: then it reports the whole
      size, and the copy sends nothing. */
  lemma DryRunPredicts(u: Setup, entry: Option<JournalEntry>, supports: bool, src: File, files: Files,
                       entries: CacheMap)
    requires 0 < CdcParams(u).max && |src.content| < TWO63
    requires Orderly(u, true, true, true, Some(src), files, entries)
    requires AttemptOf(Dry(u), entry, supports, false, src, files, entries).a.WouldCopy?
    requires AttemptOf(u, entry, supports, false, src, files, entries).a.Copied?
    ensures var predicted := AttemptOf(Dry(u), entry, supports, false, src, files, entries).a.payload;
            var payload := AttemptOf(u, entry, supports, false, src, files, entries).a.payload;
            var f := Lookup(files, u.meta.path);
            var force := Disproved(u.cfg, u.meta, entry, Some(src), f);
            var kept := if force then entries - {u.meta.path} else entries;
            var sig, destSig := SignatureOf(CdcParams(u), src.content), Used(u, force, f, kept);
            var missing := PayloadOf(PlanFor(sig.chunks, Have(destSig.chunks)).missing);
            && payload == missing
            && (predicted == payload <==> missing > 0 || src.content == [] || SameBytes(f, src.content))
            && (predicted != payload ==> payload == 0 && predicted == |src.content|)
  {
    var f, x := Lookup(files, u.meta.path), src.content;
    var force := Disproved(u.cfg, u.meta, entry, Some(src), f);
    var kept := if force then entries - {u.meta.path} else entries;
    var sig, destSig := SignatureOf(CdcParams(u), x), Used(u, force, f, kept);
    hide *;
    SignatureOfFields(CdcParams(u), x);
    OrderlyAfterDelete(u, true, true, true, Some(src), files, entries, kept);
    OrderlyGives(u, x, true, true, Some(src), files, kept);
    DryReports(u, entry, supports, src, files, entries);
    CopyReports(u, entry, supports, src, files, entries);
    OrderlyUsed(u, force, x, Some(src), files, files, kept, destSig);
    CopyCounts(u, supports, sig, destSig, x, files);
    DryRunIs(sig, destSig);
    UsedDigestIs(u, force, f, kept, x);
  }

  lemma UsedDigestIs(u: Setup, force: bool, f: Option<File>, entries: CacheMap, x: Bytes)
    ensures Used(u, force, f, entries).digest == Sum(x) <==> SameBytes(f, x)
  {
    UsedDigest(u.cfg, force, entries, f, u.meta.path, u.avg, u.gear);
    if f.Some? && Sum(f.value.content) == Sum(x) { SumInjective(x, f.value.content); }
    hide UsedSignature;
  }

  /** What an orderly attempt over x owes: within the caps it fails only if the last journal
      write does, and every byte is counted once, as payload or as reuse. */
  ghost predicate Served(u: Setup, supports: bool, cap: nat, x: Bytes, a: Attempt, putFailed: bool, reused: nat) {
    && (CdcParams(u).max <= MAX_UNCOMPRESSED && cap <= DEFAULT_MAX && !putFailed ==> !a.Failed?)
    && (a.Copied? && supports ==> a.payload + reused == |x|)
  }

  lemma ServedUnlessFailed(u: Setup, supports: bool, cap: nat, x: Bytes, a: Attempt, putFailed: bool, reused: nat)
    requires (!a.Failed? || putFailed) && !a.Copied?
    ensures Served(u, supports, cap, x, a, putFailed, reused)
  {}

  lemma ServedByTransmit(u: Setup, supports: bool, cap: nat, sig: Signature, destSig: Signature, x: Bytes,
                         y: Option<File>, files: Files, a: Attempt, reused: nat)
    requires 0 < CdcParams(u).max && sig == SignatureOf(CdcParams(u), x) && TrueOf(destSig, y, cap)
    requires |x| < TWO63 && CopiesExactly(u, supports, sig, destSig, x, files, a, reused)
    ensures Served(u, supports, cap, x, a, false, reused)
  {
    hide AllWork, TrueOf, SignatureOf, CdcParams, SecondPass, PlanFor, Have, PayloadOf;
    if CdcParams(u).max <= MAX_UNCOMPRESSED && cap <= DEFAULT_MAX { CapsSuffice(u, supports, destSig, x, y, cap); }
  }

  lemma ServedWithin(u: Setup, supports: bool, cap: nat, wider: nat, x: Bytes, a: Attempt, putFailed: bool, reused: nat)
    requires Served(u, supports, cap, x, a, putFailed, reused) && cap <= wider
    ensures Served(u, supports, wider, x, a, putFailed, reused)
  {}

  lemma OrderlyGives(u: Setup, x: Bytes, stable: bool, quiet: bool, src: Option<File>, files: Files, entries: CacheMap)
    requires Orderly(u, stable, quiet, true, src, files, entries) && src.value.content == x
    ensures stable && quiet && u.calm && Honest(entries, u.gear)
    ensures src == Some(File(x, u.meta.modNano)) && |x| == u.meta.size
  {
    hide Honest;
  }

  lemma OrderlyIsUndisturbed(u: Setup, x: Bytes, src: Option<File>, files: Files, entries: CacheMap, destSig: Signature,
                             cap: nat)
    requires Orderly(u, true, true, true, src, files, entries) && src.value.content == x
    requires TrueOf(destSig, Lookup(files, u.meta.path), cap)
    ensures Undisturbed(u, true, true, x, src, files, destSig)
  {
    hide Honest, TrueSignature;
  }

  lemma SignatureOfFields(p: Params, x: Bytes)
    requires 0 < p.max
    ensures SignatureOf(p, x).size == |x| && SignatureOf(p, x).digest == Sum(x)
  {}

  lemma DryRunIs(sig: Signature, destSig: Signature)
    requires 0 <= sig.size
    ensures var missing := PayloadOf(PlanFor(sig.chunks, Have(destSig.chunks)).missing);
            DryRunPayload(sig, destSig) == if missing == 0 && sig.digest != destSig.digest then sig.size else missing
  {
    hide PayloadOf, PlanFor, Have;
  }

  // ---------------------------------------------------------------- the comparison

  lemma DigestTells(files: Files, path: Path, d: Digest, x: Bytes)
    requires d == if path in files then Sum(files[path].content) else ZeroDigest
    ensures d == Sum(x) ==> SameBytes(Lookup(files, path), x)
  {
    if path in files && d == Sum(x) { SumInjective(x, files[path].content); }
  }

  lemma ExamIs(u: Setup, force: bool, sig: Signature, destSig: Signature)
    requires 0 <= sig.size
    ensures ExamOf(u, force, sig, destSig) ==
            if !force && !NeedsTransfer(sig, destSig, u.cfg.checksum) && sig.digest == destSig.digest then Done(Skipped)
            else if u.cfg.dryRun then Done(WouldCopy(DryRunPayload(sig, destSig)))
            else Go
  {}

  lemma UsedIs(u: Setup, force: bool, f: Option<File>, entries: CacheMap)
    ensures Used(u, force, f, entries) == UsedSignature(u.cfg, force, entries, f, u.meta.path, u.avg, u.gear)
  {}

  /** From the first signature to the decision to transfer. */
  method Examine(u: Setup, force: bool, src: Source, dst: Dest, idx: Cache, sig: Signature, ghost x: Bytes)
    returns (r: Exam, destSig: Signature)
    requires sig.size == |x| && sig.digest == Sum(x)
    modifies src, dst.tree, idx
    ensures src.stable ==> src.file == old(src.file)
    ensures Same(dst.quiet, old(dst.tree.files), dst.tree.files)
    ensures idx.entries in {old(idx.entries), old(idx.entries) - {u.meta.path}}
    ensures r.Done? ==> !r.a.Copied? && BlameIsFair(r.a, src.Sure(), src.file, x, u.meta)
    ensures r.Go? || !r.a.Failed? ==> StillAsWalked(src.lastStat, u.meta) && r == ExamOf(u, force, sig, destSig)
    ensures dst.quiet(u.meta.path) && r == Done(Skipped) ==>
      !force && SameBytes(Lookup(old(dst.tree.files), u.meta.path), x)
    ensures dst.Sure(u.meta.path) && (r.Go? || !r.a.Failed?) ==>
      var f := Lookup(old(dst.tree.files), u.meta.path);
      && destSig == Used(u, force, f, old(idx.entries))
      && idx.entries == CacheAfterLook(u.cfg, force, old(idx.entries), f, u.meta.path, u.avg)
    ensures Orderly(u, src.Sure(), dst.Sure(u.meta.path), true, old(src.file), old(dst.tree.files), old(idx.entries))
            && old(src.file).value.content == x ==>
      r.Go? || !r.a.Failed?
  {
    ghost var orderly := Orderly(u, src.Sure(), dst.Sure(u.meta.path), true, src.file, dst.tree.files, idx.entries)
                         && src.file.value.content == x;
    ghost var files0 := dst.tree.files;
    if orderly { OrderlyGives(u, x, src.Sure(), dst.Sure(u.meta.path), src.file, files0, idx.entries); }
    hide *;
    SureIs(src, dst, u.meta.path);
    UsedIs(u, force, Lookup(files0, u.meta.path), idx.entries);
    SameStart(dst.quiet, files0);
    destSig := ABSENT;
    var st := src.Stat(u.meta.path);
    StatBlames(st, src.Sure(), src.file, x, u.meta);
    NoBlame(Failed(false), src.Sure(), src.file, x, u.meta);
    NoBlame(Skipped, src.Sure(), src.file, x, u.meta);
    if st.None? || st.value.size != u.meta.size || st.value.modNano != u.meta.modNano {
      return Done(Failed(true)), destSig;
    }
    var found := DestSignature(u.cfg, force, u.meta.path, u.avg, u.gear, dst, idx);
    if found.None? { return Done(Failed(false)), destSig; }
    destSig := found.value;
    ExamIs(u, force, sig, destSig);
    if dst.quiet(u.meta.path) { DigestTells(files0, u.meta.path, destSig.digest, x); }
    if !force && !NeedsTransfer(sig, destSig, u.cfg.checksum) && sig.digest == destSig.digest {
      return Done(Skipped), destSig;
    }
    if u.cfg.dryRun {
      var plan := Diff(sig, destSig);
      var payload := SumPayload(plan.missing);
      if payload == 0 && sig.digest != destSig.digest { payload := sig.size; }
      DryRunIs(sig, destSig);
      NoBlame(WouldCopy(payload), src.Sure(), src.file, x, u.meta);
      return Done(WouldCopy(payload)), destSig;
    }
    var journalFails: bool := *; // journal put
    if journalFails && !u.calm { return Done(Failed(false)), destSig; }
    r := Go;
  }

  lemma CompareDone(u: Setup, force: bool, supports: bool, putFails: bool, sig: Signature, x: Bytes, files: Files,
                    entries: CacheMap)
    requires 0 < CdcParams(u).max && |x| < TWO63 && sig == SignatureOf(CdcParams(u), x)
    requires ExamOf(u, force, sig, Used(u, force, Lookup(files, u.meta.path), entries)).Done?
    ensures var f := Lookup(files, u.meta.path);
            CompareOf(u, force, supports, putFails, x, files, entries) ==
            Outcome(ExamOf(u, force, sig, Used(u, force, f, entries)).a, false,
                    CacheAfterLook(u.cfg, force, entries, f, u.meta.path, u.avg))
  {
    hide AllWork, ExamOf, Used, CacheAfterLook, CopyOf, EntryFor, Chunks;
  }

  lemma CompareGo(u: Setup, force: bool, supports: bool, putFails: bool, sig: Signature, x: Bytes, files: Files,
                  entries: CacheMap, a: Attempt, reused: nat)
    requires 0 < CdcParams(u).max && |x| < TWO63 && sig == SignatureOf(CdcParams(u), x)
    requires var destSig := Used(u, force, Lookup(files, u.meta.path), entries);
             && ExamOf(u, force, sig, destSig).Go?
             && CopiesExactly(u, supports, sig, destSig, x, files, a, reused)
    ensures var looked := CacheAfterLook(u.cfg, force, entries, Lookup(files, u.meta.path), u.meta.path, u.avg);
            CompareOf(u, force, supports, putFails, x, files, entries) ==
            if !a.Copied? then Outcome(a, false, looked)
            else Outcome(if putFails then Failed(false) else a, true, looked[u.meta.path := EntryFor(u, sig, |x|)])
  {
    CopyIs(u, supports, sig, Used(u, force, Lookup(files, u.meta.path), entries), x, files, a, reused);
    hide AllWork, ExamOf, Used, CacheAfterLook, CopyOf, EntryFor, Chunks, CopiesExactly;
  }

  lemma CopyIs(u: Setup, supports: bool, sig: Signature, destSig: Signature, x: Bytes, files: Files, a: Attempt,
               reused: nat)
    requires |x| < TWO63 && CopiesExactly(u, supports, sig, destSig, x, files, a, reused)
    ensures if AllWork(u, supports, sig, destSig, x) then a == CopyOf(u, supports, sig, destSig, x, files) && a.Copied?
            else a == Failed(false)
  {
    hide AllWork, SecondPass, PlanFor, Have, PayloadOf;
  }

  lemma DryRunStops(u: Setup, force: bool, sig: Signature, destSig: Signature)
    requires 0 <= sig.size
    ensures u.cfg.dryRun ==> ExamOf(u, force, sig, destSig).Done?
    ensures var e := ExamOf(u, force, sig, destSig); e.Done? && e.a.WouldCopy? ==> u.cfg.dryRun
  {
    hide NeedsTransfer, DryRunPayload;
  }

  lemma RecordKeepsHonest(u: Setup, entries: CacheMap, x: Bytes)
    requires Honest(entries, u.gear) && 0 < CdcParams(u).max
    ensures Honest(entries[u.meta.path := EntryFor(u, SignatureOf(CdcParams(u), x), |x|)], u.gear)
  {
    hide Honest, SignatureOf;
    PutKeepsHonest(entries, u.gear, u.meta.path, u.meta.modNano, u.avg, x);
  }

  /** The bookkeeping after the rename: the cache, then the journal. */
  method Record(u: Setup, putFails: bool, idx: Cache, sig: Signature, size: nat, a0: Attempt)
    returns (a: Attempt, ghost putFailed: bool)
    modifies idx
    ensures idx.entries == old(idx.entries)[u.meta.path := EntryFor(u, sig, size)]
    ensures a == (if putFails then Failed(false) else a0) && putFailed == putFails
  {
    idx.Put(u.meta.path, size, u.meta.modNano, u.avg, sig);
    a, putFailed := a0, putFails;
    if putFails { a := Failed(false); } // journal put
  }

  /** The transfer and its bookkeeping; `sent` is the transfer's own report. */
  method TransmitAndRecord(u: Setup, putFails: bool, src: Source, dst: Dest, idx: Cache, sig: Signature,
                           destSig: Signature, x: Bytes)
    returns (a: Attempt, ghost sent: Attempt, ghost putFailed: bool, ghost reused: nat)
    requires 0 < CdcParams(u).max && sig == SignatureOf(CdcParams(u), x) && |x| < TWO63
    modifies src, dst.tree, idx
    ensures src.stable ==> src.file == old(src.file)
    ensures (sent.Copied? || sent.Failed?) && putFailed == (sent.Copied? && putFails)
    ensures a == if putFailed then Failed(false) else sent
    ensures idx.entries ==
            if sent.Copied? then old(idx.entries)[u.meta.path := EntryFor(u, sig, |x|)] else old(idx.entries)
    ensures (sent.Copied? ==> StillAsWalked(src.lastStat, u.meta)) && BlameIsFair(a, src.Sure(), src.file, x, u.meta)
    ensures TreeAfter(a, putFailed, u.meta.path, File(x, u.meta.modNano), dst.quiet, old(dst.tree.files),
                      dst.tree.files)
    ensures Undisturbed(u, src.Sure(), dst.Sure(u.meta.path), x, old(src.file), old(dst.tree.files), destSig) ==>
      CopiesExactly(u, dst.supportsReuse, sig, destSig, x, old(dst.tree.files), sent, reused)
  {
    hide *;
    SureIs(src, dst, u.meta.path);
    ghost var files0, file := dst.tree.files, File(x, u.meta.modNano);
    a, reused := Transmit(u, src, dst, sig, destSig, x);
    sent, putFailed := a, false;
    if a.Copied? {
      CopiedIs(a, u.meta.path, file, dst.quiet, files0, dst.tree.files);
      a, putFailed := Record(u, putFails, idx, sig, |x|, a);
      if putFails { CopiedThenFailed(u.meta.path, file, dst.quiet, files0, dst.tree.files); }
      NoBlame(a, src.Sure(), src.file, x, u.meta);
    }
  }

  /** The same attempt, seen from a tree that agrees at its path. */
  lemma SecondPassLocal(u: Setup, supports: bool, sig: Signature, destSig: Signature, x: Bytes, files: Files,
                        files': Files)
    requires |x| < TWO63 && Lookup(files', u.meta.path) == Lookup(files, u.meta.path)
    ensures SecondPass(u, supports, sig, destSig, x, files') == SecondPass(u, supports, sig, destSig, x, files)
  {
    var job, s := JobFor(u.packed, u.pref, sig, destSig, supports), Begin(files, u.meta.path, |x|);
    assert Begin(files', u.meta.path, |x|) == s && s.path == u.meta.path;
    hide JobFor, SendAll, Begin;
    SendAllLocal(job, s, files, files', sig.chunks, x, |sig.chunks|);
  }

  lemma CompareLocal(u: Setup, force: bool, supports: bool, putFails: bool, x: Bytes, files: Files, files': Files,
                     entries: CacheMap)
    requires 0 < CdcParams(u).max && |x| < TWO63 && Lookup(files', u.meta.path) == Lookup(files, u.meta.path)
    ensures CompareOf(u, force, supports, putFails, x, files', entries) ==
            CompareOf(u, force, supports, putFails, x, files, entries)
  {
    var sig, destSig := SignatureOf(CdcParams(u), x), Used(u, force, Lookup(files, u.meta.path), entries);
    SecondPassLocal(u, supports, sig, destSig, x, files, files');
    hide SecondPass, AllWork, ExamOf, Used, CacheAfterLook, EntryFor, Chunks, PlanFor, Have, CdcParams;
  }

  lemma CopiesLocal(u: Setup, supports: bool, sig: Signature, destSig: Signature, x: Bytes, files: Files, files': Files,
                    a: Attempt, reused: nat)
    requires |x| < TWO63 && Lookup(files', u.meta.path) == Lookup(files, u.meta.path)
    requires CopiesExactly(u, supports, sig, destSig, x, files', a, reused)
    ensures CopiesExactly(u, supports, sig, destSig, x, files, a, reused)
  {
    SecondPassLocal(u, supports, sig, destSig, x, files, files');
    hide SecondPass, AllWork, PlanFor, Have, PayloadOf;
  }

  lemma OrderlyLocal(u: Setup, stable: bool, quiet: bool, settled: bool, src: Option<File>, files: Files, files': Files,
                     entries: CacheMap)
    requires Orderly(u, stable, quiet, settled, src, files, entries)
    requires Lookup(files', u.meta.path) == Lookup(files, u.meta.path)
    ensures Orderly(u, stable, quiet, settled, src, files', entries)
  {
    hide Honest;
  }

  /** What a transfer that is due comes to, as the specification has it. */
  lemma GoOutcome(u: Setup, force: bool, supports: bool, putFails: bool, sig: Signature, destSig: Signature, x: Bytes,
                  files: Files, files': Files, entries: CacheMap, cap: nat, sent: Attempt, a: Attempt, putFailed: bool,
                  reused: nat)
    requires 0 < CdcParams(u).max && |x| < TWO63 && sig == SignatureOf(CdcParams(u), x)
    requires Lookup(files', u.meta.path) == Lookup(files, u.meta.path)
    requires destSig == Used(u, force, Lookup(files, u.meta.path), entries) && ExamOf(u, force, sig, destSig).Go?
    requires TrueOf(destSig, Lookup(files, u.meta.path), cap)
    requires CopiesExactly(u, supports, sig, destSig, x, files', sent, reused)
    requires (sent.Copied? || sent.Failed?) && putFailed == (sent.Copied? && putFails)
    requires a == if putFailed then Failed(false) else sent
    ensures var looked := CacheAfterLook(u.cfg, force, entries, Lookup(files, u.meta.path), u.meta.path, u.avg);
            CompareOf(u, force, supports, putFails, x, files, entries) ==
            Outcome(a, a.Copied? || putFailed,
                    if sent.Copied? then looked[u.meta.path := EntryFor(u, sig, |x|)] else looked)
    ensures Served(u, supports, cap, x, a, putFailed, reused)
  {
    hide *;
    CopiesLocal(u, supports, sig, destSig, x, files, files', sent, reused);
    CompareGo(u, force, supports, putFails, sig, x, files, entries, sent, reused);
    ServedByTransmit(u, supports, cap, sig, destSig, x, Lookup(files, u.meta.path), files, sent, reused);
    if putFailed { ServedUnlessFailed(u, supports, cap, x, a, putFailed, reused); }
  }

  /** The transfer that Examine has found due, on a tree that since files0 has changed only
      where others write. */
  method Carry(u: Setup, force: bool, putFails: bool, src: Source, dst: Dest, idx: Cache, sig: Signature,
               destSig: Signature, x: Bytes, ghost files0: Files, ghost entries0: CacheMap)
    returns (a: Attempt, ghost putFailed: bool, ghost reused: nat)
    requires 0 < CdcParams(u).max && sig == SignatureOf(CdcParams(u), x) && |x| < TWO63
    requires Same(dst.quiet, files0, dst.tree.files)
    requires Orderly(u, src.Sure(), dst.Sure(u.meta.path), true, src.file, files0, entries0)
             && src.file.value.content == x ==>
      var f := Lookup(files0, u.meta.path);
      && destSig == Used(u, force, f, entries0) && ExamOf(u, force, sig, destSig).Go?
      && idx.entries == CacheAfterLook(u.cfg, force, entries0, f, u.meta.path, u.avg)
    modifies src, dst.tree, idx
    ensures src.stable ==> src.file == old(src.file)
    ensures (a.Copied? || a.Failed?) && (putFailed ==> putFails) && (a.Copied? ==> !putFails)
    ensures !a.Failed? || putFailed ==> StillAsWalked(src.lastStat, u.meta)
    ensures BlameIsFair(a, src.Sure(), src.file, x, u.meta)
    ensures TreeAfter(a, putFailed, u.meta.path, File(x, u.meta.modNano), dst.quiet, files0, dst.tree.files)
    ensures Honest(old(idx.entries), u.gear) ==> Honest(idx.entries, u.gear)
    ensures Orderly(u, src.Sure(), dst.Sure(u.meta.path), true, old(src.file), files0, entries0)
            && old(src.file).value.content == x ==>
      && Outcome(a, a.Copied? || putFailed, idx.entries) ==
         CompareOf(u, force, dst.supportsReuse, putFails, x, files0, entries0)
      && Served(u, dst.supportsReuse, CapFor(entries0, u.meta.path), x, a, putFailed, reused)
  {
    ghost var orderly := Orderly(u, src.Sure(), dst.Sure(u.meta.path), true, src.file, files0, entries0)
                         && src.file.value.content == x;
    if Honest(idx.entries, u.gear) { RecordKeepsHonest(u, idx.entries, x); }
    hide *;
    SureIs(src, dst, u.meta.path);
    ghost var files1, file, cap := dst.tree.files, File(x, u.meta.modNano), CapFor(entries0, u.meta.path);
    ghost var sent;
    if orderly {
      OrderlyGives(u, x, src.Sure(), dst.Sure(u.meta.path), src.file, files0, entries0);
      SameAt(dst.quiet, files0, files1, u.meta.path);
      OrderlyUsed(u, force, x, src.file, files0, files1, entries0, destSig);
    }
    a, sent, putFailed, reused := TransmitAndRecord(u, putFails, src, dst, idx, sig, destSig, x);
    TreeAfterFrom(a, putFailed, u.meta.path, file, dst.quiet, files0, files1, dst.tree.files);
    if orderly {
      GoOutcome(u, force, dst.supportsReuse, putFails, sig, destSig, x, files0, files1, entries0, cap, sent, a,
                putFailed, reused);
    }
  }

  /** The rest of an attempt, from the first signature on. `putFails` says whether the last
      journal write would fail, `putFailed` that the attempt has come to it and it did. */
  method Compare(u: Setup, force: bool, putFails: bool, src: Source, dst: Dest, idx: Cache, x: Bytes)
    returns (a: Attempt, ghost putFailed: bool, ghost reused: nat)
    requires 0 < CdcParams(u).max && |x| < TWO63
    modifies src, dst.tree, idx
    ensures src.stable ==> src.file == old(src.file)
    ensures dst.quiet(u.meta.path) && a.Skipped? ==> !force && SameBytes(Lookup(old(dst.tree.files), u.meta.path), x)
    ensures !a.Failed? || putFailed ==> StillAsWalked(src.lastStat, u.meta)
    ensures BlameIsFair(a, src.Sure(), src.file, x, u.meta)
    ensures TreeAfter(a, putFailed, u.meta.path, File(x, u.meta.modNano), dst.quiet, old(dst.tree.files),
                      dst.tree.files)
    ensures (putFailed ==> putFails) && (a.Copied? ==> !putFails)
    ensures Honest(old(idx.entries), u.gear) ==> Honest(idx.entries, u.gear)
    ensures Orderly(u, src.Sure(), dst.Sure(u.meta.path), true, old(src.file), old(dst.tree.files), old(idx.entries))
            && old(src.file).value.content == x ==>
      && Outcome(a, a.Copied? || putFailed, idx.entries) ==
         CompareOf(u, force, dst.supportsReuse, putFails, x, old(dst.tree.files), old(idx.entries))
      && Served(u, dst.supportsReuse, CapFor(old(idx.entries), u.meta.path), x, a, putFailed, reused)
    // A dry run copies nothing.
    ensures (a.WouldCopy? ==> u.cfg.dryRun) && (u.cfg.dryRun ==> !a.Copied? && !putFailed)
  {
    a, reused, putFailed := Failed(false), 0, false;
    ghost var supports := dst.supportsReuse;
    ghost var orderly := Orderly(u, src.Sure(), dst.Sure(u.meta.path), true, src.file, dst.tree.files, idx.entries)
                         && src.file.value.content == x;
    ghost var files0, entries0 := dst.tree.files, idx.entries;
    ghost var f, file, cap := Lookup(files0, u.meta.path), File(x, u.meta.modNano), CapFor(entries0, u.meta.path);
    hide *;
    SureIs(src, dst, u.meta.path);
    if orderly { OrderlyGives(u, x, src.Sure(), dst.Sure(u.meta.path), src.file, files0, entries0); }
    var sig := SignatureOf(CdcParams(u), x);
    SignatureOfFields(CdcParams(u), x);
    var e, destSig := Examine(u, force, src, dst, idx, sig, x);
    DryRunStops(u, force, sig, destSig);
    if Honest(entries0, u.gear) { DeleteKeepsHonest(entries0, u.gear, u.meta.path); }
    if e.Done? {
      a := e.a;
      TreeUntouched(a, u.meta.path, file, dst.quiet, files0, dst.tree.files);
      if orderly {
        CompareDone(u, force, supports, putFails, sig, x, files0, entries0);
        ServedUnlessFailed(u, supports, cap, x, a, putFailed, reused);
      }
    } else {
      a, putFailed, reused := Carry(u, force, putFails, src, dst, idx, sig, destSig, x, files0, entries0);
    }
  }

  lemma OrderlyUsed(u: Setup, force: bool, x: Bytes, src: Option<File>, files: Files, files': Files,
                    entries: CacheMap, destSig: Signature)
    requires Orderly(u, true, true, true, src, files, entries) && src.value.content == x
    requires destSig == Used(u, force, Lookup(files, u.meta.path), entries)
    requires Lookup(files', u.meta.path) == Lookup(files, u.meta.path)
    ensures TrueOf(destSig, Lookup(files, u.meta.path), CapFor(entries, u.meta.path))
    ensures Undisturbed(u, true, true, x, src, files', destSig)
  {
    OrderlyLocal(u, true, true, true, src, files, files', entries);
    hide UsedSignature, TrueOf, Honest, Undisturbed;
    UsedIsTrue(u.cfg, force, entries, Lookup(files, u.meta.path), u.meta.path, u.avg, u.gear);
    OrderlyIsUndisturbed(u, x, src, files', entries, destSig, CapFor(entries, u.meta.path));
  }

  // ---------------------------------------------------------------- the whole attempt

  /** Dropping the cached entry of the path, as the journal check may, changes nothing. */
  lemma OrderlyAfterDelete(u: Setup, stable: bool, quiet: bool, settled: bool, src: Option<File>, files: Files,
                           was: CacheMap, now: CacheMap)
    requires Orderly(u, stable, quiet, settled, src, files, was) && now in {was, was - {u.meta.path}}
    ensures stable && quiet && settled
    ensures Orderly(u, true, true, true, src, files, now)
    ensures CapFor(now, u.meta.path) <= CapFor(was, u.meta.path)
    ensures src.Some? && |src.value.content| == u.meta.size && |src.value.content| < TWO63
    ensures forall entry, dst :: JournalVerdict(u.cfg, u.meta, entry, src, dst) != FailNow
  {
    hide Disproved;
    DeleteKeepsHonest(was, u.gear, u.meta.path);
    hide Honest;
  }

  lemma ReadIsSame(f: Option<File>, x: Bytes)
    requires f.Some? && x == f.value.content
    ensures SameBytes(f, x)
  {}

  /** What a report of "skipped" owes, whatever the journal holds. */
  ghost predicate SkipSound(u: Setup, entry: Option<JournalEntry>, a: Attempt, src: Option<File>, dst: Option<File>) {
    a.Skipped? ==>
      && SkipJustified(u.cfg, u.meta, entry, src, dst)
      && !Disproved(u.cfg, u.meta, entry, src, dst)
  }

  /** What it owes also when accesses fail. */
  ghost predicate SkipPlain(u: Setup, a: Attempt, src: Option<File>, dst: Option<File>) {
    a.Skipped? ==>
      || (src.Some? && dst.Some? && src.value.content == dst.value.content)
      || (!u.cfg.checksum && Matches(dst, u.meta.size, u.meta.modNano))
  }

  lemma EqualIsPlain(u: Setup, a: Attempt, src: Option<File>, dst: Option<File>, x: Bytes)
    requires a.Skipped? ==> SameBytes(src, x) && SameBytes(dst, x)
    ensures SkipPlain(u, a, src, dst)
  {}

  lemma NoSkip(u: Setup, entry: Option<JournalEntry>, a: Attempt, src: Option<File>, dst: Option<File>)
    requires !a.Skipped?
    ensures SkipSound(u, entry, a, src, dst) && SkipPlain(u, a, src, dst)
  {}

  lemma CompareSkips(u: Setup, entry: Option<JournalEntry>, force: bool, a: Attempt, src: Option<File>,
                     dst: Option<File>, x: Bytes)
    requires force <==> Disproved(u.cfg, u.meta, entry, src, dst)
    requires a.Skipped? ==> !force && SameBytes(src, x) && SameBytes(dst, x)
    ensures SkipSound(u, entry, a, src, dst)
  {
    hide JournalVerdict;
  }

  /** A skip before any comparison of contents is justified; a failure is the journal's. */
  lemma ShortcutSound(u: Setup, entry: Option<JournalEntry>, src: Option<File>, dst: Option<File>)
    ensures var quick := ShortcutOf(u, entry, src, dst);
            && (quick.Some? ==> quick.value in {Skipped, Failed(false)} && SkipSound(u, entry, quick.value, src, dst))
            && (quick == Some(Failed(false)) ==> JournalVerdict(u.cfg, u.meta, entry, src, dst) == FailNow)
  {
    if JournalVerdict(u.cfg, u.meta, entry, src, dst) == SkipNow {
      JournalSkipMeansEqual(u.cfg, u.meta, entry, src, dst);
    }
    VerdictIs(u.cfg, u.meta, entry, src, dst);
    hide JournalVerdict, Disproved;
  }

  /** The journal check and the metadata skip; None means that contents must be compared. */
  method Shortcut(u: Setup, entry: Option<JournalEntry>, src: Source, dst: Dest, idx: Cache)
    returns (quick: Option<Attempt>, force: bool)
    modifies src, dst.tree, idx
    ensures src.stable ==> src.file == old(src.file)
    ensures Same(dst.quiet, old(dst.tree.files), dst.tree.files)
    ensures idx.entries == if force then old(idx.entries) - {u.meta.path} else old(idx.entries)
    ensures quick in {None, Some(Skipped), Some(Failed(false))}
    ensures src.stable && dst.quiet(u.meta.path) && quick == Some(Skipped) ==>
      SkipPlain(u, Skipped, src.file, Lookup(old(dst.tree.files), u.meta.path))
    ensures src.Sure() && dst.Sure(u.meta.path) ==>
      var f := Lookup(old(dst.tree.files), u.meta.path);
      && force == Disproved(u.cfg, u.meta, entry, src.file, f)
      && quick == ShortcutOf(u, entry, src.file, f)
  {
    force := false;
    ghost var files0 := dst.tree.files;
    var v := CheckJournal(u.cfg, u.meta, entry, src, dst, idx);
    force := v == Proceed(true);
    if src.stable && dst.quiet(u.meta.path) && v == SkipNow {
      JournalSkipMeansEqual(u.cfg, u.meta, entry, src.file, Lookup(files0, u.meta.path));
    }
    SameAt(dst.quiet, files0, dst.tree.files, u.meta.path);
    VerdictIs(u.cfg, u.meta, entry, src.file, Lookup(files0, u.meta.path));
    hide JournalVerdict, Disproved, Same;
    if v.FailNow? { return Some(Failed(false)), force; }
    if v.SkipNow? { return Some(Skipped), force; }
    quick := None;
    if !u.cfg.checksum && !force {
      ghost var files1 := dst.tree.files;
      var dm := dst.Stat(u.meta.path);
      SameTwice(dst.quiet, files0, files1, dst.tree.files);
      if dm.Some? && dm.value.size == u.meta.size && dm.value.modNano == u.meta.modNano { return Some(Skipped), force; }
    }
  }

  lemma CompareAfterShortcut(u: Setup, force: bool, supports: bool, putFails: bool, src: Option<File>, files: Files,
                             files': Files, entries: CacheMap)
    requires Orderly(u, true, true, true, src, files, entries) && 0 < CdcParams(u).max && |src.value.content| < TWO63
    requires Lookup(files', u.meta.path) == Lookup(files, u.meta.path)
    ensures Orderly(u, true, true, true, src, files', entries)
    ensures CompareOf(u, force, supports, putFails, src.value.content, files', entries) ==
            CompareOf(u, force, supports, putFails, src.value.content, files, entries)
  {
    OrderlyLocal(u, true, true, true, src, files, files', entries);
    hide *;
    CompareLocal(u, force, supports, putFails, src.value.content, files, files', entries);
  }

  /** The first read, its size check, and the comparison. */
  method ReadAndCompare(u: Setup, force: bool, putFails: bool, src: Source, dst: Dest, idx: Cache)
    returns (a: Attempt, ghost seen: Bytes, ghost putFailed: bool, ghost reused: nat)
    requires 0 < CdcParams(u).max
    modifies src, dst.tree, idx
    ensures src.stable ==> src.file == old(src.file)
    ensures src.stable && (!a.Failed? || putFailed) ==> SameBytes(src.file, seen)
    ensures dst.quiet(u.meta.path) && a.Skipped? ==> !force && SameBytes(Lookup(old(dst.tree.files), u.meta.path), seen)
    ensures !a.Failed? || putFailed ==> StillAsWalked(src.lastStat, u.meta)
    ensures BlameIsFair(a, src.Sure(), src.file, seen, u.meta)
    ensures TreeAfter(a, putFailed, u.meta.path, File(seen, u.meta.modNano), dst.quiet, old(dst.tree.files),
                      dst.tree.files)
    ensures (putFailed ==> putFails) && (a.Copied? ==> !putFails)
    ensures Honest(old(idx.entries), u.gear) ==> Honest(idx.entries, u.gear)
    ensures Orderly(u, src.Sure(), dst.Sure(u.meta.path), true, old(src.file), old(dst.tree.files),
                    old(idx.entries)) ==>
      && Outcome(a, a.Copied? || putFailed, idx.entries) ==
         CompareOf(u, force, dst.supportsReuse, putFails, old(src.file).value.content, old(dst.tree.files),
                   old(idx.entries))
      && Served(u, dst.supportsReuse, CapFor(old(idx.entries), u.meta.path), seen, a, putFailed, reused)
    ensures (a.WouldCopy? ==> u.cfg.dryRun) && (u.cfg.dryRun ==> !a.Copied? && !putFailed)
  {
    hide *;
    SureIs(src, dst, u.meta.path);
    seen, putFailed, reused := [], false, 0;
    ghost var files0, entries0 := dst.tree.files, idx.entries;
    if Orderly(u, src.Sure(), dst.Sure(u.meta.path), true, src.file, files0, entries0) {
      OrderlyAfterDelete(u, src.Sure(), dst.Sure(u.meta.path), true, src.file, files0, entries0, entries0);
    }
    var x := src.OpenRead();
    if x.None? || (u.meta.size > 0 && u.meta.size != |x.value|) { // or size mismatch
      a := Failed(false);
      NoBlame(a, src.Sure(), src.file, seen, u.meta);
      TreeUntouched(a, u.meta.path, File(seen, u.meta.modNano), dst.quiet, files0, files0);
      return;
    }
    seen := x.value;
    a, putFailed, reused := Compare(u, force, putFails, src, dst, idx, x.value);
    if src.stable { ReadIsSame(src.file, seen); }
  }

  /** tryTransfer for a regular file. `seen` is what the first read yielded, `reused` the
      number of bytes reused at the destination; `putFails` says whether the last journal
      write would fail, `putFailed` that the attempt has come to it and it did. */
  method TryTransfer(u: Setup, entry: Option<JournalEntry>, settled: bool, putFails: bool, src: Source, dst: Dest,
                     idx: Cache)
    returns (a: Attempt, ghost seen: Bytes, ghost putFailed: bool, ghost reused: nat)
    requires 0 < CdcParams(u).max
    modifies src, dst.tree, idx
    ensures src.stable ==> src.file == old(src.file)
    // Skips are justified, whatever the journal holds.
    ensures src.Sure() && dst.Sure(u.meta.path) ==>
      SkipSound(u, entry, a, src.file, Lookup(old(dst.tree.files), u.meta.path))
    ensures src.stable && dst.quiet(u.meta.path) ==>
      SkipPlain(u, a, src.file, Lookup(old(dst.tree.files), u.meta.path))
    // What is copied is what was read, and nothing else changes. A failure leaves every quiet
    // path as it was, unless it is the last journal write that has failed.
    ensures src.stable && (a.Copied? || a.WouldCopy? || putFailed) ==> SameBytes(src.file, seen)
    ensures a.Copied? || a.WouldCopy? || putFailed ==> StillAsWalked(src.lastStat, u.meta)
    ensures TreeAfter(a, putFailed, u.meta.path, File(seen, u.meta.modNano), dst.quiet, old(dst.tree.files),
                      dst.tree.files)
    ensures (putFailed ==> putFails) && (a.Copied? ==> !putFails)
    // A settled source that is stable and as walked is never called unstable.
    ensures settled ==> BlameIsFair(a, src.Sure(), src.file, seen, u.meta)
    // The cache stays honest.
    ensures Honest(old(idx.entries), u.gear) ==> Honest(idx.entries, u.gear)
    // An orderly attempt is determined, and owes what Served says.
    ensures Orderly(u, src.Sure(), dst.Sure(u.meta.path), settled, old(src.file), old(dst.tree.files),
                    old(idx.entries)) ==>
      && Outcome(a, a.Copied? || putFailed, idx.entries) ==
         AttemptOf(u, entry, dst.supportsReuse, putFails, old(src.file).value, old(dst.tree.files), old(idx.entries))
      && Served(u, dst.supportsReuse, CapFor(old(idx.entries), u.meta.path), seen, a, putFailed, reused)
    // A dry run copies nothing.
    ensures (a.WouldCopy? ==> u.cfg.dryRun) && (u.cfg.dryRun ==> !a.Copied? && !putFailed)
    // A source that has not settled is turned away at once.
    ensures !settled ==> a == Failed(true) && !putFailed && src.file == old(src.file)
                         && dst.tree.files == old(dst.tree.files) && idx.entries == old(idx.entries)
  {
    hide *;
    SureIs(src, dst, u.meta.path);
    seen, putFailed, reused := [], false, 0;
    ghost var supports := dst.supportsReuse;
    ghost var files0, entries0 := dst.tree.files, idx.entries;
    ghost var f, cap := Lookup(files0, u.meta.path), CapFor(entries0, u.meta.path);
    ghost var orderly := Orderly(u, src.Sure(), dst.Sure(u.meta.path), settled, src.file, files0, entries0);
    if orderly {
      OrderlyAfterDelete(u, src.Sure(), dst.Sure(u.meta.path), settled, src.file, files0, entries0, entries0);
    }
    if !settled {
      a := Failed(true);
      NoSkip(u, entry, a, src.file, f);
      TreeUntouched(a, u.meta.path, File(seen, u.meta.modNano), dst.quiet, files0, files0);
      return;
    }
    var quick, force := Shortcut(u, entry, src, dst, idx);
    if orderly {
      OrderlyAfterDelete(u, src.Sure(), dst.Sure(u.meta.path), settled, src.file, files0, entries0, idx.entries);
      AttemptIs(u, entry, supports, putFails, src.file.value, files0, entries0);
    }
    if Honest(entries0, u.gear) { DeleteKeepsHonest(entries0, u.gear, u.meta.path); }
    ShortcutSound(u, entry, src.file, f);
    if quick.Some? {
      a := quick.value;
      NoBlame(a, src.Sure(), src.file, seen, u.meta);
      TreeUntouched(a, u.meta.path, File(seen, u.meta.modNano), dst.quiet, files0, dst.tree.files);
      if a == Failed(false) { NoSkip(u, entry, a, src.file, f); }
      if orderly { ServedUnlessFailed(u, supports, cap, seen, a, putFailed, reused); }
      return;
    }
    ghost var files1, entries1 := dst.tree.files, idx.entries;
    if orderly {
      SameAt(dst.quiet, files0, files1, u.meta.path);
      CompareAfterShortcut(u, force, supports, putFails, src.file, files0, files1, entries1);
    }
    a, seen, putFailed, reused := ReadAndCompare(u, force, putFails, src, dst, idx);
    TreeAfterFrom(a, putFailed, u.meta.path, File(seen, u.meta.modNano), dst.quiet, files0, files1, dst.tree.files);
    SameAt(dst.quiet, files0, files1, u.meta.path);
    if src.Sure() && dst.Sure(u.meta.path) { CompareSkips(u, entry, force, a, src.file, f, seen); }
    if src.stable && dst.quiet(u.meta.path) { EqualIsPlain(u, a, src.file, f, seen); }
    if orderly { ServedWithin(u, supports, CapFor(entries1, u.meta.path), cap, seen, a, putFailed, reused); }
  }
}
