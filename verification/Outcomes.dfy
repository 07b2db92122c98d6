/** internal/engine/engine.go: the retry loop of transferOne, and the accounting of the
    workers in Run. */
module Outcomes {
  import opened Base
  import opened WriteSession
  import opened SignatureCache
  import opened Endpoints
  import opened Evidence
  import opened Engine
  import Chunker
  import Ranges

  /** Counters: the fields of a fileResult, or of Stats. */
  datatype Tally = Tally(copied: nat, wouldCopy: nat, skipped: nat, failed: nat, handled: nat)

  const COPIED := Tally(1, 0, 0, 0, 0)
  const WOULD_COPY := Tally(0, 1, 0, 0, 0)
  const SKIPPED := Tally(0, 0, 1, 0, 0)
  const FAILED := Tally(0, 0, 0, 1, 0)
  const HANDLED := Tally(0, 0, 0, 0, 1)

  predicate OneOutcome(t: Tally) { t in {COPIED, WOULD_COPY, SKIPPED, FAILED, HANDLED} }

  /** What a whole transferOne does to the destination: the file is renamed into place by a
      copy, and by an attempt whose last journal write fails; quiet paths do not change
      otherwise. */
  ghost predicate OneAfter(t: Tally, putFailed: bool, path: Path, file: File, quiet: Path -> bool, files0: Files,
                           files: Files)
  {
    && (putFailed ==> t == FAILED)
    && (t == COPIED || putFailed ==> path in files && files[path] == file)
    && Same(quiet, if t == COPIED || putFailed then files0[path := file] else files0, files)
  }

  function TallyOf(a: Attempt): Tally {
    match a
    case Skipped => SKIPPED
    case WouldCopy(_) => WOULD_COPY
    case Copied(_, _, _, _) => COPIED
    case Failed(_) => FAILED
  }

  lemma LastAttempt(a: Attempt, putFailed: bool, path: Path, file: File, quiet: Path -> bool, files0: Files,
                    before: Files, files: Files)
    requires TreeAfter(a, putFailed, path, file, quiet, before, files) && Same(quiet, files0, before)
    ensures OneAfter(TallyOf(a), putFailed, path, file, quiet, files0, files)
    ensures putFailed ==> a == Failed(false)
    ensures a.Failed? && a.unstable ==>
      !putFailed && Same(quiet, files0, files) && OneAfter(FAILED, false, path, file, quiet, files0, files)
  {
    TreeAfterFrom(a, putFailed, path, file, quiet, files0, before, files);
    hide Same;
  }

  /** What a transferOne owes its file, when the source is stable and nobody else writes the
      destination: `before` is what was there, `after` what is there then. It holds whatever
      fails on the way. */
  ghost predicate Settles(u: Setup, src: Option<File>, t: Tally, putFailed: bool, seen: Bytes, before: Option<File>,
                          after: Option<File>)
  {
    && OneOutcome(t) && t != HANDLED && (putFailed ==> t == FAILED)
    && after == (if t == COPIED || putFailed then Some(File(seen, u.meta.modNano)) else before)
    && (t == COPIED || t == WOULD_COPY || putFailed ==> SameBytes(src, seen))
    && (t == SKIPPED ==> SkipPlain(u, Skipped, src, before))
    && (t == WOULD_COPY ==> u.cfg.dryRun) && (u.cfg.dryRun ==> t != COPIED && !putFailed)
  }

  lemma AttemptSettles(u: Setup, a: Attempt, putFailed: bool, seen: Bytes, quiet: Path -> bool, src: Option<File>,
                       files0: Files, before: Files, files: Files)
    requires TreeAfter(a, putFailed, u.meta.path, File(seen, u.meta.modNano), quiet, before, files)
    requires Same(quiet, files0, before) && quiet(u.meta.path)
    requires a.Copied? || a.WouldCopy? || putFailed ==> SameBytes(src, seen)
    requires SkipPlain(u, a, src, Lookup(before, u.meta.path))
    requires (a.WouldCopy? ==> u.cfg.dryRun) && (u.cfg.dryRun ==> !a.Copied? && !putFailed)
    ensures Settles(u, src, TallyOf(a), putFailed, seen, Lookup(files0, u.meta.path), Lookup(files, u.meta.path))
    ensures a.Failed? && a.unstable ==>
      Settles(u, src, FAILED, false, seen, Lookup(files0, u.meta.path), Lookup(files, u.meta.path))
  {
    SameAt(quiet, files0, before, u.meta.path);
    SameAt(quiet, if a.Copied? || putFailed then before[u.meta.path := File(seen, u.meta.modNano)] else before, files,
           u.meta.path);
    hide Same;
  }

  lemma TallyIs(a: Attempt)
    ensures OneOutcome(TallyOf(a))
    ensures (TallyOf(a) == FAILED <==> a.Failed?) && (TallyOf(a) == SKIPPED <==> a.Skipped?)
    ensures (TallyOf(a) == COPIED <==> a.Copied?) && (TallyOf(a) == WOULD_COPY <==> a.WouldCopy?)
    ensures OneOutcome(FAILED) && FAILED !in {SKIPPED, COPIED, WOULD_COPY}
  {}

  lemma SameParams(u: Setup, v: Setup)
    requires v == u.(meta := v.meta)
    ensures CdcParams(u) == CdcParams(v) && u.gear == v.gear
  {}

  lemma ServedMeans(u: Setup, supports: bool, cap: nat, x: Bytes, a: Attempt, putFailed: bool, reused: nat)
    requires Served(u, supports, cap, x, a, putFailed, reused)
    ensures CdcParams(u).max <= Ranges.MAX_UNCOMPRESSED && cap <= Chunker.DEFAULT_MAX && !putFailed ==> !a.Failed?
  {}

  /** An orderly attempt is never called unstable. */
  lemma NeverUnstable(u: Setup, entry: Option<JournalEntry>, supports: bool, putFails: bool, src: File, files: Files,
                      entries: CacheMap)
    requires 0 < CdcParams(u).max && |src.content| < TWO63
    ensures var a := AttemptOf(u, entry, supports, putFails, src, files, entries).a;
            a.Failed? ==> !a.unstable
  {
    hide AllWork, JournalVerdict, Used, CacheAfterLook, CdcParams, SecondPass, DryRunPayload, EntryFor;
  }

  lemma StatMatches(f: Option<File>, meta: Meta)
    requires f.Some? && meta.size == |f.value.content| && meta.modNano == f.value.modNano
    ensures Matches(f, meta.size, meta.modNano)
  {}

  lemma OrderlySource(u: Setup, stable: bool, quiet: bool, settled: bool, src: Option<File>, files: Files,
                      entries: CacheMap)
    requires Orderly(u, stable, quiet, settled, src, files, entries)
    ensures src.Some? && |src.value.content| < TWO63 && Matches(src, u.meta.size, u.meta.modNano) && stable
  {}

  /** One attempt of transferOne, with whatever the journal holds; `files0` is the tree before
      the first. */
  method OneTry(u: Setup, settled: bool, putFails: bool, src: Source, dst: Dest, idx: Cache, ghost files0: Files)
    returns (a: Attempt, ghost entry: Option<JournalEntry>, ghost seen: Bytes, ghost putFailed: bool)
    requires 0 < CdcParams(u).max && Same(dst.quiet, files0, dst.tree.files)
    modifies src, dst.tree, idx
    ensures src.stable ==> src.file == old(src.file)
    ensures OneAfter(TallyOf(a), putFailed, u.meta.path, File(seen, u.meta.modNano), dst.quiet, files0, dst.tree.files)
    ensures a.Failed? && a.unstable ==>
      !putFailed && Same(dst.quiet, files0, dst.tree.files)
      && OneAfter(FAILED, false, u.meta.path, File(seen, u.meta.modNano), dst.quiet, files0, dst.tree.files)
    ensures src.stable && dst.quiet(u.meta.path) ==>
      var before, after := Lookup(files0, u.meta.path), Lookup(dst.tree.files, u.meta.path);
      && Settles(u, src.file, TallyOf(a), putFailed, seen, before, after)
      && (a.Failed? && a.unstable ==> Settles(u, src.file, FAILED, false, seen, before, after))
    ensures src.Sure() && dst.Sure(u.meta.path) ==>
      SkipSound(u, entry, a, src.file, Lookup(old(dst.tree.files), u.meta.path))
    ensures a.Copied? || a.WouldCopy? ==> StillAsWalked(src.lastStat, u.meta)
    ensures !settled ==> a == Failed(true) && src.file == old(src.file)
                         && dst.tree.files == old(dst.tree.files) && idx.entries == old(idx.entries)
    ensures Honest(old(idx.entries), u.gear) ==> Honest(idx.entries, u.gear)
    ensures Orderly(u, src.Sure(), dst.Sure(u.meta.path), settled, old(src.file), old(dst.tree.files),
                    old(idx.entries)) ==>
      && a == AttemptOf(u, entry, dst.supportsReuse, putFails, old(src.file).value, old(dst.tree.files),
                        old(idx.entries)).a
      && (a.Failed? ==> !a.unstable)
      && (CdcParams(u).max <= Ranges.MAX_UNCOMPRESSED
          && CapFor(old(idx.entries), u.meta.path) <= Chunker.DEFAULT_MAX ==>
            (a.Failed? <==> putFailed))
  {
    hide *;
    var line: Option<JournalEntry> := *;
    entry := line;
    ghost var before, entries := dst.tree.files, idx.entries;
    ghost var reused;
    if Orderly(u, src.Sure(), dst.Sure(u.meta.path), settled, src.file, before, entries) {
      OrderlySource(u, src.Sure(), dst.Sure(u.meta.path), settled, src.file, before, entries);
      NeverUnstable(u, line, dst.supportsReuse, putFails, src.file.value, before, entries);
    }
    a, seen, putFailed, reused := TryTransfer(u, line, settled, putFails, src, dst, idx);
    LastAttempt(a, putFailed, u.meta.path, File(seen, u.meta.modNano), dst.quiet, files0, before, dst.tree.files);
    if src.stable && dst.quiet(u.meta.path) {
      AttemptSettles(u, a, putFailed, seen, dst.quiet, src.file, files0, before, dst.tree.files);
    }
    if Served(u, dst.supportsReuse, CapFor(entries, u.meta.path), seen, a, putFailed, reused) {
      ServedMeans(u, dst.supportsReuse, CapFor(entries, u.meta.path), seen, a, putFailed, reused);
    }
  }

  /** These attempts have all been turned away and slept out. */
  ghost predicate Turned(n: nat, settles: nat -> bool, sleeps: nat -> bool, maxAttempts: int, skipUnstable: bool) {
    forall i :: 1 <= i <= n ==> !settles(i) && sleeps(i) && !skipUnstable && i < maxAttempts
  }

  /** The retries of transferOne while nothing but the stable window turns an attempt away:
      they end with the first attempt that finds the source settled, the last one allowed, or
      a cancelled sleep. */
  ghost predicate RetriesUntil(n: nat, settles: nat -> bool, sleeps: nat -> bool, maxAttempts: int,
                               skipUnstable: bool)
  {
    && 1 <= n && Turned(n - 1, settles, sleeps, maxAttempts, skipUnstable)
    && (settles(n) || skipUnstable || n >= maxAttempts || !sleeps(n))
  }

  lemma RetriesStart(settles: nat -> bool, sleeps: nat -> bool, maxAttempts: int, skipUnstable: bool)
    ensures Turned(0, settles, sleeps, maxAttempts, skipUnstable)
  {}

  lemma RetriesEnd(n: nat, settles: nat -> bool, sleeps: nat -> bool, maxAttempts: int, skipUnstable: bool)
    requires 1 <= n
    ensures Turned(n - 1, settles, sleeps, maxAttempts, skipUnstable) ==>
      if settles(n) || skipUnstable || n >= maxAttempts || !sleeps(n) then
        RetriesUntil(n, settles, sleeps, maxAttempts, skipUnstable)
      else Turned(n, settles, sleeps, maxAttempts, skipUnstable)
  {}

  lemma SameMeta(u: Setup, f: Option<File>, meta: Meta)
    requires Matches(f, u.meta.size, u.meta.modNano) && f.Some? && meta.path == u.meta.path
    requires meta.size == |f.value.content| && meta.modNano == f.value.modNano
    ensures u.(meta := meta) == u
  {}

  /** transferOne for a regular file. The journal may hold anything at each attempt; `settles`
      says which attempts find the source outside the stable window, `sleeps` which sleeps are
      not cancelled, `putFails` whether a last journal write would fail. `u` is the setup of
      the last attempt. */
  method TransferOne(u0: Setup, src: Source, dst: Dest, idx: Cache, settles: nat -> bool, sleeps: nat -> bool,
                     putFails: bool, maxAttempts: int, skipUnstable: bool)
    returns (t: Tally, attempts: nat, ghost u: Setup, ghost entry: Option<JournalEntry>, ghost seen: Bytes,
             ghost unstable: bool, ghost cancelled: bool, ghost putFailed: bool)
    requires 0 < CdcParams(u0).max
    modifies src, dst.tree, idx
    // At most maxAttempts attempts (one, if that is less), and exactly one outcome.
    ensures OneOutcome(t) && 1 <= attempts && (attempts <= maxAttempts || attempts == 1)
    // Only unstable failures are retried, and they are until the attempts or the patience end.
    ensures unstable ==> t == FAILED && (skipUnstable || cancelled || attempts >= maxAttempts)
    ensures skipUnstable ==> attempts == 1
    ensures u == u0.(meta := u.meta) && u.meta.path == u0.meta.path
    // On a stable source the metadata of every attempt is the true one, if the walk's was.
    ensures src.stable && Matches(src.file, u0.meta.size, u0.meta.modNano) ==>
      Matches(src.file, u.meta.size, u.meta.modNano)
    // A retry goes by fresh metadata.
    ensures src.Sure() && src.file.Some? && attempts > 1 ==> Matches(src.file, u.meta.size, u.meta.modNano)
    ensures src.stable ==> src.file == old(src.file)
    ensures OneAfter(t, putFailed, u.meta.path, File(seen, u.meta.modNano), dst.quiet, old(dst.tree.files),
                     dst.tree.files)
    ensures src.stable && dst.quiet(u.meta.path) ==>
      Settles(u, src.file, t, putFailed, seen, Lookup(old(dst.tree.files), u.meta.path),
              Lookup(dst.tree.files, u.meta.path))
    ensures src.Sure() && dst.Sure(u.meta.path) && t == SKIPPED ==>
      SkipSound(u, entry, Skipped, src.file, Lookup(old(dst.tree.files), u.meta.path))
    ensures t == COPIED || t == WOULD_COPY ==> StillAsWalked(src.lastStat, u.meta)
    ensures Honest(old(idx.entries), u0.gear) ==> Honest(idx.entries, u0.gear)
    // In good order only the window turns attempts away, and the first that it lets through
    // decides.
    ensures Orderly(u0, src.Sure(), dst.Sure(u0.meta.path), true, old(src.file), old(dst.tree.files),
                    old(idx.entries)) ==>
      && RetriesUntil(attempts, settles, sleeps, maxAttempts, skipUnstable) && u == u0
      && (!settles(attempts) ==> t == FAILED && unstable && !putFailed)
      && (settles(attempts) ==>
            && t == TallyOf(AttemptOf(u0, entry, dst.supportsReuse, putFails, old(src.file).value, old(dst.tree.files),
                                      old(idx.entries)).a)
            && (CdcParams(u0).max <= Ranges.MAX_UNCOMPRESSED
                && CapFor(old(idx.entries), u0.meta.path) <= Chunker.DEFAULT_MAX ==>
                  (t == FAILED <==> putFailed)))
  {
    hide *;
    SureIs(src, dst, u0.meta.path);
    SameStart(dst.quiet, dst.tree.files);
    RetriesStart(settles, sleeps, maxAttempts, skipUnstable);
    ghost var good := Orderly(u0, src.Sure(), dst.Sure(u0.meta.path), true, src.file, dst.tree.files, idx.entries);
    if good { OrderlySource(u0, src.Sure(), dst.Sure(u0.meta.path), true, src.file, dst.tree.files, idx.entries); }
    var v := u0;
    attempts := 0;
    unstable, cancelled := false, false;
    while true
      invariant !unstable && !cancelled && (skipUnstable ==> attempts == 0)
      invariant good ==> v == u0 && Turned(attempts, settles, sleeps, maxAttempts, skipUnstable)
      invariant good ==> src.file == old(src.file) && dst.tree.files == old(dst.tree.files)
      invariant good ==> idx.entries == old(idx.entries)
      invariant 0 <= attempts && (attempts < maxAttempts || attempts == 0)
      invariant v == u0.(meta := v.meta) && v.meta.path == u0.meta.path
      invariant attempts == 0 ==> v == u0 && src.file == old(src.file)
      invariant attempts == 0 ==> dst.tree.files == old(dst.tree.files) && idx.entries == old(idx.entries)
      invariant src.stable ==> src.file == old(src.file)
      invariant src.Sure() && src.file.Some? && attempts > 0 ==> Matches(src.file, v.meta.size, v.meta.modNano)
      invariant src.stable && Matches(src.file, u0.meta.size, u0.meta.modNano) ==>
                  Matches(src.file, v.meta.size, v.meta.modNano)
      invariant Same(dst.quiet, old(dst.tree.files), dst.tree.files)
      invariant Honest(old(idx.entries), u0.gear) ==> Honest(idx.entries, u0.gear)
      decreases maxAttempts - attempts
    {
      attempts := attempts + 1;
      u := v;
      var settled := settles(attempts);
      ghost var before := dst.tree.files;
      var a;
      SameParams(u0, v);
      a, entry, seen, putFailed := OneTry(v, settled, putFails, src, dst, idx, old(dst.tree.files));
      SameAt(dst.quiet, old(dst.tree.files), before, v.meta.path);
      SureIs(src, dst, v.meta.path);
      TallyIs(a);
      RetriesEnd(attempts, settles, sleeps, maxAttempts, skipUnstable);
      if !a.Failed? || !a.unstable { return TallyOf(a), attempts, v, entry, seen, false, false, putFailed; }
      if skipUnstable || attempts >= maxAttempts { return FAILED, attempts, v, entry, seen, true, false, putFailed; }
      var wakes := sleeps(attempts); // or is cancelled while sleeping
      if !wakes { return FAILED, attempts, v, entry, seen, true, true, putFailed; }
      var now := src.Stat(v.meta.path);
      if now.Some? {
        v := v.(meta := now.value);
        if src.stable { StatMatches(src.file, now.value); }
        if good { SameMeta(u0, src.file, now.value); }
      }
    }
  }
}
