/** internal/engine/engine.go, the second pass: the mix of writes and reuses that fills
    the staging file. */
module Transfer {
  import opened Base
  import opened Delta
  import opened Ranges
  import opened WriteSession
  import opened Endpoints
  import Chunker

  /** What the engine fixes before the second pass. */
  datatype Job = Job(packed: map<Bytes, Bytes>, pref: Codec, missing: set<Digest>, reuse: map<nat, ReuseEntry>,
                     canReuse: bool, fullWire: bool)

  function JobFor(packed: map<Bytes, Bytes>, pref: Codec, src: Signature, dest: Signature, supportsReuse: bool): Job {
    var plan := PlanFor(src.chunks, Have(dest.chunks));
    Job(packed, pref, MissingSet(plan), ByNewOffset(plan.reuse),
        supportsReuse && |dest.chunks| > 0, |dest.chunks| == 0)
  }

  /** The session and the counters after some chunks; `reused` counts reused bytes. */
  datatype Sent = Sent(session: Session, err: Option<Error>, payload: nat, wire: nat, chunks: nat, reused: nat)

  predicate Wired(job: Job, c: Chunk) { c.digest in job.missing || job.fullWire }

  /** A Go map lookup without the entry gives the zero entry. */
  function ReuseAt(job: Job, offset: nat): ReuseEntry {
    if offset in job.reuse then job.reuse[offset] else ReuseEntry(0, 0, ZeroDigest, 0)
  }

  /** The callback of the second pass for one chunk. */
  function SendStep(job: Job, s: Session, files: Files, c: Chunk, data: Bytes): Sent {
    if Wired(job, c) then
      var (codec, enc) := Encode(job.packed, job.pref, data);
      var (s', err) := WriteStep(s, U64(c.offset), codec, |data|, enc);
      if err.Some? then Sent(s', err, 0, 0, 0, 0) else Sent(s', None, |data|, |BytesOf(enc)|, 1, 0)
    else if job.canReuse then
      var re := ReuseAt(job, c.offset);
      var (s', err) := ReuseStep(s, files, U64(re.newOffset), U64(re.oldOffset), re.digest, I64(re.length));
      Sent(s', err, 0, 0, 0, if err.Some? then 0 else re.length)
    else
      var (s', err) := WriteStep(s, U64(c.offset), CodecNone, |data|, Plain(data));
      Sent(s', err, 0, if err.Some? then 0 else |data|, 0, 0)
  }

  /** The callback for one chunk. */
  method SendOne(job: Job, ws: LocalSession, tree: Tree, c: Chunk, data: Bytes) returns (r: Sent)
    modifies ws`staging
    ensures r == SendStep(job, old(ws.View()), tree.files, c, data) && r.session == ws.View()
  {
    var err, payload, wire, sent, reused := None, 0, 0, 0, 0;
    if c.digest in job.missing || job.fullWire {
      var (codec, enc) := Encode(job.packed, job.pref, data);
      err := ws.WriteChunk(U64(c.offset), codec, |data|, enc);
      if err.None? { payload, wire, sent := |data|, |BytesOf(enc)|, 1; }
    } else if job.canReuse {
      var re := ReuseAt(job, c.offset);
      err := ws.ReuseChunk(tree, U64(re.newOffset), U64(re.oldOffset), re.digest, I64(re.length));
      if err.None? { reused := re.length; }
    } else {
      err := ws.WriteChunk(U64(c.offset), CodecNone, |data|, Plain(data));
      if err.None? { wire := |data|; }
    }
    r := Sent(ws.View(), err, payload, wire, sent, reused);
  }

  /** The second pass over the first k chunks of x, stopping at the first error. */
  function SendAll(job: Job, s: Session, files: Files, cs: seq<Chunk>, x: Bytes, k: nat): Sent
    requires k <= |cs|
  {
    if k == 0 then Sent(s, None, 0, 0, 0, 0)
    else
      var a := SendAll(job, s, files, cs, x, k - 1);
      if a.err.Some? then a
      else
        var b := SendStep(job, a.session, files, cs[k - 1], DataOf(x, cs[k - 1]));
        Plus(a, b)
  }

  function Plus(a: Sent, b: Sent): Sent {
    Sent(b.session, b.err, a.payload + b.payload, a.wire + b.wire, a.chunks + b.chunks, a.reused + b.reused)
  }

  /** A chunk looks at the tree only where the session writes, and stays at that path. */
  lemma SendStepLocal(job: Job, s: Session, files: Files, files': Files, c: Chunk, data: Bytes)
    requires s.path in files <==> s.path in files'
    requires s.path in files ==> files[s.path] == files'[s.path]
    ensures SendStep(job, s, files, c, data) == SendStep(job, s, files', c, data)
    ensures SendStep(job, s, files, c, data).session.path == s.path
  {
    assert s.prior.Some? ==> OldUnchanged(files, s.path, s.prior.value) == OldUnchanged(files', s.path, s.prior.value);
    hide Encode, Decode, WriteAt, ValidateReuseRange, ValidateWriteRange, U64, I64, OldUnchanged;
  }

  lemma PlusTakesSession(a: Sent, b: Sent)
    ensures Plus(a, b).session == b.session && Plus(a, b).err == b.err && Plus(a, b).payload == a.payload + b.payload
  {}

  lemma SendAllNone(job: Job, s: Session, files: Files, cs: seq<Chunk>, x: Bytes)
    ensures SendAll(job, s, files, cs, x, 0) == Sent(s, None, 0, 0, 0, 0)
  {}

  lemma SendAllNext(job: Job, s: Session, files: Files, cs: seq<Chunk>, x: Bytes, k: nat)
    requires k < |cs| && SendAll(job, s, files, cs, x, k).err.None?
    ensures var a := SendAll(job, s, files, cs, x, k);
            SendAll(job, s, files, cs, x, k + 1) == Plus(a, SendStep(job, a.session, files, cs[k], DataOf(x, cs[k])))
  {
    hide SendStep, Plus;
  }

  lemma SendAllStuck(job: Job, s: Session, files: Files, cs: seq<Chunk>, x: Bytes, k: nat)
    requires k < |cs| && SendAll(job, s, files, cs, x, k).err.Some?
    ensures SendAll(job, s, files, cs, x, k + 1) == SendAll(job, s, files, cs, x, k)
  {
    hide SendStep, Plus;
  }

  lemma SendAllEarlier(job: Job, s: Session, files: Files, cs: seq<Chunk>, x: Bytes, k: nat)
    requires k < |cs|
    ensures SendAll(job, s, files, cs, x, k + 1).err.None? ==> SendAll(job, s, files, cs, x, k).err.None?
  {
    hide SendStep, Plus;
  }

  lemma {:induction false} SendAllStops(job: Job, s: Session, files: Files, cs: seq<Chunk>, x: Bytes, k: nat, n: nat)
    requires k <= n <= |cs| && SendAll(job, s, files, cs, x, k).err.Some?
    ensures SendAll(job, s, files, cs, x, n) == SendAll(job, s, files, cs, x, k)
    decreases n
  {
    hide *;
    if k < n {
      SendAllStops(job, s, files, cs, x, k, n - 1);
      SendAllStuck(job, s, files, cs, x, n - 1);
    }
  }

  lemma {:induction false} SendAllLocal(job: Job, s: Session, files: Files, files': Files, cs: seq<Chunk>, x: Bytes,
                                        k: nat)
    requires k <= |cs|
    requires s.path in files <==> s.path in files'
    requires s.path in files ==> files[s.path] == files'[s.path]
    ensures SendAll(job, s, files, cs, x, k) == SendAll(job, s, files', cs, x, k)
    ensures SendAll(job, s, files, cs, x, k).session.path == s.path
  {
    hide *;
    if k == 0 {
      SendAllNone(job, s, files, cs, x);
      SendAllNone(job, s, files', cs, x);
    } else {
      SendAllLocal(job, s, files, files', cs, x, k - 1);
      var a := SendAll(job, s, files, cs, x, k - 1);
      if a.err.Some? {
        SendAllStuck(job, s, files, cs, x, k - 1);
        SendAllStuck(job, s, files', cs, x, k - 1);
      } else {
        SendAllNext(job, s, files, cs, x, k - 1);
        SendAllNext(job, s, files', cs, x, k - 1);
        SendStepLocal(job, a.session, files, files', cs[k - 1], DataOf(x, cs[k - 1]));
        PlusTakesSession(a, SendStep(job, a.session, files, cs[k - 1], DataOf(x, cs[k - 1])));
      }
    }
  }

  lemma ViewPath(ws: LocalSession)
    ensures ws.View().path == ws.path
  {}

  lemma SameStep(quiet: Path -> bool, job: Job, s: Session, files0: Files, files: Files, c: Chunk, data: Bytes)
    requires Same(quiet, files0, files) && quiet(s.path)
    ensures SendStep(job, s, files, c, data) == SendStep(job, s, files0, c, data)
  {
    SameAt(quiet, files0, files, s.path);
    hide Same, SendStep;
    SendStepLocal(job, s, files, files0, c, data);
  }

  /** Exactly when one chunk goes through: a compressed chunk must fit the decoder's cap,
      a reused one the cap on reuse; a raw one always does. */
  predicate Works(job: Job, c: Chunk, data: Bytes) {
    if Wired(job, c) then Encode(job.packed, job.pref, data).0 == CodecNone || |data| <= MAX_UNCOMPRESSED
    else !job.canReuse || c.length <= Chunker.DEFAULT_MAX
  }

  /** The setting of an undisturbed transfer of x over y (None: no old file). */
  ghost predicate Setting(src: Signature, x: Bytes, dest: Signature, y: Option<Bytes>, s: Session, files: Files) {
    && TrueSignature(src, x) && |x| < TWO63
    && s.size == |x| && !s.committed && s.staging.Some? && |s.staging.value| == |x|
    && (if y.None? then dest == ABSENT
        else
          && TrueSignature(dest, y.value) && |y.value| < TWO63
          && s.path in files && files[s.path].content == y.value
          && s.prior == Some(OldFile(y.value, |y.value|, files[s.path].modNano)))
  }

  /** A write inside the session does what it says, or fails to decode. */
  lemma WriteWorks(s: Session, offset: nat, codec: Codec, ulen: int, enc: Wire, data: Bytes)
    requires !s.committed && s.staging.Some? && offset + |data| <= s.size
    requires Decode(codec, enc, ulen) in {Some(data), None}
    ensures offset < TWO63
    ensures WriteStep(s, U64(offset), codec, ulen, enc) ==
            if Decode(codec, enc, ulen).None? then (s, Some(DecodeFailed))
            else (s.(staging := Some(WriteAt(s.staging.value, offset, data))), None)
  {
    hide Decode, WriteAt;
    I64Exact(offset);
    WriteRangeIff(offset, |data|, s.size);
  }

  /** A reuse of bytes that are there does what it says up to the length cap. */
  lemma ReuseWorks(s: Session, files: Files, new': nat, old': nat, length: nat, data: Bytes)
    requires !s.committed && s.staging.Some? && s.prior.Some? && OldUnchanged(files, s.path, s.prior.value)
    requires s.prior.value.size == |s.prior.value.content|
    requires new' + length <= s.size && 0 < length && old' + length <= s.prior.value.size
    requires data == s.prior.value.content[old'..old' + length]
    ensures old' < TWO63 && new' < TWO63 && length < TWO63
    ensures ReuseStep(s, files, U64(new'), U64(old'), Sum(data), I64(length)) ==
            if length > Chunker.DEFAULT_MAX then (s, Some(LengthExceedsMax))
            else (s.(staging := Some(WriteAt(s.staging.value, new', data))), None)
  {
    hide WriteAt;
    I64Exact(new');
    I64Exact(old');
    I64Exact(length);
    WriteRangeIff(new', length, s.size);
    ReuseRangeIff(old', length, s.prior.value.size);
  }

  ghost predicate StepDone(job: Job, s: Session, c: Chunk, data: Bytes, r: Sent)
    requires s.staging.Some?
  {
    && (r.err.None? <==> Works(job, c, data))
    && (r.err.None? ==>
         && r.session == s.(staging := Some(WriteAt(s.staging.value, c.offset, data)))
         && (job.canReuse || job.fullWire ==> r.payload + r.reused == c.length))
  }

  lemma WriteStepDone(job: Job, s: Session, files: Files, c: Chunk, data: Bytes)
    requires !s.committed && s.staging.Some?
    requires c.offset + |data| <= s.size && |data| == c.length
    requires Wired(job, c) || (!job.canReuse && !job.fullWire)
    ensures StepDone(job, s, c, data, SendStep(job, s, files, c, data))
  {
    assert Decode(CodecNone, Plain(data), |data|) == Some(data);
    hide WriteStep, ReuseStep, Encode, Decode, WriteAt, U64;
    if Wired(job, c) {
      var (codec, enc) := Encode(job.packed, job.pref, data);
      DecodeEncodeIff(job.packed, job.pref, data);
      WriteWorks(s, c.offset, codec, |data|, enc, data);
    } else {
      WriteWorks(s, c.offset, CodecNone, |data|, Plain(data), data);
    }
  }

  lemma ReuseStepDone(job: Job, src: Signature, x: Bytes, dest: Signature, y: Bytes, s: Session, files: Files, k: nat)
    requires TrueSignature(src, x) && TrueSignature(dest, y) && k < |src.chunks|
    requires !s.committed && s.staging.Some? && s.size == |x|
    requires s.prior.Some? && OldUnchanged(files, s.path, s.prior.value)
    requires s.prior.value.content == y && s.prior.value.size == |y|
    requires var c, have := src.chunks[k], Have(dest.chunks);
             Reusable(c, have) && !Wired(job, c) && job.canReuse && ReuseAt(job, c.offset) == EntryFor(c, have)
    ensures var c := src.chunks[k];
            StepDone(job, s, c, DataOf(x, c), SendStep(job, s, files, c, DataOf(x, c)))
  {
    hide WriteStep, ReuseStep, Encode, WriteAt, U64, I64, TrueSignature;
    ReuseNamesEqualBytes(src, x, dest, y, k);
    var e := EntryFor(src.chunks[k], Have(dest.chunks));
    ReuseWorks(s, files, e.newOffset, e.oldOffset, e.length, y[e.oldOffset..e.oldOffset + e.length]);
  }

  /** One undisturbed chunk: it goes through exactly when `Works`, and then its own bytes
      land at its own place, and its length is counted once. */
  lemma SendStepWorks(job: Job, src: Signature, x: Bytes, dest: Signature, y: Option<Bytes>, supports: bool, s: Session,
                      files: Files, k: nat)
    requires job == JobFor(job.packed, job.pref, src, dest, supports)
    requires Setting(src, x, dest, y, s, files) && k < |src.chunks|
    ensures var c := src.chunks[k];
            && ChunkOf(c, x)
            && StepDone(job, s, c, DataOf(x, c), SendStep(job, s, files, c, DataOf(x, c)))
  {
    var c, have := src.chunks[k], Have(dest.chunks);
    TilesPointwise(src.chunks, x, 0);
    assert ChunkOf(c, x);
    hide SendStep, StepDone, Tiles, Have, PlanFor, MissingSet, ByNewOffset;
    TilesCoherent(src.chunks, x);
    LookupNeverMisses(src.chunks, have, k);
    if !Wired(job, c) && job.canReuse {
      ReuseStepDone(job, src, x, dest, y.value, s, files, k);
    } else {
      WriteStepDone(job, s, files, c, DataOf(x, c));
    }
  }

  /** Where chunk k starts; the end of the file for k == |cs|. */
  function StartOf(cs: seq<Chunk>, x: Bytes, k: nat): nat
    requires k <= |cs|
  {
    if k < |cs| then cs[k].offset else |x|
  }

  lemma {:induction false} TilesAt(cs: seq<Chunk>, x: Bytes, from: nat, k: nat)
    requires from <= |x| && Tiles(cs, x, from) && k <= |cs|
    ensures StartOf(cs, x, 0) == from
    ensures k < |cs| ==> ChunkOf(cs[k], x) && StartOf(cs, x, k + 1) == cs[k].offset + cs[k].length
    decreases |cs|
  {
    if cs != [] {
      TilesAt(cs[1..], x, from + cs[0].length, if k == 0 then 0 else k - 1);
      if 0 < k < |cs| { assert cs[k] == cs[1..][k - 1] && (k + 1 < |cs| ==> cs[k + 1] == cs[1..][k]); }
      if k == 0 && |cs| > 1 { assert cs[1] == cs[1..][0]; }
    }
  }

  lemma WriteAtExtends(f: Bytes, x: Bytes, at: nat, data: Bytes)
    requires |f| == |x| && at + |data| <= |x| && data == x[at..at + |data|] && f[..at] == x[..at]
    ensures |WriteAt(f, at, data)| == |x| && WriteAt(f, at, data)[..at + |data|] == x[..at + |data|]
  {
    WriteAtInside(f, at, data);
    var r := WriteAt(f, at, data);
    assert r[..at + |data|] == r[..at] + r[at..at + |data|];
    assert x[..at + |data|] == x[..at] + x[at..at + |data|];
  }

  ghost predicate FilledTo(job: Job, s: Session, cs: seq<Chunk>, x: Bytes, k: nat, r: Sent)
    requires k <= |cs| && StartOf(cs, x, k) <= |x|
  {
    && (r.err.None? <==> forall i :: 0 <= i < k ==> Works(job, cs[i], DataOf(x, cs[i])))
    && (r.err.None? ==>
         && r.session.staging.Some?
         && r.session == s.(staging := r.session.staging)
         && |r.session.staging.value| == |x|
         && r.session.staging.value[..StartOf(cs, x, k)] == x[..StartOf(cs, x, k)]
         && (job.canReuse || job.fullWire ==> r.payload + r.reused == StartOf(cs, x, k)))
  }

  lemma FilledOneMore(job: Job, s: Session, files: Files, cs: seq<Chunk>, x: Bytes, k: nat)
    requires k < |cs| && ChunkOf(cs[k], x) && StartOf(cs, x, k + 1) == cs[k].offset + cs[k].length
    requires FilledTo(job, s, cs, x, k, SendAll(job, s, files, cs, x, k))
    requires var a := SendAll(job, s, files, cs, x, k);
             a.err.None? ==> StepDone(job, a.session, cs[k], DataOf(x, cs[k]),
                                      SendStep(job, a.session, files, cs[k], DataOf(x, cs[k])))
    ensures FilledTo(job, s, cs, x, k + 1, SendAll(job, s, files, cs, x, k + 1))
  {
    hide SendStep, Works, WriteAt, Wired, SendAll;
    var a := SendAll(job, s, files, cs, x, k);
    var c := cs[k];
    if a.err.Some? {
      SendAllStops(job, s, files, cs, x, k, k + 1);
    } else {
      SendAllNext(job, s, files, cs, x, k);
      WriteAtExtends(a.session.staging.value, x, c.offset, DataOf(x, c));
    }
  }

  lemma FilledNone(job: Job, s: Session, files: Files, cs: seq<Chunk>, x: Bytes)
    requires s.staging.Some? && |s.staging.value| == |x| && StartOf(cs, x, 0) == 0
    ensures FilledTo(job, s, cs, x, 0, SendAll(job, s, files, cs, x, 0))
  {
    hide Works;
  }

  lemma SettingCarries(src: Signature, x: Bytes, dest: Signature, y: Option<Bytes>, job: Job, s: Session, files: Files,
                       k: nat, r: Sent)
    requires Setting(src, x, dest, y, s, files) && k <= |src.chunks| && StartOf(src.chunks, x, k) <= |x|
    requires FilledTo(job, s, src.chunks, x, k, r) && r.err.None?
    ensures Setting(src, x, dest, y, r.session, files)
  {
    hide TrueSignature, Works;
  }

  lemma FilledStep(job: Job, src: Signature, x: Bytes, dest: Signature, y: Option<Bytes>, supports: bool, s: Session,
                   files: Files, k: nat)
    requires job == JobFor(job.packed, job.pref, src, dest, supports)
    requires Setting(src, x, dest, y, s, files) && k < |src.chunks|
    requires StartOf(src.chunks, x, k) <= |x| && ChunkOf(src.chunks[k], x)
    requires StartOf(src.chunks, x, k + 1) == src.chunks[k].offset + src.chunks[k].length <= |x|
    requires FilledTo(job, s, src.chunks, x, k, SendAll(job, s, files, src.chunks, x, k))
    ensures FilledTo(job, s, src.chunks, x, k + 1, SendAll(job, s, files, src.chunks, x, k + 1))
  {
    hide *;
    var a := SendAll(job, s, files, src.chunks, x, k);
    if a.err.None? {
      SettingCarries(src, x, dest, y, job, s, files, k, a);
      SendStepWorks(job, src, x, dest, y, supports, a.session, files, k);
    }
    FilledOneMore(job, s, files, src.chunks, x, k);
  }

  lemma StartsInside(cs: seq<Chunk>, x: Bytes, k: nat)
    requires Tiles(cs, x, 0) && k <= |cs|
    ensures StartOf(cs, x, 0) == 0 && StartOf(cs, x, k) <= |x|
    ensures k < |cs| ==> ChunkOf(cs[k], x) && StartOf(cs, x, k + 1) == cs[k].offset + cs[k].length <= |x|
  {
    hide Tiles;
    TilesAt(cs, x, 0, k);
  }

  /** The undisturbed second pass: it succeeds exactly when every chunk works, and then the
      staging file holds exactly the source bytes, each counted once as payload or reuse. */
  lemma {:induction false} SendAllFills(job: Job, src: Signature, x: Bytes, dest: Signature, y: Option<Bytes>,
                                        supports: bool, s: Session, files: Files, k: nat)
    requires job == JobFor(job.packed, job.pref, src, dest, supports)
    requires Setting(src, x, dest, y, s, files) && k <= |src.chunks|
    ensures StartOf(src.chunks, x, k) <= |x|
    ensures FilledTo(job, s, src.chunks, x, k, SendAll(job, s, files, src.chunks, x, k))
  {
    assert Tiles(src.chunks, x, 0) && s.staging.Some? && |s.staging.value| == |x|;
    hide *;
    StartsInside(src.chunks, x, k);
    if k == 0 {
      FilledNone(job, s, files, src.chunks, x);
    } else {
      StartsInside(src.chunks, x, k - 1);
      SendAllFills(job, src, x, dest, y, supports, s, files, k - 1);
      FilledStep(job, src, x, dest, y, supports, s, files, k - 1);
    }
  }

  /** A source chunk goes over the wire as payload exactly when it is not reusable. */
  lemma WiredIff(job: Job, src: Signature, x: Bytes, dest: Signature, supports: bool, k: nat)
    requires job == JobFor(job.packed, job.pref, src, dest, supports)
    requires Tiles(src.chunks, x, 0) && k < |src.chunks|
    ensures Wired(job, src.chunks[k]) <==> !Reusable(src.chunks[k], Have(dest.chunks))
  {
    hide Tiles, PlanFor, MissingSet, ByNewOffset, Coherent;
    TilesCoherent(src.chunks, x);
    LookupNeverMisses(src.chunks, Have(dest.chunks), k);
    if dest.chunks == [] { assert Have(dest.chunks) == map[]; }
  }

  lemma StepPayload(job: Job, s: Session, files: Files, c: Chunk, data: Bytes)
    requires SendStep(job, s, files, c, data).err.None?
    ensures SendStep(job, s, files, c, data).payload == if Wired(job, c) then |data| else 0
  {
    hide WriteStep, ReuseStep, Encode, U64, I64, Wired;
  }

  lemma PayloadStep(job: Job, src: Signature, x: Bytes, dest: Signature, supports: bool, s: Session, files: Files,
                    k: nat)
    requires job == JobFor(job.packed, job.pref, src, dest, supports)
    requires Tiles(src.chunks, x, 0) && k < |src.chunks|
    requires SendAll(job, s, files, src.chunks, x, k).err.None?
        && SendAll(job, s, files, src.chunks, x, k + 1).err.None?
    requires SendAll(job, s, files, src.chunks, x, k).payload == PayloadUpTo(src.chunks, Have(dest.chunks), k)
    ensures SendAll(job, s, files, src.chunks, x, k + 1).payload == PayloadUpTo(src.chunks, Have(dest.chunks), k + 1)
  {
    hide *;
    var c, a := src.chunks[k], SendAll(job, s, files, src.chunks, x, k);
    var b := SendStep(job, a.session, files, c, DataOf(x, c));
    SendAllNext(job, s, files, src.chunks, x, k);
    PlusTakesSession(a, b);
    StepPayload(job, a.session, files, c, DataOf(x, c));
    WiredIff(job, src, x, dest, supports, k);
    DataLength(src.chunks, x, k);
    PayloadNext(src.chunks, Have(dest.chunks), k);
  }

  /** The payload of the second pass is what the plan calls missing. */
  lemma {:induction false} SendAllPayload(job: Job, src: Signature, x: Bytes, dest: Signature, supports: bool,
                                          s: Session, files: Files, k: nat)
    requires job == JobFor(job.packed, job.pref, src, dest, supports)
    requires Tiles(src.chunks, x, 0) && k <= |src.chunks|
    requires SendAll(job, s, files, src.chunks, x, k).err.None?
    ensures SendAll(job, s, files, src.chunks, x, k).payload == PayloadUpTo(src.chunks, Have(dest.chunks), k)
  {
    hide *;
    if k == 0 {
      SendAllNone(job, s, files, src.chunks, x);
      PayloadEnds(src.chunks, Have(dest.chunks));
    } else {
      SendAllEarlier(job, s, files, src.chunks, x, k - 1);
      SendAllPayload(job, src, x, dest, supports, s, files, k - 1);
      PayloadStep(job, src, x, dest, supports, s, files, k - 1);
    }
  }

  lemma StepCounts(job: Job, s: Session, files: Files, c: Chunk, data: Bytes)
    requires SendStep(job, s, files, c, data).err.None?
    ensures var r := SendStep(job, s, files, c, data);
            && r.chunks == (if Wired(job, c) then 1 else 0)
            && r.wire <= (if Wired(job, c) || !job.canReuse then |data| else 0)
            && (job.pref == CodecNone ==> r.wire == if Wired(job, c) || !job.canReuse then |data| else 0)
  {
    EncodeIs(job.packed, job.pref, data);
    hide WriteStep, ReuseStep, Encode, U64, I64, Wired;
  }

  lemma PlusCounts(a: Sent, b: Sent)
    ensures Plus(a, b).chunks == a.chunks + b.chunks && Plus(a, b).wire == a.wire + b.wire
    ensures Plus(a, b).payload == a.payload + b.payload
  {}

  /** How much of the first k chunks goes over the wire before compression: all of it if the
      destination has chunks that it cannot reuse, else what is payload. */
  function Uncompressed(job: Job, cs: seq<Chunk>, x: Bytes, k: nat, payload: nat): nat
    requires k <= |cs|
  {
    if job.canReuse || job.fullWire then payload else StartOf(cs, x, k)
  }

  /** The other counters of the second pass: it sends as many chunks as the plan calls missing,
      and what goes over the wire is never longer than what goes in, and as long without
      compression. */
  lemma {:induction false} SendAllCounts(job: Job, src: Signature, x: Bytes, dest: Signature, supports: bool,
                                         s: Session, files: Files, k: nat)
    requires job == JobFor(job.packed, job.pref, src, dest, supports)
    requires Tiles(src.chunks, x, 0) && k <= |src.chunks|
    requires SendAll(job, s, files, src.chunks, x, k).err.None?
    ensures var r := SendAll(job, s, files, src.chunks, x, k);
            && r.chunks == |PlanFor(src.chunks[..k], Have(dest.chunks)).missing|
            && r.wire <= Uncompressed(job, src.chunks, x, k, r.payload)
            && (job.pref == CodecNone ==> r.wire == Uncompressed(job, src.chunks, x, k, r.payload))
  {
    hide *;
    StartsInside(src.chunks, x, k);
    UncompressedIs(job, src.chunks, x, k);
    if k == 0 {
      SendAllNone(job, s, files, src.chunks, x);
      NothingMissing(src.chunks, Have(dest.chunks));
    } else {
      SendAllEarlier(job, s, files, src.chunks, x, k - 1);
      SendAllCounts(job, src, x, dest, supports, s, files, k - 1);
      StartsInside(src.chunks, x, k - 1);
      UncompressedIs(job, src.chunks, x, k - 1);
      var c, a := src.chunks[k - 1], SendAll(job, s, files, src.chunks, x, k - 1);
      var b := SendStep(job, a.session, files, c, DataOf(x, c));
      SendAllNext(job, s, files, src.chunks, x, k - 1);
      PlusTakesSession(a, b);
      PlusCounts(a, b);
      StepCounts(job, a.session, files, c, DataOf(x, c));
      StepPayload(job, a.session, files, c, DataOf(x, c));
      WiredIff(job, src, x, dest, supports, k - 1);
      WiredIs(job, c);
      DataLength(src.chunks, x, k - 1);
      MissingNext(src.chunks, Have(dest.chunks), k - 1);
      StartOfInside(src.chunks, x, k - 1);
    }
  }

  lemma UncompressedIs(job: Job, cs: seq<Chunk>, x: Bytes, k: nat)
    requires k <= |cs|
    ensures forall n: nat ::
      Uncompressed(job, cs, x, k, n) == if job.canReuse || job.fullWire then n else StartOf(cs, x, k)
  {}

  lemma WiredIs(job: Job, c: Chunk)
    ensures job.fullWire ==> Wired(job, c)
  {}

  lemma StartOfInside(cs: seq<Chunk>, x: Bytes, k: nat)
    requires k < |cs|
    ensures StartOf(cs, x, k) == cs[k].offset
  {}

  lemma NothingMissing(cs: seq<Chunk>, have: map<Digest, Loc>)
    ensures PlanFor(cs[..0], have).missing == []
  {}

  lemma MissingNext(cs: seq<Chunk>, have: map<Digest, Loc>, k: nat)
    requires k < |cs|
    ensures |PlanFor(cs[..k + 1], have).missing| ==
            |PlanFor(cs[..k], have).missing| + if Reusable(cs[k], have) then 0 else 1
  {
    assert cs[..k + 1][..k] == cs[..k];
  }

  lemma DataLength(cs: seq<Chunk>, x: Bytes, k: nat)
    requires Tiles(cs, x, 0) && k < |cs|
    ensures |DataOf(x, cs[k])| == cs[k].length
  {
    hide Tiles;
    TilesPointwise(cs, x, 0);
  }

  lemma FilledWhole(job: Job, s: Session, cs: seq<Chunk>, x: Bytes, r: Sent)
    requires FilledTo(job, s, cs, x, |cs|, r)
    ensures r.err.None? <==> forall i :: 0 <= i < |cs| ==> Works(job, cs[i], DataOf(x, cs[i]))
    ensures r.err.None? ==>
      && r.session == s.(staging := Some(x))
      && (job.canReuse || job.fullWire ==> r.payload + r.reused == |x|)
  {
    hide Works;
    if r.err.None? {
      assert r.session.staging.value[..|x|] == r.session.staging.value && x[..|x|] == x;
    }
  }

  lemma ChunkWithinCaps(job: Job, packed: map<Bytes, Bytes>, pref: Codec, sig: Signature, destSig: Signature,
                        supports: bool, i: nat, data: Bytes, cap: nat)
    requires job == JobFor(packed, pref, sig, destSig, supports)
    requires i < |sig.chunks| && Coherent(sig.chunks) && |data| <= MAX_UNCOMPRESSED && cap <= Chunker.DEFAULT_MAX
    requires forall k :: 0 <= k < |destSig.chunks| ==> destSig.chunks[k].length <= cap
    ensures Works(job, sig.chunks[i], data)
  {
    hide Coherent, Have, PlanFor, ByNewOffset, Encode, MissingSet;
    LookupNeverMisses(sig.chunks, Have(destSig.chunks), i);
    if Reusable(sig.chunks[i], Have(destSig.chunks)) {
      var k := ReusableLength(sig.chunks[i], destSig.chunks);
    }
  }
}
