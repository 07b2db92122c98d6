/** internal/transport/local/local.go: the atomic write session.

    The functions say what one call does to the session's fields and to the destination
    tree; the class updates those fields in place. `NeverTorn.dfy` interleaves sessions. */
module WriteSession {
  import opened Base
  import opened Ranges

  type Path = string

  datatype File = File(content: Bytes, modNano: int)

  type Files = map<Path, File>

  /** The handle on the old destination file, and its size and mtime at BeginWrite. */
  datatype OldFile = OldFile(content: Bytes, size: int64, modNano: int)

  /** The fields of writeSession. `staging` is None once the staging file is closed. */
  datatype Session = Session(path: Path, size: int64, staging: Option<Bytes>, prior: Option<OldFile>, committed: bool)

  function Zeros(n: nat): (z: Bytes)
    ensures |z| == n
  {
    seq(n, i => 0)
  }

  /** WriteAt on a file: past the end, the file grows and the gap reads as zeros. */
  function WriteAt(f: Bytes, at: nat, data: Bytes): (r: Bytes)
    ensures at + |data| <= |f| ==> |r| == |f|
  {
    var padded := if at + |data| <= |f| then f else f + Zeros(at + |data| - |f|);
    padded[..at] + data + padded[at + |data|..]
  }

  lemma WriteAtInside(f: Bytes, at: nat, data: Bytes)
    requires at + |data| <= |f|
    ensures var r := WriteAt(f, at, data);
            r[..at] == f[..at] && r[at..at + |data|] == data && r[at + |data|..] == f[at + |data|..]
  {}

  function Begin(files: Files, path: Path, size: int64): Session {
    var prior := if path in files && |files[path].content| < TWO63
               then Some(OldFile(files[path].content, |files[path].content|, files[path].modNano))
               else None;
    Session(path, size, Some(if size > 0 then Zeros(size) else []), prior, false)
  }

  /** Writes raw at a 64-bit offset; the operating system refuses a negative one. */
  function PutRaw(s: Session, offset: uint64, raw: Bytes): (Session, Option<Error>) {
    if s.staging.None? then (s, Some(SessionClosed))
    else if I64(offset) < 0 then (s, Some(NegativeOffset))
    else (s.(staging := Some(WriteAt(s.staging.value, I64(offset), raw))), None)
  }

  function WriteStep(s: Session, offset: uint64, codec: Codec, uncompressedLen: int,
                     data: Wire): (Session, Option<Error>)
  {
    if s.committed then (s, Some(WriteAfterCommit))
    else
      match Decode(codec, data, uncompressedLen)
      case None => (s, Some(DecodeFailed))
      case Some(raw) =>
        if |raw| >= TWO63 then (s, Some(InvalidLength))
        else
          var bad := ValidateWriteRange(offset, |raw|, s.size);
          if bad.Some? then (s, bad) else PutRaw(s, offset, raw)
  }

  /** checkOldUnchanged. */
  predicate OldUnchanged(files: Files, path: Path, o: OldFile) {
    path in files && |files[path].content| == o.size && files[path].modNano == o.modNano
  }

  function ReuseStep(s: Session, files: Files, newOffset: uint64, oldOffset: uint64, digest: Digest,
                     length: int64): (Session, Option<Error>)
  {
    if s.committed then (s, Some(WriteAfterCommit))
    else if s.prior.None? then (s, Some(NoOldFile))
    else if !OldUnchanged(files, s.path, s.prior.value) then (s, Some(DestChanged))
    else
      var bad := ValidateReuseRange(oldOffset, length, s.prior.value.size);
      var bad' := if bad.Some? then bad else ValidateWriteRange(newOffset, length, s.size);
      if bad'.Some? then (s, bad')
      else if I64(oldOffset) < 0 then (s, Some(NegativeOffset))
      else if I64(oldOffset) + length > |s.prior.value.content| then (s, Some(ShortRead))
      else if length < 0 then (s, Some(InvalidLength))
      else
        var buf := s.prior.value.content[I64(oldOffset)..I64(oldOffset) + length];
        if Sum(buf) != digest then (s, Some(ReuseDigestMismatch)) else PutRaw(s, newOffset, buf)
  }

  /** Where a Commit may fail for a reason of its own: reading the staging file back, its
      sync, its close, or the chmod, chtimes and rename that follow. */
  datatype Fault = NoFault | HashFault | SyncFault | CloseFault | RenameFault

  /** Commit. After a failing read or sync the session stays as it was, and another Commit may
      succeed; a failing close leaves it the handle on the old file. */
  function CommitStep(s: Session, files: Files, expected: Digest, modNano: int,
                      fault: Fault): (Session, Files, Option<Error>)
  {
    if s.committed then (s, files, None)
    else if s.staging.None? then (s, files, Some(SessionClosed))
    else if fault.HashFault? then (s, files, Some(Interrupted))
    else if Sum(s.staging.value) != expected then (s, files, Some(DigestMismatch))
    else if fault.SyncFault? then (s, files, Some(Interrupted))
    else if fault.CloseFault? then (s.(staging := None), files, Some(Interrupted))
    else
      var closed := s.(staging := None, prior := None);
      if fault.RenameFault? then (closed, files, Some(Interrupted))
      else (closed.(committed := true), files[s.path := File(s.staging.value, modNano)], None)
  }

  /** A Commit moves the tree exactly when it is the session's first success, and only to the
      staging bytes of the digest asked for; whatever fails before the close, the session is
      as it was and the same Commit, repeated without a fault, goes through. */
  lemma CommitRetries(s: Session, files: Files, expected: Digest, modNano: int, fault: Fault)
    requires !s.committed && s.staging.Some?
    ensures var (t, after, err) := CommitStep(s, files, expected, modNano, fault);
            && (err.None? <==> fault.NoFault? && Sum(s.staging.value) == expected)
            && after == (if err.None? then files[s.path := File(s.staging.value, modNano)] else files)
            && (t.staging.Some? <==> err.Some? && (Sum(s.staging.value) != expected || fault in {HashFault, SyncFault}))
            && (t.staging.Some? ==> t == s)
            && (t.staging.Some? && Sum(s.staging.value) == expected ==>
                  CommitStep(t, after, expected, modNano, NoFault).2.None?)
            && (t.staging.None? && err.Some? ==> forall again: Fault ::
                  CommitStep(t, after, expected, modNano, again) == (t, after, Some(SessionClosed)))
  {}

  function AbortStep(s: Session): Session {
    if s.committed then s else s.(staging := None, prior := None)
  }

  /** Abort of a session that has not committed is final: no write, no reuse and no Commit
      succeeds any more. A committed session it leaves alone. */
  lemma AbortIsFinal(s: Session, files: Files, expected: Digest, modNano: int, fault: Fault)
    ensures s.committed ==> AbortStep(s) == s
    ensures !s.committed ==>
      var t := AbortStep(s);
      && CommitStep(t, files, expected, modNano, fault) == (t, files, Some(SessionClosed))
      && (forall at: uint64, codec: Codec, ulen: int, data: Wire :: WriteStep(t, at, codec, ulen, data).1.Some?)
      && (forall to: uint64, from: uint64, digest: Digest, length: int64 ::
            ReuseStep(t, files, to, from, digest, length).1.Some?)
  {
    hide Decode, ValidateWriteRange, ValidateReuseRange;
  }

  /** An accepted write lies inside the declared session whatever the 64-bit offset: what
      the wrapped check lets through, the file system refuses. */
  lemma WriteAcceptedIff(s: Session, offset: uint64, codec: Codec, ulen: int, data: Wire)
    requires 0 <= s.size
    ensures WriteStep(s, offset, codec, ulen, data).1.None? <==>
      && !s.committed && s.staging.Some?
      && Decode(codec, data, ulen).Some?
      && offset + |Decode(codec, data, ulen).value| <= s.size
  {
    I64Exact(offset);
    var raw := Decode(codec, data, ulen);
    if raw.Some? && |raw.value| < TWO63 { WriteRangeIff(offset, |raw.value|, s.size); }
  }

  lemma ReuseAcceptedIff(s: Session, files: Files, newOffset: uint64, oldOffset: uint64, digest: Digest, length: int64)
    requires 0 <= s.size
    requires s.prior.Some? ==> s.prior.value.size == |s.prior.value.content|
    ensures ReuseStep(s, files, newOffset, oldOffset, digest, length).1.None? <==>
      && !s.committed && s.staging.Some? && s.prior.Some?
      && OldUnchanged(files, s.path, s.prior.value)
      && 0 < length <= Ranges.Chunker.DEFAULT_MAX
      && oldOffset + length <= |s.prior.value.content| && newOffset + length <= s.size
      && Sum(s.prior.value.content[oldOffset..oldOffset + length]) == digest
  {
    I64Exact(newOffset);
    I64Exact(oldOffset);
    WriteRangeIff(newOffset, length, s.size);
    if s.prior.Some? { ReuseRangeIff(oldOffset, length, s.prior.value.size); }
  }

  /** A staging file has its declared length. */
  predicate FullLength(s: Session) {
    s.staging.Some? && 0 <= s.size ==> |s.staging.value| == s.size
  }

  lemma PutRawKeepsLength(s: Session, offset: uint64, raw: Bytes)
    requires FullLength(s)
    requires 0 <= s.size ==> |raw| < TWO63 && ValidateWriteRange(offset, |raw|, s.size).None?
    ensures FullLength(PutRaw(s, offset, raw).0)
  {
    I64Exact(offset);
    if 0 <= s.size { WriteRangeIff(offset, |raw|, s.size); }
  }

  lemma WriteKeepsLength(s: Session, offset: uint64, codec: Codec, ulen: int, data: Wire)
    requires FullLength(s)
    ensures FullLength(WriteStep(s, offset, codec, ulen, data).0)
  {
    hide PutRaw, ValidateWriteRange, Decode, FullLength;
    var raw := Decode(codec, data, ulen);
    if raw.Some? && |raw.value| < TWO63 && ValidateWriteRange(offset, |raw.value|, s.size).None? {
      PutRawKeepsLength(s, offset, raw.value);
    }
  }

  lemma ReuseKeepsLength(s: Session, files: Files, newOffset: uint64, oldOffset: uint64, digest: Digest, length: int64)
    requires FullLength(s)
    ensures FullLength(ReuseStep(s, files, newOffset, oldOffset, digest, length).0)
  {
    hide PutRaw, ValidateWriteRange, ValidateReuseRange, FullLength, I64;
    if s.prior.Some? && 0 <= length && 0 <= I64(oldOffset) && I64(oldOffset) + length <= |s.prior.value.content|
       && ValidateWriteRange(newOffset, length, s.size).None? {
      PutRawKeepsLength(s, newOffset, s.prior.value.content[I64(oldOffset)..I64(oldOffset) + length]);
    }
  }

  /** The tree of a local destination. */
  class Tree {
    var files: Files
  }

  /** The session object: each method performs its function on the fields. */
  class LocalSession {
    const path: Path
    const size: int64
    var staging: Option<Bytes>
    var prior: Option<OldFile>
    var committed: bool

    function View(): Session
      reads this
    {
      Session(path, size, staging, prior, committed)
    }

    constructor (tree: Tree, path: Path, size: int64)
      ensures View() == Begin(tree.files, path, size)
    {
      this.path, this.size, committed := path, size, false;
      staging := Some(if size > 0 then Zeros(size) else []);
      prior := None;
      new;
      if path in tree.files {
        var f := tree.files[path];
        if |f.content| < TWO63 { prior := Some(OldFile(f.content, |f.content|, f.modNano)); }
      }
    }

    method PutAt(offset: uint64, raw: Bytes) returns (err: Option<Error>)
      modifies this`staging
      ensures (View(), err) == PutRaw(old(View()), offset, raw)
    {
      match staging
      case None => return Some(SessionClosed);
      case Some(f) =>
        if I64(offset) < 0 { return Some(NegativeOffset); }
        staging := Some(WriteAt(f, I64(offset), raw));
        return None;
    }

    method WriteChunk(offset: uint64, codec: Codec, uncompressedLen: int, data: Wire) returns (err: Option<Error>)
      modifies this`staging
      ensures (View(), err) == WriteStep(old(View()), offset, codec, uncompressedLen, data)
    {
      if committed { return Some(WriteAfterCommit); }
      var decoded := Decode(codec, data, uncompressedLen);
      if decoded.None? { return Some(DecodeFailed); }
      var raw := decoded.value;
      if |raw| >= TWO63 { return Some(InvalidLength); }
      err := ValidateWriteRange(offset, |raw|, size);
      if err.Some? { return; }
      err := PutAt(offset, raw);
    }

    method ReuseChunk(tree: Tree, newOffset: uint64, oldOffset: uint64, digest: Digest, length: int64)
      returns (err: Option<Error>)
      modifies this`staging
      ensures (View(), err) == ReuseStep(old(View()), tree.files, newOffset, oldOffset, digest, length)
    {
      if committed { return Some(WriteAfterCommit); }
      if prior.None? { return Some(NoOldFile); }
      var o := prior.value;
      if path !in tree.files { return Some(DestChanged); }
      var now := tree.files[path];
      if |now.content| != o.size || now.modNano != o.modNano { return Some(DestChanged); }
      err := ValidateReuseRange(oldOffset, length, o.size);
      if err.Some? { return; }
      err := ValidateWriteRange(newOffset, length, size);
      if err.Some? { return; }
      var at := I64(oldOffset);
      if at < 0 { return Some(NegativeOffset); }
      if at + length > |o.content| { return Some(ShortRead); }
      var buf := o.content[at..at + length];
      if Sum(buf) != digest { return Some(ReuseDigestMismatch); }
      err := PutAt(newOffset, buf);
    }

    method Commit(tree: Tree, expected: Digest, modNano: int, fault: Fault) returns (err: Option<Error>)
      modifies this, tree
      ensures (View(), tree.files, err) == CommitStep(old(View()), old(tree.files), expected, modNano, fault)
    {
      if committed { return None; }
      if staging.None? { return Some(SessionClosed); }
      if fault.HashFault? { return Some(Interrupted); }
      var f := staging.value;
      if Sum(f) != expected { return Some(DigestMismatch); }
      if fault.SyncFault? { return Some(Interrupted); }
      staging := None;
      if fault.CloseFault? { return Some(Interrupted); }
      prior := None;
      if fault.RenameFault? { return Some(Interrupted); }
      tree.files := tree.files[path := File(f, modNano)]; // rename
      committed := true;
      return None;
    }

    method Abort()
      modifies this
      ensures View() == AbortStep(old(View()))
    {
      if committed { return; }
      staging, prior := None, None;
    }
  }
}
