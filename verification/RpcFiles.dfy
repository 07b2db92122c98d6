/** internal/transport/daemon: what an OK from the helper means for its files, and a whole file
    written and read over the connection. */
module RpcFiles {
  import opened Base
  import opened Ranges
  import opened WriteSession
  import opened RpcServer
  import opened RpcClient
  import opened RpcSession
  import RpcRuns

  /** What holds of the helper's variables between two requests. */
  ghost predicate Live(s: State) {
    s.session.Some? ==>
      var w := s.session.value;
      && !w.committed && w.staging.Some? && FullLength(w)
      && (w.prior.Some? ==> w.prior.value.size == |w.prior.value.content|)
  }

  /** g is f with data at this offset, grown with zeros if need be. */
  ghost predicate Patched(f: Bytes, at: nat, data: Bytes, g: Bytes) {
    && |g| == (if at + |data| <= |f| then |f| else at + |data|)
    && g[at..at + |data|] == data
    && forall i :: 0 <= i < |g| && !(at <= i < at + |data|) ==> g[i] == if i < |f| then f[i] else 0
  }

  lemma WriteAtPatches(f: Bytes, at: nat, data: Bytes)
    ensures Patched(f, at, data, WriteAt(f, at, data))
  {
    var g := WriteAt(f, at, data);
    if at + |data| <= |f| {
      WriteAtInside(f, at, data);
    } else {
      assert g == (f + Zeros(at + |data| - |f|))[..at] + data;
    }
  }

  /** The session, all else as it was, has these bytes at this offset of its staging file. */
  ghost predicate Wrote(s: State, t: State, at: nat, data: Bytes)
    requires s.session.Some? && s.session.value.staging.Some?
  {
    && t.files == s.files && t.session.Some? && t.session.value.staging.Some?
    && t.session.value == s.session.value.(staging := t.session.value.staging)
    && Patched(s.session.value.staging.value, at, data, t.session.value.staging.value)
  }

  /** A refused chunk costs the session, unless the request itself is at fault. */
  predicate Refused(s: State, t: State, rs: seq<Reply>, decodes: bool) {
    && rs == [Err] && t.files == s.files
    && (t.session == s.session || (s.session.Some? && decodes && t.session.None?))
  }

  // ---------------------------------------------------------------- what the answers mean

  /** The files move only with an OK to a Commit or a Remove. */
  lemma OnlyOkMovesFiles(s: State, q: Request)
    ensures var (t, rs) := Handle(s, q);
            t.files == s.files || ((q.Commit? || q.Remove?) && rs == [Ok])
  {
    hide WriteStep, ReuseStep, ValidateReuseRange, ValidateWriteRange, DataFrames;
  }

  lemma RemoveAnswered(s: State, q: Request)
    requires q.Remove?
    ensures var (t, rs) := Handle(s, q);
            && rs == [if q.decodes && q.works then Ok else Err]
            && t.session == s.session && t.files - {q.path} == s.files - {q.path}
            && (rs == [Ok] ==> q.path !in t.files) && (rs == [Err] ==> t == s)
  {}

  lemma BeginAnswered(s: State, q: Request)
    requires q.BeginWrite?
    ensures var (t, rs) := Handle(s, q);
            && rs == [if q.decodes && q.works && s.session.None? then Ok else Err]
            && t.files == s.files && (rs == [Err] ==> t == s)
            && (rs == [Ok] ==>
                  && t.session.Some? && t.session.value.path == q.path && t.session.value.size == q.size
                  && !t.session.value.committed && t.session.value.staging.Some?
                  && |t.session.value.staging.value| == (if q.size > 0 then q.size else 0)
                  && t.session.value.prior ==
                       if q.path !in s.files || |s.files[q.path].content| >= TWO63 then None
                       else Some(OldFile(s.files[q.path].content, |s.files[q.path].content|, s.files[q.path].modNano)))
  {}

  /** An OK to a chunk: it decodes, lies inside the session, and its bytes are in the staging
      file at its offset. */
  lemma WriteAnswered(s: State, q: Request)
    requires q.WriteChunk? && Live(s)
    ensures var (t, rs) := Handle(s, q);
            var raw := Decode(q.codec, q.data, q.ulen);
            && (s.session.Some? && 0 <= s.session.value.size ==>
                  (rs == [Ok] <==> q.decodes && raw.Some? && q.offset + |raw.value| <= s.session.value.size))
            && (rs == [Ok] ==> s.session.Some? && raw.Some? && Wrote(s, t, q.offset, raw.value))
            && (rs != [Ok] ==> Refused(s, t, rs, q.decodes))
  {
    var (t, rs) := Handle(s, q);
    hide Decode, ValidateWriteRange, WriteAt, Patched;
    if s.session.Some? && q.decodes {
      var w := s.session.value;
      if 0 <= w.size { WriteAcceptedIff(w, q.offset, q.codec, q.ulen, q.data); }
      var raw := Decode(q.codec, q.data, q.ulen);
      if rs == [Ok] {
        I64Exact(q.offset);
        WriteAtPatches(w.staging.value, q.offset, raw.value);
      }
    }
  }

  /** An OK to a reuse: the bytes at this offset of the old file, which have the digest asked
      for, are in the staging file at the new one. */
  lemma ReuseAnswered(s: State, q: Request)
    requires q.ReuseChunk? && Live(s)
    ensures var (t, rs) := Handle(s, q);
            && (s.session.Some? && 0 <= s.session.value.size ==>
                  (rs == [Ok] <==> q.decodes && Reusable(s, q) && q.newOffset + q.length <= s.session.value.size))
            && (rs == [Ok] ==>
                  Reusable(s, q)
                  && Wrote(s, t, q.newOffset, s.session.value.prior.value.content[q.oldOffset..q.oldOffset + q.length]))
            && (rs != [Ok] ==> Refused(s, t, rs, q.decodes))
  {
    var (t, rs) := Handle(s, q);
    if s.session.Some? && q.decodes {
      var w := s.session.value;
      EarlyChecks(q.oldOffset, q.newOffset, q.length);
      if 0 <= w.size { ReuseAcceptedIff(w, s.files, q.newOffset, q.oldOffset, q.digest, q.length); }
      hide WriteAt, Patched, ValidateWriteRange, ValidateReuseRange;
      if rs == [Ok] { ReuseWrites(s, q); }
    }
  }

  /** The old file is as it was at the start and has these bytes there, within the cap. */
  ghost predicate Reusable(s: State, q: Request)
    requires q.ReuseChunk?
  {
    && s.session.Some? && s.session.value.prior.Some?
    && OldUnchanged(s.files, s.session.value.path, s.session.value.prior.value)
    && 0 < q.length <= 262144 && q.oldOffset + q.length <= |s.session.value.prior.value.content|
    && Sum(s.session.value.prior.value.content[q.oldOffset..q.oldOffset + q.length]) == q.digest
  }

  lemma ReuseWrites(s: State, q: Request)
    requires q.ReuseChunk? && Live(s) && Handle(s, q).1 == [Ok]
    ensures Reusable(s, q)
    ensures Wrote(s, Handle(s, q).0, q.newOffset,
                  s.session.value.prior.value.content[q.oldOffset..q.oldOffset + q.length])
  {
    var w := s.session.value;
    I64Exact(q.newOffset);
    I64Exact(q.oldOffset);
    EarlyChecks(q.oldOffset, q.newOffset, q.length);
    hide WriteAt, Patched, ValidateWriteRange, ValidateReuseRange;
    WriteAtPatches(w.staging.value, q.newOffset, w.prior.value.content[q.oldOffset..q.oldOffset + q.length]);
  }

  lemma EarlyChecks(oldOffset: uint64, newOffset: uint64, length: int64)
    ensures ValidateReuseRange(oldOffset, length, -1).None? <==> 0 < length <= 262144
    ensures ValidateWriteRange(newOffset, length, -1).None? <==> 0 <= length
  {}

  /** An OK to a Commit: the staging file, which has the digest asked for, is the file now. */
  lemma CommitAnswered(s: State, q: Request)
    requires q.Commit? && Live(s)
    ensures var (t, rs) := Handle(s, q);
            && (rs == [Ok] <==> s.session.Some? && q.decodes && q.fault.NoFault?
                                && Sum(s.session.value.staging.value) == q.expected)
            && (rs == [Ok] ==>
                  var w := s.session.value;
                  && w.path in t.files && t.files[w.path] == File(w.staging.value, q.modNano)
                  && t.files - {w.path} == s.files - {w.path} && t.session.None?)
            && (rs != [Ok] ==> Refused(s, t, rs, q.decodes))
  {}

  lemma HandleKeepsLive(s: State, q: Request)
    requires Live(s)
    ensures Live(Handle(s, q).0)
  {
    match q
    case WriteChunk(_, offset, codec, ulen, data) =>
      if s.session.Some? {
        WriteKeepsLength(s.session.value, offset, codec, ulen, data);
        hide FullLength, WriteAt, Decode, ValidateWriteRange;
      }
    case ReuseChunk(_, newOffset, oldOffset, digest, length) =>
      if s.session.Some? {
        ReuseKeepsLength(s.session.value, s.files, newOffset, oldOffset, digest, length);
        hide FullLength, WriteAt, ValidateReuseRange, ValidateWriteRange;
      }
    case _ => {}
  }

  /** The other requests move nothing, but for an Abort, which drops the session. */
  lemma OthersAnswered(s: State, q: Request)
    requires !q.Remove? && !q.BeginWrite? && !q.WriteChunk? && !q.ReuseChunk? && !q.Commit?
    ensures var (t, rs) := Handle(s, q);
            && t == (if q.Abort? then State(s.files, None) else s)
            && (q.Abort? ==> rs == [Ok])
            && (q.Simple? ==> (rs != [Err] <==> q.decodes && q.works))
            && (q.OpenRead? && (!q.decodes || !q.works) ==> rs == [Err])
            && (q.OpenRead? && q.decodes && q.works ==>
                  && |rs| == |q.pieces| + 1 && rs[|q.pieces|] == (if q.breaks then Err else Ok)
                  && forall i :: 0 <= i < |q.pieces| ==> rs[i] == Data(q.pieces[i]))
  {
    if q.OpenRead? { DataFramesAt(q.pieces); }
  }

  /** Over any run of client calls on one connection the helper's variables are live. */
  lemma {:induction false} RunKeepsLive(files: Files, events: seq<RpcRuns.Event>)
    ensures Live(RpcRuns.Run(RpcRuns.Fresh(files), events).conn.server)
  {
    hide RpcRuns.Next, Live;
    if events == [] {
      FreshIsLive(files);
    } else {
      RunKeepsLive(files, events[..|events| - 1]);
      NextKeepsLive(RpcRuns.Run(RpcRuns.Fresh(files), events[..|events| - 1]), events[|events| - 1]);
    }
  }

  lemma FreshIsLive(files: Files)
    ensures Live(State(files, None))
  {}

  lemma NextKeepsLive(w: RpcRuns.World, e: RpcRuns.Event)
    requires Live(w.conn.server)
    ensures Live(RpcRuns.Next(w, e).conn.server)
  {
    hide Handle, Live, ReadStep, Drain;
    match e
    case OneCall(q) => HandleKeepsLive(w.conn.server, q);
    case Open(_, q) => HandleKeepsLive(w.conn.server, q);
    case Begin(_, q) => HandleKeepsLive(w.conn.server, q);
    case SendChunk(_, q, _) => HandleKeepsLive(w.conn.server, q);
    case Finish(_, q) => HandleKeepsLive(w.conn.server, q);
    case GiveUp(_) => HandleKeepsLive(w.conn.server, Request.Abort);
    case _ => {}
  }

  /** On an idle stream a call brings the helper's one answer to its own request. */
  lemma CallAnswered(c: Conn, q: Request)
    requires c.inbox == [] && !q.OpenRead?
    ensures var (c', reply) := CallOn(c, q);
            && c' == Conn(Handle(c.server, q).0, [], c.lock)
            && reply.Some? && [reply.value] == Handle(c.server, q).1
  {
    RpcRuns.RoundInStep(c, q);
    hide Handle, Round;
  }

  /** The end of a session that has not ended: an Abort always ends it, a Commit only if it is
      answered OK; then the lock is free, and otherwise all is as it was on the client. A chunk
      that the client itself refuses is not sent. */
  lemma SessionEnds(w: WriterView, c: Conn, q: Request)
    requires w == WriterView(false, true) && c.inbox == [] && c.lock && q.Commit?
    ensures AbortOn(w, c) == (WriterView(true, false), Conn(State(c.server.files, None), [], false), true)
    ensures var (w', c', ok) := CommitOn(w, c, q);
            && c'.inbox == [] && c'.server == Handle(c.server, q).0 && (ok <==> Handle(c.server, q).1 == [Ok])
            && w' == WriterView(ok, !ok) && c'.lock == !ok
    ensures ChunkOn(w, c, q, false) == (c, false)
  {
    RpcRuns.RoundInStep(c, q);
    RpcRuns.RoundInStep(c, Request.Abort);
    OthersAnswered(c.server, Request.Abort);
    hide Handle, Round;
  }

  // ---------------------------------------------------------------- a whole file over the connection

  /** The session's writes in order, until one is refused. */
  function SendChunks(w: WriterView, c: Conn, qs: seq<Request>): (Conn, bool)
    decreases |qs|
  {
    if qs == [] then (c, true)
    else
      var (c', ok) := ChunkOn(w, c, qs[0], true);
      if ok then SendChunks(w, c', qs[1..]) else (c', false)
  }

  /** q brings chunk c of x: its bytes, encoded (what an encoder gives decodes to them or not
      at all), or its digest, to be taken from the old file. */
  ghost predicate Brings(q: Request, c: Chunk, x: Bytes) {
    match q
    case WriteChunk(_, offset, codec, ulen, data) =>
      offset == c.offset && Decode(codec, data, ulen) in {None, Some(DataOf(x, c))}
    case ReuseChunk(_, newOffset, _, digest, length) =>
      newOffset == c.offset && length == c.length && digest == c.digest
    case _ => false
  }

  /** The helper can take it: it decodes, or the old file has the bytes, within the cap. */
  ghost predicate Takes(q: Request, old': Option<Bytes>) {
    match q
    case WriteChunk(decodes, _, codec, ulen, data) => decodes && Decode(codec, data, ulen).Some?
    case ReuseChunk(decodes, _, oldOffset, digest, length) =>
      && decodes && old'.Some? && 0 < length <= 262144 && oldOffset + length <= |old'.value|
      && Sum(old'.value[oldOffset..oldOffset + length]) == digest
    case _ => false
  }

  /** The helper's session for x, filled up to n; the old file is untouched. */
  ghost predicate FilledUpTo(s: State, path: Path, x: Bytes, old': Option<Bytes>, n: nat) {
    && Live(s) && s.session.Some? && s.session.value.path == path && s.session.value.size == |x|
    && |s.session.value.staging.value| == |x| && n <= |x| && s.session.value.staging.value[..n] == x[..n]
    && (s.session.value.prior.Some? <==> old'.Some?)
    && (old'.Some? ==>
          && s.session.value.prior.value.content == old'.value
          && OldUnchanged(s.files, path, s.session.value.prior.value))
  }

  lemma OneChunk(s: State, q: Request, c: Chunk, path: Path, x: Bytes, old': Option<Bytes>)
    requires FilledUpTo(s, path, x, old', c.offset) && ChunkOf(c, x) && Brings(q, c, x)
    ensures Handle(s, q).1 == [Ok] <==> Takes(q, old')
    ensures Handle(s, q).1 == [Ok] ==>
      FilledUpTo(Handle(s, q).0, path, x, old', c.offset + c.length) && Handle(s, q).0.files == s.files
  {
    HandleKeepsLive(s, q);
    hide Handle, FullLength, Decode;
    if q.WriteChunk? {
      WriteAnswered(s, q);
      if Handle(s, q).1 == [Ok] { FillMore(s, Handle(s, q).0, c, path, x, old', DataOf(x, c)); }
    } else {
      ReuseAnswered(s, q);
      if Handle(s, q).1 == [Ok] {
        var data := old'.value[q.oldOffset..q.oldOffset + q.length];
        SumInjective(data, DataOf(x, c));
        FillMore(s, Handle(s, q).0, c, path, x, old', data);
      }
    }
  }

  lemma FillMore(s: State, t: State, c: Chunk, path: Path, x: Bytes, old': Option<Bytes>, data: Bytes)
    requires FilledUpTo(s, path, x, old', c.offset) && ChunkOf(c, x) && data == DataOf(x, c)
    requires Wrote(s, t, c.offset, data) && Live(t)
    ensures FilledUpTo(t, path, x, old', c.offset + c.length)
  {
    hide FullLength;
    var f, g, at := s.session.value.staging.value, t.session.value.staging.value, c.offset;
    forall i | 0 <= i < at + c.length ensures g[i] == x[i] {
      if i < at {
        assert f[..at][i] == x[..at][i];
      } else {
        assert g[at..at + c.length][i - at] == data[i - at];
      }
    }
  }

  lemma {:induction false} ChunksFill(c: Conn, qs: seq<Request>, cs: seq<Chunk>, path: Path, x: Bytes,
                                      old': Option<Bytes>, from: nat)
    requires c.inbox == [] && FilledUpTo(c.server, path, x, old', from) && Tiles(cs, x, from)
    requires |qs| == |cs| && forall i :: 0 <= i < |qs| ==> Brings(qs[i], cs[i], x)
    ensures var (c', ok) := SendChunks(WriterView(false, true), c, qs);
            && (ok <==> forall i :: 0 <= i < |qs| ==> Takes(qs[i], old'))
            && c'.inbox == [] && c'.lock == c.lock && c'.server.files == c.server.files
            && (ok ==> FilledUpTo(c'.server, path, x, old', |x|))
    decreases |qs|
  {
    hide Handle, Round, FilledUpTo, Brings, Takes, ChunkOf;
    if qs != [] {
      OneChunk(c.server, qs[0], cs[0], path, x, old');
      BringsChunk(qs[0], cs[0], x);
      OnlyOkMovesFiles(c.server, qs[0]);
      RpcRuns.RoundInStep(c, qs[0]);
      var c' := Round(c, qs[0]).0;
      FilledFits(c.server, path, x, old', from);
      forall i | 0 <= i < |qs| - 1 ensures Brings(qs[1..][i], cs[1..][i], x) {
        assert qs[1..][i] == qs[i + 1] && cs[1..][i] == cs[i + 1];
      }
      if Handle(c.server, qs[0]).1 == [Ok] {
        ChunksFill(c', qs[1..], cs[1..], path, x, old', from + cs[0].length);
        assert forall i :: 0 < i < |qs| ==> qs[i] == qs[1..][i - 1];
      }
    } else {
      FilledFits(c.server, path, x, old', from);
    }
  }

  lemma BringsChunk(q: Request, c: Chunk, x: Bytes)
    requires Brings(q, c, x)
    ensures q.WriteChunk? || q.ReuseChunk?
  {}

  lemma FilledFits(s: State, path: Path, x: Bytes, old': Option<Bytes>, n: nat)
    requires FilledUpTo(s, path, x, old', n)
    ensures n <= |x|
  {}

  /** A whole write session of the client, up to the first refusal. */
  function PutFile(c: Conn, open: Request, qs: seq<Request>, done: Request): (Conn, bool) {
    var (c1, begun) := BeginOn(c, open);
    if !begun then (c1, false)
    else
      var (c2, sent) := SendChunks(WriterView(false, true), c1, qs);
      if !sent then (c2, false)
      else
        var (_, c3, ok) := CommitOn(WriterView(false, true), c2, done);
        (c3, ok)
  }

  /** The old file that a session on this path can take bytes from. */
  ghost function OldBytes(files: Files, path: Path): Option<Bytes> {
    if path in files && |files[path].content| < TWO63 then Some(files[path].content) else None
  }

  /** A file written over an idle connection in chunks that tile it. The helper answers OK to
      everything exactly when it can take every chunk, nothing fails and the Commit names the
      digest of the file; then its tree has exactly that file, and the connection is idle
      again. Otherwise the tree is as it was. */
  lemma WholeFile(c: Conn, open: Request, qs: seq<Request>, done: Request, cs: seq<Chunk>, x: Bytes)
    requires c.inbox == [] && c.server.session.None?
    requires open.BeginWrite? && open.size == |x| && done.Commit?
    requires Tiles(cs, x, 0) && |qs| == |cs| && forall i :: 0 <= i < |qs| ==> Brings(qs[i], cs[i], x)
    ensures var files := c.server.files;
            var (c', ok) := PutFile(c, open, qs, done);
            && (ok <==>
                && open.decodes && open.works
                && (forall i :: 0 <= i < |qs| ==> Takes(qs[i], OldBytes(files, open.path)))
                && done.decodes && done.fault.NoFault? && done.expected == Sum(x))
            && (ok ==>
                  && open.path in c'.server.files && c'.server.files[open.path] == File(x, done.modNano)
                  && c'.server.files - {open.path} == files - {open.path}
                  && c'.server.session.None? && c'.inbox == [] && !c'.lock)
            && (!ok ==> c'.server.files == files)
  {
    BeginAnswered(c.server, open);
    RpcRuns.RoundInStep(c, open);
    var (c1, begun) := BeginOn(c, open);
    hide Handle, FilledUpTo, Brings, Takes, Tiles, SendChunks, OldBytes;
    if begun {
      BeginFills(c.server, open, x);
      hide Round;
      var old' := OldBytes(c.server.files, open.path);
      ChunksFill(c1, qs, cs, open.path, x, old', 0);
      var (c2, sent) := SendChunks(WriterView(false, true), c1, qs);
      if sent {
        RpcRuns.RoundInStep(c2, done);
        CommitFilled(c2.server, done, open.path, x, old');
      }
    }
  }

  lemma BeginFills(s: State, open: Request, x: Bytes)
    requires open.BeginWrite? && open.size == |x| && Handle(s, open).1 == [Ok]
    ensures FilledUpTo(Handle(s, open).0, open.path, x, OldBytes(s.files, open.path), 0)
  {
    BeginAnswered(s, open);
  }

  lemma CommitFilled(s: State, done: Request, path: Path, x: Bytes, old': Option<Bytes>)
    requires done.Commit? && FilledUpTo(s, path, x, old', |x|)
    ensures var (t, rs) := Handle(s, done);
            && (rs == [Ok] <==> done.decodes && done.fault.NoFault? && done.expected == Sum(x))
            && (rs == [Ok] ==>
                  && path in t.files && t.files[path] == File(x, done.modNano)
                  && t.files - {path} == s.files - {path} && t.session.None?)
            && (rs != [Ok] ==> t.files == s.files)
  {
    CommitAnswered(s, done);
    var f := s.session.value.staging.value;
    assert f == f[..|x|] && x == x[..|x|];
    hide Handle, FullLength, OldUnchanged;
  }

  // ---------------------------------------------------------------- such a write is a run

  function Sends(id: nat, qs: seq<Request>): seq<RpcRuns.Event> {
    if qs == [] then [] else [RpcRuns.SendChunk(id, qs[0], true)] + Sends(id, qs[1..])
  }

  lemma {:induction false} RunSplit(w: RpcRuns.World, first: seq<RpcRuns.Event>, then': seq<RpcRuns.Event>)
    ensures RpcRuns.Run(w, first + then') == RpcRuns.Run(RpcRuns.Run(w, first), then')
  {
    hide RpcRuns.Next;
    if then' == [] {
      assert first + then' == first;
    } else {
      var init := then'[..|then'| - 1];
      RunSplit(w, first, init);
      assert (first + then')[..|first + then'| - 1] == first + init;
    }
  }

  lemma RunOne(w: RpcRuns.World, e: RpcRuns.Event)
    ensures RpcRuns.Run(w, [e]) == RpcRuns.Next(w, e)
  {
    hide RpcRuns.Next;
    assert [e][..0] == [];
  }

  lemma {:induction false} RunSends(w: RpcRuns.World, id: nat, qs: seq<Request>)
    requires id in w.writers && w.writers[id] == WriterView(false, true)
    requires SendChunks(WriterView(false, true), w.conn, qs).1
    ensures RpcRuns.Run(w, Sends(id, qs)) == w.(conn := SendChunks(WriterView(false, true), w.conn, qs).0)
    decreases |qs|
  {
    hide ChunkOn;
    if qs != [] {
      var e := RpcRuns.SendChunk(id, qs[0], true);
      RunSplit(w, [e], Sends(id, qs[1..]));
      RunOne(w, e);
      hide RpcRuns.Run;
      RunSends(RpcRuns.Next(w, e), id, qs[1..]);
    }
  }

  /** The whole write is a run of the client's calls on a free connection: it ends as told, the
      lock released once. */
  lemma RunPutsFile(w: RpcRuns.World, id: nat, open: Request, qs: seq<Request>, done: Request)
    requires w.owner == RpcRuns.Nobody && id !in w.writers && PutFile(w.conn, open, qs, done).1
    ensures var z := RpcRuns.Run(w, [RpcRuns.Begin(id, open)] + Sends(id, qs) + [RpcRuns.Finish(id, done)]);
            && z.conn == PutFile(w.conn, open, qs, done).0 && z.owner == RpcRuns.Nobody
            && z.writers == w.writers[id := WriterView(true, false)] && z.unlocks == w.unlocks[id := 1]
            && z.readers == w.readers
  {
    hide *;
    var begin, finish := RpcRuns.Begin(id, open), RpcRuns.Finish(id, done);
    PutFileIs(w.conn, open, qs, done);
    RunOne(w, begin);
    var a := RpcRuns.Next(w, begin);
    BeginIs(w, id, open);
    RunSplit(w, [begin], Sends(id, qs));
    RunSends(a, id, qs);
    var b := RpcRuns.Run(w, [begin] + Sends(id, qs));
    RunSplit(w, [begin] + Sends(id, qs), [finish]);
    RunOne(b, finish);
    FinishIs(b, id, done);
    assert b.writers[id := WriterView(true, false)] == w.writers[id := WriterView(true, false)];
    assert b.unlocks[id := 1] == w.unlocks[id := 1];
  }

  lemma PutFileIs(c: Conn, open: Request, qs: seq<Request>, done: Request)
    requires PutFile(c, open, qs, done).1
    ensures var (c1, begun) := BeginOn(c, open);
            var (c2, sent) := SendChunks(WriterView(false, true), c1, qs);
            begun && sent && PutFile(c, open, qs, done).0 == CommitOn(WriterView(false, true), c2, done).1
            && CommitOn(WriterView(false, true), c2, done).2
  {
    hide BeginOn, SendChunks, CommitOn;
  }

  lemma BeginIs(w: RpcRuns.World, id: nat, open: Request)
    requires w.owner == RpcRuns.Nobody && id !in w.writers && BeginOn(w.conn, open).1
    ensures RpcRuns.Next(w, RpcRuns.Begin(id, open)) ==
            RpcRuns.World(BeginOn(w.conn, open).0, RpcRuns.Writing(id), w.readers,
                          w.writers[id := WriterView(false, true)], w.unlocks[id := 0])
  {
    hide BeginOn;
  }

  lemma FinishIs(w: RpcRuns.World, id: nat, done: Request)
    requires id in w.writers && w.writers[id] == WriterView(false, true) && id in w.unlocks && w.unlocks[id] == 0
    requires CommitOn(w.writers[id], w.conn, done).2
    ensures RpcRuns.Next(w, RpcRuns.Finish(id, done)) ==
            RpcRuns.World(CommitOn(w.writers[id], w.conn, done).1, RpcRuns.Nobody, w.readers,
                          w.writers[id := WriterView(true, false)], w.unlocks[id := 1])
  {
    hide Round;
  }

  // ---------------------------------------------------------------- and so is a read

  function Reads(id: nat, caps: seq<nat>): seq<RpcRuns.Event> {
    if caps == [] then [] else Reads(id, caps[..|caps| - 1]) + [RpcRuns.Read(id, caps[|caps| - 1])]
  }

  lemma {:induction false} RunReads(w: RpcRuns.World, id: nat, caps: seq<nat>)
    requires id in w.readers
    ensures var (r, inbox, _) := ReadMany(w.readers[id], w.conn.inbox, caps);
            RpcRuns.Run(w, Reads(id, caps)) ==
            w.(conn := w.conn.(inbox := inbox), readers := w.readers[id := r])
  {
    hide *;
    ReadsAre(id, caps);
    if caps == [] {
      RunNone(w);
      ReadManyNone(w.readers[id], w.conn.inbox);
      assert w.readers == w.readers[id := w.readers[id]];
    } else {
      var init, cap := caps[..|caps| - 1], caps[|caps| - 1];
      RunReads(w, id, init);
      RunSplit(w, Reads(id, init), [RpcRuns.Read(id, cap)]);
      var a := RpcRuns.Run(w, Reads(id, init));
      RunOne(a, RpcRuns.Read(id, cap));
      RpcRuns.ReadIs(a, id, cap);
      ReadManyOneMore(w.readers[id], w.conn.inbox, caps);
    }
  }

  lemma ReadsAre(id: nat, caps: seq<nat>)
    ensures caps == [] ==> Reads(id, caps) == []
    ensures caps != [] ==> Reads(id, caps) == Reads(id, caps[..|caps| - 1]) + [RpcRuns.Read(id, caps[|caps| - 1])]
  {}

  lemma RunNone(w: RpcRuns.World)
    ensures RpcRuns.Run(w, []) == w
  {}

  /** Opening a file on a free connection and reading on, with buffers of any size, hands out
      what the helper reads, in order, and all of it once the reader is at the end; then, on
      Close, the connection is idle again. */
  lemma RunReadsFile(w: RpcRuns.World, id: nat, q: Request, caps: seq<nat>)
    requires RpcRuns.Inv(w) && w.owner == RpcRuns.Nobody && id !in w.readers
    requires q.OpenRead? && q.decodes && q.works
    ensures var z := RpcRuns.Run(w, [RpcRuns.Open(id, q)] + Reads(id, caps));
            var (r, inbox, so) := ReadMany(ReaderView([], false, true), Handle(w.conn.server, q).1, caps);
            && z.readers == w.readers[id := r] && z.conn == Conn(w.conn.server, inbox, true)
            && so <= Joined(q.pieces) && (r.eof && r.left == [] ==> so == Joined(q.pieces))
            && RpcRuns.Next(z, RpcRuns.Close(id)).conn == Conn(w.conn.server, [], false)
  {
    hide *;
    var open, start := RpcRuns.Open(id, q), ReaderView([], false, true);
    OpenIs(w, id, q);
    RunOne(w, open);
    var a := RpcRuns.Next(w, open);
    RunSplit(w, [open], Reads(id, caps));
    RunReads(a, id, caps);
    ReaderGetsWhatServerRead(w.conn.server, q, true, caps);
    var (r, inbox, so) := ReadMany(start, Handle(w.conn.server, q).1, caps);
    ReadManyInOrder(start, Handle(w.conn.server, q).1, caps);
    DrainConsumesReply(r, inbox);
    var z := RpcRuns.Run(w, [open] + Reads(id, caps));
    assert w.readers[id := start][id := r] == w.readers[id := r];
    CloseIs(z, id);
  }

  lemma OpenIs(w: RpcRuns.World, id: nat, q: Request)
    requires RpcRuns.Inv(w) && w.owner == RpcRuns.Nobody && id !in w.readers && q.OpenRead?
    ensures RpcRuns.Next(w, RpcRuns.Open(id, q)) ==
            RpcRuns.World(Conn(w.conn.server, Handle(w.conn.server, q).1, true), RpcRuns.Reading(id),
                          w.readers[id := ReaderView([], false, true)], w.writers, w.unlocks)
  {
    OthersAnswered(w.conn.server, q);
    hide Handle, Inside;
    assert w.conn.inbox + Handle(w.conn.server, q).1 == Handle(w.conn.server, q).1;
  }

  lemma CloseIs(w: RpcRuns.World, id: nat)
    requires id in w.readers
    ensures RpcRuns.Next(w, RpcRuns.Close(id)).conn ==
            Conn(w.conn.server, Drain(w.readers[id], w.conn.inbox).1, w.conn.lock && !w.readers[id].locked)
  {
    hide Drain;
  }
}
