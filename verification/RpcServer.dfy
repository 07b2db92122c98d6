/** internal/transport/daemon/helper.go: the message loop of the remote helper.

    A request carries what the loop cannot know in advance: whether its JSON decodes,
    whether the file system obliges, and what a read yields. */
module RpcServer {
  import opened Base
  import opened Ranges
  import opened WriteSession
  import opened Frames

  datatype Kind = KWalk | KStat | KMkdir | KGetSig | KRelayNotify | KRelayWait

  datatype Request =
    | Simple(kind: Kind, decodes: bool, works: bool)
    | Remove(decodes: bool, path: Path, works: bool)
    | OpenRead(decodes: bool, works: bool, pieces: seq<Piece>, breaks: bool)
    | BeginWrite(decodes: bool, path: Path, size: int64, works: bool)
    | WriteChunk(decodes: bool, offset: uint64, codec: Codec, ulen: int, data: Wire)
    | ReuseChunk(decodes: bool, newOffset: uint64, oldOffset: uint64, digest: Digest, length: int64)
    | Commit(decodes: bool, expected: Digest, modNano: int, fault: Fault)
    | Abort
    | PeerStats
    | Unsupported // TuneOffer, TuneApply and unknown message types

  /** What one read of at most 64 KiB yields. */
  type Piece = b: Bytes | |b| <= 64 * 1024

  /** A message to the client; `Answer` stands for the reply types other than MsgOK. */
  datatype Reply = Data(bytes: Bytes) | Ok | Answer(typ: byte) | Err

  const MSG_READ_DATA: byte := 8
  const MSG_OK: byte := 17
  const MSG_ERR: byte := 18

  /** The message type that answers a request of this kind. */
  function AnswerTo(kind: Kind): Reply {
    match kind
    case KWalk => Answer(4)
    case KStat => Answer(6)
    case KGetSig => Answer(14)
    case KRelayWait => Answer(26)
    case KMkdir => Ok
    case KRelayNotify => Ok
  }

  /** How the client classifies a frame; the JSON of a reply does not matter here. */
  function ReplyOf(f: Frame): Reply {
    if f.typ == MSG_READ_DATA then Data(f.payload)
    else if f.typ == MSG_OK then Ok
    else if f.typ == MSG_ERR then Err
    else Answer(f.typ)
  }

  /** The bytes on the stream are the encoding of exactly these replies. */
  ghost predicate Carries(s: Bytes, rs: seq<Reply>)
    decreases |rs|
  {
    if rs == [] then s == []
    else Parsed(s).Some? && ReplyOf(Parsed(s).value.0) == rs[0] && Carries(Parsed(s).value.1, rs[1..])
  }

  lemma {:induction false} CarriesMore(s: Bytes, rs: seq<Reply>, f: Frame)
    requires Carries(s, rs) && |f.payload| <= MAX_MESSAGE
    ensures Carries(s + Encoded(f), rs + [ReplyOf(f)])
    decreases |rs|
  {
    hide Parsed, Encoded;
    if rs == [] {
      ParsedEncoded(f, []);
      assert s + Encoded(f) == Encoded(f) + [];
      assert [ReplyOf(f)][1..] == [];
    } else {
      CarriesMore(Parsed(s).value.1, rs[1..], f);
      ParsedLonger(s, Encoded(f));
      assert (rs + [ReplyOf(f)])[1..] == rs[1..] + [ReplyOf(f)];
    }
  }

  /** Such bytes are the frames of the replies, end to end and nothing else. */
  lemma {:induction false} CarriesFrames(s: Bytes, rs: seq<Reply>) returns (fs: seq<Frame>)
    requires Carries(s, rs)
    ensures |fs| == |rs| && forall i :: 0 <= i < |fs| ==> |fs[i].payload| <= MAX_MESSAGE && ReplyOf(fs[i]) == rs[i]
    ensures s == EncodedAll(fs)
    decreases |rs|
  {
    hide Parsed, Encoded;
    fs := [];
    if rs != [] {
      var (f, rest) := Parsed(s).value;
      ParsedIsEncoded(s);
      var tail := CarriesFrames(rest, rs[1..]);
      fs := [f] + tail;
      assert fs[1..] == tail;
      forall i | 0 <= i < |fs| ensures |fs[i].payload| <= MAX_MESSAGE && ReplyOf(fs[i]) == rs[i] {
        if i > 0 { assert fs[i] == tail[i - 1] && rs[i] == rs[1..][i - 1]; }
      }
    }
  }

  /** The loop's `session` variable and the destination tree. */
  datatype State = State(files: Files, session: Option<Session>)

  function Handle(s: State, q: Request): (State, seq<Reply>) {
    match q
    case Simple(kind, decodes, works) =>
      (s, [if !decodes || !works then Err else AnswerTo(kind)])
    case Remove(decodes, path, works) =>
      if !decodes || !works then (s, [Err]) else (s.(files := s.files - {path}), [Ok])
    case OpenRead(decodes, works, pieces, breaks) =>
      if !decodes || !works then (s, [Err]) else (s, DataFrames(pieces) + [if breaks then Err else Ok])
    case BeginWrite(decodes, path, size, works) =>
      if !decodes || s.session.Some? || !works then (s, [Err])
      else (s.(session := Some(Begin(s.files, path, size))), [Ok])
    case WriteChunk(decodes, offset, codec, ulen, data) =>
      if s.session.None? || !decodes then (s, [Err])
      else
        var (next, err) := WriteStep(s.session.value, offset, codec, ulen, data);
        if err.Some? then (s.(session := None), [Err]) else (s.(session := Some(next)), [Ok])
    case ReuseChunk(decodes, newOffset, oldOffset, digest, length) =>
      if s.session.None? || !decodes then (s, [Err])
      else if ValidateReuseRange(oldOffset, length, -1).Some? then (s, [Err])
      else if ValidateWriteRange(newOffset, length, -1).Some? then (s, [Err])
      else
        var (next, err) := ReuseStep(s.session.value, s.files, newOffset, oldOffset, digest, length);
        if err.Some? then (s.(session := None), [Err]) else (s.(session := Some(next)), [Ok])
    case Commit(decodes, expected, modNano, fault) =>
      if s.session.None? || !decodes then (s, [Err])
      else
        var (next, files, err) := CommitStep(s.session.value, s.files, expected, modNano, fault);
        (State(files, None), [if err.Some? then Err else Ok])
    case Abort => (s.(session := None), [Ok])
    case PeerStats => (s, [Answer(19)])
    case Unsupported => (s, [Err])
  }

  function DataFrames(pieces: seq<Piece>): seq<Reply> {
    if pieces == [] then [] else DataFrames(pieces[..|pieces| - 1]) + [Data(pieces[|pieces| - 1])]
  }

  /** The loop's variables and its stream. `sent` are the replies on the stream that the
      client has not read. */
  class Helper {
    const out: Stream
    var files: Files
    var session: Option<Session>
    ghost var sent: seq<Reply>

    ghost predicate Valid()
      reads this, out
    {
      Carries(out.bytes, sent)
    }

    constructor (files: Files)
      ensures Valid() && fresh(out) && View() == State(files, None) && sent == []
    {
      this.files, session, sent := files, None, [];
      out := new Stream();
    }

    function View(): State
      reads this
    {
      State(files, session)
    }

    /** One turn of the message loop. */
    method Turn(q: Request)
      requires Valid()
      modifies this, out
      ensures Valid()
      ensures (View(), sent) == (Handle(old(View()), q).0, old(sent) + Handle(old(View()), q).1)
    {
      match q {
        case Simple(kind, decodes, works) =>
          if !decodes || !works { Send(Err); return; }
          Send(AnswerTo(kind));
        case Remove(decodes, path, works) =>
          if !decodes || !works { Send(Err); return; }
          files := files - {path};
          Send(Ok);
        case OpenRead(decodes, works, pieces, breaks) =>
          if !decodes || !works { Send(Err); return; }
          ghost var before := sent;
          SendPieces(pieces);
          assert forall r: Reply :: before + DataFrames(pieces) + [r] == before + (DataFrames(pieces) + [r]);
          if breaks { Send(Err); return; } // no MsgOK after MsgErr
          Send(Ok);
        case BeginWrite(decodes, path, size, works) =>
          if !decodes { Send(Err); return; }
          if session.Some? { Send(Err); return; } // write session already active
          if !works { Send(Err); return; }
          session := Some(Begin(files, path, size));
          Send(Ok);
        case WriteChunk(decodes, offset, codec, ulen, data) =>
          TurnWrite(q);
        case ReuseChunk(decodes, newOffset, oldOffset, digest, length) =>
          TurnReuse(q);
        case Commit(decodes, expected, modNano, fault) =>
          TurnCommit(q);
        case Abort =>
          if session.Some? { session := None; }
          Send(Ok);
        case PeerStats => Send(Answer(19));
        case Unsupported => Send(Err);
      }
    }

    method TurnWrite(q: Request)
      requires q.WriteChunk? && Valid()
      modifies this, out
      ensures Valid()
      ensures (View(), sent) == (Handle(old(View()), q).0, old(sent) + Handle(old(View()), q).1)
    {
      hide WriteStep;
      if session.None? { Send(Err); return; }
      if !q.decodes { Send(Err); return; }
      var (next, err) := WriteStep(session.value, q.offset, q.codec, q.ulen, q.data);
      session := Some(next);
      if err.Some? {
        session := None; // aborted
        Send(Err);
        return;
      }
      Send(Ok);
    }

    method TurnReuse(q: Request)
      requires q.ReuseChunk? && Valid()
      modifies this, out
      ensures Valid()
      ensures (View(), sent) == (Handle(old(View()), q).0, old(sent) + Handle(old(View()), q).1)
    {
      hide ReuseStep, ValidateReuseRange, ValidateWriteRange;
      if session.None? { Send(Err); return; }
      if !q.decodes { Send(Err); return; }
      if ValidateReuseRange(q.oldOffset, q.length, -1).Some? { Send(Err); return; }
      if ValidateWriteRange(q.newOffset, q.length, -1).Some? { Send(Err); return; }
      var (next, err) := ReuseStep(session.value, files, q.newOffset, q.oldOffset, q.digest, q.length);
      session := Some(next);
      if err.Some? {
        session := None; // aborted
        Send(Err);
        return;
      }
      Send(Ok);
    }

    method TurnCommit(q: Request)
      requires q.Commit? && Valid()
      modifies this, out
      ensures Valid()
      ensures (View(), sent) == (Handle(old(View()), q).0, old(sent) + Handle(old(View()), q).1)
    {
      hide CommitStep;
      if session.None? { Send(Err); return; }
      if !q.decodes { Send(Err); return; }
      var (next, after, err) := CommitStep(session.value, files, q.expected, q.modNano, q.fault);
      files := after;
      session := None; // ended, or aborted
      if err.Some? { Send(Err); return; }
      Send(Ok);
    }

    /** WriteMsg or WriteJSON of one reply. */
    method Send(r: Reply)
      requires Valid() && (r.Data? ==> |r.bytes| <= MAX_MESSAGE)
      requires r.Answer? ==> r.typ !in {MSG_READ_DATA, MSG_OK, MSG_ERR}
      modifies this`sent, out
      ensures Valid() && sent == old(sent) + [r]
    {
      hide Carries, Encoded;
      var json: Bytes := *;
      if |json| > MAX_MESSAGE { json := []; }
      var f := match r
        case Data(bytes) => Frame(MSG_READ_DATA, bytes)
        case Ok => Frame(MSG_OK, json)
        case Err => Frame(MSG_ERR, json)
        case Answer(typ) => Frame(typ, json);
      CarriesMore(out.bytes, sent, f);
      var ok := out.WriteMsg(f.typ, f.payload);
      sent := sent + [r];
    }

    method SendPieces(pieces: seq<Piece>)
      requires Valid()
      modifies this`sent, out
      ensures Valid() && sent == old(sent) + DataFrames(pieces)
    {
      hide Carries;
      assert DataFrames(pieces[..0]) == [];
      for i := 0 to |pieces|
        invariant Valid() && sent == old(sent) + DataFrames(pieces[..i])
      {
        assert pieces[..i + 1][..i] == pieces[..i];
        Send(Data(pieces[i]));
      }
      assert pieces[..|pieces|] == pieces;
    }
  }

  /** One reply in full: data frames, then exactly one terminal frame. */
  ghost predicate OneReply(rs: seq<Reply>) {
    && |rs| > 0 && !rs[|rs| - 1].Data?
    && forall i :: 0 <= i < |rs| - 1 ==> rs[i].Data?
  }

  lemma {:induction false} DataFramesAt(pieces: seq<Piece>)
    ensures |DataFrames(pieces)| == |pieces|
    ensures forall i :: 0 <= i < |pieces| ==> DataFrames(pieces)[i] == Data(pieces[i])
  {
    if pieces != [] { DataFramesAt(pieces[..|pieces| - 1]); }
  }

  /** Whatever the request and whatever fails, the client gets data frames followed by
      exactly one terminal frame; data frames come only from a read. */
  lemma EveryRequestAnsweredOnce(s: State, q: Request)
    ensures OneReply(Handle(s, q).1)
    ensures !q.OpenRead? ==> |Handle(s, q).1| == 1
    ensures q.OpenRead? ==> Handle(s, q).1[|Handle(s, q).1| - 1] in {Ok, Err}
    ensures q.Remove? || q.WriteChunk? || q.ReuseChunk? || q.Commit? || q.BeginWrite? || q.Abort? ==>
        Handle(s, q).1 in {[Ok], [Err]}
  {
    hide WriteStep, ReuseStep, CommitStep, ValidateReuseRange, ValidateWriteRange, Begin;
    if q.OpenRead? { DataFramesAt(q.pieces); }
  }

  /** When a request leaves a session open: only BeginWrite opens one, and only if none was
      open; a good chunk, an undecodable request and an early range reject keep it. */
  lemma SessionAfter(s: State, q: Request)
    ensures var (t, rs) := Handle(s, q);
            && (q.BeginWrite? && rs == [Ok] ==> s.session.None? && t.session.Some?)
            && (q.BeginWrite? && rs == [Err] ==> t == s)
            && (t.session.Some? && s.session.None? ==> q.BeginWrite? && rs == [Ok])
            && (q.Commit? && rs == [Ok] ==> t.session.None?)
            && (q.Abort? ==> t.session.None?)
            && (s.session.Some? && t.session.None? ==>
                q.Abort? || q.Commit? || ((q.WriteChunk? || q.ReuseChunk?) && rs == [Err]))
  {
    hide WriteStep, ReuseStep, CommitStep, ValidateReuseRange, ValidateWriteRange, Begin, DataFrames;
  }
}
