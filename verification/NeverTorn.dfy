/** Any number of write sessions on one tree, interleaved call by call, with crashes. */
module NeverTorn {
  import opened Base
  import opened Ranges
  import opened WriteSession

  /** One call of one session, a crash of every open session, or a removal. A session may
      begin with any old handle: nothing below depends on what it saw. */
  datatype Event =
    | Start(id: nat, path: Path, size: int64, prior: Option<OldFile>)
    | Write(id: nat, offset: uint64, codec: Codec, ulen: int, data: Wire)
    | Reuse(id: nat, newOffset: uint64, oldOffset: uint64, digest: Digest, length: int64)
    | Finish(id: nat, expected: Digest, modNano: int, fault: Fault)
    | Quit(id: nat)
    | Crash
    | Remove(path: Path)

  /** What happened to the destination: a session's rename, or a removal. */
  datatype Change = Renamed(path: Path, file: File, expected: Digest, size: int64) | Removed(path: Path)

  datatype World = World(files: Files, sessions: map<nat, Session>, log: seq<Change>)

  function FileAt(files: Files, path: Path): File {
    if path in files then files[path] else File([], 0)
  }

  function Next(w: World, e: Event): World {
    match e
    case Start(id, path, size, prior) =>
      if id in w.sessions then w // session names are unique
      else w.(sessions := w.sessions[id := Begin(w.files, path, size).(prior := prior)])
    case Crash => w.(sessions := map[])
    case Remove(path) => w.(files := w.files - {path}, log := w.log + [Removed(path)])
    case _ =>
      if e.id !in w.sessions then w
      else
        var s := w.sessions[e.id];
        match e
        case Write(id, offset, codec, ulen, data) =>
          w.(sessions := w.sessions[id := WriteStep(s, offset, codec, ulen, data).0])
        case Reuse(id, newOffset, oldOffset, digest, length) =>
          w.(sessions := w.sessions[id := ReuseStep(s, w.files, newOffset, oldOffset, digest, length).0])
        case Finish(id, expected, modNano, fault) =>
          var (s', files, err) := CommitStep(s, w.files, expected, modNano, fault);
          World(files, w.sessions[id := s'],
                if s'.committed == s.committed then w.log
                else w.log + [Renamed(s.path, FileAt(files, s.path), expected, s.size)])
        case Quit(id) => w.(sessions := w.sessions[id := AbortStep(s)])
  }

  function Run(w: World, events: seq<Event>): World {
    if events == [] then w else Next(Run(w, events[..|events| - 1]), events[|events| - 1])
  }

  /** The tree that the logged changes, and nothing else, produce. */
  function Replay(files: Files, log: seq<Change>): Files {
    if log == [] then files
    else
      var before := Replay(files, log[..|log| - 1]);
      match log[|log| - 1]
      case Renamed(path, file, _, _) => before[path := file]
      case Removed(path) => before - {path}
  }

  /** A rename exposed a whole file: the digest its caller expected, the size it declared. */
  predicate Whole(c: Change) {
    c.Renamed? ==> Sum(c.file.content) == c.expected && (0 <= c.size ==> |c.file.content| == c.size)
  }

  ghost predicate Inv(init: Files, w: World) {
    && w.files == Replay(init, w.log)
    && (forall k :: 0 <= k < |w.log| ==> Whole(w.log[k]))
    && (forall id :: id in w.sessions ==> FullLength(w.sessions[id]))
  }

  /** A call on one session leaves the tree and the log alone. */
  lemma CallKeepsInv(init: Files, w: World, id: nat, s: Session)
    requires Inv(init, w) && FullLength(s)
    ensures Inv(init, w.(sessions := w.sessions[id := s]))
  {
    hide FullLength, Replay;
  }

  lemma ChangeKeepsInv(init: Files, w: World, sessions: map<nat, Session>, files: Files, c: Change)
    requires Inv(init, w) && Whole(c)
    requires forall id :: id in sessions ==> FullLength(sessions[id])
    requires files == if c.Renamed? then w.files[c.path := c.file] else w.files - {c.path}
    ensures Inv(init, World(files, sessions, w.log + [c]))
  {
    hide FullLength, Whole;
    assert (w.log + [c])[..|w.log|] == w.log;
  }

  lemma NextKeepsInv(init: Files, w: World, e: Event)
    requires Inv(init, w)
    ensures Inv(init, Next(w, e))
  {
    hide WriteStep, ReuseStep, Replay;
    match e
    case Start(id, path, size, prior) =>
      if id !in w.sessions { CallKeepsInv(init, w, id, Begin(w.files, path, size).(prior := prior)); }
    case Crash =>
    case Remove(path) => ChangeKeepsInv(init, w, w.sessions, w.files - {path}, Removed(path));
    case Write(id, offset, codec, ulen, data) =>
      if id in w.sessions {
        WriteKeepsLength(w.sessions[id], offset, codec, ulen, data);
        CallKeepsInv(init, w, id, WriteStep(w.sessions[id], offset, codec, ulen, data).0);
      }
    case Reuse(id, newOffset, oldOffset, digest, length) =>
      if id in w.sessions {
        ReuseKeepsLength(w.sessions[id], w.files, newOffset, oldOffset, digest, length);
        CallKeepsInv(init, w, id, ReuseStep(w.sessions[id], w.files, newOffset, oldOffset, digest, length).0);
      }
    case Finish(id, expected, modNano, fault) =>
      if id in w.sessions {
        var s := w.sessions[id];
        var (s', files, err) := CommitStep(s, w.files, expected, modNano, fault);
        if s'.committed == s.committed {
          CallKeepsInv(init, w, id, s');
        } else {
          ChangeKeepsInv(init, w, w.sessions[id := s'], files, Renamed(s.path, files[s.path], expected, s.size));
        }
      }
    case Quit(id) =>
      if id in w.sessions { CallKeepsInv(init, w, id, AbortStep(w.sessions[id])); }
  }

  lemma {:induction false} RunKeepsInv(init: Files, events: seq<Event>)
    ensures Inv(init, Run(World(init, map[], []), events))
  {
    if events != [] {
      RunKeepsInv(init, events[..|events| - 1]);
      NextKeepsInv(init, Run(World(init, map[], []), events[..|events| - 1]), events[|events| - 1]);
    }
  }

  /** The last change to a path, if any. */
  function LastChange(log: seq<Change>, path: Path): Option<Change> {
    if log == [] then None
    else if log[|log| - 1].path == path then Some(log[|log| - 1])
    else LastChange(log[..|log| - 1], path)
  }

  lemma {:induction false} ReplayIsLastChange(init: Files, log: seq<Change>, path: Path)
    ensures var last := LastChange(log, path);
            && (last.None? ==> (path in Replay(init, log) <==> path in init)
                               && (path in init ==> Replay(init, log)[path] == init[path]))
            && (last.Some? ==> last.value in log && last.value.path == path
                               && (path in Replay(init, log) <==> last.value.Renamed?)
                               && (last.value.Renamed? ==> Replay(init, log)[path] == last.value.file))
  {
    if log != [] { ReplayIsLastChange(init, log[..|log| - 1], path); }
  }

  /** In every interleaving, a destination path holds its initial file, untouched, or the
      whole verified file of the last session that renamed onto it. In particular, if that
      caller expected the digest of x, the path holds exactly x. */
  lemma NeverTorn(init: Files, events: seq<Event>, path: Path)
    ensures var w := Run(World(init, map[], []), events);
            var last := LastChange(w.log, path);
            if last.None? then
              (path in w.files <==> path in init) && (path in init ==> w.files[path] == init[path])
            else if last.value.Removed? then path !in w.files
            else
              && path in w.files && w.files[path] == last.value.file
              && Whole(last.value)
              && forall x :: last.value.expected == Sum(x) ==> w.files[path].content == x
  {
    var w := Run(World(init, map[], []), events);
    RunKeepsInv(init, events);
    ReplayIsLastChange(init, w.log, path);
    var last := LastChange(w.log, path);
    if last.Some? {
      var k :| 0 <= k < |w.log| && w.log[k] == last.value;
      if last.value.Renamed? {
        forall x | last.value.expected == Sum(x) ensures w.files[path].content == x {
          SumInjective(x, last.value.file.content);
        }
      }
    }
  }

  /** A call of another session, or a removal. */
  predicate Foreign(e: Event, id: nat) { e.Remove? || (!e.Crash? && e.id != id) }

  lemma {:induction false} RunSplit(w: World, first: seq<Event>, then': seq<Event>)
    ensures Run(w, first + then') == Run(Run(w, first), then')
  {
    hide Next;
    if then' == [] {
      assert first + then' == first;
    } else {
      var init := then'[..|then'| - 1];
      RunSplit(w, first, init);
      assert (first + then')[..|first + then'| - 1] == first + init;
    }
  }

  lemma RunOne(w: World, first: seq<Event>, e: Event)
    ensures Run(w, first + [e]) == Next(Run(w, first), e)
  {
    hide Next;
    assert (first + [e])[..|first|] == first;
  }

  /** Others leave a session as it is. */
  lemma {:induction false} OthersLeave(w: World, id: nat, events: seq<Event>)
    requires id in w.sessions && forall i :: 0 <= i < |events| ==> Foreign(events[i], id)
    ensures id in Run(w, events).sessions && Run(w, events).sessions[id] == w.sessions[id]
  {
    hide WriteStep, ReuseStep, CommitStep, Begin, AbortStep;
    if events != [] { OthersLeave(w, id, events[..|events| - 1]); }
  }

  lemma StartThenWrite(files: Files, path: Path, x: Bytes, prior: Option<OldFile>)
    requires |x| < TWO63
    ensures var s := Begin(files, path, |x|).(prior := prior);
            WriteStep(s, 0, CodecNone, |x|, Plain(x)) == (s.(staging := Some(x)), None)
  {
    var s := Begin(files, path, |x|).(prior := prior);
    WriteRangeIff(0, |x|, |x|);
    I64Exact(0);
    WriteAtInside(s.staging.value, 0, x);
    var r := WriteAt(s.staging.value, 0, x);
    assert r == r[0..|x|];
  }

  /** A session that is left to finish does: after any run, whatever other sessions do in
      between, and the removals, its Commit puts exactly its bytes at its path and changes
      nothing else. */
  lemma SessionFinishes(init: Files, before: seq<Event>, id: nat, path: Path, x: Bytes, prior: Option<OldFile>,
                        first: seq<Event>, second: seq<Event>, modNano: int)
    requires id !in Run(World(init, map[], []), before).sessions && |x| < TWO63
    requires forall i :: 0 <= i < |first| ==> Foreign(first[i], id)
    requires forall i :: 0 <= i < |second| ==> Foreign(second[i], id)
    ensures var begun := before + [Start(id, path, |x|, prior)] + first;
            var filled := begun + [Write(id, 0, CodecNone, |x|, Plain(x))] + second;
            var w := Run(World(init, map[], []), filled);
            var z := Run(World(init, map[], []), filled + [Finish(id, Sum(x), modNano, NoFault)]);
            && z.files == w.files[path := File(x, modNano)]
            && z.log == w.log + [Renamed(path, File(x, modNano), Sum(x), |x|)]
  {
    var at: uint64 := 0;
    hide *;
    var w0 := World(init, map[], []);
    var begun := before + [Start(id, path, |x|, prior)];
    var filled := begun + first + [Write(id, at, CodecNone, |x|, Plain(x))];
    var s := Begin(Run(w0, before).files, path, |x|).(prior := prior);
    RunOne(w0, before, Start(id, path, |x|, prior));
    StartIs(Run(w0, before), id, path, |x|, prior);
    RunSplit(w0, begun, first);
    OthersLeave(Run(w0, begun), id, first);
    RunOne(w0, begun + first, Write(id, at, CodecNone, |x|, Plain(x)));
    StartThenWrite(Run(w0, before).files, path, x, prior);
    WriteIs(Run(w0, begun + first), id, at, CodecNone, |x|, Plain(x));
    RunSplit(w0, filled, second);
    OthersLeave(Run(w0, filled), id, second);
    RunOne(w0, filled + second, Finish(id, Sum(x), modNano, NoFault));
    FinishIs(Run(w0, filled + second), id, x, modNano);
  }

  lemma StartIs(w: World, id: nat, path: Path, size: int64, prior: Option<OldFile>)
    requires id !in w.sessions
    ensures var t := Next(w, Start(id, path, size, prior));
            id in t.sessions && t.sessions[id] == Begin(w.files, path, size).(prior := prior)
    ensures var s := Begin(w.files, path, size); s.path == path && s.size == size && !s.committed
  {}

  lemma WriteIs(w: World, id: nat, offset: uint64, codec: Codec, ulen: int, data: Wire)
    requires id in w.sessions
    ensures var t := Next(w, Write(id, offset, codec, ulen, data));
            id in t.sessions && t.sessions[id] == WriteStep(w.sessions[id], offset, codec, ulen, data).0
  {
    hide WriteStep;
  }

  lemma FinishIs(w: World, id: nat, x: Bytes, modNano: int)
    requires id in w.sessions && !w.sessions[id].committed && w.sessions[id].staging == Some(x)
    ensures var s, t := w.sessions[id], Next(w, Finish(id, Sum(x), modNano, NoFault));
            && t.files == w.files[s.path := File(x, modNano)]
            && t.log == w.log + [Renamed(s.path, File(x, modNano), Sum(x), s.size)]
  {}
}
