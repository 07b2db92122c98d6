/** internal/transport/daemon/quic.go: the client's stream reader. */
module RpcClient {
  import opened Base
  import opened Frames
  import opened RpcServer

  /** The fields of lockedStreamReader. */
  datatype ReaderView = ReaderView(left: Bytes, eof: bool, locked: bool)

  /** What Read returns; `Lost` is an I/O error or a message of an unexpected type. */
  datatype Got = Got(data: Bytes) | Eof | Failed | Lost

  const COPY_BUFFER := 64 * 1024

  function ReadStep(r: ReaderView, inbox: seq<Reply>, cap: nat): (ReaderView, seq<Reply>, Got) {
    if |r.left| > 0 then
      var n := Min(cap, |r.left|);
      (r.(left := r.left[n..]), inbox, Got(r.left[..n]))
    else if r.eof then (r, inbox, Eof)
    else if inbox == [] then (r, inbox, Lost)
    else
      match inbox[0]
      case Ok => (r.(eof := true), inbox[1..], Eof)
      case Err => (r.(eof := true), inbox[1..], Failed)
      case Answer(_) => (r, inbox[1..], Lost)
      case Data(payload) =>
        var n := Min(cap, |payload|);
        (r.(left := payload[n..]), inbox[1..], Got(payload[..n]))
  }

  /** Close reads on until the end of the reply or an error. */
  function Drain(r: ReaderView, inbox: seq<Reply>): (ReaderView, seq<Reply>)
    decreases |inbox|, |r.left|
  {
    if r.eof then (r, inbox)
    else
      var (r', inbox', got) := ReadStep(r, inbox, COPY_BUFFER);
      if !got.Got? then (r', inbox') else Drain(r', inbox')
  }

  /** The connection: its server side and the client's mutex. */
  class Client {
    const peer: Helper
    var locked: bool

    constructor (peer: Helper)
      ensures this.peer == peer && !locked
    {
      this.peer, locked := peer, false;
    }

    /** The next message on the stream, or None for an I/O error. */
    method ReadMsg() returns (r: Option<Reply>)
      requires peer.Valid()
      modifies peer`sent, peer.out
      ensures peer.Valid()
      ensures old(peer.sent) == [] ==> r.None? && peer.sent == []
      ensures old(peer.sent) != [] ==> r == Some(old(peer.sent)[0]) && peer.sent == old(peer.sent)[1..]
    {
      hide Parsed;
      NothingParsed();
      var f := peer.out.ReadMsg();
      if f.None? { return None; }
      r := Some(ReplyOf(f.value));
      peer.sent := peer.sent[1..];
    }
  }

  lemma NothingParsed()
    ensures Parsed([]).None?
  {}

  class LockedStreamReader {
    const c: Client
    var left: Bytes
    var eof: bool
    var locked: bool

    function View(): ReaderView
      reads this
    {
      ReaderView(left, eof, locked)
    }

    constructor (c: Client)
      ensures this.c == c && View() == ReaderView([], false, true)
    {
      this.c, left, eof, locked := c, [], false, true;
    }

    method Read(cap: nat) returns (got: Got)
      requires c.peer.Valid()
      modifies this, c.peer`sent, c.peer.out
      ensures c.peer.Valid()
      ensures (View(), c.peer.sent, got) == ReadStep(old(View()), old(c.peer.sent), cap)
    {
      if |left| > 0 {
        var n := Min(cap, |left|);
        got, left := Got(left[..n]), left[n..];
        return;
      }
      if eof { return Eof; }
      var m := c.ReadMsg();
      if m.None? { return Lost; }
      match m.value {
        case Ok =>
          eof := true;
          return Eof;
        case Err =>
          eof := true;
          return Failed;
        case Answer(_) => return Lost;
        case Data(payload) =>
          var n := Min(cap, |payload|);
          got, left := Got(payload[..n]), payload[n..];
      }
    }

    /** Unlocks the client if this reader still holds it. */
    method Close() returns (failed: bool)
      requires c.peer.Valid()
      modifies this, c.peer`sent, c.peer.out, c`locked
      ensures c.peer.Valid()
      ensures (View().(locked := old(locked)), c.peer.sent) == Drain(old(View()), old(c.peer.sent))
      ensures !locked && c.locked == (old(c.locked) && !old(locked))
    {
      failed := false;
      ghost var r0, inbox0 := View(), c.peer.sent;
      while !eof
        invariant locked == old(locked) && c.locked == old(c.locked) && c.peer.Valid()
        invariant Drain(View(), c.peer.sent) == Drain(r0, inbox0)
        decreases |c.peer.sent|, |left|
      {
        var got := Read(COPY_BUFFER);
        if got.Eof? { break; }
        if !got.Got? {
          failed := true;
          break;
        }
      }
      assert (View(), c.peer.sent) == Drain(r0, inbox0);
      if locked {
        c.locked := false;
        locked := false;
      }
    }
  }

  // ---------------------------------------------------------------- what a reader sees of one reply

  /** The reader stands inside one reply to a read: nothing is unread once it is at the end. */
  ghost predicate Inside(r: ReaderView, inbox: seq<Reply>) {
    if r.eof then inbox == [] else OneReply(inbox) && inbox[|inbox| - 1] in {Ok, Err}
  }

  function Payload(inbox: seq<Reply>): Bytes {
    if inbox == [] then []
    else (if inbox[0].Data? then inbox[0].bytes else []) + Payload(inbox[1..])
  }

  /** The bytes still to come. */
  function Remaining(r: ReaderView, inbox: seq<Reply>): Bytes { r.left + Payload(inbox) }

  /** One Read with any buffer: the reader stays inside the reply, hands out the next bytes
      in order, and reports the end, or a failure, only when nothing is left: the end on an
      OK, the failure on an error. */
  lemma ReadInOrder(r: ReaderView, inbox: seq<Reply>, cap: nat)
    requires Inside(r, inbox)
    ensures var (r', inbox', got) := ReadStep(r, inbox, cap);
            && Inside(r', inbox') && r'.locked == r.locked
            && (got.Got? ==> Remaining(r, inbox) == got.data + Remaining(r', inbox') && |got.data| <= cap)
            && (got.Eof? || got.Failed? ==> r'.eof && Remaining(r, inbox) == [] && Remaining(r', inbox') == [])
            && (got.Failed? ==> inbox == [Err]) && (got.Eof? ==> r.eof || inbox == [Ok])
            && !got.Lost?
            && (got.Got? && 0 < cap ==> |Remaining(r', inbox')| + |inbox'| < |Remaining(r, inbox)| + |inbox|)
  {
    if |r.left| > 0 {
      var n := Min(cap, |r.left|);
      assert r.left + Payload(inbox) == r.left[..n] + (r.left[n..] + Payload(inbox));
    } else if r.eof {
    } else if |inbox| > 1 {
      assert inbox[0].Data?;
      TailOfReply(inbox);
      var payload := inbox[0].bytes;
      var n := Min(cap, |payload|);
      assert payload + Payload(inbox[1..]) == payload[..n] + (payload[n..] + Payload(inbox[1..]));
      assert r.left == [] && r.left + Payload(inbox) == Payload(inbox);
    } else {
      assert inbox[1..] == [] && Payload(inbox) == [];
    }
  }

  lemma TailOfReply(inbox: seq<Reply>)
    requires OneReply(inbox) && |inbox| > 1
    ensures OneReply(inbox[1..]) && inbox[1..][|inbox| - 2] == inbox[|inbox| - 1]
  {}

  /** Any number of Reads with any buffer sizes: what they return, end to end. */
  function ReadMany(r: ReaderView, inbox: seq<Reply>, caps: seq<nat>): (ReaderView, seq<Reply>, Bytes) {
    if caps == [] then (r, inbox, [])
    else
      var (r1, inbox1, so) := ReadMany(r, inbox, caps[..|caps| - 1]);
      var (r2, inbox2, got) := ReadStep(r1, inbox1, caps[|caps| - 1]);
      (r2, inbox2, if got.Got? then so + got.data else so)
  }

  /** The reads return a prefix of the reply's bytes, in order and without loss or repeat;
      once the reader is at the end of the reply and of `left`, they have returned all. */
  lemma {:induction false} ReadManyInOrder(r: ReaderView, inbox: seq<Reply>, caps: seq<nat>)
    requires Inside(r, inbox)
    ensures var (r', inbox', so) := ReadMany(r, inbox, caps);
            && Inside(r', inbox') && r'.locked == r.locked
            && Remaining(r, inbox) == so + Remaining(r', inbox')
            && (r'.eof && r'.left == [] ==> so == Remaining(r, inbox))
  {
    hide *;
    if caps == [] {
      ReadManyNone(r, inbox);
      AtEndNothingLeft(r, inbox);
      assert [] + Remaining(r, inbox) == Remaining(r, inbox);
    } else {
      var init, cap := caps[..|caps| - 1], caps[|caps| - 1];
      ReadManyInOrder(r, inbox, init);
      ReadManyOneMore(r, inbox, caps);
      var (r1, inbox1, so) := ReadMany(r, inbox, init);
      var (r2, inbox2, got) := ReadStep(r1, inbox1, cap);
      ReadInOrder(r1, inbox1, cap);
      AtEndNothingLeft(r2, inbox2);
      if got.Got? { assert so + (got.data + Remaining(r2, inbox2)) == so + got.data + Remaining(r2, inbox2); }
      assert so + [] == so;
    }
  }

  lemma ReadManyNone(r: ReaderView, inbox: seq<Reply>)
    ensures ReadMany(r, inbox, []) == (r, inbox, [])
  {}

  lemma ReadManyOneMore(r: ReaderView, inbox: seq<Reply>, caps: seq<nat>)
    requires caps != []
    ensures var (r1, inbox1, so) := ReadMany(r, inbox, caps[..|caps| - 1]);
            var (r2, inbox2, got) := ReadStep(r1, inbox1, caps[|caps| - 1]);
            ReadMany(r, inbox, caps) == (r2, inbox2, if got.Got? then so + got.data else so)
  {
    hide ReadStep;
  }

  lemma AtEndNothingLeft(r: ReaderView, inbox: seq<Reply>)
    requires Inside(r, inbox)
    ensures r.eof && r.left == [] ==> Remaining(r, inbox) == []
  {}

  /** Close consumes exactly through the terminal frame. */
  lemma {:induction false} DrainConsumesReply(r: ReaderView, inbox: seq<Reply>)
    requires Inside(r, inbox)
    ensures var (r', inbox') := Drain(r, inbox);
            r'.eof && inbox' == [] && r'.locked == r.locked
    decreases |inbox|, |r.left|
  {
    if !r.eof {
      var (r', inbox', got) := ReadStep(r, inbox, COPY_BUFFER);
      ReadInOrder(r, inbox, COPY_BUFFER);
      hide Inside, Remaining, ReadStep;
      DrainStep(r, inbox);
      if got.Got? {
        DrainShrinks(r, inbox);
        DrainConsumesReply(r', inbox');
      } else {
        AtEnd(r', inbox');
      }
    }
  }

  lemma DrainStep(r: ReaderView, inbox: seq<Reply>)
    requires !r.eof
    ensures var (r', inbox', got) := ReadStep(r, inbox, COPY_BUFFER);
            Drain(r, inbox) == if got.Got? then Drain(r', inbox') else (r', inbox')
  {}

  lemma DrainShrinks(r: ReaderView, inbox: seq<Reply>)
    requires !r.eof && ReadStep(r, inbox, COPY_BUFFER).2.Got?
    ensures var (r', inbox', got) := ReadStep(r, inbox, COPY_BUFFER);
            |inbox'| < |inbox| || (|inbox'| == |inbox| && |r'.left| < |r.left|)
  {}

  lemma AtEnd(r: ReaderView, inbox: seq<Reply>)
    requires Inside(r, inbox) && r.eof
    ensures inbox == []
  {}

  function Joined(pieces: seq<Piece>): Bytes {
    if pieces == [] then [] else Joined(pieces[..|pieces| - 1]) + pieces[|pieces| - 1]
  }

  lemma {:induction false} PayloadAppend(a: seq<Reply>, b: seq<Reply>)
    ensures Payload(a + b) == Payload(a) + Payload(b)
  {
    if a == [] {
      assert a + b == b;
    } else {
      assert (a + b)[1..] == a[1..] + b;
      PayloadAppend(a[1..], b);
    }
  }

  lemma {:induction false} PayloadOfPieces(pieces: seq<Piece>)
    ensures Payload(DataFrames(pieces)) == Joined(pieces)
  {
    if pieces != [] {
      var init, last := pieces[..|pieces| - 1], pieces[|pieces| - 1];
      PayloadOfPieces(init);
      PayloadAppend(DataFrames(init), [Data(last)]);
      assert [Data(last)][1..] == [] && Payload([Data(last)]) == last + Payload([]);
    }
  }

  /** End to end: a fresh reader on the server's reply to a read is handed, over any reads up
      to the end, exactly the pieces that the server read from the file. */
  lemma ReaderGetsWhatServerRead(s: State, q: Request, locked: bool, caps: seq<nat>)
    requires q.OpenRead? && q.decodes && q.works
    ensures var inbox := Handle(s, q).1;
            var (r, inbox', so) := ReadMany(ReaderView([], false, locked), inbox, caps);
            && Inside(ReaderView([], false, locked), inbox)
            && so <= Joined(q.pieces)
            && (r.eof && r.left == [] ==> so == Joined(q.pieces))
  {
    var inbox := Handle(s, q).1;
    EveryRequestAnsweredOnce(s, q);
    PayloadOfPieces(q.pieces);
    PayloadAppend(DataFrames(q.pieces), [if q.breaks then Err else Ok]);
    assert [if q.breaks then Err else Ok][1..] == [];
    assert Payload(inbox) == Joined(q.pieces);
    assert Remaining(ReaderView([], false, locked), inbox) == Joined(q.pieces);
    hide ReadMany, Payload, Joined;
    ReadManyInOrder(ReaderView([], false, locked), inbox, caps);
  }
}
