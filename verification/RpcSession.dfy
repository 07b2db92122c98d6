/** internal/transport/daemon/quic.go: calls and write sessions of the client, which share one
    stream, one lock and the helper's single session. */
module RpcSession {
  import opened Base
  import opened RpcServer
  import opened RpcClient

  /** The helper's variables, the frames not yet read by the client, and the client's lock. */
  datatype Conn = Conn(server: State, inbox: seq<Reply>, lock: bool)

  /** The fields of clientWrite. */
  datatype WriterView = WriterView(committed: bool, holding: bool)

  /** Send a request, let the helper answer, read one frame. */
  function Round(c: Conn, q: Request): (Conn, Option<Reply>) {
    var (server, replies) := Handle(c.server, q);
    var inbox := c.inbox + replies;
    if inbox == [] then (c.(server := server), None)
    else (c.(server := server, inbox := inbox[1..]), Some(inbox[0]))
  }

  /** A call made under the lock and done with one frame. */
  function CallOn(c: Conn, q: Request): (Conn, Option<Reply>) { Round(c, q) }

  /** BeginWrite keeps the lock exactly when the helper has opened a session. */
  function BeginOn(c: Conn, q: Request): (Conn, bool) {
    var (c', reply) := Round(c, q);
    (c'.(lock := reply == Some(Ok)), reply == Some(Ok))
  }

  /** WriteChunk and ReuseChunk. `sends` is false when the client itself refuses: a frame
      too large, or a peer that cannot reuse. */
  function ChunkOn(w: WriterView, c: Conn, q: Request, sends: bool): (Conn, bool) {
    if w.committed || !sends then (c, false)
    else
      var (c', reply) := Round(c, q);
      (c', reply == Some(Ok))
  }

  function Released(w: WriterView, c: Conn): (WriterView, Conn) {
    if w.holding then (w.(holding := false), c.(lock := false)) else (w, c)
  }

  function CommitOn(w: WriterView, c: Conn, q: Request): (WriterView, Conn, bool) {
    if w.committed then (w, c, true)
    else
      var (c', reply) := Round(c, q);
      if reply != Some(Ok) then (w, c', false)
      else
        var (w', c'') := Released(w.(committed := true), c');
        (w', c'', true)
  }

  function AbortOn(w: WriterView, c: Conn): (WriterView, Conn, bool) {
    if w.committed then (w, c, true)
    else
      var (c', reply) := Round(c, Abort);
      var (w', c'') := Released(w.(committed := true), c');
      (w', c'', reply == Some(Ok))
  }

  ghost function ViewOf(c: Client): Conn
    reads c, c.peer
  {
    Conn(c.peer.View(), c.peer.sent, c.locked)
  }

  method RoundTrip(c: Client, q: Request) returns (reply: Option<Reply>)
    requires c.peer.Valid()
    modifies c.peer, c.peer.out
    ensures c.peer.Valid()
    ensures (ViewOf(c), reply) == Round(old(ViewOf(c)), q)
  {
    hide Handle;
    c.peer.Turn(q);
    reply := c.ReadMsg();
  }

  lemma RoundUnderLock(c: Conn, q: Request, lock: bool)
    ensures Round(c.(lock := lock), q) == (Round(c, q).0.(lock := lock), Round(c, q).1)
  {
    hide Handle;
  }

  /** Walk, Stat, GetSignature, Remove, MkdirAll, RelayNotify and RelayWait: lock, ask, read,
      unlock. */
  method Call(c: Client, q: Request) returns (reply: Option<Reply>)
    requires !c.locked && c.peer.Valid() // Lock has returned
    modifies c, c.peer, c.peer.out
    ensures c.peer.Valid()
    ensures (ViewOf(c), reply) == CallOn(old(ViewOf(c)), q)
  {
    hide Round;
    RoundUnderLock(ViewOf(c), q, true);
    RoundUnderLock(ViewOf(c), q, false);
    c.locked := true;
    reply := RoundTrip(c, q);
    c.locked := false;
  }

  class ClientWrite {
    const c: Client
    var committed: bool
    var holding: bool

    function View(): WriterView
      reads this
    {
      WriterView(committed, holding)
    }

    constructor (c: Client)
      ensures this.c == c && View() == WriterView(false, true)
    {
      this.c, committed, holding := c, false, true;
    }

    method Chunk(q: Request, sends: bool) returns (ok: bool)
      requires c.peer.Valid()
      modifies c.peer, c.peer.out
      ensures c.peer.Valid()
      ensures (ViewOf(c), ok) == ChunkOn(View(), old(ViewOf(c)), q, sends)
    {
      hide Round;
      if committed || !sends { return false; }
      var reply := RoundTrip(c, q);
      ok := reply == Some(Ok);
    }

    method Commit(q: Request) returns (ok: bool)
      requires c.peer.Valid()
      modifies this, c, c.peer, c.peer.out
      ensures c.peer.Valid()
      ensures (View(), ViewOf(c), ok) == CommitOn(old(View()), old(ViewOf(c)), q)
    {
      hide Round;
      if committed { return true; }
      var reply := RoundTrip(c, q);
      if reply != Some(Ok) { return false; }
      committed := true;
      Release();
      return true;
    }

    method Abort() returns (ok: bool)
      requires c.peer.Valid()
      modifies this, c, c.peer, c.peer.out
      ensures c.peer.Valid()
      ensures (View(), ViewOf(c), ok) == AbortOn(old(View()), old(ViewOf(c)))
    {
      hide Round;
      if committed { return true; }
      var reply := RoundTrip(c, Request.Abort);
      committed := true;
      Release();
      ok := reply == Some(Ok);
    }

    method Release()
      modifies this`holding, c`locked
      ensures (View(), ViewOf(c)) == Released(old(View()), old(ViewOf(c)))
    {
      if holding {
        holding := false;
        c.locked := false;
      }
    }
  }

  method BeginWrite(c: Client, q: Request) returns (w: ClientWrite?)
    requires !c.locked && c.peer.Valid() // Lock has returned
    modifies c, c.peer, c.peer.out
    ensures c.peer.Valid()
    ensures (ViewOf(c), w != null) == BeginOn(old(ViewOf(c)), q)
    ensures w != null ==> fresh(w) && w.c == c && w.View() == WriterView(false, true)
  {
    hide Round;
    RoundUnderLock(ViewOf(c), q, true);
    c.locked := true;
    var reply := RoundTrip(c, q);
    if reply != Some(Ok) {
      c.locked := false;
      return null;
    }
    w := new ClientWrite(c);
  }
}
