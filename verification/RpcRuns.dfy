/** Any sequence of client calls on one connection, in any order and failing anywhere on the
    helper: the stream stays in lockstep, and the lock and the helper's session move
    together. */
module RpcRuns {
  import opened Base
  import opened RpcServer
  import opened RpcClient
  import opened RpcSession

  /** The owner of the lock. The mutex itself has no owner; `Inv` ties it to the handles. */
  datatype Owner = Nobody | Reading(id: nat) | Writing(id: nat)

  /** The connection, every reader and write session ever handed out, and for each session
      how often it has released the lock. */
  datatype World = World(conn: Conn, owner: Owner, readers: map<nat, ReaderView>, writers: map<nat, WriterView>,
                         unlocks: map<nat, nat>)

  datatype Event =
    | OneCall(q: Request)
    | Open(id: nat, q: Request)
    | Read(id: nat, cap: nat)
    | Close(id: nat)
    | Begin(id: nat, q: Request)
    | SendChunk(id: nat, q: Request, sends: bool)
    | Finish(id: nat, q: Request)
    | GiveUp(id: nat)

  /** What each client method sends. */
  predicate Proper(e: Event) {
    match e
    case OneCall(q) => q.Simple? || q.Remove? || q.PeerStats? || q.Unsupported?
    case Open(_, q) => q.OpenRead?
    case Begin(_, q) => q.BeginWrite?
    case SendChunk(_, q, _) => q.WriteChunk? || q.ReuseChunk?
    case Finish(_, q) => q.Commit?
    case _ => true
  }

  /** A call that needs the lock waits until nobody owns it. */
  function Next(w: World, e: Event): World {
    match e
    case OneCall(q) => if w.owner != Nobody then w else w.(conn := CallOn(w.conn, q).0)
    case Open(id, q) =>
      if w.owner != Nobody || id in w.readers then w
      else
        var (server, replies) := Handle(w.conn.server, q);
        World(Conn(server, w.conn.inbox + replies, true), Reading(id), w.readers[id := ReaderView([], false, true)],
              w.writers, w.unlocks)
    case Read(id, cap) =>
      if id !in w.readers then w
      else
        var (r, inbox, _) := ReadStep(w.readers[id], w.conn.inbox, cap);
        w.(conn := w.conn.(inbox := inbox), readers := w.readers[id := r])
    case Close(id) => if id !in w.readers then w else CloseStep(w, id)
    case Begin(id, q) =>
      if w.owner != Nobody || id in w.writers then w
      else
        var (c, ok) := BeginOn(w.conn, q);
        if ok then World(c, Writing(id), w.readers, w.writers[id := WriterView(false, true)], w.unlocks[id := 0])
        else w.(conn := c)
    case SendChunk(id, q, sends) =>
      if id !in w.writers then w else w.(conn := ChunkOn(w.writers[id], w.conn, q, sends).0)
    case Finish(id, q) =>
      if id !in w.writers then w
      else
        var (v, c, _) := CommitOn(w.writers[id], w.conn, q);
        WriterStep(w, id, v, c)
    case GiveUp(id) =>
      if id !in w.writers then w
      else
        var (v, c, _) := AbortOn(w.writers[id], w.conn);
        WriterStep(w, id, v, c)
  }

  function CloseStep(w: World, id: nat): World
    requires id in w.readers
  {
    var r := w.readers[id];
    var (r', inbox) := Drain(r, w.conn.inbox);
    World(Conn(w.conn.server, inbox, w.conn.lock && !r.locked), if r.locked then Nobody else w.owner,
          w.readers[id := r'.(locked := false)], w.writers, w.unlocks)
  }

  /** A session's own lock release is counted. */
  function WriterStep(w: World, id: nat, v: WriterView, c: Conn): World
    requires id in w.writers
  {
    var released := w.writers[id].holding && !v.holding;
    var count := if id in w.unlocks then w.unlocks[id] else 0;
    World(c, if released then Nobody else w.owner, w.readers, w.writers[id := v],
          w.unlocks[id := if released then count + 1 else count])
  }

  function Run(w: World, events: seq<Event>): World {
    if events == [] then w else Next(Run(w, events[..|events| - 1]), events[|events| - 1])
  }

  // ---------------------------------------------------------------- the invariant

  ghost predicate ReadersInv(w: World) {
    forall id :: id in w.readers ==>
      && (w.readers[id].locked <==> w.owner == Reading(id))
      && (!w.readers[id].locked ==> w.readers[id].eof)
  }

  ghost predicate WritersInv(w: World) {
    forall id :: id in w.writers ==>
      && (w.writers[id].holding <==> w.owner == Writing(id))
      && (w.writers[id].holding <==> !w.writers[id].committed)
      && id in w.unlocks && w.unlocks[id] == if w.writers[id].holding then 0 else 1
  }

  /** The lock is held exactly while somebody owns it; whoever does not read a stream leaves
      no frame unread; without a writer the helper has no session. */
  ghost predicate ConnInv(w: World) {
    && (w.conn.lock <==> w.owner != Nobody)
    && match w.owner
       case Nobody => w.conn.inbox == [] && w.conn.server.session.None?
       case Reading(id) => id in w.readers && Inside(w.readers[id], w.conn.inbox) && w.conn.server.session.None?
       case Writing(id) => id in w.writers && w.conn.inbox == []
  }

  ghost predicate Inv(w: World) { ReadersInv(w) && WritersInv(w) && ConnInv(w) }

  /** A round on a stream in lockstep leaves it in lockstep. */
  lemma RoundInStep(c: Conn, q: Request)
    requires c.inbox == [] && !q.OpenRead?
    ensures var (c', reply) := Round(c, q);
            && c'.inbox == [] && c'.lock == c.lock && c'.server == Handle(c.server, q).0
            && reply.Some? && [reply.value] == Handle(c.server, q).1
  {
    EveryRequestAnsweredOnce(c.server, q);
    hide Handle;
    assert c.inbox + Handle(c.server, q).1 == Handle(c.server, q).1;
  }

  lemma CallKeepsInv(w: World, q: Request)
    requires Inv(w) && Proper(OneCall(q))
    ensures Inv(Next(w, OneCall(q)))
  {
    if w.owner == Nobody {
      RoundInStep(w.conn, q);
      SessionAfter(w.conn.server, q);
      hide Handle, Round;
    }
  }

  lemma OpenKeepsInv(w: World, id: nat, q: Request)
    requires Inv(w) && Proper(Open(id, q))
    ensures Inv(Next(w, Open(id, q)))
  {
    hide Handle, Inside;
    if w.owner == Nobody && id !in w.readers {
      ReplyIsInside(w.conn.server, q, w.conn.inbox);
      SessionAfter(w.conn.server, q);
    }
  }

  lemma ReplyIsInside(s: State, q: Request, inbox: seq<Reply>)
    requires inbox == [] && q.OpenRead?
    ensures Inside(ReaderView([], false, true), inbox + Handle(s, q).1)
  {
    EveryRequestAnsweredOnce(s, q);
    hide Handle;
    assert inbox + Handle(s, q).1 == Handle(s, q).1;
  }

  lemma ReadKeepsInv(w: World, id: nat, cap: nat)
    requires Inv(w)
    ensures Inv(Next(w, Read(id, cap)))
  {
    if id in w.readers {
      var r := w.readers[id];
      var (r', inbox, got) := ReadStep(r, w.conn.inbox, cap);
      ReadIs(w, id, cap);
      if r.locked { ReadInOrder(r, w.conn.inbox, cap); } else { ClosedReadsNothing(r, w.conn.inbox, cap); }
      hide ReadStep, Remaining, Inside, Next;
      ReaderMoves(w, id, r', inbox);
    }
  }

  lemma ReadIs(w: World, id: nat, cap: nat)
    requires id in w.readers
    ensures var (r, inbox, _) := ReadStep(w.readers[id], w.conn.inbox, cap);
            Next(w, Read(id, cap)) == w.(conn := w.conn.(inbox := inbox), readers := w.readers[id := r])
  {
    hide ReadStep;
  }

  /** A reader that keeps or lacks the lock moves on in its own reply, or touches nothing. */
  lemma ReaderMoves(w: World, id: nat, r: ReaderView, inbox: seq<Reply>)
    requires Inv(w) && id in w.readers && r.locked == w.readers[id].locked
    requires if r.locked then Inside(r, inbox) else inbox == w.conn.inbox && r.eof
    ensures Inv(w.(conn := w.conn.(inbox := inbox), readers := w.readers[id := r]))
  {
    hide Inside;
  }

  /** A reader whose lock is gone is at its end and no longer touches the stream. */
  lemma ClosedReadsNothing(r: ReaderView, inbox: seq<Reply>, cap: nat)
    requires r.eof
    ensures var (r', inbox', _) := ReadStep(r, inbox, cap);
            inbox' == inbox && r'.eof && r'.locked == r.locked
    ensures Drain(r, inbox) == (r, inbox)
  {}

  lemma CloseKeepsInv(w: World, id: nat)
    requires Inv(w)
    ensures Inv(Next(w, Close(id)))
  {
    hide Drain, ReadStep, Inside;
    if id in w.readers {
      var r := w.readers[id];
      if r.locked {
        DrainConsumesReply(r, w.conn.inbox);
        var (r', inbox) := Drain(r, w.conn.inbox);
        NothingUnread(r'.(locked := false), inbox);
      } else {
        ClosedReadsNothing(r, w.conn.inbox, 0);
      }
    }
  }

  lemma NothingUnread(r: ReaderView, inbox: seq<Reply>)
    requires r.eof && inbox == []
    ensures Inside(r, inbox)
  {}

  lemma BeginKeepsInv(w: World, id: nat, q: Request)
    requires Inv(w) && Proper(Begin(id, q))
    ensures Inv(Next(w, Begin(id, q)))
  {
    if w.owner == Nobody && id !in w.writers {
      RoundInStep(w.conn, q);
      SessionAfter(w.conn.server, q);
      hide Handle, Round, Inside;
    }
  }

  lemma ChunkKeepsInv(w: World, id: nat, q: Request, sends: bool)
    requires Inv(w) && Proper(SendChunk(id, q, sends))
    ensures Inv(Next(w, SendChunk(id, q, sends)))
  {
    if id in w.writers && w.owner == Writing(id) {
      RoundInStep(w.conn, q);
      hide Handle, Round;
    }
  }

  /** What ending a session does to the connection, in every case. */
  lemma EndKeepsInv(w: World, id: nat, v: WriterView, c: Conn)
    requires Inv(w) && id in w.writers && w.owner == Writing(id)
    requires c.inbox == [] && v.holding == !v.committed && c.lock == v.holding
    requires v.committed ==> c.server.session.None?
    ensures Inv(WriterStep(w, id, v, c))
  {
  }

  lemma CommitKeepsInv(w: World, id: nat, q: Request)
    requires Inv(w) && Proper(Finish(id, q))
    ensures Inv(Next(w, Finish(id, q)))
  {
    if id in w.writers {
      if w.owner == Writing(id) {
        RoundInStep(w.conn, q);
        SessionAfter(w.conn.server, q);
        var (v, c, ok) := CommitOn(w.writers[id], w.conn, q);
        EndFacts(w, id);
        hide Handle, Round, Inv, WriterStep;
        EndKeepsInv(w, id, v, c);
      } else {
        DoneKeepsInv(w, id);
      }
    }
  }

  lemma AbortKeepsInv(w: World, id: nat)
    requires Inv(w)
    ensures Inv(Next(w, GiveUp(id)))
  {
    if id in w.writers {
      if w.owner == Writing(id) {
        RoundInStep(w.conn, Request.Abort);
        SessionAfter(w.conn.server, Request.Abort);
        var (v, c, ok) := AbortOn(w.writers[id], w.conn);
        EndFacts(w, id);
        hide Handle, Round, Inv, WriterStep;
        EndKeepsInv(w, id, v, c);
      } else {
        DoneKeepsInv(w, id);
      }
    }
  }

  lemma EndFacts(w: World, id: nat)
    requires Inv(w) && w.owner == Writing(id)
    ensures id in w.writers && w.writers[id] == WriterView(false, true) && w.conn.lock
  {}

  /** Commit and Abort of a session that has ended do nothing. */
  lemma DoneKeepsInv(w: World, id: nat)
    requires Inv(w) && id in w.writers && w.owner != Writing(id)
    ensures w.writers[id].committed && Inv(WriterStep(w, id, w.writers[id], w.conn))
  {}

  lemma NextKeepsInv(w: World, e: Event)
    requires Inv(w) && Proper(e)
    ensures Inv(Next(w, e))
  {
    hide Inv, Next, Proper;
    match e
    case OneCall(q) => CallKeepsInv(w, q);
    case Open(id, q) => OpenKeepsInv(w, id, q);
    case Read(id, cap) => ReadKeepsInv(w, id, cap);
    case Close(id) => CloseKeepsInv(w, id);
    case Begin(id, q) => BeginKeepsInv(w, id, q);
    case SendChunk(id, q, sends) => ChunkKeepsInv(w, id, q, sends);
    case Finish(id, q) => CommitKeepsInv(w, id, q);
    case GiveUp(id) => AbortKeepsInv(w, id);
  }

  function Fresh(files: WriteSession.Files): World {
    World(Conn(State(files, None), [], false), Nobody, map[], map[], map[])
  }

  lemma {:induction false} RunKeepsInv(files: WriteSession.Files, events: seq<Event>)
    requires forall i :: 0 <= i < |events| ==> Proper(events[i])
    ensures Inv(Run(Fresh(files), events))
  {
    if events != [] {
      hide Next, Proper, Inv;
      RunKeepsInv(files, events[..|events| - 1]);
      NextKeepsInv(Run(Fresh(files), events[..|events| - 1]), events[|events| - 1]);
    }
  }

  /** Lockstep, and the coupling of lock and session. After any run: when the lock is free no
      reply is unread, so that the byte stream, which carries exactly the unread replies, is
      empty; and the helper has no session, so that the next BeginWrite is not
      refused as "already active"; a session has released the lock exactly once if it has
      ended and never if it has not; and closing or aborting the current owner, whatever the
      helper has already done to its session, frees the lock. */
  lemma Lockstep(files: WriteSession.Files, events: seq<Event>, path: WriteSession.Path, size: int64)
    requires forall i :: 0 <= i < |events| ==> Proper(events[i])
    ensures var w := Run(Fresh(files), events);
            && (!w.conn.lock ==>
                  && w.conn.inbox == [] && w.conn.server.session.None?
                  && (forall s :: Carries(s, w.conn.inbox) ==> s == [])
                  && BeginOn(w.conn, BeginWrite(true, path, size, true)).1)
            && (forall id :: id in w.writers ==>
                id in w.unlocks && w.unlocks[id] == if w.writers[id].committed then 1 else 0)
            && (w.owner.Reading? ==> !Next(w, Close(w.owner.id)).conn.lock)
            && (w.owner.Writing? ==> !Next(w, GiveUp(w.owner.id)).conn.lock)
  {
    var w := Run(Fresh(files), events);
    RunKeepsInv(files, events);
    hide *;
    if !w.conn.lock { FreeMeans(w, path, size); }
    UnlocksCount(w);
    OwnerFrees(w);
  }

  lemma FreeMeans(w: World, path: WriteSession.Path, size: int64)
    requires Inv(w) && !w.conn.lock
    ensures w.conn.inbox == [] && w.conn.server.session.None?
    ensures forall s :: Carries(s, w.conn.inbox) ==> s == []
    ensures BeginOn(w.conn, BeginWrite(true, path, size, true)).1
  {
    RoundInStep(w.conn, BeginWrite(true, path, size, true));
    assert Handle(w.conn.server, BeginWrite(true, path, size, true)).1 == [Ok];
    hide Round, Inside, Handle;
  }

  lemma UnlocksCount(w: World)
    requires Inv(w)
    ensures forall id :: id in w.writers ==>
        id in w.unlocks && w.unlocks[id] == if w.writers[id].committed then 1 else 0
  {
    hide Inside;
  }

  lemma OwnerFrees(w: World)
    requires Inv(w)
    ensures w.owner.Reading? ==> !Next(w, Close(w.owner.id)).conn.lock
    ensures w.owner.Writing? ==> !Next(w, GiveUp(w.owner.id)).conn.lock
  {
    if w.owner.Writing? { EndFacts(w, w.owner.id); }
    hide Inside, Drain, Handle, Round;
  }
}
