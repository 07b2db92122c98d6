/** Any number of senders and receivers on one relay job, interleaved one store access at a
    time. Every put is one step; a crash can fall between any two steps. */
module RelayRuns {
  import opened Base
  import opened Chunker
  import opened RelayManifest
  import opened RelayPublish

  /** A file that a sender has open: its bytes, and how many chunks are already handled. */
  datatype Work = Work(file: SourceFile, x: Bytes, next: nat)

  /** The local variables of one Send. */
  datatype Sender = Sender(avg: uint32, gear: GearTable, uploaded: set<Digest>, done: seq<ManifestFile>,
                           work: Option<Work>, published: bool)

  /** `receivers` maps each running Recv to the manifest it has read. */
  datatype World = World(store: Store, senders: map<nat, Sender>, receivers: map<nat, Manifest>)

  datatype Event =
    | Begin(id: nat, avg: uint32, gear: GearTable, expires: int) // Send: first lease
    | Renew(id: nat, expires: int)
    | Open(id: nat, file: SourceFile)
    | PutChunk(id: nat, statFails: bool)
    | Close(id: nat)
    | Publish(id: nat, job: string, size: nat)
    | Notify(id: nat)
    | Crash(id: nat)
    | Read(id: nat) // Recv: the manifest
    | Ack(id: nat)
    | Leave(id: nat)

  function P(s: Sender): Params { ParamsOf(Options(s.avg, 0, 0), s.gear) }

  function PiecesOf(s: Sender, x: Bytes): seq<Chunk> {
    if P(s).max == 0 then [] else Chunks(P(s), x, 0)
  }

  function SetSender(w: World, id: nat, s: Sender): World { w.(senders := w.senders[id := s]) }

  function Drop(w: World, id: nat): World { w.(senders := w.senders - {id}) }

  /** A sender with an unhandled chunk. */
  predicate Busy(s: Sender) { s.work.Some? && s.work.value.next < |PiecesOf(s, s.work.value.x)| }

  function Advanced(s: Sender, uploaded: set<Digest>): Sender
    requires s.work.Some?
  {
    s.(uploaded := uploaded, work := Some(s.work.value.(next := s.work.value.next + 1)))
  }

  function Next(w: World, e: Event): World {
    match e
    case Begin(id, avg, gear, expires) =>
      if id in w.senders then w
      else World(w.store.(lease := Some(Lease(Some(expires)))),
                 w.senders[id := Sender(avg, gear, {}, [], None, false)], w.receivers)
    case Read(id) =>
      if w.store.manifest.None? || w.store.manifest.value.decoded.None? || w.store.manifest.value.size > MAX_JSON then w
      else w.(receivers := w.receivers[id := w.store.manifest.value.decoded.value])
    case Ack(id) =>
      if id !in w.receivers then w
      else w.(store := w.store.(ack := Some(|w.receivers[id].files|)), receivers := w.receivers - {id})
    case Leave(id) => w.(receivers := w.receivers - {id})
    case _ => if e.id in w.senders then SenderStep(w, w.senders[e.id], e) else w
  }

  function SenderStep(w: World, s: Sender, e: Event): World
    requires !(e.Begin? || e.Read? || e.Ack? || e.Leave?)
  {
    match e
    case Renew(id, expires) => w.(store := w.store.(lease := Some(Lease(Some(expires)))))
    case Open(id, file) =>
      if s.work.Some? || s.published then w
      // A failing open ends the Send; no chunk ever comes out of a zero-sized buffer.
      else if file.read.None? || |file.read.value| >= TWO63 || P(s).max == 0 then Drop(w, id)
      else SetSender(w, id, s.(work := Some(Work(file, file.read.value, 0))))
    case PutChunk(id, statFails) =>
      if !Busy(s) then w
      else
        var c := PiecesOf(s, s.work.value.x)[s.work.value.next];
        var (objects, uploaded) := Upload(w.store.objects, s.uploaded, c.digest, DataOf(s.work.value.x, c), statFails);
        SetSender(w.(store := w.store.(objects := objects)), id, Advanced(s, uploaded))
    case Close(id) =>
      if s.work.None? || s.work.value.next < |PiecesOf(s, s.work.value.x)| || P(s).max == 0 then w
      else if !HintHolds(s.work.value.file, s.work.value.x) then Drop(w, id)
      else SetSender(w, id, s.(done := s.done + [EntryOf(s.work.value.file, P(s), s.work.value.x)], work := None))
    case Publish(id, job, size) =>
      if s.work.Some? || s.published then w
      else
        var blob := Blob(Some(Manifest(SCHEMA, job, s.done)), size);
        SetSender(w.(store := w.store.(manifest := Some(blob))), id, s.(published := true))
    case Notify(id) => if s.published then w.(store := w.store.(notify := true)) else w
    case Crash(id) => Drop(w, id)
  }

  function Run(w: World, events: seq<Event>): World {
    if events == [] then w else Next(Run(w, events[..|events| - 1]), events[|events| - 1])
  }

  const EMPTY := Store(map[], None, None, false, None)

  // ---------------------------------------------------------------- the invariant

  /** What a sender knows is true of the store. */
  ghost predicate SenderInv(s: Sender, objects: map<Digest, Bytes>) {
    && Known(s.uploaded, objects)
    && AllBacked(s.done, objects)
    && (s.work.Some? ==>
          && P(s).max > 0 && |s.work.value.x| < TWO63
          && s.work.value.next <= |PiecesOf(s, s.work.value.x)|
          && Stored(PiecesOf(s, s.work.value.x), s.work.value.next, objects))
  }

  /** The manifest, if visible, decodes and is backed. */
  ghost predicate ManifestInv(m: Option<Blob>, objects: map<Digest, Bytes>) {
    m.Some? ==> m.value.decoded.Some? && AllBacked(m.value.decoded.value.files, objects)
  }

  ghost predicate SendersInv(senders: map<nat, Sender>, objects: map<Digest, Bytes>) {
    forall id :: id in senders ==> SenderInv(senders[id], objects)
  }

  ghost predicate ReceiversInv(receivers: map<nat, Manifest>, objects: map<Digest, Bytes>) {
    forall id :: id in receivers ==> AllBacked(receivers[id].files, objects)
  }

  /** The markers appear in order: lease, then manifest, then notify and ack. */
  ghost predicate Ordered(w: World) {
    && (w.senders != map[] || w.store.manifest.Some? ==> w.store.lease.Some?)
    && (w.store.notify || w.store.ack.Some? || w.receivers != map[] ==> w.store.manifest.Some?)
    && (forall id :: id in w.senders && w.senders[id].published ==> w.store.manifest.Some?)
  }

  ghost predicate Inv(w: World) {
    && Addressed(w.store.objects)
    && ManifestInv(w.store.manifest, w.store.objects)
    && SendersInv(w.senders, w.store.objects)
    && ReceiversInv(w.receivers, w.store.objects)
    && Ordered(w)
  }

  lemma SenderGrows(s: Sender, before: map<Digest, Bytes>, after: map<Digest, Bytes>)
    requires SenderInv(s, before) && Grown(before, after)
    ensures SenderInv(s, after)
  {
    hide AllBacked, PiecesOf;
    AllBackedGrows(s.done, before, after);
  }

  /** New objects disturb nobody. */
  lemma InvGrows(w: World, objects: map<Digest, Bytes>)
    requires Inv(w) && Addressed(objects) && Grown(w.store.objects, objects)
    ensures Inv(w.(store := w.store.(objects := objects)))
  {
    hide AllBacked, SenderInv, Addressed, Grown;
    var before := w.store.objects;
    if w.store.manifest.Some? { AllBackedGrows(w.store.manifest.value.decoded.value.files, before, objects); }
    forall id | id in w.senders ensures SenderInv(w.senders[id], objects) {
      SenderGrows(w.senders[id], before, objects);
    }
    forall id | id in w.receivers ensures AllBacked(w.receivers[id].files, objects) {
      AllBackedGrows(w.receivers[id].files, before, objects);
    }
  }

  lemma SetKeepsInv(w: World, id: nat, s: Sender)
    requires Inv(w) && id in w.senders && SenderInv(s, w.store.objects)
    requires s.published ==> w.store.manifest.Some?
    ensures Inv(SetSender(w, id, s)) && SetSender(w, id, s).store == w.store
  {
    hide AllBacked, SenderInv, Addressed, ManifestInv, ReceiversInv;
  }

  lemma DropKeepsInv(w: World, id: nat)
    requires Inv(w)
    ensures Inv(Drop(w, id))
  {
    hide AllBacked, SenderInv, Addressed, ManifestInv, ReceiversInv;
  }

  lemma PutChunkSender(s: Sender, cs: seq<Chunk>, objects: map<Digest, Bytes>, after: map<Digest, Bytes>,
                       uploaded: set<Digest>)
    requires SenderInv(s, objects) && Grown(objects, after)
    requires s.work.Some? && cs == PiecesOf(s, s.work.value.x) && s.work.value.next < |cs|
    requires cs[s.work.value.next].digest in after && Known(uploaded, after)
    ensures SenderInv(Advanced(s, uploaded), after)
  {
    hide PiecesOf, AllBacked, Grown, Stored;
    StoredGrows(cs, s.work.value.next, objects, after);
    AllBackedGrows(s.done, objects, after);
    SamePieces(s, Advanced(s, uploaded), s.work.value.x);
  }

  lemma SamePieces(s: Sender, t: Sender, x: Bytes)
    requires s.avg == t.avg && s.gear == t.gear
    ensures PiecesOf(s, x) == PiecesOf(t, x) && P(s) == P(t)
  {
    hide Chunks;
  }

  lemma PutChunkNext(w: World, id: nat, statFails: bool)
    requires id in w.senders
    ensures var s := w.senders[id];
            if !Busy(s) then Next(w, PutChunk(id, statFails)) == w
            else
              var c := PiecesOf(s, s.work.value.x)[s.work.value.next];
              var (objects, uploaded) := Upload(w.store.objects, s.uploaded, c.digest, DataOf(s.work.value.x, c),
                                                statFails);
              Next(w, PutChunk(id, statFails)) ==
              SetSender(w.(store := w.store.(objects := objects)), id, Advanced(s, uploaded))
  {
    hide PiecesOf, Upload, SetSender, DataOf;
  }

  lemma PutChunkKeepsInv(w: World, id: nat, statFails: bool)
    requires Inv(w) && id in w.senders
    ensures Inv(Next(w, PutChunk(id, statFails)))
    ensures Grown(w.store.objects, Next(w, PutChunk(id, statFails)).store.objects)
  {
    hide *;
    var s := w.senders[id];
    PutChunkNext(w, id, statFails);
    GrownSame(w.store.objects);
    if Busy(s) {
      BusyHas(s);
      var c := PiecesOf(s, s.work.value.x)[s.work.value.next];
      var (objects, uploaded) := Upload(w.store.objects, s.uploaded, c.digest, DataOf(s.work.value.x, c), statFails);
      SenderOf(w, id);
      UploadedAreStored(s, w.store.objects);
      PieceIsData(s, s.work.value.x, s.work.value.next);
      UploadKeeps(w.store.objects, s.uploaded, c.digest, DataOf(s.work.value.x, c), statFails);
      InvGrows(w, objects);
      PutChunkSender(s, PiecesOf(s, s.work.value.x), w.store.objects, objects, uploaded);
      AdvancedIs(s, uploaded);
      SetKeepsInv(w.(store := w.store.(objects := objects)), id, Advanced(s, uploaded));
    }
  }

  lemma GrownSame(objects: map<Digest, Bytes>)
    ensures Grown(objects, objects)
  {}

  lemma BusyHas(s: Sender)
    requires Busy(s)
    ensures s.work.Some? && s.work.value.next < |PiecesOf(s, s.work.value.x)|
  {}

  lemma AdvancedIs(s: Sender, uploaded: set<Digest>)
    requires s.work.Some?
    ensures Advanced(s, uploaded).published == s.published
  {}

  lemma UploadedAreStored(s: Sender, objects: map<Digest, Bytes>)
    requires SenderInv(s, objects)
    ensures Known(s.uploaded, objects)
  {}

  lemma SenderOf(w: World, id: nat)
    requires Inv(w) && id in w.senders
    ensures SenderInv(w.senders[id], w.store.objects) && Addressed(w.store.objects)
    ensures w.senders[id].published ==> w.store.manifest.Some?
  {
    hide SenderInv, Addressed;
  }

  lemma PieceIsData(s: Sender, x: Bytes, k: nat)
    requires k < |PiecesOf(s, x)|
    ensures PiecesOf(s, x)[k].digest == Sum(DataOf(x, PiecesOf(s, x)[k]))
  {
    PieceData(P(s), x, k);
  }

  lemma CloseSender(s: Sender, objects: map<Digest, Bytes>)
    requires SenderInv(s, objects) && s.work.Some?
    requires s.work.value.next >= |PiecesOf(s, s.work.value.x)| && P(s).max != 0
    ensures SenderInv(s.(done := s.done + [EntryOf(s.work.value.file, P(s), s.work.value.x)], work := None), objects)
  {
    hide PiecesOf, Stored, AllBacked, EntryOf, P, BackedBy;
    var k := s.work.value;
    PiecesAre(s, k.x);
    EntryIsBacked(k.file, P(s), k.x, objects);
    OneMoreBacked(s.done, EntryOf(k.file, P(s), k.x), k.x, objects);
  }

  lemma CloseKeepsInv(w: World, id: nat)
    requires Inv(w) && id in w.senders
    ensures Inv(Next(w, Close(id)))
  {
    var s := w.senders[id];
    hide Inv, PiecesOf, Addressed, Stored, AllBacked, EntryOf, SetSender, Drop, SenderInv, P;
    SenderOf(w, id);
    DropKeepsInv(w, id);
    if s.work.Some? && s.work.value.next >= |PiecesOf(s, s.work.value.x)| && P(s).max != 0 {
      CloseSender(s, w.store.objects);
      SetKeepsInv(w, id, s.(done := s.done + [EntryOf(s.work.value.file, P(s), s.work.value.x)], work := None));
    }
  }

  lemma PiecesAre(s: Sender, x: Bytes)
    requires P(s).max != 0
    ensures PiecesOf(s, x) == Chunks(P(s), x, 0) && 0 < P(s).max < TWO32
  {}

  lemma StoreKeepsInv(w: World, store: Store)
    requires Inv(w) && store.objects == w.store.objects && store.lease.Some?
    requires w.store.manifest.Some? ==> store.manifest.Some?
    requires ManifestInv(store.manifest, store.objects)
    requires store.notify || store.ack.Some? ==> store.manifest.Some?
    ensures Inv(w.(store := store))
  {
    hide AllBacked, SenderInv, Addressed, ManifestInv, ReceiversInv;
  }

  lemma PublishKeepsInv(w: World, id: nat, job: string, size: nat)
    requires Inv(w) && id in w.senders
    ensures Inv(Next(w, Publish(id, job, size)))
  {
    var s := w.senders[id];
    hide Inv, Addressed, AllBacked, SetSender, PiecesOf, Stored;
    SenderOf(w, id);
    LeaseIsThere(w, id);
    var blob := Blob(Some(Manifest(SCHEMA, job, s.done)), size);
    StoreKeepsInv(w, w.store.(manifest := Some(blob)));
    if !s.published && s.work.None? {
      SetKeepsInv(w.(store := w.store.(manifest := Some(blob))), id, s.(published := true));
    }
  }

  lemma LeaseIsThere(w: World, id: nat)
    requires Inv(w) && id in w.senders
    ensures w.store.lease.Some?
    ensures w.store.notify || w.store.ack.Some? ==> w.store.manifest.Some?
    ensures ManifestInv(w.store.manifest, w.store.objects)
  {
    hide Addressed, ManifestInv, SenderInv, ReceiversInv;
  }

  /** Receivers only read, and acknowledge what they have read. */
  lemma ReceiverKeepsInv(w: World, e: Event)
    requires Inv(w) && (e.Read? || e.Ack? || e.Leave?)
    ensures Inv(Next(w, e))
  {
    hide Addressed, AllBacked, SenderInv;
  }

  lemma BeginKeepsInv(w: World, id: nat, avg: uint32, gear: GearTable, expires: int)
    requires Inv(w)
    ensures Inv(Next(w, Begin(id, avg, gear, expires)))
  {
    hide Addressed, Stored, Backed, ManifestInv, ReceiversInv, PiecesOf;
  }

  lemma NextKeepsInv(w: World, e: Event)
    requires Inv(w)
    ensures Inv(Next(w, e))
    ensures Grown(w.store.objects, Next(w, e).store.objects)
  {
    if !(e.PutChunk? && e.id in w.senders) { OthersPutNothing(w, e); }
    if e.Read? || e.Ack? || e.Leave? {
      ReceiverKeepsInv(w, e);
    } else if e.Begin? {
      BeginKeepsInv(w, e.id, e.avg, e.gear, e.expires);
    } else if e.id in w.senders {
      var s := w.senders[e.id];
      match e
      case PutChunk(id, statFails) => PutChunkKeepsInv(w, id, statFails);
      case Close(id) => CloseKeepsInv(w, id);
      case Publish(id, job, size) => PublishKeepsInv(w, id, job, size);
      case _ => QuietStepKeepsInv(w, e);
    }
  }

  /** The steps of a sender that put no object and no manifest. */
  lemma QuietStepKeepsInv(w: World, e: Event)
    requires Inv(w) && (e.Renew? || e.Open? || e.Notify? || e.Crash?) && e.id in w.senders
    ensures Inv(Next(w, e))
  {
    var s := w.senders[e.id];
    SenderOf(w, e.id);
    LeaseIsThere(w, e.id);
    hide Inv, Addressed, AllBacked, SetSender, Drop, PiecesOf, ManifestInv;
    match e
    case Renew(id, expires) => StoreKeepsInv(w, w.store.(lease := Some(Lease(Some(expires)))));
    case Notify(id) => if s.published { StoreKeepsInv(w, w.store.(notify := true)); }
    case Crash(id) => DropKeepsInv(w, id);
    case Open(id, file) =>
      DropKeepsInv(w, id);
      if s.work.None? && !s.published && file.read.Some? && |file.read.value| < TWO63 && P(s).max != 0 {
        SetKeepsInv(w, id, s.(work := Some(Work(file, file.read.value, 0))));
      }
  }

  lemma OthersPutNothing(w: World, e: Event)
    requires !(e.PutChunk? && e.id in w.senders)
    ensures Next(w, e).store.objects == w.store.objects
  {
    hide PiecesOf, EntryOf, P, HintHolds;
  }

  lemma {:induction false} RunKeepsInv(events: seq<Event>)
    ensures Inv(Run(World(EMPTY, map[], map[]), events))
  {
    if events == [] {
      assert Inv(World(EMPTY, map[], map[]));
    } else {
      hide Inv, Next;
      RunKeepsInv(events[..|events| - 1]);
      NextKeepsInv(Run(World(EMPTY, map[], map[]), events[..|events| - 1]), events[|events| - 1]);
    }
  }

  /** Publish safety. Whatever senders and receivers do, in any order, crashing anywhere:
      every object hashes to its name; whenever a manifest is visible, or some receiver
      holds one, each object that it names is stored with the declared length and together
      they are the file of the declared digest; and a manifest is never visible without a
      lease, nor a notify marker or an ack without a manifest. */
  lemma PublishSafety(events: seq<Event>)
    ensures var w := Run(World(EMPTY, map[], map[]), events);
            && (forall d :: d in w.store.objects ==> Sum(w.store.objects[d]) == d)
            && (w.store.manifest.Some? ==>
                w.store.manifest.value.decoded.Some? && Readable(w.store.manifest.value.decoded.value, w.store.objects))
            && (forall id :: id in w.receivers ==> Readable(w.receivers[id], w.store.objects))
            && (w.store.manifest.Some? ==> w.store.lease.Some?)
            && (w.store.notify || w.store.ack.Some? ==> w.store.manifest.Some?)
  {
    var w := Run(World(EMPTY, map[], map[]), events);
    RunKeepsInv(events);
    hide Run, AllBacked, SenderInv, Readable;
    if w.store.manifest.Some? { BackedIsReadable(w.store.manifest.value.decoded.value, w.store.objects); }
    forall id | id in w.receivers ensures Readable(w.receivers[id], w.store.objects) {
      BackedIsReadable(w.receivers[id], w.store.objects);
    }
  }

  ghost predicate Readable(man: Manifest, objects: map<Digest, Bytes>) {
    forall i :: 0 <= i < |man.files| ==>
      var f := man.files[i];
      && (forall k :: 0 <= k < |f.chunks| ==>
          f.chunks[k].digest in objects && |objects[f.chunks[k].digest]| == f.chunks[k].length)
      && Sum(Assemble(f.chunks, objects)) == f.digest
  }

  lemma BackedIsReadable(man: Manifest, objects: map<Digest, Bytes>)
    requires Addressed(objects) && AllBacked(man.files, objects)
    ensures Readable(man, objects)
  {
    hide Addressed, Backed, Assemble;
    forall i | 0 <= i < |man.files|
      ensures forall k :: 0 <= k < |man.files[i].chunks| ==>
                man.files[i].chunks[k].digest in objects
                    && |objects[man.files[i].chunks[k].digest]| == man.files[i].chunks[k].length
      ensures Sum(Assemble(man.files[i].chunks, objects)) == man.files[i].digest
    {
      BackedReadsBack(man.files[i], objects);
    }
  }

  // ---------------------------------------------------------------- a run that publishes

  lemma RunOne(w: World, events: seq<Event>, e: Event)
    ensures Run(w, events + [e]) == Next(Run(w, events), e)
  {
    hide Next;
    assert (events + [e])[..|events|] == events;
  }

  lemma {:induction false} RunSplit(w: World, first: seq<Event>, then': seq<Event>)
    ensures Run(w, first + then') == Run(Run(w, first), then')
  {
    hide Next;
    if then' == [] {
      assert first + then' == first;
    } else {
      var init := then'[..|then'| - 1];
      RunSplit(w, first, init);
      assert (first + then')[..|first + then'| - 1] == first + init;
    }
  }

  function Puts(id: nat, n: nat): seq<Event> { if n == 0 then [] else Puts(id, n - 1) + [PutChunk(id, false)] }

  /** What a sender does about one file. */
  function OneFile(id: nat, p: Params, f: SourceFile): seq<Event>
    requires 0 < p.max && f.read.Some?
  {
    [Open(id, f)] + Puts(id, |Chunks(p, f.read.value, 0)|) + [Close(id)]
  }

  function AllFiles(id: nat, p: Params, files: seq<SourceFile>, k: nat): seq<Event>
    requires 0 < p.max && k <= |files| && AllSendable(files, k)
  {
    if k == 0 then [] else AllFiles(id, p, files, k - 1) + OneFile(id, p, files[k - 1])
  }

  /** The sender has these entries done and this file open; but for the objects the store is
      as given. */
  ghost predicate Stands(w: World, id: nat, p: Params, store: Store, done: seq<ManifestFile>, work: Option<Work>) {
    && id in w.senders && P(w.senders[id]) == p && !w.senders[id].published
    && w.senders[id].done == done && w.senders[id].work == work
    && w.store == store.(objects := w.store.objects)
  }

  lemma {:induction false} PutsRun(w: World, id: nat, p: Params, store: Store, done: seq<ManifestFile>, f: SourceFile,
                                   x: Bytes, n: nat)
    requires 0 < p.max && n <= |Chunks(p, x, 0)| && Stands(w, id, p, store, done, Some(Work(f, x, 0)))
    ensures Stands(Run(w, Puts(id, n)), id, p, store, done, Some(Work(f, x, n)))
  {
    hide Next, Chunks, P;
    if n > 0 {
      PutsRun(w, id, p, store, done, f, x, n - 1);
      var a := Run(w, Puts(id, n - 1));
      RunOne(w, Puts(id, n - 1), PutChunk(id, false));
      hide Run;
      PutStands(a, id, p, store, done, f, x, n - 1);
    }
  }

  lemma PutStands(w: World, id: nat, p: Params, store: Store, done: seq<ManifestFile>, f: SourceFile, x: Bytes, n: nat)
    requires 0 < p.max && n < |Chunks(p, x, 0)| && Stands(w, id, p, store, done, Some(Work(f, x, n)))
    ensures Stands(Next(w, PutChunk(id, false)), id, p, store, done, Some(Work(f, x, n + 1)))
  {
    PutChunkNext(w, id, false);
    hide Next, Upload, Chunks;
  }

  lemma FileRun(w: World, id: nat, p: Params, store: Store, done: seq<ManifestFile>, f: SourceFile)
    requires 0 < p.max && Sendable(f) && Stands(w, id, p, store, done, None)
    ensures Stands(Run(w, OneFile(id, p, f)), id, p, store, done + [EntryOf(f, p, f.read.value)], None)
  {
    SendableFits(f);
    OneFileIs(id, p, f);
    hide *;
    var x := f.read.value;
    var n := |Chunks(p, x, 0)|;
    RunSplit(w, [Open(id, f)], Puts(id, n));
    RunNone(w);
    RunOne(w, [], Open(id, f));
    RunOne(w, [Open(id, f)] + Puts(id, n), Close(id));
    assert [] + [Open(id, f)] == [Open(id, f)];
    OpenStands(w, id, p, store, done, f);
    var a := Next(w, Open(id, f));
    PutsRun(a, id, p, store, done, f, x, n);
    CloseStands(Run(a, Puts(id, n)), id, p, store, done, f);
  }

  lemma SendableFits(f: SourceFile)
    requires Sendable(f)
    ensures f.read.Some? && |f.read.value| < TWO63 && HintHolds(f, f.read.value)
  {}

  lemma OneFileIs(id: nat, p: Params, f: SourceFile)
    requires 0 < p.max && f.read.Some?
    ensures OneFile(id, p, f) == [Open(id, f)] + Puts(id, |Chunks(p, f.read.value, 0)|) + [Close(id)]
  {}

  lemma OpenStands(w: World, id: nat, p: Params, store: Store, done: seq<ManifestFile>, f: SourceFile)
    requires 0 < p.max && Stands(w, id, p, store, done, None) && f.read.Some? && |f.read.value| < TWO63
    ensures Stands(Next(w, Open(id, f)), id, p, store, done, Some(Work(f, f.read.value, 0)))
  {}

  lemma CloseStands(w: World, id: nat, p: Params, store: Store, done: seq<ManifestFile>, f: SourceFile)
    requires 0 < p.max && f.read.Some? && HintHolds(f, f.read.value)
    requires Stands(w, id, p, store, done, Some(Work(f, f.read.value, |Chunks(p, f.read.value, 0)|)))
    ensures Stands(Next(w, Close(id)), id, p, store, done + [EntryOf(f, p, f.read.value)], None)
  {
    PiecesAre(w.senders[id], f.read.value);
    hide PiecesOf, EntryOf, HintHolds, Chunks;
  }

  lemma RunNone(w: World)
    ensures Run(w, []) == w
  {}

  lemma {:induction false} FilesRun(w: World, id: nat, p: Params, store: Store, files: seq<SourceFile>, k: nat)
    requires 0 < p.max && k <= |files| && AllSendable(files, k) && Stands(w, id, p, store, [], None)
    ensures Stands(Run(w, AllFiles(id, p, files, k)), id, p, store, Entries(files, p, k), None)
  {
    assert forall i :: 0 <= i < k ==> files[i].read.Some?;
    hide Next, Sendable, OneFile, EntryOf, Stands;
    if k == 0 {
      RunNone(w);
    } else {
      FilesRun(w, id, p, store, files, k - 1);
      RunSplit(w, AllFiles(id, p, files, k - 1), OneFile(id, p, files[k - 1]));
      FileRun(Run(w, AllFiles(id, p, files, k - 1)), id, p, store, Entries(files, p, k - 1), files[k - 1]);
    }
  }

  /** A sender that is left to itself publishes: after any run, its own steps leave the manifest
      of its files, announced, under its lease; and a receiver that reads it acknowledges them
      all. */
  lemma SenderPublishes(before: seq<Event>, id: nat, avg: uint32, gear: GearTable, expires: int, job: string,
                        files: seq<SourceFile>, size: nat, receiver: nat)
    requires var p := ParamsOf(Options(avg, 0, 0), gear); 0 < p.max && AllSendable(files, |files|)
    requires id !in Run(World(EMPTY, map[], map[]), before).senders && size <= MAX_JSON
    ensures var p := ParamsOf(Options(avg, 0, 0), gear);
            var sent := before + [Begin(id, avg, gear, expires)] + AllFiles(id, p, files, |files|);
            var announced := sent + [Publish(id, job, size)] + [Notify(id)];
            var z := Run(World(EMPTY, map[], map[]), announced);
            && z.store.manifest == Some(Blob(Some(Manifest(SCHEMA, job, Entries(files, p, |files|))), size))
            && z.store.notify && z.store.lease == Some(Lease(Some(expires)))
            && Run(World(EMPTY, map[], map[]), announced + [Read(receiver)] + [Ack(receiver)]).store.ack
               == Some(|files|)
  {
    hide *;
    var w0 := World(EMPTY, map[], map[]);
    var p := ParamsOf(Options(avg, 0, 0), gear);
    var begun := before + [Begin(id, avg, gear, expires)];
    var sent := begun + AllFiles(id, p, files, |files|);
    RunOne(w0, before, Begin(id, avg, gear, expires));
    var a := Run(w0, begun);
    BeginStands(Run(w0, before), id, avg, gear, expires);
    RunSplit(w0, begun, AllFiles(id, p, files, |files|));
    FilesRun(a, id, p, a.store, files, |files|);
    RunOne(w0, sent, Publish(id, job, size));
    RunOne(w0, sent + [Publish(id, job, size)], Notify(id));
    PublishStands(Run(w0, sent), id, p, a.store, Entries(files, p, |files|), job, size);
    var announced := sent + [Publish(id, job, size)] + [Notify(id)];
    RunOne(w0, announced, Read(receiver));
    RunOne(w0, announced + [Read(receiver)], Ack(receiver));
    ReadThenAck(Run(w0, announced), receiver);
    EntriesCount(files, p, |files|);
  }

  lemma BeginStands(w: World, id: nat, avg: uint32, gear: GearTable, expires: int)
    requires id !in w.senders
    ensures var a := Next(w, Begin(id, avg, gear, expires));
            Stands(a, id, ParamsOf(Options(avg, 0, 0), gear), a.store, [], None)
            && a.store.lease == Some(Lease(Some(expires)))
  {
    hide ParamsOf;
  }

  lemma PublishStands(w: World, id: nat, p: Params, store: Store, done: seq<ManifestFile>, job: string, size: nat)
    requires Stands(w, id, p, store, done, None)
    ensures var z := Next(Next(w, Publish(id, job, size)), Notify(id)).store;
            && z.manifest == Some(Blob(Some(Manifest(SCHEMA, job, done)), size)) && z.notify && z.lease == store.lease
  {
    hide P;
  }

  lemma ReadThenAck(w: World, id: nat)
    requires w.store.manifest.Some? && w.store.manifest.value.decoded.Some? && w.store.manifest.value.size <= MAX_JSON
    ensures Next(Next(w, Read(id)), Ack(id)).store.ack == Some(|w.store.manifest.value.decoded.value.files|)
  {}

  lemma {:induction false} EntriesCount(files: seq<SourceFile>, p: Params, k: nat)
    requires 0 < p.max && k <= |files| && AllSendable(files, k)
    ensures |Entries(files, p, k)| == k
  {
    hide Sendable, EntryOf;
    if k > 0 { EntriesCount(files, p, k - 1); }
  }
}
