/** internal/transport/s3/s3.go: signatures kept in sidecar objects beside the data.

    A sidecar's key is a truncated hash of the name, so `sigKey` is an arbitrary function:
    different names may share a sidecar. Every request to the store is one step. */
module S3Signature {
  import opened Base
  import opened Chunker
  import opened ChunkerLaws
  import opened Ranges
  import opened WriteSession
  import SignatureCache

  /** An object: its body and its quiksync-blake3 metadata, if any. */
  datatype Object = Object(body: Bytes, blake: Option<Digest>)

  /** A bucket. A sidecar that does not decode is None. */
  datatype Bucket = Bucket(objects: map<Path, Object>, sidecars: map<string, Option<Signature>>)

  const EMPTY := Bucket(map[], map[])

  function StandardSig(gear: GearTable, x: Bytes): Signature { SignatureOf(SignatureCache.DefaultParams(gear), x) }

  /** sidecarBoundToObject. */
  predicate Bound(b: Bucket, rel: Path, sig: Signature) {
    && rel in b.objects
    && |b.objects[rel].body| == sig.size
    && b.objects[rel].blake == Some(sig.digest)
  }

  /** A decodable sidecar worth checking. */
  function SidecarFor(b: Bucket, key: string): Option<Signature> {
    if key in b.sidecars && b.sidecars[key].Some? && |b.sidecars[key].value.chunks| > 0 then b.sidecars[key] else None
  }

  /** Hashing the live object, or the zero signature when there is none. */
  function SlowSignature(b: Bucket, gear: GearTable, rel: Path): Signature {
    if rel in b.objects then StandardSig(gear, b.objects[rel].body) else ABSENT
  }

  function ObjectPut(b: Bucket, rel: Path, x: Bytes): Bucket {
    b.(objects := b.objects[rel := Object(x, Some(Sum(x)))])
  }

  function SidecarPut(b: Bucket, gear: GearTable, key: string, x: Bytes): Bucket {
    b.(sidecars := b.sidecars[key := Some(StandardSig(gear, x))])
  }

  function ObjectGone(b: Bucket, rel: Path): Bucket { b.(objects := b.objects - {rel}) }

  function SidecarGone(b: Bucket, key: string): Bucket { b.(sidecars := b.sidecars - {key}) }

  /** Nothing but the object at rel and its sidecar may be gone, and the object goes first. */
  ghost predicate OnlyGone(b: Bucket, after: Bucket, rel: Path, key: string) {
    && after.objects in {b.objects, b.objects - {rel}} && after.sidecars in {b.sidecars, b.sidecars - {key}}
    && (rel in after.objects ==> after.sidecars == b.sidecars)
  }

  /** All but the object at rel is as it was. */
  ghost predicate OnlyObject(b: Bucket, after: Bucket, rel: Path) {
    after.objects - {rel} == b.objects - {rel} && after.sidecars == b.sidecars
  }

  /** The object has these bytes and the digest of them in its metadata. */
  ghost predicate Holds(b: Bucket, rel: Path, x: Bytes) {
    rel in b.objects && b.objects[rel].body == x && b.objects[rel].blake == Some(Sum(x))
  }

  /** What a commit of x is for: the object holds it, its sidecar is a true signature of it,
      and all else is as it was. */
  ghost predicate Committed(b: Bucket, after: Bucket, rel: Path, key: string, x: Bytes) {
    && Holds(after, rel, x) && after.objects - {rel} == b.objects - {rel}
    && key in after.sidecars && after.sidecars[key].Some? && TrueSignature(after.sidecars[key].value, x)
    && after.sidecars - {key} == b.sidecars - {key}
  }

  /** The first put leaves the object alone beside the old sidecar; both are the commit. */
  lemma PutsCommit(b: Bucket, gear: GearTable, rel: Path, key: string, x: Bytes)
    ensures Holds(ObjectPut(b, rel, x), rel, x) && OnlyObject(b, ObjectPut(b, rel, x), rel)
    ensures Committed(b, SidecarPut(ObjectPut(b, rel, x), gear, key, x), rel, key, x)
  {
    SignatureOfIsTrue(SignatureCache.DefaultParams(gear), x);
  }

  /** GetSignature after a commit: the sidecar is accepted, unless the file is empty; then
      hashing the object gives the true signature. */
  lemma CommittedIsSigned(b: Bucket, after: Bucket, gear: GearTable, rel: Path, key: string, x: Bytes)
    requires Committed(b, after, rel, key, x)
    ensures var s := SidecarFor(after, key);
            if x != [] then s.Some? && Bound(after, rel, s.value) && TrueSignature(s.value, x)
            else s.None? && TrueSignature(SlowSignature(after, gear, rel), x)
  {
    SignatureOfIsTrue(SignatureCache.DefaultParams(gear), x);
    TilesPointwise(after.sidecars[key].value.chunks, x, 0);
    hide StandardSig;
  }

  // ---------------------------------------------------------------- every interleaving

  /** The single requests of any number of commits and removals, crashes between them (a
      request that never comes), and writes by programs that set honest metadata or none. */
  datatype Event =
    | PutObject(rel: Path, x: Bytes)
    | PutSidecar(rel: Path, x: Bytes)
    | DropObject(rel: Path)
    | DropSidecar(rel: Path)
    | ForeignPut(rel: Path, x: Bytes, labelled: bool)
    | GarbleSidecar(key: string)

  function Next(b: Bucket, gear: GearTable, sigKey: Path -> string, e: Event): Bucket {
    match e
    case PutObject(rel, x) => ObjectPut(b, rel, x)
    case PutSidecar(rel, x) => SidecarPut(b, gear, sigKey(rel), x)
    case DropObject(rel) => ObjectGone(b, rel)
    case DropSidecar(rel) => SidecarGone(b, sigKey(rel))
    case ForeignPut(rel, x, labelled) =>
      b.(objects := b.objects[rel := Object(x, if labelled then Some(Sum(x)) else None)])
    case GarbleSidecar(key) => b.(sidecars := b.sidecars[key := None])
  }

  function Run(b: Bucket, gear: GearTable, sigKey: Path -> string, events: seq<Event>): Bucket {
    if events == [] then b
    else Next(Run(b, gear, sigKey, events[..|events| - 1]), gear, sigKey, events[|events| - 1])
  }

  lemma RunTwo(b: Bucket, gear: GearTable, sigKey: Path -> string, events: seq<Event>, e: Event, f: Event)
    ensures Run(b, gear, sigKey, events + [e, f]) ==
            Next(Next(Run(b, gear, sigKey, events), gear, sigKey, e), gear, sigKey, f)
  {
    hide Next;
    var more := events + [e, f];
    assert more[..|more| - 1] == events + [e] && (events + [e])[..|events|] == events;
  }

  /** The two requests of a commit after any run leave what a commit leaves, and the two of a
      removal neither the object nor its sidecar. */
  lemma RunCommitsAndRemoves(gear: GearTable, sigKey: Path -> string, events: seq<Event>, rel: Path, x: Bytes)
    ensures var b := Run(EMPTY, gear, sigKey, events);
            var put := Run(EMPTY, gear, sigKey, events + [PutObject(rel, x), PutSidecar(rel, x)]);
            var gone := Run(EMPTY, gear, sigKey, events + [DropObject(rel), DropSidecar(rel)]);
            && Committed(b, put, rel, sigKey(rel), x)
            && OnlyGone(b, gone, rel, sigKey(rel)) && rel !in gone.objects && sigKey(rel) !in gone.sidecars
  {
    var b := Run(EMPTY, gear, sigKey, events);
    RunTwo(EMPTY, gear, sigKey, events, PutObject(rel, x), PutSidecar(rel, x));
    RunTwo(EMPTY, gear, sigKey, events, DropObject(rel), DropSidecar(rel));
    hide Run, Committed, StandardSig;
    PutsCommit(b, gear, rel, sigKey(rel), x);
  }

  ghost predicate IsStandard(sig: Signature, gear: GearTable) { exists x :: sig == StandardSig(gear, x) }

  /** Metadata tells the truth, and every sidecar was computed from some content. */
  ghost predicate Inv(b: Bucket, gear: GearTable) {
    && (forall rel :: rel in b.objects && b.objects[rel].blake.Some? ==>
        b.objects[rel].blake.value == Sum(b.objects[rel].body))
    && (forall key :: key in b.sidecars && b.sidecars[key].Some? ==> IsStandard(b.sidecars[key].value, gear))
  }

  lemma {:induction false} RunKeepsInv(b: Bucket, gear: GearTable, sigKey: Path -> string, events: seq<Event>)
    requires Inv(b, gear)
    ensures Inv(Run(b, gear, sigKey, events), gear)
  {
    if events != [] {
      RunKeepsInv(b, gear, sigKey, events[..|events| - 1]);
      hide StandardSig;
      if events[|events| - 1].PutSidecar? { assert IsStandard(StandardSig(gear, events[|events| - 1].x), gear); }
    }
  }

  lemma EmptyIsHonest(gear: GearTable)
    ensures Inv(EMPTY, gear)
  {}

  lemma BoundIsTrue(b: Bucket, gear: GearTable, rel: Path, sig: Signature)
    requires Inv(b, gear) && IsStandard(sig, gear) && Bound(b, rel, sig)
    ensures sig == SlowSignature(b, gear, rel) && TrueSignature(sig, b.objects[rel].body)
  {
    var x :| sig == StandardSig(gear, x);
    SumInjective(x, b.objects[rel].body);
    SignatureOfIsTrue(SignatureCache.DefaultParams(gear), x);
  }

  /** A sidecar read in one reachable state and found bound in another (the two requests of
      GetSignature) is exactly the signature that hashing the live object would give, and
      tells the truth about it: whatever crashed, whoever shares the sidecar. */
  lemma AcceptedSidecarIsTrue(gear: GearTable, sigKey: Path -> string, before: seq<Event>, between: seq<Event>,
                              rel: Path)
    requires var s := SidecarFor(Run(EMPTY, gear, sigKey, before), sigKey(rel));
             s.Some? && Bound(Run(EMPTY, gear, sigKey, before + between), rel, s.value)
    ensures var s := SidecarFor(Run(EMPTY, gear, sigKey, before), sigKey(rel)).value;
            var b := Run(EMPTY, gear, sigKey, before + between);
            s == SlowSignature(b, gear, rel) && TrueSignature(s, b.objects[rel].body)
  {
    var s := SidecarFor(Run(EMPTY, gear, sigKey, before), sigKey(rel)).value;
    var b := Run(EMPTY, gear, sigKey, before + between);
    EmptyIsHonest(gear);
    RunKeepsInv(EMPTY, gear, sigKey, before);
    RunKeepsInv(EMPTY, gear, sigKey, before + between);
    hide Run, StandardSig;
    assert IsStandard(s, gear);
    BoundIsTrue(b, gear, rel, s);
  }

  /** In every reachable state the fast path of GetSignature agrees with the slow one. */
  lemma FastAgreesWithSlow(gear: GearTable, sigKey: Path -> string, events: seq<Event>, rel: Path)
    ensures var b := Run(EMPTY, gear, sigKey, events);
            var s := SidecarFor(b, sigKey(rel));
            (if s.Some? && Bound(b, rel, s.value) then s.value else SlowSignature(b, gear, rel)) ==
            SlowSignature(b, gear, rel)
  {
    var b := Run(EMPTY, gear, sigKey, events);
    var s := SidecarFor(b, sigKey(rel));
    if s.Some? && Bound(b, rel, s.value) {
      assert events + [] == events;
      AcceptedSidecarIsTrue(gear, sigKey, events, [], rel);
    }
  }

  /** Both assumptions are needed. A sidecar of the right size and digest but with made-up
      chunks is accepted, and so is the sidecar of another file under false metadata. */
  lemma DishonestyIsAccepted(gear: GearTable, x: Bytes, y: Bytes)
    requires x != y && |x| == |y| > 0
    ensures var forged := Signature(|x|, Sum(x), [Chunk(0, |x|, ZeroDigest)]);
            var b := Bucket(map["f" := Object(x, Some(Sum(x)))], map["k" := Some(forged)]);
            SidecarFor(b, "k") == Some(forged) && Bound(b, "f", forged) && !TrueSignature(forged, x)
    ensures var b := Bucket(map["f" := Object(x, Some(Sum(y)))], map["k" := Some(StandardSig(gear, y))]);
            SidecarFor(b, "k") == Some(StandardSig(gear, y)) && Bound(b, "f", StandardSig(gear, y))
            && !TrueSignature(StandardSig(gear, y), x)
  {
    var forged := Signature(|x|, Sum(x), [Chunk(0, |x|, ZeroDigest)]);
    assert forged.chunks[0].digest != Sum(x[0..|x|]);
    assert !ChunkOf(forged.chunks[0], x);
    assert Sum(x).content != Sum(y).content;
    SignatureOfIsTrue(SignatureCache.DefaultParams(gear), y);
    assert StandardSig(gear, y).chunks != [];
  }

  // ---------------------------------------------------------------- the operations

  /** The bucket. Unless it is `still`, other clients act on it between any two requests; and
      unless all is `calm`, any request may fail. */
  class Store {
    const still: bool
    const calm: bool
    const sigKey: Path -> string
    const gear: GearTable
    var b: Bucket

    constructor (still: bool, calm: bool, sigKey: Path -> string, gear: GearTable)
      ensures this.still == still && this.calm == calm && this.sigKey == sigKey && this.gear == gear && b == EMPTY
    {
      this.still, this.calm, this.sigKey, this.gear, b := still, calm, sigKey, gear, EMPTY;
    }

    method Meanwhile()
      modifies this
      ensures still ==> b == old(b)
      ensures Inv(old(b), gear) ==> Inv(b, gear)
    {
      var events: seq<Event> := *;
      if still { events := []; }
      if Inv(b, gear) { RunKeepsInv(b, gear, sigKey, events); }
      hide Inv;
      b := Run(b, gear, sigKey, events);
    }

    method Hiccup() returns (fails: bool)
      ensures calm ==> !fails
    {
      fails := *;
      fails := fails && !calm;
    }

    /** A request that changes the bucket: it may be answered by a failure although it has
        taken effect. */
    method Request() returns (fails: bool, lands: bool)
      ensures (calm ==> !fails) && (!fails ==> lands)
    {
      fails := Hiccup();
      lands := *;
      lands := lands || !fails;
    }

    /** The object goes first; a crash leaves its sidecar behind. */
    method Remove(rel: Path) returns (ok: bool)
      modifies this
      ensures still ==> OnlyGone(old(b), b, rel, sigKey(rel))
      ensures still && ok ==> rel !in b.objects && sigKey(rel) !in b.sidecars
      ensures Inv(old(b), gear) ==> Inv(b, gear)
      ensures calm ==> ok
    {
      hide StandardSig;
      ok := false;
      var fails, lands := Request();
      if lands { b := ObjectGone(b, rel); }
      if fails { return; }
      Meanwhile();
      fails, lands := Request();
      if lands { b := SidecarGone(b, sigKey(rel)); }
      ok := !fails;
    }

    /** GetSignature. `seen` is the bucket at the request that settles the answer: what comes
        back is always the true signature of the object there. */
    method GetSignature(rel: Path) returns (r: Option<Signature>, ghost seen: Bucket, ghost fast: bool)
      modifies this
      ensures Inv(old(b), gear) ==>
          Inv(b, gear) && Inv(seen, gear) && (r.Some? ==> r.value == SlowSignature(seen, gear, rel))
      ensures still ==> b == old(b) && seen == old(b)
      ensures still && calm ==>
        var s := SidecarFor(b, sigKey(rel));
        && (fast <==> s.Some? && Bound(b, rel, s.value))
        && r == (if fast then s else Some(SlowSignature(b, gear, rel)))
        && (rel !in b.objects ==> r == Some(ABSENT))
    {
      NothingBound(b, gear, rel);
      hide Inv, StandardSig, Bound, IsStandard;
      fast := false;
      ghost var honest := Inv(b, gear);
      Meanwhile();
      seen := b;
      var fails := Hiccup();
      var s := SidecarFor(b, sigKey(rel));
      if s.Some? && !fails {
        if honest { SidecarIsStandard(b, gear, sigKey(rel)); }
        Meanwhile(); // HeadObject
        seen := b;
        fails := Hiccup();
        if !fails && Bound(b, rel, s.value) {
          if honest { BoundIsTrue(b, gear, rel, s.value); }
          return s, seen, true;
        }
      }
      Meanwhile();
      seen := b;
      fails := Hiccup();
      if fails { return None, seen, fast; }
      if rel !in b.objects { return Some(ABSENT), seen, fast; }
      var body := b.objects[rel].body;
      Meanwhile(); // Stat
      fails := Hiccup();
      if fails || rel !in b.objects { return None, seen, fast; }
      if |b.objects[rel].body| > 0 && |b.objects[rel].body| != |body| { return None, seen, fast; } // size mismatch
      return Some(StandardSig(gear, body)), seen, fast;
    }
  }

  lemma NothingBound(b: Bucket, gear: GearTable, rel: Path)
    ensures rel !in b.objects ==> SlowSignature(b, gear, rel) == ABSENT && forall s :: !Bound(b, rel, s)
  {}

  lemma SidecarIsStandard(b: Bucket, gear: GearTable, key: string)
    requires Inv(b, gear) && SidecarFor(b, key).Some?
    ensures IsStandard(SidecarFor(b, key).value, gear)
  {
    hide IsStandard;
  }

  // ---------------------------------------------------------------- a write session

  /** What a ranged request yields of the length asked for. An offset of at least 2^63 makes a
      range that ends before it starts: such a header is ignored, and the whole body comes. */
  function Ranged(body: Bytes, offset: uint64, length: int64): Option<Bytes>
    requires 0 <= length
  {
    if offset >= TWO63 then if length <= |body| then Some(body[..length]) else None
    else if offset + length <= |body| then Some(body[offset..offset + length])
    else None
  }

  /** ReuseChunk: the object must be as it was at BeginWrite; its bytes come from a ranged
      request. An ETag stands for the digest of the body. */
  function RangedReuse(s: Session, b: Bucket, enabled: bool, prior: Option<(int64, Digest)>, newOffset: uint64,
                       oldOffset: uint64, digest: Digest, length: int64): (Session, Option<Error>)
  {
    if s.committed then (s, Some(WriteAfterCommit))
    else if !enabled then (s, Some(NoOldFile))
    else
      var bad := ValidateReuseRange(oldOffset, length, if prior.Some? then prior.value.0 else -1);
      var bad' := if bad.Some? then bad else ValidateWriteRange(newOffset, length, s.size);
      if bad'.Some? then (s, bad')
      else if prior.None? then (s, Some(NoOldFile))
      else if s.path !in b.objects then (s, Some(DestChanged))
      else
        var body := b.objects[s.path].body;
        if |body| != prior.value.0 || Sum(body) != prior.value.1 then (s, Some(DestChanged))
        else if length < 0 then (s, Some(InvalidLength))
        else
          match Ranged(body, oldOffset, length)
          case None => (s, Some(ShortRead))
          case Some(buf) => if Sum(buf) != digest then (s, Some(ReuseDigestMismatch)) else PutRaw(s, newOffset, buf)
  }

  /** An accepted reuse lies inside the session, and takes bytes of the digest asked for from
      the live object: at the offset given, or, when that wraps, at the start. */
  lemma RangedReuseAcceptedIff(s: Session, b: Bucket, enabled: bool, prior: Option<(int64, Digest)>, newOffset: uint64,
                               oldOffset: uint64, digest: Digest, length: int64)
    requires 0 <= s.size && (prior.Some? ==> 0 <= prior.value.0)
    ensures RangedReuse(s, b, enabled, prior, newOffset, oldOffset, digest, length).1.None? <==>
      && !s.committed && s.staging.Some? && enabled && prior.Some? && s.path in b.objects
      && |b.objects[s.path].body| == prior.value.0 && Sum(b.objects[s.path].body) == prior.value.1
      && 0 < length <= DEFAULT_MAX && newOffset + length <= s.size
      && var body := b.objects[s.path].body;
         if oldOffset < TWO63 then oldOffset + length <= |body| && Sum(body[oldOffset..oldOffset + length]) == digest
         else TWO64 <= oldOffset + length && length <= |body| && Sum(body[..length]) == digest
  {
    I64Exact(newOffset);
    I64Exact(oldOffset);
    WriteRangeIff(newOffset, length, s.size);
    if prior.Some? {
      ReuseRangeIff(oldOffset, length, prior.value.0);
      if oldOffset >= TWO63 { WrappedOld(oldOffset, length, prior.value.0); }
    }
    hide ValidateWriteRange, ValidateReuseRange, I64, WriteAt;
  }

  lemma WrappedOld(oldOffset: uint64, length: int64, oldSize: int64)
    requires TWO63 <= oldOffset && 0 <= oldSize
    ensures ValidateReuseRange(oldOffset, length, oldSize).None? <==>
      0 < length <= DEFAULT_MAX && TWO64 <= oldOffset + length <= TWO64 + oldSize
  {
    assert I64(oldOffset) == oldOffset - TWO64;
    assert -TWO63 <= oldOffset - TWO64 < 0;
  }

  /** A wrapped offset that is accepted: ten bytes asked for at 2^64 - 5 come from the start. */
  lemma WrappedReuseAccepted(rel: Path, body: Bytes)
    requires 10 <= |body| < TWO63
    ensures var b := Bucket(map[rel := Object(body, None)], map[]);
            var s := Session(rel, 10, Some(Zeros(10)), None, false);
            RangedReuse(s, b, true, Some((|body|, Sum(body))), 0, 0xFFFF_FFFF_FFFF_FFFB, Sum(body[..10]), 10).1 == None
  {
    var b := Bucket(map[rel := Object(body, None)], map[]);
    var s := Session(rel, 10, Some(Zeros(10)), None, false);
    RangedReuseAcceptedIff(s, b, true, Some((|body|, Sum(body))), 0, 0xFFFF_FFFF_FFFF_FFFB, Sum(body[..10]), 10);
  }

  class ObjectSession {
    const store: Store
    const path: Path
    const size: int64
    const reuseEnabled: bool
    const prior: Option<(int64, Digest)>
    var staging: Option<Bytes>
    var committed: bool

    function View(): Session
      reads this
    {
      Session(path, size, staging, None, committed)
    }

    constructor (store: Store, path: Path, size: int64, reuseEnabled: bool)
      ensures this.store == store && this.path == path && this.size == size && this.reuseEnabled == reuseEnabled
      ensures staging == Some(if size > 0 then Zeros(size) else []) && !committed
      ensures prior.Some? ==> path in store.b.objects
                              && prior.value == (|store.b.objects[path].body|, Sum(store.b.objects[path].body))
      ensures store.calm && path in store.b.objects && |store.b.objects[path].body| < TWO63 ==> prior.Some?
    {
      var fails: bool := *;
      this.store, this.path, this.size, this.reuseEnabled := store, path, size, reuseEnabled;
      staging, committed := Some(if size > 0 then Zeros(size) else []), false;
      prior := if (store.calm || !fails) && path in store.b.objects && |store.b.objects[path].body| < TWO63
               then Some((|store.b.objects[path].body|, Sum(store.b.objects[path].body))) else None;
    }

    method PutAt(offset: uint64, raw: Bytes) returns (err: Option<Error>)
      modifies this`staging
      ensures (View(), err) == PutRaw(old(View()), offset, raw)
    {
      if staging.None? { return Some(SessionClosed); }
      if I64(offset) < 0 { return Some(NegativeOffset); }
      staging := Some(WriteAt(staging.value, I64(offset), raw));
      return None;
    }

    method WriteChunk(offset: uint64, codec: Codec, uncompressedLen: int, data: Wire) returns (err: Option<Error>)
      modifies this`staging
      ensures (View(), err) == WriteStep(old(View()), offset, codec, uncompressedLen, data)
    {
      if committed { return Some(WriteAfterCommit); }
      var raw := Decode(codec, data, uncompressedLen);
      if raw.None? { return Some(DecodeFailed); }
      if |raw.value| >= TWO63 { return Some(InvalidLength); }
      err := ValidateWriteRange(offset, |raw.value|, size);
      if err.Some? { return; }
      err := PutAt(offset, raw.value);
    }

    /** Between the look at the object and the ranged request others may replace it: whatever
        they do, an accepted reuse puts the bytes of that digest. */
    method ReuseChunk(newOffset: uint64, oldOffset: uint64, digest: Digest, length: int64) returns (err: Option<Error>)
      modifies this`staging, store
      ensures store.still && store.calm ==>
                (View(), err) == RangedReuse(old(View()), old(store.b), reuseEnabled, prior, newOffset, oldOffset,
                                             digest, length)
      ensures err.Some? ==> View() == old(View())
      ensures err.None? ==> digest.Blake? && (View(), None) == PutRaw(old(View()), newOffset, digest.content)
      ensures store.still ==> store.b == old(store.b)
      ensures Inv(old(store.b), store.gear) ==> Inv(store.b, store.gear)
    {
      hide Inv, ValidateReuseRange, ValidateWriteRange;
      if committed { return Some(WriteAfterCommit); }
      if !reuseEnabled { return Some(NoOldFile); }
      err := ValidateReuseRange(oldOffset, length, if prior.Some? then prior.value.0 else -1);
      if err.Some? { return; }
      err := ValidateWriteRange(newOffset, length, size);
      if err.Some? { return; }
      if prior.None? { return Some(NoOldFile); }
      store.Meanwhile(); // HeadObject
      var fails := store.Hiccup();
      if fails || path !in store.b.objects { return Some(DestChanged); }
      var head := store.b.objects[path].body;
      if |head| != prior.value.0 || Sum(head) != prior.value.1 { return Some(DestChanged); }
      store.Meanwhile(); // GetObject
      fails := store.Hiccup();
      if fails || path !in store.b.objects { return Some(DestChanged); }
      var body := store.b.objects[path].body;
      if length < 0 { return Some(InvalidLength); }
      var buf := Ranged(body, oldOffset, length);
      if buf.None? { return Some(ShortRead); }
      if Sum(buf.value) != digest { return Some(ReuseDigestMismatch); }
      err := PutAt(newOffset, buf.value);
    }

    /** Commit. Either put may fail, and may have taken effect all the same: then the new object
        stands beside the old sidecar, or the answer is a failure although all is in place.
        Until the first put is answered the session can commit again. */
    method Commit(expected: Digest) returns (ok: bool)
      modifies this, store
      ensures old(committed) || old(staging).None? ==>
          ok == old(committed) && View() == old(View()) && store.b == old(store.b)
      ensures !old(committed) && old(staging).Some? ==>
        var x := old(staging).value;
        && (ok ==> committed && staging.None?) && (!ok ==> !committed && staging in {None, Some(x)})
        && (Sum(x) != expected || (size > 0 && |x| != size) ==>
              !ok && View() == old(View()) && store.b == old(store.b))
        && (store.still ==>
              || (!ok && staging.Some? && store.b == old(store.b))
              || (!ok && Holds(store.b, path, x) && OnlyObject(old(store.b), store.b, path))
              || (staging.None? && Committed(old(store.b), store.b, path, store.sigKey(path), x)))
        && (store.calm && Sum(x) == expected && (size > 0 ==> |x| == size) ==> ok)
      ensures Inv(old(store.b), store.gear) ==> Inv(store.b, store.gear)
    {
      hide Inv, Chunks;
      if committed { return true; }
      if staging.None? { return false; } // the file is closed
      var x := staging.value;
      if size > 0 && size != |x| { return false; } // ChunkReader: size mismatch
      var sig := StandardSig(store.gear, x);
      if sig.digest != expected { return false; }
      PutKeepsInv(store.b, store.gear, path, store.sigKey(path), x);
      PutsCommit(store.b, store.gear, path, store.sigKey(path), x);
      var fails, lands := store.Request();
      if lands { store.b := ObjectPut(store.b, path, x); }
      if fails { return false; }
      staging := None;
      store.Meanwhile();
      PutKeepsInv(store.b, store.gear, path, store.sigKey(path), x);
      fails, lands := store.Request();
      if lands { store.b := SidecarPut(store.b, store.gear, store.sigKey(path), x); }
      if fails { return false; }
      committed := true;
      return true;
    }

    method Abort()
      modifies this
      ensures View() == AbortStep(old(View()))
    {
      if committed { return; }
      staging := None;
    }
  }

  lemma PutKeepsInv(b: Bucket, gear: GearTable, rel: Path, key: string, x: Bytes)
    ensures Inv(b, gear) ==> Inv(ObjectPut(b, rel, x), gear) && Inv(SidecarPut(b, gear, key, x), gear)
  {
    assert IsStandard(StandardSig(gear, x), gear);
    hide StandardSig;
  }
}
