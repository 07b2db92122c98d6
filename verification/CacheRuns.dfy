/** internal/index/cache.go: any history of the cache beside a destination that anybody may
    change at any time. */
module CacheRuns {
  import opened Base
  import opened Chunker
  import opened WriteSession
  import SignatureCache

  datatype World = World(entries: SignatureCache.CacheMap, files: Files)

  /** The engine puts the signature of some content, for a file that may already be another;
      it drops an entry; or the destination changes by itself. */
  datatype Event =
    | Put(path: Path, modNano: int, avg: uint32, x: Bytes)
    | Drop(path: Path)
    | Outside(files: Files)

  function P(avg: uint32, gear: GearTable): Params { ParamsOf(Options(avg, 0, 0), gear) }

  function Next(w: World, gear: GearTable, e: Event): World {
    match e
    case Put(path, modNano, avg, x) =>
      if P(avg, gear).max == 0 then w // nothing is ever hashed with an empty buffer
      else
        var sig := SignatureOf(P(avg, gear), x);
        w.(entries := w.entries[path := SignatureCache.Entry(|x|, modNano, sig.digest, avg, sig.chunks)])
    case Drop(path) => w.(entries := w.entries - {path})
    case Outside(files) => w.(files := files)
  }

  function Run(w: World, gear: GearTable, events: seq<Event>): World {
    if events == [] then w else Next(Run(w, gear, events[..|events| - 1]), gear, events[|events| - 1])
  }

  lemma {:induction false} RunKeepsHonest(files: Files, gear: GearTable, events: seq<Event>)
    ensures SignatureCache.Honest(Run(World(map[], files), gear, events).entries, gear)
  {
    if events != [] {
      RunKeepsHonest(files, gear, events[..|events| - 1]);
      var w, e := Run(World(map[], files), gear, events[..|events| - 1]), events[|events| - 1];
      hide SignatureCache.Honest, SignatureOf, ParamsOf;
      match e
      case Put(path, modNano, avg, x) =>
        if P(avg, gear).max != 0 { SignatureCache.PutKeepsHonest(w.entries, gear, path, modNano, avg, x); }
      case Drop(path) => SignatureCache.DeleteKeepsHonest(w.entries, gear, path);
      case Outside(_) =>
    }
  }

  /** In every reachable state a hit whose digest matches the live file is its true signature,
      the one that hashing it again with the entry's average would give. */
  lemma HitIsTrue(files: Files, gear: GearTable, events: seq<Event>, path: Path, size: int, modNano: int, avg: uint32)
    requires var w := Run(World(map[], files), gear, events);
             var hit := SignatureCache.Found(w.entries, path, size, modNano, avg);
             path in w.files && hit.Some? && hit.value.digest == Sum(w.files[path].content)
    ensures var w := Run(World(map[], files), gear, events);
            var hit := SignatureCache.Found(w.entries, path, size, modNano, avg).value;
            && TrueSignature(hit, w.files[path].content)
            && P(w.entries[path].avg, gear).max > 0
            && hit == SignatureOf(P(w.entries[path].avg, gear), w.files[path].content)
            && (avg != 0 ==> w.entries[path].avg == avg)
  {
    RunKeepsHonest(files, gear, events);
    hide Run;
    var w := Run(World(map[], files), gear, events);
    SignatureCache.AcceptedIsTrue(w.entries, gear, path, size, modNano, avg, w.files[path].content);
  }

  /** After any run a put is found, a dropped entry is not, and the destination may become
      anything beside the cache; nothing else moves. */
  lemma StepsTell(files: Files, gear: GearTable, events: seq<Event>, path: Path, modNano: int, avg: uint32, x: Bytes,
                  others: Files)
    requires P(avg, gear).max > 0
    ensures var w := Run(World(map[], files), gear, events);
            var put := Run(World(map[], files), gear, events + [Put(path, modNano, avg, x)]);
            var dropped := Run(World(map[], files), gear, events + [Drop(path)]);
            && SignatureCache.Found(put.entries, path, |x|, modNano, avg) == Some(SignatureOf(P(avg, gear), x))
            && put.entries - {path} == w.entries - {path} && put.files == w.files
            && dropped == World(w.entries - {path}, w.files)
            && Run(World(map[], files), gear, events + [Outside(others)]) == World(w.entries, others)
  {
    RunOne(World(map[], files), gear, events, Put(path, modNano, avg, x));
    RunOne(World(map[], files), gear, events, Drop(path));
    RunOne(World(map[], files), gear, events, Outside(others));
    hide Run, Chunks, ParamsOf;
  }

  lemma RunOne(w: World, gear: GearTable, events: seq<Event>, e: Event)
    ensures Run(w, gear, events + [e]) == Next(Run(w, gear, events), gear, e)
  {
    hide Next;
    assert (events + [e])[..|events|] == events;
  }
}
