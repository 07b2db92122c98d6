/** internal/engine/engine.go, Run with sync and delete: what the workers, any number of them
    at once, and then deleteExtras make of the destination tree. */
module Sync {
  import opened Base
  import opened WriteSession
  import opened Endpoints
  import Engine
  import opened Outcomes
  import Workers
  import opened Mirror
  import Chunker
  import Ranges

  /** An entry of the source walk. The source is stable: its files are as walked. */
  datatype Item = Directory(route: Route) | Regular(route: Route, file: File)

  datatype Node = Dir | Leaf(file: File)

  /** The destination: files and directories by route. */
  type Nodes = map<Route, Node>

  function FileAt(tree: Nodes, p: Route): Option<File> {
    if p in tree && tree[p].Leaf? then Some(tree[p].file) else None
  }

  function Shape(tree: Nodes): Entries { map p | p in tree :: tree[p].Dir? }

  ghost predicate GoodTree(tree: Nodes) { IsTree(Shape(tree)) }

  /** The walk lists a tree: no route twice, and every directory above an entry. */
  ghost predicate GoodSource(items: seq<Item>) {
    && (forall i :: 0 <= i < |items| ==> items[i].route != [])
    && (forall i, j :: 0 <= i < j < |items| ==> items[i].route != items[j].route)
    && (forall i, k :: 0 <= i < |items| && 0 < k < |items[i].route| ==> Directory(items[i].route[..k]) in items)
  }

  // ---------------------------------------------------------------- changes to the tree

  /** Nothing stands in the way of a chain of directories down to p's parent. */
  predicate Clear(tree: Nodes, p: Route) {
    forall k :: 0 < k < |p| && p[..k] in tree ==> tree[p[..k]].Dir?
  }

  /** The directories above p, made where they are missing. */
  function WithParents(tree: Nodes, p: Route): (t: Nodes)
    ensures forall q :: q in tree ==> q in t
    ensures forall q :: q in t <==> q in tree || (0 < |q| < |p| && q == p[..|q|])
    ensures forall q :: q in t ==> t[q] == if q in tree then tree[q] else Dir
  {
    var above := set k | 0 < k < |p| :: p[..k];
    map q | q in tree.Keys + above :: if q in tree then tree[q] else Dir
  }

  /** A rename onto p, after the MkdirAll of BeginWrite. */
  function Placed(tree: Nodes, p: Route, file: File): Nodes { WithParents(tree, p)[p := Leaf(file)] }

  function Made(tree: Nodes, p: Route): Nodes { WithParents(tree, p)[p := Dir] }

  lemma ParentsKeepTree(tree: Nodes, p: Route, node: Node)
    requires GoodTree(tree) && p != [] && Clear(tree, p)
    requires node.Dir? || p !in tree || tree[p].Leaf?
    requires node.Dir? ==> p !in tree || tree[p].Dir?
    ensures GoodTree(WithParents(tree, p)[p := node])
  {
    var t := WithParents(tree, p)[p := node];
    forall q, k | q in Shape(t) && 0 < k < |q| ensures q[..k] in Shape(t) && Shape(t)[q[..k]] {
      assert q in tree ==> q[..k] in Shape(tree) && Shape(tree)[q[..k]];
      if q !in tree { assert q[..k] == p[..k]; }
      if q[..k] == p && q in tree { assert p in tree && tree[p].Dir?; }
    }
  }

  // ---------------------------------------------------------------- the machine

  /** `at` says which entry a busy worker has, `looked` what it found at its place when it
      began; `done` are the results by entry. */
  datatype World = World(run: Workers.World, at: map<nat, nat>, looked: map<nat, Option<File>>, done: map<nat, Tally>,
                         tree: Nodes)

  /** Steps of any worker, interleaved. A rename may put any file in place: what it was is
      settled when the worker reports. */
  datatype Event =
    | Take(w: nat)
    | Rename(w: nat, file: File)
    | Mkdir(w: nat)
    | Report(w: nat, t: Tally, u: Engine.Setup, putFailed: bool, seen: Bytes)
    | Add(w: nat, part: Tally)
    | Cancel

  /** What transferOne may report of an entry: for a file what TransferOne ensures, with the
      walk's metadata; for a directory "handled" once it is there. */
  ghost predicate MayReport(cfg: Config, item: Item, t: Tally, u: Engine.Setup, putFailed: bool, seen: Bytes,
                            before: Option<File>, tree: Nodes)
  {
    match item
    case Regular(route, file) =>
      && u.cfg == cfg && u.meta.size == |file.content| && u.meta.modNano == file.modNano
      && Settles(u, Some(file), t, putFailed, seen, before, FileAt(tree, route))
    case Directory(route) =>
      t == FAILED || (t == WOULD_COPY && cfg.dryRun)
      || (t == HANDLED && !cfg.dryRun && route in tree && tree[route].Dir?)
  }

  ghost function Next(items: seq<Item>, cfg: Config, s: World, e: Event): World {
    match e
    case Take(w) =>
      if !Workers.Idle(s.run, w) || s.run.queue == 0 || s.run.queue > |items| then s
      else
        var i := |items| - s.run.queue;
        var run := Workers.Next(s.run, Workers.Take(w));
        if s.run.cancelled then s.(run := run, done := s.done[i := SKIPPED])
        else s.(run := run, at := s.at[w := i], looked := s.looked[w := FileAt(s.tree, items[i].route)])
    case Rename(w, file) =>
      if w !in s.at || s.at[w] >= |items| || !items[s.at[w]].Regular? || cfg.dryRun then s
      else
        var p := items[s.at[w]].route;
        if !Clear(s.tree, p) || (p in s.tree && s.tree[p].Dir?) then s else s.(tree := Placed(s.tree, p, file))
    case Mkdir(w) =>
      if w !in s.at || s.at[w] >= |items| || !items[s.at[w]].Directory? || cfg.dryRun then s
      else
        var p := items[s.at[w]].route;
        if !Clear(s.tree, p) || (p in s.tree && s.tree[p].Leaf?) then s else s.(tree := Made(s.tree, p))
    case Report(w, t, u, putFailed, seen) =>
      if w !in s.at || w !in s.looked || w !in s.run.busy || w >= |s.run.pending| || s.at[w] >= |items|
         || !MayReport(cfg, items[s.at[w]], t, u, putFailed, seen, s.looked[w], s.tree) then s
      else s.(run := Workers.Next(s.run, Workers.Finish(w, t)), at := s.at - {w}, done := s.done[s.at[w] := t])
    case Add(w, part) => s.(run := Workers.Next(s.run, Workers.Add(w, part)))
    case Cancel => s.(run := Workers.Next(s.run, Workers.Cancel))
  }

  ghost function Run(items: seq<Item>, cfg: Config, s: World, events: seq<Event>): World {
    if events == [] then s
    else Next(items, cfg, Run(items, cfg, s, events[..|events| - 1]), events[|events| - 1])
  }

  function Start(items: seq<Item>, workers: nat, tree: Nodes): World {
    World(Workers.Start(|items|, workers), map[], map[], map[], tree)
  }

  // ---------------------------------------------------------------- what a run keeps

  /** The entry is in place: the same bytes, or, unless contents are compared, a file of the
      same size and mtime; a directory is a directory. */
  ghost predicate InPlace(cfg: Config, item: Item, tree: Nodes) {
    match item
    case Regular(route, file) =>
      var f := FileAt(tree, route);
      SameBytes(f, file.content) || (!cfg.checksum && Matches(f, |file.content|, file.modNano))
    case Directory(route) => route in tree && tree[route].Dir?
  }

  /** Every entry drawn so far is with a worker or done. */
  ghost predicate Covered(n: nat, s: World) {
    forall i :: 0 <= i < n - s.run.queue ==> i in s.done || exists w :: w in s.at && s.at[w] == i
  }

  ghost predicate OneEach(at: map<nat, nat>) { forall w, v :: w in at && v in at && w != v ==> at[w] != at[v] }

  lemma OneMore(at: map<nat, nat>, w: nat, i: nat)
    requires OneEach(at) && forall v :: v in at ==> at[v] < i
    ensures OneEach(at[w := i])
  {}

  /** Which entries are being worked on or done. */
  ghost predicate Books(n: nat, s: World) {
    && s.run.queue <= n && s.at.Keys == s.run.busy && s.at.Keys <= s.looked.Keys
    && (forall w :: w in s.at ==> s.at[w] < n - s.run.queue && s.at[w] !in s.done)
    && OneEach(s.at)
    && Covered(n, s)
    && (forall i :: i in s.done ==> i < n - s.run.queue && s.done[i] in s.run.results)
  }

  ghost predicate Kept(items: seq<Item>, cfg: Config, s: World) {
    && GoodTree(s.tree)
    && (!s.run.cancelled && !cfg.dryRun ==>
          forall i :: i in s.done && i < |items| && s.done[i] != FAILED ==> InPlace(cfg, items[i], s.tree))
  }

  ghost predicate Inv(items: seq<Item>, cfg: Config, s: World) {
    Workers.Inv(s.run, |items|) && Books(|items|, s) && Kept(items, cfg, s)
  }

  /** What is in place stays there while other entries are worked on. */
  lemma InPlaceStays(cfg: Config, item: Item, tree: Nodes, p: Route, node: Node)
    requires InPlace(cfg, item, tree) && p != item.route
    ensures InPlace(cfg, item, WithParents(tree, p)[p := node])
  {}

  lemma SettledIsInPlace(cfg: Config, item: Item, t: Tally, u: Engine.Setup, putFailed: bool, seen: Bytes,
                         before: Option<File>, tree: Nodes)
    requires MayReport(cfg, item, t, u, putFailed, seen, before, tree) && t != FAILED && !cfg.dryRun
    ensures InPlace(cfg, item, tree)
  {}

  lemma ReportIsOutcome(cfg: Config, item: Item, t: Tally, u: Engine.Setup, putFailed: bool, seen: Bytes,
                        before: Option<File>, tree: Nodes)
    requires MayReport(cfg, item, t, u, putFailed, seen, before, tree)
    ensures OneOutcome(t)
  {}

  lemma TakeCovered(n: nat, s: World, t: World, w: nat)
    requires Covered(n, s) && w !in s.at && 0 < s.run.queue <= n
    requires t.done == s.done && t.run.queue == s.run.queue - 1 && t.at == s.at[w := n - s.run.queue]
    ensures Covered(n, t)
  {
    assert t.at[w] == n - s.run.queue;
    forall j | 0 <= j < n - t.run.queue ensures j in t.done || exists v :: v in t.at && t.at[v] == j {
      if j != n - s.run.queue && j !in s.done {
        var v :| v in s.at && s.at[v] == j;
        assert t.at[v] == j;
      }
    }
  }

  lemma ReportCovered(n: nat, s: World, t: World, w: nat, r: Tally)
    requires Covered(n, s) && w in s.at && t.run.queue == s.run.queue
    requires t.at == s.at - {w} && t.done == s.done[s.at[w] := r]
    ensures Covered(n, t)
  {
    forall j | 0 <= j < n - t.run.queue ensures j in t.done || exists v :: v in t.at && t.at[v] == j {
      if j != s.at[w] && j !in s.done {
        var v :| v in s.at && s.at[v] == j;
        assert v in t.at && t.at[v] == j;
      }
    }
  }

  lemma TakeBooks(n: nat, s: World, w: nat, run: Workers.World, looked: map<nat, Option<File>>)
    requires Books(n, s) && w !in s.run.busy && s.run.queue > 0
    requires run.queue == s.run.queue - 1 && run.busy == s.run.busy + {w} && run.results == s.run.results
    requires looked.Keys == s.looked.Keys + {w}
    ensures Books(n, World(run, s.at[w := n - s.run.queue], looked, s.done, s.tree))
  {
    var i := n - s.run.queue;
    var t := World(run, s.at[w := i], looked, s.done, s.tree);
    TakeCovered(n, s, t, w);
    OneMore(s.at, w, i);
    hide Covered, OneEach;
  }

  lemma SkipBooks(n: nat, s: World, run: Workers.World, t: Tally)
    requires Books(n, s) && s.run.queue > 0
    requires run.queue == s.run.queue - 1 && run.busy == s.run.busy && run.results == s.run.results + [t]
    ensures Books(n, s.(run := run, done := s.done[n - s.run.queue := t]))
  {}

  lemma ReportBooks(n: nat, s: World, w: nat, run: Workers.World, t: Tally)
    requires Books(n, s) && w in s.at
    requires run.queue == s.run.queue && run.busy == s.run.busy - {w} && run.results == s.run.results + [t]
    ensures Books(n, s.(run := run, at := s.at - {w}, done := s.done[s.at[w] := t]))
  {
    ReportCovered(n, s, s.(run := run, at := s.at - {w}, done := s.done[s.at[w] := t]), w, t);
    hide Covered;
  }

  lemma SameBooks(n: nat, s: World, t: World)
    requires Books(n, s) && t.at == s.at && t.looked == s.looked && t.done == s.done
    requires t.run.queue == s.run.queue && t.run.busy == s.run.busy && t.run.results == s.run.results
    ensures Books(n, t)
  {}

  lemma DoneIsOther(items: seq<Item>, s: World, w: nat, i: nat)
    requires GoodSource(items) && Books(|items|, s) && w in s.at && i in s.done
    ensures i < |items| && s.at[w] < |items| && items[i].route != items[s.at[w]].route
  {}

  /** A change of the tree at the entry that a worker has keeps what is done. */
  lemma ChangeKeeps(items: seq<Item>, cfg: Config, s: World, w: nat, node: Node)
    requires GoodSource(items) && Books(|items|, s) && Kept(items, cfg, s) && w in s.at && s.at[w] < |items|
    requires var p := items[s.at[w]].route;
             && Clear(s.tree, p)
             && (if node.Dir? then p !in s.tree || s.tree[p].Dir? else p !in s.tree || s.tree[p].Leaf?)
    ensures Kept(items, cfg, s.(tree := WithParents(s.tree, items[s.at[w]].route)[items[s.at[w]].route := node]))
  {
    var p := items[s.at[w]].route;
    hide GoodTree, InPlace, Clear, WithParents;
    ParentsKeepTree(s.tree, p, node);
    forall i | i in s.done && i < |items| && InPlace(cfg, items[i], s.tree)
      ensures InPlace(cfg, items[i], WithParents(s.tree, p)[p := node])
    {
      DoneIsOther(items, s, w, i);
      InPlaceStays(cfg, items[i], s.tree, p, node);
    }
  }

  lemma ReportKeeps(items: seq<Item>, cfg: Config, s: World, t: World, i: nat, r: Tally)
    requires Kept(items, cfg, s) && t.tree == s.tree && t.run.cancelled == s.run.cancelled && i < |items|
    requires t.done == s.done[i := r]
    requires r != FAILED && !cfg.dryRun ==> InPlace(cfg, items[i], s.tree)
    ensures Kept(items, cfg, t)
  {
    hide GoodTree, InPlace;
  }

  lemma NextKeepsInv(items: seq<Item>, cfg: Config, s: World, e: Event)
    requires GoodSource(items) && Inv(items, cfg, s)
    ensures Inv(items, cfg, Next(items, cfg, s, e))
  {
    var n := |items|;
    hide Workers.Balanced, Workers.Shape, Books, Kept, MayReport, Clear, GoodSource, WithParents;
    match e
    case Take(w) => TakeKeepsInv(items, cfg, s, w);
    case Rename(w, file) =>
      if Next(items, cfg, s, e) != s {
        ChangeKeeps(items, cfg, s, w, Leaf(file));
        SameBooks(n, s, Next(items, cfg, s, e));
      }
    case Mkdir(w) =>
      if Next(items, cfg, s, e) != s {
        ChangeKeeps(items, cfg, s, w, Dir);
        SameBooks(n, s, Next(items, cfg, s, e));
      }
    case Report(w, t, u, putFailed, seen) => ReportKeepsInv(items, cfg, s, w, t, u, putFailed, seen);
    case Add(w, part) =>
      Workers.NextKeepsInv(s.run, Workers.Add(w, part), n);
      SameBooks(n, s, Next(items, cfg, s, e));
      SameKept(items, cfg, s, Next(items, cfg, s, e));
    case Cancel =>
      Workers.NextKeepsInv(s.run, Workers.Cancel, n);
      SameBooks(n, s, Next(items, cfg, s, e));
      SameKept(items, cfg, s, Next(items, cfg, s, e));
  }

  lemma SameKept(items: seq<Item>, cfg: Config, s: World, t: World)
    requires Kept(items, cfg, s) && t.tree == s.tree && t.done == s.done && (s.run.cancelled ==> t.run.cancelled)
    ensures Kept(items, cfg, t)
  {
    hide GoodTree, InPlace;
  }

  lemma CancelledKept(items: seq<Item>, cfg: Config, s: World, t: World)
    requires Kept(items, cfg, s) && t.tree == s.tree && t.run.cancelled
    ensures Kept(items, cfg, t)
  {}

  /** What the counters' machine makes of the two steps that concern entries. */
  lemma TakeIs(run: Workers.World, w: nat)
    requires Workers.Idle(run, w) && run.queue > 0
    ensures var next := Workers.Next(run, Workers.Take(w));
            && next.queue == run.queue - 1 && next.cancelled == run.cancelled && w !in run.busy
            && next.busy == (if run.cancelled then run.busy else run.busy + {w})
            && next.results == if run.cancelled then run.results + [SKIPPED] else run.results
  {
    hide Workers.Plus;
  }

  lemma FinishIs(run: Workers.World, w: nat, t: Tally)
    requires w in run.busy && w < |run.pending| && OneOutcome(t)
    ensures var next := Workers.Next(run, Workers.Finish(w, t));
            && next.queue == run.queue && next.cancelled == run.cancelled
            && next.busy == run.busy - {w} && next.results == run.results + [t]
  {
    hide OneOutcome;
  }

  lemma TakeNext(items: seq<Item>, cfg: Config, s: World, w: nat)
    requires Workers.Idle(s.run, w) && 0 < s.run.queue <= |items|
    ensures var i, run := |items| - s.run.queue, Workers.Next(s.run, Workers.Take(w));
            Next(items, cfg, s, Take(w)) ==
            if s.run.cancelled then s.(run := run, done := s.done[i := SKIPPED])
            else s.(run := run, at := s.at[w := i], looked := s.looked[w := FileAt(s.tree, items[i].route)])
  {
    hide Workers.Next, FileAt;
  }

  lemma TakeKeepsInv(items: seq<Item>, cfg: Config, s: World, w: nat)
    requires GoodSource(items) && Inv(items, cfg, s)
    ensures Inv(items, cfg, Next(items, cfg, s, Take(w)))
  {
    var n, t, run := |items|, Next(items, cfg, s, Take(w)), Workers.Next(s.run, Workers.Take(w));
    hide Workers.Inv, Workers.Next, Workers.Idle, Books, Kept, GoodSource, FileAt;
    Workers.NextKeepsInv(s.run, Workers.Take(w), n);
    if Workers.Idle(s.run, w) && 0 < s.run.queue <= n {
      TakeIs(s.run, w);
      TakeNext(items, cfg, s, w);
      hide Next;
      if s.run.cancelled {
        SkipBooks(n, s, run, SKIPPED);
        CancelledKept(items, cfg, s, t);
      } else {
        var p := FileAt(s.tree, items[n - s.run.queue].route);
        TakeBooks(n, s, w, run, s.looked[w := p]);
        SameKept(items, cfg, s, t);
      }
    }
  }

  lemma ReportKeepsInv(items: seq<Item>, cfg: Config, s: World, w: nat, t: Tally, u: Engine.Setup, putFailed: bool,
                       seen: Bytes)
    requires GoodSource(items) && Inv(items, cfg, s)
    ensures Inv(items, cfg, Next(items, cfg, s, Report(w, t, u, putFailed, seen)))
  {
    var n, y := |items|, Next(items, cfg, s, Report(w, t, u, putFailed, seen));
    hide Workers.Inv, Workers.Next, Books, Kept, GoodSource, MayReport;
    if y != s {
      var i, before := s.at[w], s.looked[w];
      hide Next;
      ReportIsOutcome(cfg, items[i], t, u, putFailed, seen, before, s.tree);
      if t != FAILED && !cfg.dryRun { SettledIsInPlace(cfg, items[i], t, u, putFailed, seen, before, s.tree); }
      Workers.NextKeepsInv(s.run, Workers.Finish(w, t), n);
      FinishIs(s.run, w, t);
      ReportBooks(n, s, w, y.run, t);
      ReportKeeps(items, cfg, s, y, i, t);
    }
  }

  lemma {:induction false} RunKeepsInv(items: seq<Item>, cfg: Config, workers: nat, tree: Nodes, events: seq<Event>)
    requires GoodSource(items) && GoodTree(tree)
    ensures Inv(items, cfg, Run(items, cfg, Start(items, workers, tree), events))
  {
    if events == [] {
      Workers.StartInv(|items|, workers);
      hide Workers.Inv, GoodTree, GoodSource;
    } else {
      hide Inv, Next, GoodTree, GoodSource;
      RunKeepsInv(items, cfg, workers, tree, events[..|events| - 1]);
      NextKeepsInv(items, cfg, Run(items, cfg, Start(items, workers, tree), events[..|events| - 1]),
                   events[|events| - 1]);
    }
  }

  // ---------------------------------------------------------------- the join

  /** Over any interleaving of any number of workers, whatever fails on the way: a run that
      joins uncancelled with no failed entry has put every entry of the source in place. With
      content comparison on, every source file is there byte for byte. */
  lemma CleanRunSyncs(items: seq<Item>, cfg: Config, workers: nat, tree: Nodes, events: seq<Event>)
    requires GoodSource(items) && GoodTree(tree) && !cfg.dryRun
    ensures var s := Run(items, cfg, Start(items, workers, tree), events);
            Workers.Joined(s.run) && !s.run.cancelled && s.run.stats.failed == 0 ==>
              GoodTree(s.tree) && forall i :: 0 <= i < |items| ==> InPlace(cfg, items[i], s.tree)
  {
    hide *;
    var s := Run(items, cfg, Start(items, workers, tree), events);
    RunKeepsInv(items, cfg, workers, tree, events);
    if Workers.Joined(s.run) && !s.run.cancelled && s.run.stats.failed == 0 { JoinedSyncs(items, cfg, s); }
  }

  lemma JoinedSyncs(items: seq<Item>, cfg: Config, s: World)
    requires Inv(items, cfg, s) && !cfg.dryRun
    requires Workers.Joined(s.run) && !s.run.cancelled && s.run.stats.failed == 0
    ensures GoodTree(s.tree) && forall i :: 0 <= i < |items| ==> InPlace(cfg, items[i], s.tree)
  {
    hide InPlace, GoodTree, Workers.Balanced, Workers.Joined;
    Workers.JoinedMeans(s.run, |items|);
    NobodyAtWork(s, |items|);
  }

  lemma NobodyAtWork(s: World, n: nat)
    requires Books(n, s) && Workers.Joined(s.run)
    requires forall w :: w in s.run.busy ==> w < |s.run.pending|
    ensures forall i :: 0 <= i < n ==> i in s.done && s.done[i] in s.run.results
  {
    assert forall w :: w in s.run.busy ==> !Workers.Idle(s.run, w);
    assert s.run.busy == {};
  }

  // ---------------------------------------------------------------- a run that joins clean

  /** No file of the destination stands where the source has a directory, and none of its
      directories where the source has a file. */
  ghost predicate Unblocked(items: seq<Item>, tree: Nodes) { forall q :: q in tree ==> Fits(items, q, tree[q]) }

  ghost predicate Fits(items: seq<Item>, q: Route, node: Node) {
    forall i :: 0 <= i < |items| ==>
      && (q != [] && Under(items[i].route, q) ==> node.Dir?)
      && (q == items[i].route ==> (node.Leaf? <==> items[i].Regular?))
  }

  function SetupFor(cfg: Config, item: Item, gear: Chunker.GearTable): Engine.Setup {
    var meta := if item.Regular? then Meta("", |item.file.content|, item.file.modNano) else Meta("", 0, 0);
    Engine.Setup(cfg, meta, map[], Ranges.CodecNone, 0, gear, true)
  }

  function ResultOf(item: Item): Tally { if item.Regular? then COPIED else HANDLED }

  /** A worker brings one entry across. */
  function OneItem(cfg: Config, item: Item, gear: Chunker.GearTable): seq<Event> {
    var seen := if item.Regular? then item.file.content else [];
    [Take(0), if item.Regular? then Rename(0, item.file) else Mkdir(0),
     Report(0, ResultOf(item), SetupFor(cfg, item, gear), false, seen), Add(0, ResultOf(item))]
  }

  function AllItems(cfg: Config, items: seq<Item>, gear: Chunker.GearTable, k: nat): seq<Event>
    requires k <= |items|
  {
    if k == 0 then [] else AllItems(cfg, items, gear, k - 1) + OneItem(cfg, items[k - 1], gear)
  }

  function Results(items: seq<Item>, k: nat): seq<Tally>
    requires k <= |items|
  {
    if k == 0 then [] else Results(items, k - 1) + [ResultOf(items[k - 1])]
  }

  /** The first k entries are done and nothing is under way. */
  ghost predicate Between(items: seq<Item>, s: World, workers: nat, k: nat)
    requires k <= |items|
  {
    && Workers.Quiet(s.run, |items| - k, workers, Results(items, k)) && !s.run.cancelled
    && s.at == map[] && Unblocked(items, s.tree)
  }

  /** Where the source has an entry, a tree that is not blocked takes it, and stays so. */
  lemma TakesEntry(items: seq<Item>, tree: Nodes, k: nat)
    requires GoodSource(items) && Unblocked(items, tree) && k < |items|
    ensures var p := items[k].route;
            && Clear(tree, p)
            && (p in tree ==> (tree[p].Leaf? <==> items[k].Regular?))
            && Unblocked(items, WithParents(tree, p)[p := if items[k].Regular? then Leaf(items[k].file) else Dir])
  {
    var p := items[k].route;
    forall j | 0 < j < |p| && p[..j] in tree ensures tree[p[..j]].Dir? {
      assert Fits(items, p[..j], tree[p[..j]]) && Under(p, p[..j]);
    }
    if p in tree { assert Fits(items, p, tree[p]); }
    var node := if items[k].Regular? then Leaf(items[k].file) else Dir;
    var t := WithParents(tree, p)[p := node];
    NodeFits(items, k, node);
    hide Fits, GoodSource, Clear;
    forall q | q in t ensures Fits(items, q, t[q]) {
      if q != p && q !in tree { ParentFits(items, k, q); }
    }
  }

  lemma NodeFits(items: seq<Item>, k: nat, node: Node)
    requires GoodSource(items) && k < |items| && (node.Leaf? <==> items[k].Regular?)
    ensures Fits(items, items[k].route, node)
  {
    var q := items[k].route;
    forall i | 0 <= i < |items| && q != [] && Under(items[i].route, q) ensures node.Dir? {
      assert Directory(items[i].route[..|q|]) in items;
    }
  }

  lemma ParentFits(items: seq<Item>, k: nat, q: Route)
    requires GoodSource(items) && k < |items| && 0 < |q| < |items[k].route| && q == items[k].route[..|q|]
    ensures Fits(items, q, Dir)
  {
    assert Directory(items[k].route[..|q|]) in items;
  }

  lemma RunOne(items: seq<Item>, cfg: Config, s: World, events: seq<Event>, e: Event)
    ensures Run(items, cfg, s, events + [e]) == Next(items, cfg, Run(items, cfg, s, events), e)
  {
    hide Next;
    assert (events + [e])[..|events|] == events;
  }

  lemma RunFour(items: seq<Item>, cfg: Config, s: World, events: seq<Event>, a: Event, b: Event, c: Event, d: Event)
    ensures var two := Next(items, cfg, Next(items, cfg, Run(items, cfg, s, events), a), b);
            Run(items, cfg, s, events + [a, b, c, d]) == Next(items, cfg, Next(items, cfg, two, c), d)
  {
    hide *;
    RunOne(items, cfg, s, events, a);
    RunOne(items, cfg, s, events + [a], b);
    RunOne(items, cfg, s, events + [a] + [b], c);
    RunOne(items, cfg, s, events + [a] + [b] + [c], d);
    assert events + [a] + [b] + [c] + [d] == events + [a, b, c, d];
  }

  lemma TakeOne(items: seq<Item>, cfg: Config, s: World, workers: nat, k: nat)
    requires k < |items| && Between(items, s, workers, k) && 0 < workers
    ensures var t := Next(items, cfg, s, Take(0));
            && t.run == Workers.Next(s.run, Workers.Take(0)) && t.tree == s.tree
            && t.at == map[0 := k] && 0 in t.looked
            && 0 in t.run.busy && !t.run.cancelled && 0 < |t.run.pending|
  {
    hide Unblocked, Results, Workers.Sum, FileAt;
    assert Workers.Idle(s.run, 0);
  }

  lemma PlaceOne(items: seq<Item>, cfg: Config, s: World, k: nat)
    requires k < |items| && GoodSource(items) && Unblocked(items, s.tree) && s.at == map[0 := k] && !cfg.dryRun
    ensures var t := Next(items, cfg, s, if items[k].Regular? then Rename(0, items[k].file) else Mkdir(0));
            && t == s.(tree := t.tree) && Unblocked(items, t.tree)
            && items[k].route in t.tree
            && t.tree[items[k].route] == if items[k].Regular? then Leaf(items[k].file) else Dir
  {
    TakesEntry(items, s.tree, k);
    hide Unblocked, GoodSource, Clear, WithParents;
  }

  lemma ReportOne(items: seq<Item>, cfg: Config, s: World, k: nat, gear: Chunker.GearTable, seen: Bytes)
    requires k < |items| && s.at == map[0 := k] && 0 in s.looked && 0 in s.run.busy && 0 < |s.run.pending|
    requires !cfg.dryRun && items[k].route in s.tree
    requires s.tree[items[k].route] == if items[k].Regular? then Leaf(items[k].file) else Dir
    requires items[k].Regular? ==> seen == items[k].file.content
    ensures var t := ResultOf(items[k]);
            var z := Next(items, cfg, s, Report(0, t, SetupFor(cfg, items[k], gear), false, seen));
            && z.run == Workers.Next(s.run, Workers.Finish(0, t)) && z.tree == s.tree && z.at == map[]
  {
    hide Workers.Next;
    var t := ResultOf(items[k]);
    assert MayReport(cfg, items[k], t, SetupFor(cfg, items[k], gear), false, seen, s.looked[0], s.tree);
    assert map[0 := k] - {0} == map[];
  }

  lemma ItemRun(items: seq<Item>, cfg: Config, s: World, workers: nat, k: nat, gear: Chunker.GearTable,
                s0: World, events: seq<Event>)
    requires k < |items| && GoodSource(items) && 0 < workers && !cfg.dryRun
    requires s == Run(items, cfg, s0, events) && Between(items, s, workers, k)
    ensures Between(items, Run(items, cfg, s0, events + OneItem(cfg, items[k], gear)), workers, k + 1)
  {
    var item, t := items[k], ResultOf(items[k]);
    var e := OneItem(cfg, item, gear);
    assert OneOutcome(t);
    BetweenIs(items, s, workers, k);
    hide *;
    OneItemIs(cfg, item, gear);
    RunFour(items, cfg, s0, events, e[0], e[1], e[2], e[3]);
    TakeOne(items, cfg, s, workers, k);
    var a := Next(items, cfg, s, e[0]);
    PlaceOne(items, cfg, a, k);
    var b := Next(items, cfg, a, e[1]);
    ReportOne(items, cfg, b, k, gear, if item.Regular? then item.file.content else []);
    var c := Next(items, cfg, b, e[2]);
    AddOne(items, cfg, c, t);
    Workers.TakenAndCounted(s.run, |items| - k - 1, workers, Results(items, k), t);
    Workers.NotCancelled(s.run, 0, t);
    ResultsNext(items, k);
    BetweenIs(items, Next(items, cfg, c, e[3]), workers, k + 1);
  }

  lemma BetweenIs(items: seq<Item>, s: World, workers: nat, k: nat)
    requires k <= |items|
    ensures Between(items, s, workers, k) <==>
            Workers.Quiet(s.run, |items| - k, workers, Results(items, k)) && !s.run.cancelled && s.at == map[]
            && Unblocked(items, s.tree)
  {}

  lemma OneItemIs(cfg: Config, item: Item, gear: Chunker.GearTable)
    ensures OneItem(cfg, item, gear) ==
            [Take(0), if item.Regular? then Rename(0, item.file) else Mkdir(0),
             Report(0, ResultOf(item), SetupFor(cfg, item, gear), false,
                    if item.Regular? then item.file.content else []),
             Add(0, ResultOf(item))]
  {}

  lemma AddOne(items: seq<Item>, cfg: Config, s: World, t: Tally)
    ensures Next(items, cfg, s, Add(0, t)) == s.(run := Workers.Next(s.run, Workers.Add(0, t)))
  {
    hide Workers.Next;
  }

  lemma ResultsNext(items: seq<Item>, k: nat)
    requires k < |items|
    ensures Results(items, k + 1) == Results(items, k) + [ResultOf(items[k])]
  {}

  lemma {:induction false} ItemsRun(items: seq<Item>, cfg: Config, workers: nat, tree: Nodes, gear: Chunker.GearTable,
                                    k: nat)
    requires k <= |items| && GoodSource(items) && 0 < workers && !cfg.dryRun && Unblocked(items, tree)
    ensures Between(items, Run(items, cfg, Start(items, workers, tree), AllItems(cfg, items, gear, k)), workers, k)
  {
    if k == 0 {
      hide Workers.Start, Workers.Quiet, Unblocked;
      Workers.StartIsQuiet(|items|, workers);
    } else {
      ItemsRun(items, cfg, workers, tree, gear, k - 1);
      hide GoodSource, Next, Start, OneItem, Between, Unblocked, Run;
      var s0, events := Start(items, workers, tree), AllItems(cfg, items, gear, k - 1);
      ItemRun(items, cfg, Run(items, cfg, s0, events), workers, k - 1, gear, s0, events);
    }
  }

  lemma {:induction false} NoneFailed(items: seq<Item>, k: nat)
    requires k <= |items|
    ensures Workers.Sum(Results(items, k)).failed == 0
  {
    if k > 0 {
      NoneFailed(items, k - 1);
      Workers.SumPush(Results(items, k - 1), ResultOf(items[k - 1]));
      hide Workers.Sum;
    }
  }

  /** There is such a run from every destination that no file or directory of the wrong kind
      blocks: it joins, and then, by CleanRunSyncs, the source is in place. */
  lemma CleanRunExists(items: seq<Item>, cfg: Config, workers: nat, tree: Nodes, gear: Chunker.GearTable)
    requires GoodSource(items) && GoodTree(tree) && 0 < workers && !cfg.dryRun && Unblocked(items, tree)
    ensures var s := Run(items, cfg, Start(items, workers, tree), AllItems(cfg, items, gear, |items|));
            && Workers.Joined(s.run) && !s.run.cancelled && s.run.stats.failed == 0
            && GoodTree(s.tree) && forall i :: 0 <= i < |items| ==> InPlace(cfg, items[i], s.tree)
  {
    hide *;
    var s := Run(items, cfg, Start(items, workers, tree), AllItems(cfg, items, gear, |items|));
    ItemsRun(items, cfg, workers, tree, gear, |items|);
    BetweenIs(items, s, workers, |items|);
    Workers.QuietJoins(s.run, 0, workers, Results(items, |items|));
    NoneFailed(items, |items|);
    CleanRunSyncs(items, cfg, workers, tree, AllItems(cfg, items, gear, |items|));
  }

  // ---------------------------------------------------------------- the deletion

  function RulesFor(items: seq<Item>, excluded: Route -> bool, hidden: Route -> bool): Rules {
    Rules(set i | 0 <= i < |items| :: items[i].route, excluded, hidden)
  }

  /** Excluded or hidden, or a directory above something that is. */
  ghost predicate Guarded(tree: Nodes, excluded: Route -> bool, hidden: Route -> bool, p: Route) {
    excluded(p) || hidden(p) || exists q :: q in tree && (excluded(q) || hidden(q)) && Under(q, p)
  }

  function Restricted(tree: Nodes, entries: Entries): Nodes { map p | p in tree && p in entries :: tree[p] }

  ghost predicate InSource(items: seq<Item>, p: Route) { exists i :: 0 <= i < |items| && items[i].route == p }

  /** A directory above a source entry is a source entry. */
  lemma AboveIsInSource(items: seq<Item>, q: Route, p: Route)
    requires GoodSource(items) && InSource(items, q) && Under(q, p) && p != []
    ensures InSource(items, p)
  {
    var i :| 0 <= i < |items| && items[i].route == q;
    var d := Directory(items[i].route[..|p|]);
    assert d in items;
    var j :| 0 <= j < |items| && items[j] == d;
    assert items[j].route == p;
  }

  /** What the deletion rules let stay is the source, and what is guarded. */
  lemma StaysIff(items: seq<Item>, tree: Nodes, excluded: Route -> bool, hidden: Route -> bool, p: Route)
    requires GoodSource(items) && GoodTree(tree) && p in tree
    ensures Stays(Shape(tree), RulesFor(items, excluded, hidden), p) <==>
            InSource(items, p) || Guarded(tree, excluded, hidden, p)
  {
    var r, t := RulesFor(items, excluded, hidden), Shape(tree);
    assert p in r.keep <==> InSource(items, p);
    assert p != [];
    assert forall q :: q in r.keep <==> InSource(items, q);
    forall q | InSource(items, q) && Under(q, p) ensures InSource(items, p) { AboveIsInSource(items, q, p); }
    hide InSource, GoodSource;
    if Guarded(tree, excluded, hidden, p) && !Spared(r, p) {
      var q :| q in tree && (excluded(q) || hidden(q)) && Under(q, p);
      assert q in t && Spared(r, q);
    }
  }

  lemma SourceStays(items: seq<Item>, cfg: Config, tree: Nodes, entries: Entries, excluded: Route -> bool,
                    hidden: Route -> bool, i: nat)
    requires i < |items| && InPlace(cfg, items[i], tree)
    requires Safe(Shape(tree), entries, RulesFor(items, excluded, hidden))
    ensures InPlace(cfg, items[i], Restricted(tree, entries)) && items[i].route in tree
  {
    var p := items[i].route;
    assert p in tree && p in RulesFor(items, excluded, hidden).keep;
    assert Stays(Shape(tree), RulesFor(items, excluded, hidden), p);
  }

  /** deleteExtras after a clean run: whatever fails in it, every entry of the source stays in
      place; and if nothing fails, the destination is the source, the excluded and hidden
      entries, and the directories above those. */
  method DeleteAfterRun(items: seq<Item>, cfg: Config, workers: nat, ghost tree: Nodes, ghost events: seq<Event>,
                        dst: Target, excluded: Route -> bool, hidden: Route -> bool, calm: bool)
    returns (n: nat, ok: bool, ghost left: Nodes)
    requires GoodSource(items) && GoodTree(tree)
    requires var s := Run(items, cfg, Start(items, workers, tree), events);
             Workers.Deletes(s.run, true, true, cfg.dryRun) && dst.entries == Shape(s.tree)
    modifies dst
    ensures var s := Run(items, cfg, Start(items, workers, tree), events);
            left == Restricted(s.tree, dst.entries) && Shape(left) == dst.entries && n == |s.tree| - |left|
    ensures forall i :: 0 <= i < |items| ==> InPlace(cfg, items[i], left)
    ensures calm ==>
      var s := Run(items, cfg, Start(items, workers, tree), events);
      && ok
      && forall p :: p in left <==> InSource(items, p) || (p in s.tree && Guarded(s.tree, excluded, hidden, p))
  {
    ghost var s := Run(items, cfg, Start(items, workers, tree), events);
    CleanRunSyncs(items, cfg, workers, tree, events);
    hide *;
    DeletesMeans(s.run, cfg.dryRun);
    GoodIsTree(s.tree);
    n, ok := DeleteExtras(dst, RulesFor(items, excluded, hidden), calm);
    left := Restricted(s.tree, dst.entries);
    RestrictedIs(s.tree, dst.entries, RulesFor(items, excluded, hidden));
    forall i | 0 <= i < |items| ensures InPlace(cfg, items[i], left) && items[i].route in s.tree {
      SourceStays(items, cfg, s.tree, dst.entries, excluded, hidden, i);
    }
    if calm {
      forall p ensures p in left <==> InSource(items, p) || (p in s.tree && Guarded(s.tree, excluded, hidden, p)) {
        SourceIsThere(items, s.tree, p);
        if p in s.tree { StaysIff(items, s.tree, excluded, hidden, p); }
      }
    }
  }

  lemma DeletesMeans(run: Workers.World, dryRun: bool)
    requires Workers.Deletes(run, true, true, dryRun)
    ensures Workers.Joined(run) && !run.cancelled && run.stats.failed == 0 && !dryRun
  {}

  lemma GoodIsTree(tree: Nodes)
    ensures GoodTree(tree) <==> IsTree(Shape(tree))
    ensures |Shape(tree)| == |tree|
  {
    assert Shape(tree).Keys == tree.Keys;
    assert |Shape(tree).Keys| == |Shape(tree)| && |tree.Keys| == |tree|;
    hide IsTree;
  }

  lemma RestrictedIs(tree: Nodes, entries: Entries, r: Rules)
    requires Safe(Shape(tree), entries, r)
    ensures var left := Restricted(tree, entries);
            && Shape(left) == entries && |left| == |entries|
            && forall p :: p in left <==> p in entries
    ensures forall p :: p in entries ==> p in tree
    ensures forall p :: p in Shape(tree) <==> p in tree
  {
    var left := Restricted(tree, entries);
    assert Shape(left) == entries;
    GoodIsTree(left);
  }

  lemma SourceIsThere(items: seq<Item>, tree: Nodes, p: Route)
    requires forall i :: 0 <= i < |items| ==> items[i].route in tree
    ensures InSource(items, p) ==> p in tree
  {}
}
