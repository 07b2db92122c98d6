/** internal/engine/engine.go, deleteExtras: removing what the source does not have. */
module Mirror {

  /** A path by its components. */
  type Route = seq<string>

  /** A destination tree: true marks a directory. */
  type Entries = map<Route, bool>

  datatype Listed = Listed(path: Route, isDir: bool)

  /** What the source has, what the exclude patterns match, and what Walk never lists. */
  datatype Rules = Rules(keep: set<Route>, excluded: Route -> bool, hidden: Route -> bool)

  predicate Under(q: Route, p: Route) { |p| < |q| && q[..|p|] == p }

  /** Every entry lies in a chain of directories. */
  ghost predicate WellFormed(t: Entries) {
    forall q, k :: q in t && 0 < k < |q| ==> q[..k] in t && t[q[..k]]
  }

  predicate Spared(r: Rules, p: Route) { p in r.keep || r.excluded(p) || r.hidden(p) }

  /** Spared itself, or an ancestor of something spared. */
  ghost predicate Stays(t: Entries, r: Rules, p: Route) {
    Spared(r, p) || exists q :: q in t && Spared(r, q) && Under(q, p)
  }

  predicate Empty(t: Entries, p: Route) { forall q :: q in t ==> !Under(q, p) }

  class Target {
    var entries: Entries

    /** Remove fails on a directory that is not empty, and may fail when not calm. */
    method Remove(p: Route, calm: bool) returns (ok: bool)
      modifies this
      ensures ok ==> p in old(entries) && Empty(old(entries), p) && entries == old(entries) - {p}
      ensures !ok ==> entries == old(entries)
      ensures calm && p in old(entries) && Empty(old(entries), p) ==> ok
    {
      hide Empty;
      var fails: bool := *;
      fails := fails && !calm;
      if fails || p !in entries || !Empty(entries, p) { return false; }
      entries := entries - {p};
      return true;
    }

    /** Walk lists everything that is not hidden, once. */
    method Walk(hidden: Route -> bool) returns (files: seq<Listed>)
      ensures Lists(entries, hidden, files)
    {
      files := [];
      var rest := set p | p in entries && !hidden(p);
      while rest != {}
        invariant rest <= set p | p in entries && !hidden(p)
        invariant forall i :: 0 <= i < |files| ==> files[i].path !in rest && ListedAs(entries, hidden, files[i])
        invariant forall p :: p in entries && !hidden(p) ==> p in rest || Listed(p, entries[p]) in files
        invariant forall i, j :: 0 <= i < j < |files| ==> files[i].path != files[j].path
        decreases rest
      {
        var p :| p in rest;
        rest := rest - {p};
        files := files + [Listed(p, entries[p])];
      }
    }
  }

  /** A failing walk or a cancelled context: possible at any time, unless all is calm. */
  method Trouble(calm: bool) returns (c: bool)
    ensures calm ==> !c
  {
    c := *;
    c := c && !calm;
  }

  predicate ListedAs(t: Entries, hidden: Route -> bool, f: Listed) {
    f.path in t && !hidden(f.path) && f.isDir == t[f.path]
  }

  ghost predicate Lists(t: Entries, hidden: Route -> bool, files: seq<Listed>) {
    && (forall i :: 0 <= i < |files| ==> ListedAs(t, hidden, files[i]))
    && (forall p :: p in t && !hidden(p) ==> Listed(p, t[p]) in files)
    && (forall i, j :: 0 <= i < j < |files| ==> files[i].path != files[j].path)
  }

  // ---------------------------------------------------------------- the sort

  ghost predicate DeepestFirst(s: seq<Listed>) {
    forall i, j :: 0 <= i < j < |s| ==> |s[i].path| >= |s[j].path|
  }

  lemma InsertedInOrder(s: seq<Listed>, f: Listed, i: nat)
    requires DeepestFirst(s) && i <= |s| && (i < |s| ==> |s[i].path| < |f.path|)
    requires forall k :: 0 <= k < i ==> |s[k].path| >= |f.path|
    ensures DeepestFirst(s[..i] + [f] + s[i..])
  {
    var r := s[..i] + [f] + s[i..];
    forall a, b | 0 <= a < b < |r| ensures |r[a].path| >= |r[b].path| {
      if a < i { assert r[a] == s[a]; }
      if b > i { assert r[b] == s[b - 1]; }
    }
  }

  method Insert(s: seq<Listed>, f: Listed) returns (r: seq<Listed>)
    requires DeepestFirst(s)
    ensures DeepestFirst(r) && multiset(r) == multiset(s) + multiset{f}
  {
    var i := 0;
    while i < |s| && |s[i].path| >= |f.path|
      invariant i <= |s|
      invariant forall k :: 0 <= k < i ==> |s[k].path| >= |f.path|
    {
      i := i + 1;
    }
    r := s[..i] + [f] + s[i..];
    assert s == s[..i] + s[i..];
    InsertedInOrder(s, f, i);
    hide DeepestFirst;
  }

  /** sort.Slice by depth. Only the order of depths is relied on: the sort is not stable. */
  method SortByDepth(s: seq<Listed>) returns (r: seq<Listed>)
    ensures DeepestFirst(r) && multiset(r) == multiset(s)
  {
    r := [];
    for i := 0 to |s|
      invariant DeepestFirst(r) && multiset(r) == multiset(s[..i])
    {
      assert s[..i + 1] == s[..i] + [s[i]];
      r := Insert(r, s[i]);
    }
    assert s[..|s|] == s;
  }

  lemma SortedElements(s: seq<Listed>, r: seq<Listed>)
    requires multiset(r) == multiset(s)
    ensures forall f :: f in r <==> f in s
  {
    forall f ensures f in r <==> f in s {
      assert f in multiset(r) <==> f in r;
      assert f in multiset(s) <==> f in s;
    }
  }

  // ---------------------------------------------------------------- what is removed

  /** Nothing that stays is gone, and nothing is new. */
  ghost predicate Safe(t0: Entries, t: Entries, r: Rules) {
    && (forall p :: p in t ==> p in t0 && t[p] == t0[p])
    && (forall p :: p in t0 && Stays(t0, r, p) ==> p in t)
  }

  /** Of what has been handled, exactly what stays is left. */
  ghost predicate Handled(t: Entries, t0: Entries, r: Rules, done: set<Route>) {
    forall p :: p in t0 && p in done && !Stays(t0, r, p) ==> p !in t
  }

  ghost predicate Unhandled(t: Entries, t0: Entries, done: set<Route>) {
    forall p :: p in t0 && p !in done ==> p in t
  }

  /** A directory on the way to something spared is never empty. */
  lemma StayingNotEmpty(t0: Entries, t: Entries, r: Rules, p: Route)
    requires Safe(t0, t, r) && Stays(t0, r, p) && !Spared(r, p)
    ensures !Empty(t, p)
  {
    var q :| q in t0 && Spared(r, q) && Under(q, p);
    assert Stays(t0, r, q);
    assert q in t && Under(q, p);
  }

  lemma StaysUpwards(t0: Entries, r: Rules, q: Route, p: Route)
    ensures q in t0 && Stays(t0, r, q) && Under(q, p) ==> Stays(t0, r, p)
  {
    if q in t0 && Stays(t0, r, q) && Under(q, p) && !Spared(r, q) {
      var z :| z in t0 && Spared(r, z) && Under(z, q);
      assert z[..|p|] == z[..|q|][..|p|];
      assert Under(z, p);
    }
  }

  /** Once everything deeper is handled, what does not stay is empty. */
  lemma GoingIsEmpty(t0: Entries, t: Entries, r: Rules, done: set<Route>, p: Route)
    requires Safe(t0, t, r) && Handled(t, t0, r, done) && !Stays(t0, r, p)
    requires forall q :: q in t0 && Under(q, p) ==> q in done || Spared(r, q)
    ensures Empty(t, p)
  {
    forall q | q in t ensures !Under(q, p) { StaysUpwards(t0, r, q, p); }
  }

  /** Nothing lies under a file. */
  lemma NothingUnderFiles(t: Entries, p: Route)
    requires WellFormed(t) && p in t && !t[p] && p != []
    ensures forall q :: q in t ==> !Under(q, p)
  {
    forall q | q in t ensures !Under(q, p) {
      assert |p| < |q| ==> q[..|p|] in t && t[q[..|p|]];
    }
  }

  lemma RemovedIsSafe(t0: Entries, t: Entries, r: Rules, p: Route)
    requires Safe(t0, t, r) && !Spared(r, p) && Empty(t, p)
    ensures Safe(t0, t - {p}, r)
  {
    if Stays(t0, r, p) { StayingNotEmpty(t0, t, r, p); }
    hide Stays;
  }

  lemma OneFewer(t: Entries, p: Route)
    requires p in t
    ensures |t - {p}| == |t| - 1
  {
    assert (t - {p}).Keys == t.Keys - {p};
    assert |t.Keys| == |t| && |(t - {p}).Keys| == |t - {p}|;
  }

  ghost function Paths(s: seq<Listed>, k: nat): set<Route>
    requires k <= |s|
  {
    set i | 0 <= i < k :: s[i].path
  }

  ghost function FilePaths(s: seq<Listed>, k: nat): set<Route>
    requires k <= |s|
  {
    set i | 0 <= i < k && !s[i].isDir :: s[i].path
  }

  ghost predicate IsTree(t: Entries) { WellFormed(t) && [] !in t }

  /** A skipped or removed file keeps the account of what is handled. */
  lemma FileHandled(t0: Entries, t: Entries, r: Rules, files: seq<Listed>, i: nat)
    requires i < |files| && Handled(t, t0, r, FilePaths(files, i)) && Unhandled(t, t0, FilePaths(files, i))
    ensures Unhandled(t, t0, FilePaths(files, i + 1))
    ensures files[i].isDir || Stays(t0, r, files[i].path) ==> Handled(t, t0, r, FilePaths(files, i + 1))
    ensures !files[i].isDir ==>
      Handled(t - {files[i].path}, t0, r, FilePaths(files, i + 1))
      && Unhandled(t - {files[i].path}, t0, FilePaths(files, i + 1))
  {
    hide Stays;
  }

  lemma FileIsRemovable(t0: Entries, t: Entries, r: Rules, files: seq<Listed>, i: nat)
    requires i < |files| && !files[i].isDir && IsTree(t0) && Lists(t0, r.hidden, files)
    requires Safe(t0, t, r) && Unhandled(t, t0, FilePaths(files, i))
    ensures files[i].path in t && Empty(t, files[i].path)
  {
    assert ListedAs(t0, r.hidden, files[i]);
    NothingUnderFiles(t0, files[i].path);
    hide Stays, Under;
  }

  lemma SparedStays(t0: Entries, r: Rules, p: Route)
    ensures Spared(r, p) ==> Stays(t0, r, p)
  {}

  /** The first loop: files, in the order of the walk; an error ends it. */
  method RemoveFiles(dst: Target, r: Rules, files: seq<Listed>, calm: bool) returns (n: nat, ok: bool)
    requires IsTree(dst.entries) && Lists(dst.entries, r.hidden, files)
    modifies dst
    ensures Safe(old(dst.entries), dst.entries, r) && n == |old(dst.entries)| - |dst.entries|
    ensures calm ==> ok && Handled(dst.entries, old(dst.entries), r, FilePaths(files, |files|))
  {
    ghost var t0 := dst.entries;
    n, ok := 0, true;
    assert Safe(t0, t0, r) && Handled(t0, t0, r, FilePaths(files, 0)) && Unhandled(t0, t0, FilePaths(files, 0));
    hide Safe, Handled, Unhandled, Stays, FilePaths, Lists, Empty, IsTree, WellFormed;
    for i := 0 to |files|
      invariant Safe(t0, dst.entries, r) && n == |t0| - |dst.entries|
      invariant calm ==> Handled(dst.entries, t0, r, FilePaths(files, i))
      invariant calm ==> Unhandled(dst.entries, t0, FilePaths(files, i))
    {
      var c := Trouble(calm);
      if c { return n, false; }
      var f := files[i];
      if calm { FileHandled(t0, dst.entries, r, files, i); }
      SparedStays(t0, r, f.path);
      if f.path in r.keep || r.excluded(f.path) || f.isDir { continue; }
      ghost var before := dst.entries;
      NotHidden(t0, r, files, i);
      if calm { FileIsRemovable(t0, before, r, files, i); }
      ok := dst.Remove(f.path, calm);
      if !ok { return; }
      RemovedIsSafe(t0, before, r, f.path);
      OneFewer(before, f.path);
      n := n + 1;
    }
  }

  lemma NotHidden(t0: Entries, r: Rules, files: seq<Listed>, i: nat)
    requires i < |files| && Lists(t0, r.hidden, files)
    ensures !r.hidden(files[i].path)
  {
    assert ListedAs(t0, r.hidden, files[i]);
  }

  /** Deepest first: when a directory's turn comes, everything under it has had its turn. */
  lemma DeeperIsDone(t0: Entries, r: Rules, files: seq<Listed>, sorted: seq<Listed>, i: nat, q: Route)
    requires i < |sorted| && DeepestFirst(sorted) && multiset(sorted) == multiset(files) && Lists(t0, r.hidden, files)
    requires q in t0 && Under(q, sorted[i].path)
    ensures q in Paths(sorted, i) || Spared(r, q)
  {
    if !r.hidden(q) {
      SortedElements(files, sorted);
      assert Listed(q, t0[q]) in sorted;
      var j :| 0 <= j < |sorted| && sorted[j] == Listed(q, t0[q]);
      assert j < i;
    }
  }

  lemma DirHandled(t0: Entries, t: Entries, t': Entries, r: Rules, files: seq<Listed>, sorted: seq<Listed>, i: nat,
                   ok: bool)
    requires i < |sorted| && DeepestFirst(sorted) && multiset(sorted) == multiset(files) && Lists(t0, r.hidden, files)
    requires Safe(t0, t, r) && Handled(t, t0, r, FilePaths(files, |files|) + Paths(sorted, i))
    requires if ok then t' == t - {sorted[i].path} else t' == t && !(sorted[i].path in t && Empty(t, sorted[i].path))
    ensures Handled(t', t0, r, FilePaths(files, |files|) + Paths(sorted, i + 1))
  {
    var p, done := sorted[i].path, FilePaths(files, |files|) + Paths(sorted, i);
    if !Stays(t0, r, p) {
      forall q | q in t0 && Under(q, p) ensures q in done || Spared(r, q) { DeeperIsDone(t0, r, files, sorted, i, q); }
      GoingIsEmpty(t0, t, r, done, p);
    }
    hide Stays, Empty, DeepestFirst, Lists, Safe, FilePaths;
  }

  lemma DirKept(t0: Entries, t: Entries, r: Rules, files: seq<Listed>, sorted: seq<Listed>, i: nat)
    requires i < |sorted| && Handled(t, t0, r, FilePaths(files, |files|) + Paths(sorted, i))
    requires Stays(t0, r, sorted[i].path) || sorted[i].path in FilePaths(files, |files|)
    ensures Handled(t, t0, r, FilePaths(files, |files|) + Paths(sorted, i + 1))
  {
    hide Stays, FilePaths;
  }

  /** The second loop: directories, deepest first; one that is not empty is left, and a
      cancellation ends it with an error. */
  method RemoveDirs(dst: Target, r: Rules, files: seq<Listed>, sorted: seq<Listed>, calm: bool, ghost t0: Entries,
                    n0: nat)
    returns (n: nat, ok: bool)
    requires DeepestFirst(sorted) && multiset(sorted) == multiset(files) && Lists(t0, r.hidden, files)
    requires Safe(t0, dst.entries, r) && n0 == |t0| - |dst.entries|
    requires calm ==> Handled(dst.entries, t0, r, FilePaths(files, |files|))
    modifies dst
    ensures Safe(t0, dst.entries, r) && n == |t0| - |dst.entries|
    ensures calm ==> ok
    ensures calm ==> Handled(dst.entries, t0, r, FilePaths(files, |files|) + Paths(sorted, |sorted|))
  {
    n, ok := n0, true;
    assert FilePaths(files, |files|) + Paths(sorted, 0) == FilePaths(files, |files|);
    hide Safe, Handled, Stays, FilePaths, Paths, Lists, Empty, DeepestFirst;
    for i := 0 to |sorted|
      invariant Safe(t0, dst.entries, r) && n == |t0| - |dst.entries|
      invariant calm ==> Handled(dst.entries, t0, r, FilePaths(files, |files|) + Paths(sorted, i))
    {
      var f := sorted[i];
      SparedStays(t0, r, f.path);
      ListedFile(t0, r, files, sorted, i);
      if !f.isDir {
        if calm { DirKept(t0, dst.entries, r, files, sorted, i); }
        continue;
      }
      var c := Trouble(calm);
      if c { return n, false; }
      if f.path in r.keep || r.excluded(f.path) {
        if calm { DirKept(t0, dst.entries, r, files, sorted, i); }
        continue;
      }
      ghost var before := dst.entries;
      var gone := dst.Remove(f.path, calm);
      if calm { DirHandled(t0, before, dst.entries, r, files, sorted, i, gone); }
      if !gone { continue; }
      RemovedIsSafe(t0, before, r, f.path);
      OneFewer(before, f.path);
      n := n + 1;
    }
  }

  lemma ListedFile(t0: Entries, r: Rules, files: seq<Listed>, sorted: seq<Listed>, i: nat)
    requires i < |sorted| && multiset(sorted) == multiset(files) && Lists(t0, r.hidden, files)
    ensures !r.hidden(sorted[i].path)
    ensures !sorted[i].isDir ==> sorted[i].path in FilePaths(files, |files|)
  {
    SortedElements(files, sorted);
    assert sorted[i] in files;
    var j :| 0 <= j < |files| && files[j] == sorted[i];
    assert ListedAs(t0, r.hidden, files[j]);
  }

  /** deleteExtras. Whatever fails, nothing spared and no directory above it is removed, and
      the result counts what is. If nothing fails, what is left is exactly the kept, excluded
      and hidden entries and the directories above them. */
  method DeleteExtras(dst: Target, r: Rules, calm: bool) returns (n: nat, ok: bool)
    requires IsTree(dst.entries)
    modifies dst
    ensures Safe(old(dst.entries), dst.entries, r) && n == |old(dst.entries)| - |dst.entries|
    ensures calm ==> ok && forall p :: p in dst.entries <==> p in old(dst.entries) && Stays(old(dst.entries), r, p)
  {
    ghost var t0 := dst.entries;
    assert Safe(t0, t0, r);
    n, ok := 0, false;
    var unwalked := Trouble(calm);
    if unwalked { return; }
    var files := dst.Walk(r.hidden);
    hide *;
    n, ok := RemoveFiles(dst, r, files, calm);
    if !ok { return; }
    var sorted := SortByDepth(files);
    n, ok := RemoveDirs(dst, r, files, sorted, calm, t0, n);
    if calm { AllHandled(t0, dst.entries, r, files, sorted); }
  }

  lemma AllHandled(t0: Entries, t: Entries, r: Rules, files: seq<Listed>, sorted: seq<Listed>)
    requires multiset(sorted) == multiset(files) && Lists(t0, r.hidden, files) && Safe(t0, t, r)
    requires Handled(t, t0, r, FilePaths(files, |files|) + Paths(sorted, |sorted|))
    ensures forall p :: p in t <==> p in t0 && Stays(t0, r, p)
  {
    SortedElements(files, sorted);
    forall p | p in t0 && !Stays(t0, r, p) ensures p !in t {
      assert !r.hidden(p);
      assert Listed(p, t0[p]) in sorted;
      var j :| 0 <= j < |sorted| && sorted[j] == Listed(p, t0[p]);
      assert p in Paths(sorted, |sorted|);
    }
    hide Stays;
  }
}
