/** internal/engine/engine.go: the two ends of a transfer, as an attempt sees them.

    `Source` and `Dest` are shared with the rest of the world: between any two steps another
    actor may change the source unless it is `stable`, and any path of the destination that
    is not `quiet`; and any access may fail unless that end is `calm`. */
module Endpoints {
  import opened Base
  import opened Chunker
  import opened WriteSession
  import opened SignatureCache

  datatype Meta = Meta(path: Path, size: int, modNano: int)

  datatype Config = Config(resume: bool, checksum: bool, dryRun: bool)

  /** A journal line; `srcDigest` is None for an empty digest string. */
  datatype JournalEntry = JournalEntry(complete: bool, srcDigest: Option<Digest>, srcSize: int, srcModNano: int)

  function Lookup(files: Files, path: Path): Option<File> {
    if path in files then Some(files[path]) else None
  }

  /** The trees agree wherever nobody else writes. */
  ghost predicate Same(quiet: Path -> bool, files0: Files, files: Files) {
    forall p :: quiet(p) ==> Lookup(files, p) == Lookup(files0, p)
  }

  lemma SameStart(quiet: Path -> bool, files: Files)
    ensures Same(quiet, files, files)
  {}

  lemma SameAt(quiet: Path -> bool, files0: Files, files: Files, path: Path)
    requires Same(quiet, files0, files)
    ensures quiet(path) ==> Lookup(files, path) == Lookup(files0, path)
  {}

  lemma SameTwice(quiet: Path -> bool, files0: Files, files1: Files, files2: Files)
    requires Same(quiet, files0, files1) && Same(quiet, files1, files2)
    ensures Same(quiet, files0, files2)
  {
    forall p | quiet(p) ensures Lookup(files2, p) == Lookup(files0, p) {
      assert Lookup(files1, p) == Lookup(files0, p);
    }
  }

  lemma SameRenamed(quiet: Path -> bool, files0: Files, files1: Files, path: Path, file: File)
    requires Same(quiet, files0, files1)
    ensures Same(quiet, files0[path := file], files1[path := file])
  {
    forall p | quiet(p) ensures Lookup(files1[path := file], p) == Lookup(files0[path := file], p) {
      assert Lookup(files1, p) == Lookup(files0, p);
    }
  }

  /** The quiet paths of one tree and the others of another. */
  function Mixed(quiet: Path -> bool, mine: Files, theirs: Files): Files {
    map p | p in mine.Keys + theirs.Keys && (if quiet(p) then p in mine else p in theirs)
      :: if quiet(p) then mine[p] else theirs[p]
  }

  class Source {
    const stable: bool
    const calm: bool
    var file: Option<File>
    /** What the last Stat since the last read has found. */
    ghost var lastStat: Option<Meta>

    constructor (stable: bool, calm: bool, file: Option<File>)
      ensures this.stable == stable && this.calm == calm && this.file == file && lastStat == None
    {
      this.stable, this.calm, this.file, lastStat := stable, calm, file, None;
    }

    predicate Sure() { stable && calm }

    method Meanwhile()
      modifies this`file
      ensures stable ==> file == old(file)
    {
      if !stable { file := *; }
    }

    method Hiccup() returns (b: bool)
      ensures calm ==> !b
    {
      b := *;
      b := b && !calm;
    }

    /** The bytes one read of the file yields, or None for a failure. Sizes fit an int64. */
    method OpenRead() returns (r: Option<Bytes>)
      modifies this
      ensures r.Some? ==> |r.value| < TWO63
      ensures stable ==> file == old(file)
      ensures stable && r.Some? ==> file.Some? && r.value == file.value.content
      ensures Sure() && file.Some? && |file.value.content| < TWO63 ==> r.Some?
      ensures lastStat == None
    {
      Meanwhile();
      lastStat := None;
      r := if file.Some? then Some(file.value.content) else None;
      if !stable { r := *; }
      var b := Hiccup();
      if b || (r.Some? && |r.value| >= TWO63) { r := None; }
    }

    method Stat(path: Path) returns (r: Option<Meta>)
      modifies this
      ensures r.Some? ==> r.value.path == path
      ensures lastStat == r
      ensures stable ==> file == old(file)
      ensures stable && r.Some? ==> file.Some? && r.value.size == |file.value.content|
      ensures stable && r.Some? ==> r.value.modNano == file.value.modNano
      ensures Sure() && file.Some? ==> r.Some?
    {
      Meanwhile();
      r := if file.Some? then Some(Meta(path, |file.value.content|, file.value.modNano)) else None;
      if !stable { r := *; }
      var b := Hiccup();
      if b { r := None; }
      if r.Some? { r := Some(r.value.(path := path)); }
      lastStat := r;
    }
  }

  class Dest {
    const calm: bool
    const quiet: Path -> bool
    const tree: Tree
    const supportsReuse: bool

    constructor (calm: bool, quiet: Path -> bool, tree: Tree, supportsReuse: bool)
      ensures this.calm == calm && this.quiet == quiet && this.tree == tree && this.supportsReuse == supportsReuse
    {
      this.calm, this.quiet, this.tree, this.supportsReuse := calm, quiet, tree, supportsReuse;
    }

    predicate Sure(path: Path) { calm && quiet(path) }

    method Meanwhile()
      modifies tree
      ensures Same(quiet, old(tree.files), tree.files)
    {
      var theirs: Files := *;
      tree.files := Mixed(quiet, tree.files, theirs);
    }

    /** True for a failure that a calm destination never shows. */
    method Hiccup() returns (b: bool)
      ensures calm ==> !b
    {
      b := *;
      b := b && !calm;
    }

    method Stat(path: Path) returns (r: Option<Meta>)
      modifies tree
      ensures Same(quiet, old(tree.files), tree.files)
      ensures quiet(path) && r.Some? ==> Matches(Lookup(old(tree.files), path), r.value.size, r.value.modNano)
      ensures Sure(path) ==> (r.Some? <==> path in old(tree.files))
    {
      Meanwhile();
      assert quiet(path) ==> Lookup(tree.files, path) == Lookup(old(tree.files), path);
      r := if path in tree.files then Some(Meta(path, |tree.files[path].content|, tree.files[path].modNano)) else None;
      var b := Hiccup();
      if b { r := None; }
    }

    /** fileDigestMatches, which reads the file; None is an error. */
    method DigestMatches(path: Path, want: Digest) returns (r: Option<bool>)
      modifies tree
      ensures Same(quiet, old(tree.files), tree.files)
      ensures quiet(path) && r.Some? ==>
                path in old(tree.files) && (r.value <==> Sum(old(tree.files)[path].content) == want)
      ensures Sure(path) && path in old(tree.files) ==> r.Some?
    {
      Meanwhile();
      assert quiet(path) ==> Lookup(tree.files, path) == Lookup(old(tree.files), path);
      r := if path in tree.files then Some(Sum(tree.files[path].content) == want) else None;
      if !quiet(path) { r := *; }
      var b := Hiccup();
      if b { r := None; }
    }

    /** GetSignature: hashes the file with the default options; an absent file has the zero
        signature. None is an error. */
    method GetSignature(path: Path, gear: GearTable) returns (r: Option<Signature>)
      modifies tree
      ensures Same(quiet, old(tree.files), tree.files)
      ensures quiet(path) && r.Some? ==>
                r.value == if path !in old(tree.files) then ABSENT
                           else SignatureOf(DefaultParams(gear), old(tree.files)[path].content)
      ensures Sure(path) ==> r.Some?
    {
      Meanwhile();
      assert quiet(path) ==> Lookup(tree.files, path) == Lookup(old(tree.files), path);
      var sig := ABSENT;
      if path in tree.files { sig := SignatureOf(DefaultParams(gear), tree.files[path].content); }
      r := Some(sig);
      if !quiet(path) { r := *; }
      var b := Hiccup();
      if b { r := None; }
    }
  }

  lemma SureIs(src: Source, dst: Dest, path: Path)
    ensures src.Sure() <==> src.stable && src.calm
    ensures dst.Sure(path) <==> dst.calm && dst.quiet(path)
  {}

  predicate Matches(f: Option<File>, size: int, modNano: int) {
    f.Some? && |f.value.content| == size && f.value.modNano == modNano
  }

  ghost predicate SameBytes(f: Option<File>, x: Bytes) { f.Some? && f.value.content == x }

  /** After the last read the source still had the size and mtime of the walk. */
  predicate StillAsWalked(st: Option<Meta>, meta: Meta) {
    st.Some? && st.value.size == meta.size && st.value.modNano == meta.modNano
  }
}
