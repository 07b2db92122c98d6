/** internal/delta/delta.go: which source chunks the destination already has. */
module Delta {
  import opened Base

  datatype ReuseEntry = ReuseEntry(newOffset: nat, oldOffset: nat, digest: Digest, length: nat)

  datatype Plan = Plan(missing: seq<Chunk>, reuse: seq<ReuseEntry>)

  datatype Loc = Loc(offset: nat, length: nat)

  /** Where each digest first occurs at the destination. */
  function Have(cs: seq<Chunk>): map<Digest, Loc> {
    if cs == [] then map[]
    else
      var m, c := Have(cs[..|cs| - 1]), cs[|cs| - 1];
      if c.digest in m then m else m[c.digest := Loc(c.offset, c.length)]
  }

  predicate Reusable(c: Chunk, have: map<Digest, Loc>) {
    c.digest in have && have[c.digest].length == c.length
  }

  function EntryFor(c: Chunk, have: map<Digest, Loc>): ReuseEntry
    requires Reusable(c, have)
  {
    ReuseEntry(c.offset, have[c.digest].offset, c.digest, c.length)
  }

  /** The plan splits the source chunks, in order, by whether they are reusable. */
  function PlanFor(cs: seq<Chunk>, have: map<Digest, Loc>): Plan {
    if cs == [] then Plan([], [])
    else
      var p, c := PlanFor(cs[..|cs| - 1], have), cs[|cs| - 1];
      if Reusable(c, have) then p.(reuse := p.reuse + [EntryFor(c, have)])
      else p.(missing := p.missing + [c])
  }

  /** The bytes that a plan calls missing. */
  function PayloadOf(missing: seq<Chunk>): nat {
    if missing == [] then 0 else PayloadOf(missing[..|missing| - 1]) + missing[|missing| - 1].length
  }

  method Diff(src: Signature, dest: Signature) returns (plan: Plan)
    ensures plan == PlanFor(src.chunks, Have(dest.chunks))
  {
    var have: map<Digest, Loc> := map[];
    for i := 0 to |dest.chunks|
      invariant have == Have(dest.chunks[..i])
    {
      var c := dest.chunks[i];
      assert dest.chunks[..i + 1][..i] == dest.chunks[..i];
      if c.digest !in have { // first occurrence wins
        have := have[c.digest := Loc(c.offset, c.length)];
      }
    }
    assert dest.chunks[..|dest.chunks|] == dest.chunks;
    var missing, reuse := [], [];
    for i := 0 to |src.chunks|
      invariant Plan(missing, reuse) == PlanFor(src.chunks[..i], have)
    {
      var c := src.chunks[i];
      assert src.chunks[..i + 1][..i] == src.chunks[..i];
      if c.digest in have && have[c.digest].length == c.length {
        reuse := reuse + [ReuseEntry(c.offset, have[c.digest].offset, c.digest, c.length)];
      } else {
        missing := missing + [c];
      }
    }
    assert src.chunks[..|src.chunks|] == src.chunks;
    plan := Plan(missing, reuse);
  }

  /** Have tells where a chunk of that digest lies, and knows every digest there is. */
  lemma {:induction false} HaveIff(cs: seq<Chunk>)
    ensures forall d :: d in Have(cs) ==>
              exists k :: 0 <= k < |cs| && cs[k].digest == d && Have(cs)[d] == Loc(cs[k].offset, cs[k].length)
    ensures forall k :: 0 <= k < |cs| ==> cs[k].digest in Have(cs)
  {
    if cs != [] {
      var init := cs[..|cs| - 1];
      HaveIff(init);
      forall d | d in Have(cs)
        ensures exists k :: 0 <= k < |cs| && cs[k].digest == d && Have(cs)[d] == Loc(cs[k].offset, cs[k].length)
      {
        if d in Have(init) {
          var k :| 0 <= k < |init| && init[k].digest == d && Have(init)[d] == Loc(init[k].offset, init[k].length);
          assert cs[k] == init[k];
        } else {
          assert cs[|cs| - 1].digest == d;
        }
      }
      forall k | 0 <= k < |cs| ensures cs[k].digest in Have(cs) {
        if k < |init| { assert init[k] == cs[k]; }
      }
    }
  }

  /** Of several chunks of one digest it tells the first. */
  lemma {:induction false} HaveIsFirst(cs: seq<Chunk>, k: nat)
    requires k < |cs| && forall i :: 0 <= i < k ==> cs[i].digest != cs[k].digest
    ensures cs[k].digest in Have(cs) && Have(cs)[cs[k].digest] == Loc(cs[k].offset, cs[k].length)
  {
    var init, last := cs[..|cs| - 1], cs[|cs| - 1];
    assert forall i :: 0 <= i < |init| ==> init[i] == cs[i];
    HaveIff(init);
    if k < |init| { HaveIsFirst(init, k); }
  }

  /** The set the engine builds from plan.Missing. */
  function MissingSet(plan: Plan): set<Digest> {
    set c | c in plan.missing :: c.digest
  }

  /** The map the engine builds from plan.Reuse; a later entry replaces an earlier one. */
  function ByNewOffset(reuse: seq<ReuseEntry>): map<nat, ReuseEntry> {
    if reuse == [] then map[]
    else
      var r := reuse[|reuse| - 1];
      ByNewOffset(reuse[..|reuse| - 1])[r.newOffset := r]
  }

  lemma {:induction false} PlanIff(cs: seq<Chunk>, have: map<Digest, Loc>)
    ensures forall c :: c in PlanFor(cs, have).missing <==> c in cs && !Reusable(c, have)
    ensures forall r :: r in PlanFor(cs, have).reuse <==>
              exists k :: 0 <= k < |cs| && Reusable(cs[k], have) && r == EntryFor(cs[k], have)
    ensures |PlanFor(cs, have).missing| + |PlanFor(cs, have).reuse| == |cs|
  {
    if cs != [] {
      var init, last := cs[..|cs| - 1], cs[|cs| - 1];
      PlanIff(init, have);
      assert cs == init + [last];
      var p, q := PlanFor(init, have), PlanFor(cs, have);
      forall r
        ensures r in q.reuse <==> exists k :: 0 <= k < |cs| && Reusable(cs[k], have) && r == EntryFor(cs[k], have)
      {
        if r in q.reuse {
          if r in p.reuse {
            var k :| 0 <= k < |init| && Reusable(init[k], have) && r == EntryFor(init[k], have);
            assert cs[k] == init[k];
          } else {
            assert cs[|cs| - 1] == last;
          }
        }
        if k :| 0 <= k < |cs| && Reusable(cs[k], have) && r == EntryFor(cs[k], have) {
          if k < |init| { assert init[k] == cs[k] && r in p.reuse; }
        }
      }
    }
  }

  lemma {:induction false} ByNewOffsetIff(reuse: seq<ReuseEntry>, o: nat)
    ensures o in ByNewOffset(reuse) <==> exists r :: r in reuse && r.newOffset == o
    ensures o in ByNewOffset(reuse) ==> ByNewOffset(reuse)[o] in reuse && ByNewOffset(reuse)[o].newOffset == o
  {
    if reuse != [] {
      var init, last := reuse[..|reuse| - 1], reuse[|reuse| - 1];
      ByNewOffsetIff(init, o);
      assert reuse == init + [last];
    }
  }

  /** The chunks of one file: equal digests have equal lengths, and offsets are distinct. */
  ghost predicate Coherent(cs: seq<Chunk>) {
    && (forall i, j :: 0 <= i < |cs| && 0 <= j < |cs| && cs[i].digest == cs[j].digest ==> cs[i].length == cs[j].length)
    && (forall i, j :: 0 <= i < j < |cs| ==> cs[i].offset < cs[j].offset)
  }

  lemma {:induction false} TilesIncrease(cs: seq<Chunk>, content: Bytes, from: nat)
    requires from <= |content| && Tiles(cs, content, from)
    ensures forall i, j :: 0 <= i < j < |cs| ==> cs[i].offset < cs[j].offset
    decreases |cs|
  {
    if cs != [] {
      TilesIncrease(cs[1..], content, from + cs[0].length);
      TilesPointwise(cs[1..], content, from + cs[0].length);
      forall i, j | 0 <= i < j < |cs| ensures cs[i].offset < cs[j].offset {
        assert cs[j] == cs[1..][j - 1];
        if i > 0 { assert cs[i] == cs[1..][i - 1]; }
      }
    }
  }

  lemma TilesCoherent(cs: seq<Chunk>, content: Bytes)
    requires Tiles(cs, content, 0)
    ensures Coherent(cs)
  {
    TilesIncrease(cs, content, 0);
    TilesPointwise(cs, content, 0);
    forall i, j | 0 <= i < |cs| && 0 <= j < |cs| && cs[i].digest == cs[j].digest
      ensures cs[i].length == cs[j].length
    {
      SameDigestSameBytes(cs[i], content, cs[j], content);
    }
  }

  /** Both lists of the plan keep the order of the source. */
  lemma {:induction false} PlanInOrder(cs: seq<Chunk>, have: map<Digest, Loc>)
    requires Coherent(cs)
    ensures var plan := PlanFor(cs, have);
            && (forall i, j :: 0 <= i < j < |plan.missing| ==> plan.missing[i].offset < plan.missing[j].offset)
            && (forall i, j :: 0 <= i < j < |plan.reuse| ==> plan.reuse[i].newOffset < plan.reuse[j].newOffset)
  {
    if cs != [] {
      var init := cs[..|cs| - 1];
      assert forall i :: 0 <= i < |init| ==> init[i] == cs[i];
      PlanInOrder(init, have);
      PlanIff(init, have);
      var p := PlanFor(init, have);
      forall i | 0 <= i < |p.missing| ensures p.missing[i].offset < cs[|cs| - 1].offset {
        assert p.missing[i] in init;
      }
      forall i | 0 <= i < |p.reuse| ensures p.reuse[i].newOffset < cs[|cs| - 1].offset {
        assert p.reuse[i] in p.reuse;
      }
    }
  }

  /** The engine asks two questions of each source chunk: is its digest missing, and if not,
      which entry has its offset? The first answers exactly "not reusable", and then the
      second never misses and finds the chunk's own entry. */
  lemma LookupNeverMisses(cs: seq<Chunk>, have: map<Digest, Loc>, k: nat)
    requires Coherent(cs) && k < |cs|
    ensures var plan, c := PlanFor(cs, have), cs[k];
            && (c.digest in MissingSet(plan) <==> !Reusable(c, have))
            && (Reusable(c, have) ==>
                 c.offset in ByNewOffset(plan.reuse) && ByNewOffset(plan.reuse)[c.offset] == EntryFor(c, have))
  {
    var plan, c := PlanFor(cs, have), cs[k];
    PlanIff(cs, have);
    ByNewOffsetIff(plan.reuse, c.offset);
    if c.digest in MissingSet(plan) {
      var m :| m in plan.missing && m.digest == c.digest;
      var i :| 0 <= i < |cs| && cs[i] == m;
    }
    if Reusable(c, have) {
      assert EntryFor(c, have) in plan.reuse;
      var r := ByNewOffset(plan.reuse)[c.offset];
      var j :| 0 <= j < |cs| && Reusable(cs[j], have) && r == EntryFor(cs[j], have);
    }
  }

  /** What is reusable is as long as some chunk of the destination. */
  lemma ReusableLength(c: Chunk, cs: seq<Chunk>) returns (k: nat)
    requires Reusable(c, Have(cs))
    ensures k < |cs| && cs[k].length == c.length
  {
    hide Have;
    HaveIff(cs);
    k :| 0 <= k < |cs| && cs[k].digest == c.digest && Have(cs)[c.digest] == Loc(cs[k].offset, cs[k].length);
  }

  /** A reuse entry taken from true signatures names equal bytes on both sides. */
  lemma ReuseNamesEqualBytes(src: Signature, x: Bytes, dest: Signature, y: Bytes, k: nat)
    requires TrueSignature(src, x) && TrueSignature(dest, y)
    requires k < |src.chunks| && Reusable(src.chunks[k], Have(dest.chunks))
    ensures var e := EntryFor(src.chunks[k], Have(dest.chunks));
            && 0 < e.length && e.newOffset + e.length <= |x| && e.oldOffset + e.length <= |y|
            && x[e.newOffset..e.newOffset + e.length] == y[e.oldOffset..e.oldOffset + e.length]
            && e.digest == Sum(y[e.oldOffset..e.oldOffset + e.length])
  {
    hide Have, Tiles, PlanFor;
    var c, have := src.chunks[k], Have(dest.chunks);
    TilesPointwise(src.chunks, x, 0);
    TilesPointwise(dest.chunks, y, 0);
    HaveIff(dest.chunks);
    var j :| 0 <= j < |dest.chunks| && dest.chunks[j].digest == c.digest
             && have[c.digest] == Loc(dest.chunks[j].offset, dest.chunks[j].length);
    var d := dest.chunks[j];
    SameDigestSameBytes(c, x, d, y);
  }

  lemma SameDigestSameBytes(c: Chunk, x: Bytes, d: Chunk, y: Bytes)
    requires ChunkOf(c, x) && ChunkOf(d, y) && c.digest == d.digest
    ensures c.length == d.length
    ensures x[c.offset..c.offset + c.length] == y[d.offset..d.offset + d.length]
  {
    var a, b := x[c.offset..c.offset + c.length], y[d.offset..d.offset + d.length];
    SumInjective(a, b);
    assert |a| == c.length && |b| == d.length;
  }

  predicate NeedsTransfer(src: Signature, dest: Signature, checksum: bool) {
    if dest.size == 0 && |dest.chunks| == 0 && src.size > 0 then true
    else if src.size != dest.size then true
    else if checksum || src.digest != ZeroDigest then src.digest != dest.digest
    else true
  }

  /** For a source that exists, no transfer is needed exactly when the destination exists
      with the same bytes; `None` stands for an absent destination. */
  lemma NeedsTransferIff(src: Signature, x: Bytes, dest: Signature, y: Option<Bytes>, checksum: bool)
    requires TrueSignature(src, x)
    requires if y.None? then dest == ABSENT else TrueSignature(dest, y.value)
    ensures NeedsTransfer(src, dest, checksum) <==> y != Some(x)
  {
    if y.Some? && src.digest == dest.digest { SumInjective(x, y.value); }
    if y == Some(x) { assert Tiles(dest.chunks, x, 0); }
  }

  /** The bytes missing among the first k chunks. */
  function PayloadUpTo(cs: seq<Chunk>, have: map<Digest, Loc>, k: nat): nat
    requires k <= |cs|
  {
    PayloadOf(PlanFor(cs[..k], have).missing)
  }

  lemma PayloadNext(cs: seq<Chunk>, have: map<Digest, Loc>, k: nat)
    requires k < |cs|
    ensures PayloadUpTo(cs, have, k + 1) == PayloadUpTo(cs, have, k) + if Reusable(cs[k], have) then 0 else cs[k].length
  {
    var now := PlanFor(cs[..k], have).missing;
    assert cs[..k + 1][..k] == cs[..k];
    assert (now + [cs[k]])[..|now|] == now;
  }

  lemma PayloadEnds(cs: seq<Chunk>, have: map<Digest, Loc>)
    ensures PayloadUpTo(cs, have, 0) == 0 && PayloadUpTo(cs, have, |cs|) == PayloadOf(PlanFor(cs, have).missing)
  {
    assert cs[..|cs|] == cs && cs[..0] == [];
    assert PlanFor([], have).missing == [];
    hide PlanFor;
  }
}
