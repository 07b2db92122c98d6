/** internal/chunk/chunk.go: the streaming loop, its refill buffer and its reader. */
module Streaming {
  import opened Base
  import opened Chunker
  import opened CutLaws

  datatype ReadError = NoError | Eof | Failed

  /** An io.Reader over `rest`. Each Read hands out as many of the remaining bytes as it
      likes; Eof may come with the last bytes or after them. An unreliable reader may also
      fail, or make no progress, at any time. */
  class Reader {
    const reliable: bool
    var rest: Bytes

    constructor (content: Bytes, reliable: bool)
      ensures rest == content && this.reliable == reliable
    {
      rest, this.reliable := content, reliable;
    }

    method Read(max: nat) returns (d: Bytes, e: ReadError)
      requires 0 < max
      modifies this
      ensures d + rest == old(rest) && |d| <= max
      ensures e == Eof ==> rest == []
      ensures reliable ==> e == Eof || (e == NoError && d != [])
    {
      var k: nat :| k <= max && k <= |rest| && (reliable && rest != [] ==> 0 < k);
      d, rest := rest[..k], rest[k..];
      e := NoError;
      var wish: ReadError := *;
      if wish == Failed && !reliable {
        e := Failed;
      } else if rest == [] && (wish == Eof || (d == [] && reliable)) {
        e := Eof;
      }
    }
  }

  /** buf keeps its first lo bytes and holds d behind them. */
  ghost predicate Filled(buf: array<byte>, before: Bytes, d: Bytes)
    reads buf
  {
    |before| + |d| <= buf.Length && buf[..|before| + |d|] == before + d
  }

  /** Copies d behind what buf holds. */
  method CopyIn(buf: array<byte>, at: nat, d: Bytes, ghost before: Bytes, ghost filled: Bytes)
    requires Filled(buf, before, filled) && at == |before| + |filled| && at + |d| <= buf.Length
    modifies buf
    ensures Filled(buf, before, filled + d)
  {
    forall k | 0 <= k < |d| { buf[at + k] := d[k]; }
    assert buf[..at] == before + filled && buf[at..at + |d|] == d;
    assert buf[..at + |d|] == buf[..at] + buf[at..at + |d|];
    assert (before + filled) + d == before + (filled + d);
  }

  /** Fills buf[lo..], one Read at a time, and reports how many bytes arrived. */
  method ReadFill(r: Reader, buf: array<byte>, lo: nat) returns (n: nat, e: ReadError, ghost filled: Bytes)
    requires lo <= buf.Length
    modifies r, buf
    ensures Filled(buf, old(buf[..lo]), filled) && |filled| == n
    ensures filled + r.rest == old(r.rest)
    ensures e == NoError ==> lo + n == buf.Length
    ensures e == Eof ==> r.rest == []
    ensures r.reliable ==> e != Failed
    // With no room it reads nothing and reports nothing, not even the end of the file.
    ensures lo == buf.Length ==> n == 0 && e == NoError && r.rest == old(r.rest)
  {
    ghost var before := buf[..lo];
    n, filled := 0, [];
    while lo + n < buf.Length
      invariant Filled(buf, before, filled) && |filled| == n && |before| == lo && lo + n <= buf.Length
      invariant filled + r.rest == old(r.rest)
    {
      hide *;
      var d, err := r.Read(buf.Length - lo - n);
      CopyIn(buf, lo + n, d, before, filled);
      assert filled + (d + r.rest) == (filled + d) + r.rest;
      n, filled := n + |d|, filled + d;
      if err != NoError { return n, err, filled; }
      if |d| == 0 { return n, Failed, filled; } // read: no progress
    }
    e := NoError;
  }

  /** The callback: keeps what it accepts; an unwilling one may refuse any chunk. */
  class Sink {
    const willing: bool
    var got: seq<Chunk>

    constructor (willing: bool)
      ensures got == [] && this.willing == willing
    {
      got, this.willing := [], willing;
    }

    method Accept(c: Chunk, data: Bytes) returns (ok: bool)
      requires c.length == |data| && c.digest == Sum(data)
      modifies this
      ensures got == if ok then old(got) + [c] else old(got)
      ensures willing ==> ok
    {
      var refuse: bool := *;
      ok := willing || !refuse;
      if ok { got := got + [c]; }
    }
  }

  datatype StreamResult = Streamed(size: nat, digest: Digest) | ReadFailed | CallbackFailed | SizeMismatch

  /** The loop holds data == total[offset..pos]. */
  ghost predicate Holds(total: Bytes, offset: nat, pos: nat, data: Bytes) {
    offset <= pos <= |total| && data == total[offset..pos]
  }

  /** The tee has hashed everything before pos, and the reader has the rest. */
  ghost predicate Split(total: Bytes, pos: nat, hashed: Bytes, rest: Bytes) {
    pos <= |total| && hashed == total[..pos] && rest == total[pos..]
  }

  /** What has been emitted, and up to where. */
  datatype Progress = Progress(got: seq<Chunk>, offset: nat)

  /** The simple definition after k chunks. */
  function After(p: Params, total: Bytes, k: nat): (s: Progress)
    requires 0 < p.max
    ensures s.offset <= |total|
  {
    if k == 0 then Progress([], 0)
    else
      var s := After(p, total, k - 1);
      if s.offset == |total| then s
      else
        var c := FirstChunk(p, total, s.offset);
        Progress(s.got + [c], s.offset + c.length)
  }

  /** What is emitted and what is still to come make up all the chunks. */
  lemma {:induction false} AfterThenRest(p: Params, total: Bytes, k: nat)
    requires 0 < p.max
    ensures var s := After(p, total, k);
            s.got + Chunks(p, total, s.offset) == Chunks(p, total, 0)
  {
    hide FirstChunk;
    if k == 0 {
      assert [] + Chunks(p, total, 0) == Chunks(p, total, 0);
    } else {
      AfterThenRest(p, total, k - 1);
      var s := After(p, total, k - 1);
      if s.offset != |total| { MoveOver(s.got, Chunks(p, total, s.offset)); }
    }
  }

  lemma MoveOver<T>(a: seq<T>, b: seq<T>)
    requires b != []
    ensures (a + [b[0]]) + b[1..] == a + b
  {}

  /** One more chunk: the loop holds data == total[offset..pos] and found its cut. */
  lemma AfterOneMore(p: Params, total: Bytes, k: nat, s: Progress, pos: nat, data: Bytes, cut: nat)
    requires 0 < p.max && s.offset <= pos <= |total| && data == total[s.offset..pos]
    requires After(p, total, k) == s
    requires 0 < |data| <= p.max
    requires Cut(p, data) != 0 || pos == |total| || |data| == p.max
    requires cut == if Cut(p, data) == 0 then |data| else Cut(p, data)
    ensures 0 < cut <= |data|
    ensures After(p, total, k + 1) == Progress(s.got + [Chunk(s.offset, cut, Sum(data[..cut]))], s.offset + cut)
  {
    hide Cut, FirstCut;
    FirstCutOfPrefix(p, data, total[s.offset..]);
    assert total[s.offset..s.offset + cut] == data[..cut];
  }

  /** One round of the inner loop: cut == 0 leaves data for the carry. */
  method EmitOne(p: Params, mask: uint32, gear: GearTable, data: Bytes, last: bool, offset: nat, sink: Sink,
                 ghost total: Bytes, ghost pos: nat, ghost k: nat)
    returns (cut: nat, ok: bool)
    requires 0 < p.max && p.test == GearTest(mask, gear)
    requires offset <= pos <= |total| && data == total[offset..pos] && 0 < |data| <= p.max
    requires After(p, total, k) == Progress(sink.got, offset)
    requires last ==> pos == |total| || (|data| == p.max && Cut(p, data) == 0)
    modifies sink
    ensures cut <= |data| && (cut == 0 ==> ok && !last && Cut(p, data) == 0)
    ensures cut == 0 || !ok ==> sink.got == old(sink.got)
    ensures last && pos != |total| ==> cut == |data|
    ensures sink.willing ==> ok
    ensures cut != 0 && ok ==> After(p, total, k + 1) == Progress(sink.got, offset + cut)
  {
    ok := true;
    cut := FindCut(data, p, mask, gear);
    if cut == 0 {
      if !last { return; }
      cut := |data|;
    }
    AfterOneMore(p, total, k, Progress(sink.got, offset), pos, data, cut);
    hide After;
    var piece := data[..cut];
    ok := sink.Accept(Chunk(offset, |piece|, Sum(piece)), piece);
  }

  /** The inner loop: cuts data from the front and emits pieces until no cut is left.
      Without a cut it takes all of data at end of file or with a full buffer (`last`),
      and otherwise leaves it for the carry. */
  method EmitPieces(p: Params, mask: uint32, gear: GearTable, data0: Bytes, last: bool, offset0: nat, sink: Sink,
                    ghost total: Bytes, ghost pos: nat, ghost k0: nat)
    returns (carry: Bytes, offset: nat, ok: bool, ghost k: nat)
    requires 0 < p.max && p.test == GearTest(mask, gear)
    requires Holds(total, offset0, pos, data0) && |data0| <= p.max
    requires After(p, total, k0) == Progress(sink.got, offset0)
    requires last ==> pos == |total| || (|data0| == p.max && Cut(p, data0) == 0)
    modifies sink
    ensures Holds(total, offset, pos, carry) && |carry| <= |data0|
    ensures last && ok ==> offset == pos
    ensures After(p, total, k) == Progress(sink.got, offset)
    ensures ok && last ==> carry == []
    ensures sink.willing ==> ok
    ensures ok && carry != [] ==> Cut(p, carry) == 0
  {
    hide After;
    var data := data0;
    offset, ok, carry, k := offset0, true, [], k0;
    while data != []
      invariant offset0 <= offset <= pos && data == total[offset..pos]
      invariant After(p, total, k) == Progress(sink.got, offset)
      invariant ok
      invariant last ==> data == [] || pos == |total| || (|data| == p.max && Cut(p, data) == 0)
      decreases pos - offset
    {
      var cut;
      cut, ok := EmitOne(p, mask, gear, data, last, offset, sink, total, pos, k);
      if cut == 0 || !ok { carry := data; return; }
      data, offset, k := data[cut..], offset + cut, k + 1;
    }
  }

  /** The data of one round: the carry and what the reader adds behind it. */
  method Refill(r: Reader, buf: array<byte>, carry: Bytes, hashed0: Bytes, ghost total: Bytes, ghost offset: nat,
                ghost pos0: nat)
    returns (data: Bytes, hashed: Bytes, n: nat, e: ReadError, ghost pos: nat)
    requires |carry| <= buf.Length
    requires Split(total, pos0, hashed0, r.rest) && Holds(total, offset, pos0, carry)
    modifies r, buf
    ensures pos == pos0 + n <= |total| && |data| == |carry| + n <= buf.Length
    ensures Split(total, pos, hashed, r.rest) && Holds(total, offset, pos, data)
    ensures n == 0 ==> data == carry
    ensures e == NoError ==> |data| == buf.Length
    ensures e == Eof ==> pos == |total|
    ensures r.reliable ==> e != Failed
  {
    ghost var filled, before := [], buf[..|carry|];
    n, e, filled := ReadFill(r, buf, |carry|);
    var added := buf[|carry|..|carry| + n];
    assert added == filled by { assert buf[..|carry| + n][|carry|..] == (before + filled)[|carry|..]; }
    data, hashed := carry + added, hashed0 + added;
    pos := pos0 + n;
    assert (filled + r.rest)[..n] == filled && (filled + r.rest)[n..] == r.rest;
  }

  /** The outer loop of streamChunks once the parameters are known. */
  method StreamWith(r: Reader, sizeHint: int, p: Params, mask: uint32, gear: GearTable, sink: Sink)
    returns (res: StreamResult, ghost k: nat)
    requires sink.got == [] && 0 < p.max && p.test == GearTest(mask, gear)
    modifies r, sink
    ensures sink.got == After(p, old(r.rest), k).got
    ensures res.Streamed? ==>
      && After(p, old(r.rest), k).offset == |old(r.rest)|
      && res == Streamed(|old(r.rest)|, Sum(old(r.rest)))
      && (sizeHint <= 0 || sizeHint == |old(r.rest)|)
    ensures r.reliable && sink.willing ==> res.Streamed? || res.SizeMismatch?
    ensures res.SizeMismatch? ==> 0 < sizeHint != |old(r.rest)|
  {
    ghost var total := r.rest;
    ghost var pos: nat := 0;
    var buf := new byte[p.max];
    var hashed: Bytes := []; // what the tee has fed to the whole-file hash
    var carry: Bytes := [];
    var offset: nat := 0;
    k := 0;
    res := Streamed(0, ZeroDigest);
    assert After(p, total, 0) == Progress([], 0);
    assert Split(total, pos, hashed, r.rest) && Holds(total, offset, pos, carry);
    while true
      invariant fresh(buf) && buf.Length == p.max && |carry| <= p.max
      invariant carry != [] ==> Cut(p, carry) == 0
      invariant Split(total, pos, hashed, r.rest) && Holds(total, offset, pos, carry)
      invariant After(p, total, k) == Progress(sink.got, offset)
      invariant res.Streamed? && pos <= |total|
      decreases |total| - pos, |carry|
    {
      hide *;
      var data, n, err;
      data, hashed, n, err, pos := Refill(r, buf, carry, hashed, total, offset, pos);
      if |data| == 0 {
        if err == Eof { break; }
        if err != NoError { res := ReadFailed; break; }
        assert false; // an empty buffer, excluded by the precondition
      }
      var ok;
      carry, offset, ok, k := EmitPieces(p, mask, gear, data, err == Eof || (err == NoError && n == 0),
                                         offset, sink, total, pos, k);
      if !ok { res := CallbackFailed; break; }
      if err == Eof { break; }
      if err != NoError { res := ReadFailed; break; }
    }
    if res.Streamed? {
      assert hashed == total && offset == |total|;
      res := if sizeHint > 0 && sizeHint != offset then SizeMismatch else Streamed(offset, Sum(hashed));
    }
  }

  /** streamChunks. However the reader splits its bytes, a successful run emits exactly
      the chunks of the simple definition, and a failed one emits a prefix of them. With a
      reliable reader and a willing callback only a wrong size hint fails it. It terminates
      whenever the normalised buffer is not empty. */
  method StreamChunks(r: Reader, sizeHint: int, opt: Options, gear: GearTable, sink: Sink)
    returns (res: StreamResult)
    requires sink.got == []
    requires Normalized(opt).max != 0
    modifies r, sink
    ensures res.Streamed? ==>
      && sink.got == Chunks(ParamsOf(opt, gear), old(r.rest), 0)
      && res == Streamed(|old(r.rest)|, Sum(old(r.rest)))
      && (sizeHint <= 0 || sizeHint == |old(r.rest)|)
    ensures r.reliable && sink.willing ==> res.Streamed? || res.SizeMismatch?
    ensures res.SizeMismatch? ==> 0 < sizeHint != |old(r.rest)|
    ensures sink.got <= Chunks(ParamsOf(opt, gear), old(r.rest), 0)
    // Each piece ends at the first position that passes the cut test, if any does.
    ensures 0 < Normalized(opt).min < Normalized(opt).max ==>
      forall k :: 0 <= k < |sink.got| ==> CutAtHit(ParamsOf(opt, gear), old(r.rest), sink.got[k])
  {
    var o := Normalized(opt);
    var mask := MaskForAvg(o.avg);
    ghost var total := r.rest;
    ghost var k;
    var p := Params(o.min, o.max, GearTest(mask, gear));
    assert p == ParamsOf(opt, gear);
    res, k := StreamWith(r, sizeHint, p, mask, gear, sink);
    AfterThenRest(p, total, k);
    if 0 < p.min < p.max {
      forall i | 0 <= i < |sink.got| ensures CutAtHit(p, total, sink.got[i]) {
        assert sink.got[i] == Chunks(p, total, 0)[i];
        ChunksAtHits(p, total, 0, i);
      }
    }
  }
}
