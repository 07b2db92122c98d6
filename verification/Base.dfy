/** Vocabulary shared by every component: bytes, digests, machine integers and results. */
module Base {

  newtype byte = x: int | 0 <= x < 256
  type Bytes = seq<byte>

  /** A digest. `Blake` stands for an ideal BLAKE3: distinct contents have distinct
      digests and no content has the all-zero digest, which marks an absent file. */
  datatype Digest = ZeroDigest | Blake(content: Bytes)

  function Sum(data: Bytes): Digest { Blake(data) }

  lemma SumInjective(a: Bytes, b: Bytes)
    requires Sum(a) == Sum(b)
    ensures a == b && Sum(a) != ZeroDigest
  {
    assert Sum(a).content == Sum(b).content;
  }

  datatype Option<+T> = None | Some(value: T)

  // Go's fixed-width integers, with the wrap-around written out.
  const TWO32 := 0x1_0000_0000
  const TWO63 := 0x8000_0000_0000_0000
  const TWO64 := 0x1_0000_0000_0000_0000

  type uint32 = x: int | 0 <= x < TWO32
  type uint64 = x: int | 0 <= x < TWO64
  type int64 = x: int | -TWO63 <= x < TWO63

  function Wrap(x: int, n: int): (r: int)
    requires 0 < n
    ensures 0 <= r < n
  {
    x % n
  }

  function U32(x: int): uint32 { if 0 <= x < TWO32 then x else Wrap(x, TWO32) }

  function U64(x: int): uint64 { if 0 <= x < TWO64 then x else Wrap(x, TWO64) }

  /** The conversion int64(x), and int64 addition when x is a sum. */
  function I64(x: int): int64 {
    var u := U64(x);
    if u < TWO63 then u else u - TWO64
  }

  function Min(a: int, b: int): int { if a <= b then a else b }

  /** One content-defined chunk of a file. */
  datatype Chunk = Chunk(offset: nat, length: nat, digest: Digest)

  /** The ordered chunk digests of a file. */
  datatype Signature = Signature(size: int, digest: Digest, chunks: seq<Chunk>)

  /** What GetSignature returns for a file that does not exist. */
  const ABSENT := Signature(0, ZeroDigest, [])

  /** c names exactly its slice of the content. */
  ghost predicate ChunkOf(c: Chunk, content: Bytes) {
    && 0 < c.length
    && c.offset + c.length <= |content|
    && c.digest == Sum(content[c.offset..c.offset + c.length])
  }

  /** The bytes that c names in x. */
  function DataOf(x: Bytes, c: Chunk): Bytes {
    if c.offset + c.length <= |x| then x[c.offset..c.offset + c.length] else []
  }

  /** The chunks tile content[from..] in order, each with its own digest. */
  ghost predicate Tiles(cs: seq<Chunk>, content: Bytes, from: nat)
    requires from <= |content|
    decreases |cs|
  {
    if cs == [] then from == |content|
    else
      && cs[0].offset == from
      && ChunkOf(cs[0], content)
      && Tiles(cs[1..], content, from + cs[0].length)
  }

  /** A signature that tells the truth about content, whatever chunking produced it. */
  ghost predicate TrueSignature(sig: Signature, content: Bytes) {
    && sig.size == |content|
    && sig.digest == Sum(content)
    && Tiles(sig.chunks, content, 0)
  }

  lemma {:induction false} TilesPointwise(cs: seq<Chunk>, content: Bytes, from: nat)
    requires from <= |content| && Tiles(cs, content, from)
    ensures forall k :: 0 <= k < |cs| ==> ChunkOf(cs[k], content) && from <= cs[k].offset
    decreases |cs|
  {
    if cs != [] {
      TilesPointwise(cs[1..], content, from + cs[0].length);
      forall k | 0 <= k < |cs|
        ensures ChunkOf(cs[k], content) && from <= cs[k].offset
      {
        if k > 0 { assert cs[k] == cs[1..][k - 1]; }
      }
    }
  }
}
