/** internal/transport/reuse.go: range checks in int64 arithmetic, and internal/compress:
    what a codec round trip gives back. */
module Ranges {
  import opened Base
  import Chunker

  datatype Error =
    | WriteAfterCommit | InvalidLength | LengthExceedsMax | OutOfBounds | NegativeOffset
    | NoOldFile | DestChanged | ShortRead | ReuseDigestMismatch | DigestMismatch
    | SessionClosed | DecodeFailed | Interrupted

  /** oldSize < 0 means that the size is unknown. */
  function ValidateReuseRange(oldOffset: uint64, length: int64, oldSize: int64): Option<Error> {
    if length <= 0 then Some(InvalidLength)
    else if length > Chunker.DEFAULT_MAX then Some(LengthExceedsMax)
    else if oldSize >= 0 then
      var end := I64(I64(oldOffset) + length);
      if end < 0 || end > oldSize then Some(OutOfBounds) else None
    else None
  }

  /** sessionSize < 0 disables the bound. */
  function ValidateWriteRange(offset: uint64, length: int64, sessionSize: int64): Option<Error> {
    if length < 0 then Some(InvalidLength)
    else if sessionSize < 0 then None
    else
      var end := I64(I64(offset) + length);
      if end < 0 || end > sessionSize then Some(OutOfBounds) else None
  }

  lemma I64Exact(x: int)
    requires -TWO64 <= x < TWO64
    ensures I64(x) == if x < -TWO63 then x + TWO64 else if x < TWO63 then x else x - TWO64
  {
    if x < 0 { WrapNegative(x); }
  }

  lemma WrapNegative(x: int)
    requires -TWO64 <= x < 0
    ensures U64(x) == x + TWO64
  {
    assert (x + TWO64) % TWO64 == x % TWO64;
  }

  /** What the write check accepts, exactly: a range inside the session, or an offset of at
      least 2^63 whose end wraps around into the session. */
  lemma WriteRangeIff(offset: uint64, length: int64, size: int64)
    requires 0 <= size
    ensures ValidateWriteRange(offset, length, size).None? <==>
      && 0 <= length
      && if offset < TWO63 then offset + length <= size else 0 <= offset - TWO64 + length <= size
  {
    I64Exact(offset);
    I64Exact(I64(offset) + length);
  }

  /** The reuse check likewise, with the cap on the length. */
  lemma ReuseRangeIff(offset: uint64, length: int64, oldSize: int64)
    requires 0 <= oldSize
    ensures ValidateReuseRange(offset, length, oldSize).None? <==>
      && 0 < length <= Chunker.DEFAULT_MAX
      && if offset < TWO63 then offset + length <= oldSize else 0 <= offset - TWO64 + length <= oldSize
  {
    I64Exact(offset);
    I64Exact(I64(offset) + length);
  }

  /** A concrete offset past every file that the check alone lets through: only the file
      system's own refusal of a negative offset stops this write. */
  lemma WrappedRangeAccepted()
    ensures ValidateWriteRange(TWO64 - 5, 10, 100).None? && I64(TWO64 - 5) < 0
  {
    WriteRangeIff(TWO64 - 5, 10, 100);
    I64Exact(TWO64 - 5);
  }

  // ---------------------------------------------------------------- codecs

  datatype Codec = CodecNone | LZ4 | Zstd | Auto | Other

  const MAX_UNCOMPRESSED := 0x400_0000 // 64 MiB

  /** A payload on the wire. LZ4 and zstd are ideal lossless codecs: `Packed` is what their
      encoder makes of `original`, `body` being its bytes; anything else does not decode. */
  datatype Wire = Plain(bytes: Bytes) | Packed(codec: Codec, original: Bytes, body: Bytes)

  function BytesOf(w: Wire): Bytes {
    match w
    case Plain(bytes) => bytes
    case Packed(_, _, body) => body
  }

  /** Encode gives the codec actually used and the payload. `packed` is what the compressor
      makes of the data at hand, whatever that is. */
  function Encode(packed: map<Bytes, Bytes>, codec: Codec, data: Bytes): (Codec, Wire) {
    if codec in {CodecNone, Auto, Other} || |data| < 64 then (CodecNone, Plain(data))
    else if data !in packed || |packed[data]| >= |data| then (CodecNone, Plain(data))
    else (codec, Packed(codec, data, packed[data]))
  }

  /** Data goes compressed exactly when a compressor is asked for, the data is worth it and the
      result is shorter; so nothing on the wire is ever longer than the data. */
  lemma EncodeIs(packed: map<Bytes, Bytes>, codec: Codec, data: Bytes)
    ensures var (used, w) := Encode(packed, codec, data);
            var shorter := codec in {LZ4, Zstd} && |data| >= 64 && data in packed && |packed[data]| < |data|;
            && used == (if shorter then codec else CodecNone)
            && BytesOf(w) == (if shorter then packed[data] else data)
            && |BytesOf(w)| <= |data|
  {}

  function Decode(codec: Codec, w: Wire, uncompressedLen: int): Option<Bytes> {
    match codec
    case Auto => None
    case CodecNone => Some(BytesOf(w))
    case Other => None
    case _ =>
      if uncompressedLen < 0 || uncompressedLen > MAX_UNCOMPRESSED then None
      else
        var maxOut := if uncompressedLen > 0 then uncompressedLen else MAX_UNCOMPRESSED;
        if !w.Packed? || w.codec != codec then None
        else
          var out := w.original;
          if |out| > maxOut || (uncompressedLen > 0 && |out| != uncompressedLen) then None else Some(out)
  }

  /** Decoding gives the data back exactly when it was sent raw or fits the 64 MiB cap;
      otherwise decoding fails, and it never gives back anything else. */
  lemma DecodeEncodeIff(packed: map<Bytes, Bytes>, codec: Codec, data: Bytes)
    ensures var (used, w) := Encode(packed, codec, data);
            Decode(used, w, |data|) ==
            if used == CodecNone || |data| <= MAX_UNCOMPRESSED then Some(data) else None
  {}
}
