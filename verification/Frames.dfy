/** internal/protocol/protocol.go: length-prefixed frames on a byte stream. */
module Frames {
  import opened Base

  const MAX_MESSAGE := 64 * 1024 * 1024

  datatype Frame = Frame(typ: byte, payload: Bytes)

  function BigEndian(n: uint32): (b: Bytes)
    ensures |b| == 4
  {
    [(n / 0x100_0000) as byte, (n / 0x1_0000 % 0x100) as byte, (n / 0x100 % 0x100) as byte, (n % 0x100) as byte]
  }

  function FromBigEndian(b: Bytes): uint32
    requires |b| == 4
  {
    b[0] as int * 0x100_0000 + b[1] as int * 0x1_0000 + b[2] as int * 0x100 + b[3] as int
  }

  lemma BigEndianInverse(n: uint32)
    ensures FromBigEndian(BigEndian(n)) == n
  {
    var h := n / 0x100;
    var g := h / 0x100;
    assert n == h * 0x100 + n % 0x100 && h == g * 0x100 + h % 0x100;
    assert n / 0x1_0000 == g && n / 0x100_0000 == g / 0x100;
    assert g == g / 0x100 * 0x100 + g % 0x100;
  }

  lemma FromBigEndianInverse(b: Bytes)
    requires |b| == 4
    ensures BigEndian(FromBigEndian(b)) == b
  {
    var b0, b1, b2, b3 := b[0] as int, b[1] as int, b[2] as int, b[3] as int;
    var n := FromBigEndian(b);
    var h, g := b0 * 0x1_0000 + b1 * 0x100 + b2, b0 * 0x100 + b1;
    assert n == h * 0x100 + b3 && h == g * 0x100 + b2;
    assert n / 0x100 == h && n % 0x100 == b3;
    assert n / 0x1_0000 == g && n / 0x100 % 0x100 == b2;
    assert n / 0x100_0000 == b0 && n / 0x1_0000 % 0x100 == b1;
  }

  /** What WriteMsg puts on the wire. */
  function Encoded(f: Frame): Bytes
    requires |f.payload| <= MAX_MESSAGE
  {
    [f.typ] + BigEndian(|f.payload|) + f.payload
  }

  /** A frame on the wire: the type, the length of the payload in four bytes, the most
      significant first, and the payload. */
  lemma EncodedIs(f: Frame)
    requires |f.payload| <= MAX_MESSAGE
    ensures var e := Encoded(f);
            && |e| == 5 + |f.payload| && e[0] == f.typ && e[5..] == f.payload
            && e[1] as int * 0x100_0000 + e[2] as int * 0x1_0000 + e[3] as int * 0x100 + e[4] as int == |f.payload|
  {
    BigEndianInverse(|f.payload|);
    assert Encoded(f)[1..5] == BigEndian(|f.payload|);
    assert Encoded(f)[1] == BigEndian(|f.payload|)[0];
  }

  /** What ReadMsg makes of the bytes at hand: a frame and the rest, or an error. */
  function Parsed(s: Bytes): Option<(Frame, Bytes)> {
    if |s| < 5 then None
    else
      var n := FromBigEndian(s[1..5]);
      if n > MAX_MESSAGE || |s| < 5 + n then None
      else Some((Frame(s[0], s[5..5 + n]), s[5 + n..]))
  }

  class Stream {
    var bytes: Bytes

    constructor ()
      ensures bytes == []
    {
      bytes := [];
    }

    /** False for a message that is too large; then nothing is written. */
    method WriteMsg(typ: byte, payload: Bytes) returns (ok: bool)
      modifies this
      ensures ok <==> |payload| <= MAX_MESSAGE
      ensures bytes == if ok then old(bytes) + Encoded(Frame(typ, payload)) else old(bytes)
    {
      if |payload| > MAX_MESSAGE { return false; }
      ok := true;
      ghost var before := bytes;
      bytes := bytes + ([typ] + BigEndian(|payload|));
      if |payload| == 0 {
        assert payload == [];
        assert Encoded(Frame(typ, payload)) == [typ] + BigEndian(|payload|);
        return;
      }
      bytes := bytes + payload;
      assert bytes == before + Encoded(Frame(typ, payload));
    }

    method ReadFull(n: nat) returns (r: Option<Bytes>)
      modifies this
      ensures r.Some? <==> n <= old(|bytes|)
      ensures r.Some? ==> r.value == old(bytes)[..n] && bytes == old(bytes)[n..]
      ensures r.None? ==> bytes == old(bytes)
    {
      if |bytes| < n { return None; }
      r, bytes := Some(bytes[..n]), bytes[n..];
    }

    method ReadMsg() returns (r: Option<Frame>)
      modifies this
      ensures r.Some? <==> Parsed(old(bytes)).Some?
      ensures r.Some? ==> (r.value, bytes) == Parsed(old(bytes)).value
      ensures old(bytes) == [] ==> bytes == []
    {
      ghost var s := bytes;
      var hdr := ReadFull(5);
      if hdr.None? { return None; }
      var n := FromBigEndian(hdr.value[1..5]);
      assert hdr.value[1..5] == s[1..5];
      if n > MAX_MESSAGE { return None; }
      var buf: Bytes := [];
      if n > 0 {
        var body := ReadFull(n);
        if body.None? { return None; }
        buf := body.value;
      }
      assert buf == s[5..5 + n] && bytes == s[5 + n..];
      return Some(Frame(hdr.value[0], buf));
    }
  }

  /** A frame is read back whatever follows it, and only an encoded frame is ever read. */
  lemma ParsedEncoded(f: Frame, rest: Bytes)
    requires |f.payload| <= MAX_MESSAGE
    ensures Parsed(Encoded(f) + rest) == Some((f, rest))
  {
    BigEndianInverse(|f.payload|);
    var s := Encoded(f) + rest;
    assert s[1..5] == BigEndian(|f.payload|);
    assert s[5..5 + |f.payload|] == f.payload && s[5 + |f.payload|..] == rest;
  }

  lemma ParsedIsEncoded(s: Bytes)
    requires Parsed(s).Some?
    ensures var (f, rest) := Parsed(s).value;
            |f.payload| <= MAX_MESSAGE && s == Encoded(f) + rest
  {
    FromBigEndianInverse(s[1..5]);
    assert s == [s[0]] + s[1..5] + s[5..5 + FromBigEndian(s[1..5])] + s[5 + FromBigEndian(s[1..5])..];
  }

  lemma ParsedLonger(s: Bytes, more: Bytes)
    requires Parsed(s).Some?
    ensures Parsed(s + more) == Some((Parsed(s).value.0, Parsed(s).value.1 + more))
  {
    var (f, rest) := Parsed(s).value;
    ParsedIsEncoded(s);
    assert s + more == Encoded(f) + (rest + more);
    ParsedEncoded(f, rest + more);
  }

  function EncodedAll(fs: seq<Frame>): Bytes
    requires forall i :: 0 <= i < |fs| ==> |fs[i].payload| <= MAX_MESSAGE
  {
    if fs == [] then [] else Encoded(fs[0]) + EncodedAll(fs[1..])
  }

  /** Reading n messages in a row. */
  function ParsedMany(s: Bytes, n: nat): Option<(seq<Frame>, Bytes)> {
    if n == 0 then Some(([], s))
    else
      match Parsed(s)
      case None => None
      case Some((f, rest)) =>
        match ParsedMany(rest, n - 1)
        case None => None
        case Some((fs, rest')) => Some(([f] + fs, rest'))
  }

  /** Whatever sequence of messages is written, the same sequence is read. */
  lemma {:induction false} FramesRoundTrip(fs: seq<Frame>, rest: Bytes)
    requires forall i :: 0 <= i < |fs| ==> |fs[i].payload| <= MAX_MESSAGE
    ensures ParsedMany(EncodedAll(fs) + rest, |fs|) == Some((fs, rest))
  {
    hide Encoded, Parsed;
    if fs == [] {
      assert EncodedAll(fs) + rest == rest;
    } else {
      ParsedEncoded(fs[0], EncodedAll(fs[1..]) + rest);
      assert EncodedAll(fs) + rest == Encoded(fs[0]) + (EncodedAll(fs[1..]) + rest);
      FramesRoundTrip(fs[1..], rest);
      assert [fs[0]] + fs[1..] == fs;
    }
  }

  /** A message cut short is an error, never a shorter message. */
  lemma TruncatedFrameIsError(f: Frame, k: nat)
    requires |f.payload| <= MAX_MESSAGE && k < |Encoded(f)|
    ensures Parsed(Encoded(f)[..k]).None?
  {
    var s := Encoded(f)[..k];
    BigEndianInverse(|f.payload|);
    if k >= 5 {
      assert Encoded(f)[1..5] == BigEndian(|f.payload|);
      assert s[1..5] == Encoded(f)[1..5];
    }
  }
}
