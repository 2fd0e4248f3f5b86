/** Messages on the wire: an eight byte header and a body, one after the other. */
module Frames {
  import opened Bytes
  import opened Sequences

  type Body = s: seq<byte> | |s| < 0x1_0000_0000

  const HEADER_SIZE := 8

  datatype Frame = Frame(id: u16, body: Body)

  function Header(id: u16, len: u32): (h: seq<byte>)
    ensures |h| == HEADER_SIZE
  {
    ['P' as int, 'S' as int] + ToBE(id, 2) + ToBE(len, 4)
  }

  predicate Magic(h: seq<byte>)
    requires |h| >= HEADER_SIZE
  {
    h[0] == 'P' as int && h[1] == 'S' as int
  }

  function HeaderId(h: seq<byte>): u16
    requires |h| >= HEADER_SIZE
  {
    Widths();
    FromBE(h[2..4])
  }

  function HeaderLen(h: seq<byte>): u32
    requires |h| >= HEADER_SIZE
  {
    Widths();
    FromBE(h[4..8])
  }

  function Encode(f: Frame): seq<byte> {
    Header(f.id, |f.body|) + f.body
  }

  function EncodeAll(fs: seq<Frame>): seq<byte> {
    if fs == [] then [] else Encode(fs[0]) + EncodeAll(fs[1..])
  }

  /** How a stream of bytes ends once its complete messages have been taken off. */
  datatype Tail =
    | AwaitHeader(rest: seq<byte>)
    | AwaitBody(id: u16, len: u32, rest: seq<byte>)
    | BadHeader(rest: seq<byte>)

  datatype Parsed = Parsed(frames: seq<Frame>, tail: Tail)

  /** The meaning of a byte stream. */
  function Parse(s: seq<byte>): Parsed {
    if |s| < HEADER_SIZE then Parsed([], AwaitHeader(s))
    else if !Magic(s) then Parsed([], BadHeader(s))
    else
      var id, len, rest := HeaderId(s), HeaderLen(s), s[HEADER_SIZE..];
      if |rest| < len then Parsed([], AwaitBody(id, len, rest))
      else
        var p := Parse(rest[len..]);
        Parsed([Frame(id, rest[..len])] + p.frames, p.tail)
  }

  function TailBytes(t: Tail): seq<byte> {
    match t
    case AwaitHeader(rest) => rest
    case AwaitBody(id, len, rest) => Header(id, len) + rest
    case BadHeader(rest) => rest
  }

  /** The eight bytes of a header. */
  lemma HeaderBytes(id: u16, len: u32)
    ensures Header(id, len) == [80, 83, id / 256, id % 256, len / 0x100_0000, len / 0x1_0000 % 256, len / 256 % 256, len % 256]
  {
    assert ToBE(id / 256, 1) == [id / 256];
    assert ToBE(id, 2) == [id / 256, id % 256];
    var a, b, c := len / 256, len / 0x1_0000, len / 0x100_0000;
    assert a / 256 == b && b / 256 == c < 256;
    assert ToBE(c, 1) == [c];
    assert ToBE(b, 2) == [c, b % 256];
    assert ToBE(a, 3) == [c, b % 256, a % 256];
    assert ToBE(len, 4) == [c, b % 256, a % 256, len % 256];
  }

  lemma HeaderMeaning(id: u16, len: u32, rest: seq<byte>)
    ensures var s := Header(id, len) + rest;
      Magic(s) && HeaderId(s) == id && HeaderLen(s) == len && s[HEADER_SIZE..] == rest
  {
    var s := Header(id, len) + rest;
    Widths();
    DecodeEncode(id, 2);
    DecodeEncode(len, 4);
    assert s[2..4] == ToBE(id, 2);
    assert s[4..8] == ToBE(len, 4);
  }

  lemma HeaderFromBytes(s: seq<byte>)
    requires |s| >= HEADER_SIZE && Magic(s)
    ensures Header(HeaderId(s), HeaderLen(s)) + s[HEADER_SIZE..] == s
  {
    EncodeDecode(s[2..4]);
    EncodeDecode(s[4..8]);
    assert s == s[..2] + s[2..4] + s[4..8] + s[8..];
  }

  lemma ParseOne(f: Frame, more: seq<byte>)
    ensures Parse(Encode(f) + more) == Parsed([f] + Parse(more).frames, Parse(more).tail)
  {
    var s, rest := Encode(f) + more, f.body + more;
    HeaderMeaning(f.id, |f.body|, rest);
    assert s == Header(f.id, |f.body|) + rest;
    assert rest[..|f.body|] == f.body && rest[|f.body|..] == more;
  }

  /** Encoded messages are read back exactly, whatever follows them. */
  lemma {:induction false} ParseEncoded(fs: seq<Frame>, rest: seq<byte>)
    ensures Parse(EncodeAll(fs) + rest) == Parsed(fs + Parse(rest).frames, Parse(rest).tail)
  {
    if fs == [] {
      assert EncodeAll(fs) + rest == rest;
    } else {
      ParseEncoded(fs[1..], rest);
      ParseOne(fs[0], EncodeAll(fs[1..]) + rest);
      Regroup(Encode(fs[0]), EncodeAll(fs[1..]), rest);
      Regroup([fs[0]], fs[1..], Parse(rest).frames);
      assert [fs[0]] + fs[1..] == fs;
    }
  }

  lemma SplitMessage(s: seq<byte>)
    requires |s| >= HEADER_SIZE && Magic(s) && HeaderLen(s) <= |s| - HEADER_SIZE
    ensures var n := HEADER_SIZE + HeaderLen(s);
      s == Encode(Frame(HeaderId(s), s[HEADER_SIZE..n])) + s[n..]
  {
    HeaderFromBytes(s);
    var n := HEADER_SIZE + HeaderLen(s);
    assert s[HEADER_SIZE..] == s[HEADER_SIZE..n] + s[n..];
  }

  /** Parsing loses nothing: the messages and the tail are the stream again. */
  lemma {:induction false} ParseExact(s: seq<byte>)
    ensures EncodeAll(Parse(s).frames) + TailBytes(Parse(s).tail) == s
    decreases |s|
  {
    if |s| >= HEADER_SIZE && Magic(s) {
      HeaderFromBytes(s);
      var n := HEADER_SIZE + HeaderLen(s);
      if n <= |s| {
        ParseExact(s[n..]);
        SplitMessage(s);
        OneMoreParsed(s, n);
      }
    }
  }

  lemma OneMoreParsed(s: seq<byte>, n: nat)
    requires |s| >= HEADER_SIZE && Magic(s) && n == HEADER_SIZE + HeaderLen(s) <= |s|
    ensures var p := Parse(s[n..]);
      Parse(s) == Parsed([Frame(HeaderId(s), s[HEADER_SIZE..n])] + p.frames, p.tail)
  {
    var rest := s[HEADER_SIZE..];
    assert rest[HeaderLen(s)..] == s[n..] && rest[..HeaderLen(s)] == s[HEADER_SIZE..n];
  }

  lemma {:induction false} EncodeAllConcat(a: seq<Frame>, b: seq<Frame>)
    ensures EncodeAll(a + b) == EncodeAll(a) + EncodeAll(b)
  {
    if a == [] {
      assert a + b == b;
    } else {
      assert (a + b)[1..] == a[1..] + b;
      EncodeAllConcat(a[1..], b);
    }
  }

  lemma EncodeAllOne(f: Frame)
    ensures EncodeAll([f]) == Encode(f)
  {
    assert EncodeAll([f]) == Encode(f) + [];
  }

  /** No other list of messages has the same encoding. */
  lemma EncodingUnique(a: seq<Frame>, b: seq<Frame>)
    requires EncodeAll(a) == EncodeAll(b)
    ensures a == b
  {
    ParseAll(a);
    ParseAll(b);
  }

  lemma ParseAll(fs: seq<Frame>)
    ensures Parse(EncodeAll(fs)) == Parsed(fs, AwaitHeader([]))
  {
    ParseEncoded(fs, []);
    var s := EncodeAll(fs);
    assert s + [] == s && fs + [] == fs;
  }
}
