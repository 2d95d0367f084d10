/** What is sent is what arrives, however the bytes are cut into chunks. */
module McpRoundTrip {
  import opened Options
  import opened McpFraming

  /** The two framings the client writes, and the lines that other implementations end in
      a carriage return and a newline. */
  datatype Frame = JsonLine(payload: Bytes) | ContentLengthFrame(payload: Bytes) | CrlfLine(payload: Bytes)

  /** What a serialized JSON object guarantees: it starts with a brace, it has no raw
      newline, and it does not end in a carriage return. Other payloads are any bytes. */
  ghost predicate Sendable(f: Frame) {
    !f.ContentLengthFrame? ==>
      && f.payload != []
      && f.payload[0] == '{'
      && LF !in f.payload
      && f.payload[|f.payload| - 1] != CR
  }

  function HeaderOf(n: nat): Bytes {
    "Content-Length: " + Decimal(n)
  }

  /** `serializePayload`. */
  function Serialize(f: Frame): Bytes {
    match f
    case JsonLine(payload) => payload + [LF]
    case ContentLengthFrame(payload) => HeaderOf(|payload|) + CRLF2 + payload
    case CrlfLine(payload) => payload + [CR, LF]
  }

  function Stream(fs: seq<Frame>): Bytes {
    if fs == [] then [] else Serialize(fs[0]) + Stream(fs[1..])
  }

  function Payloads(fs: seq<Frame>): seq<Bytes> {
    if fs == [] then [] else [fs[0].payload] + Payloads(fs[1..])
  }

  function Concat(chunks: seq<Bytes>): Bytes {
    if chunks == [] then [] else chunks[0] + Concat(chunks[1..])
  }

  ghost predicate AllSendable(fs: seq<Frame>) {
    forall f :: f in fs ==> Sendable(f)
  }

  lemma SendableFrom(fs: seq<Frame>, k: nat)
    requires AllSendable(fs) && k <= |fs|
    ensures AllSendable(fs[k..]) && (k < |fs| ==> Sendable(fs[k]))
  {
    assert forall f :: f in fs[k..] ==> f in fs;
  }

  // ---------------------------------------------------------------- where separators are

  lemma AtByte(s: Bytes, b: Byte, i: int)
    ensures At(s, [b], i) <==> 0 <= i < |s| && s[i] == b
  {
  }

  lemma AtBytes(s: Bytes, pat: Bytes, i: int, k: int)
    requires At(s, pat, i) && 0 <= k < |pat|
    ensures i + k < |s| && s[i + k] == pat[k]
  {
    assert s[i..i + |pat|][k] == s[i + k];
  }

  /** The first newline of a text that starts with `line` and a newline. */
  lemma NewlineAfter(line: Bytes, rest: Bytes)
    requires LF !in line
    ensures IndexOf(line + [LF] + rest, [LF], 0) == |line|
  {
    var s := line + [LF] + rest;
    AtByte(s, LF, |line|);
    forall i | 0 <= i < |line| ensures !At(s, [LF], i) {
      assert s[i] == line[i];
    }
  }

  lemma NoNewlineNowhere(s: Bytes)
    requires LF !in s
    ensures IndexOf(s, [LF], 0) == -1 && IndexOf(s, CRLF2, 0) == -1 && IndexOf(s, LF2, 0) == -1
  {
    var i, j, k := IndexOf(s, [LF], 0), IndexOf(s, CRLF2, 0), IndexOf(s, LF2, 0);
    if i != -1 { AtByte(s, LF, i); }
    if j != -1 { AtBytes(s, CRLF2, j, 1); }
    if k != -1 { AtBytes(s, LF2, k, 0); }
  }

  // ---------------------------------------------------------------- newline framing

  lemma BlankLineBeyond(p: Bytes, s: Bytes)
    requires LF !in p && p != [] && p[|p| - 1] != CR && p <= s
    ensures IndexOf(s, CRLF2, 0) == -1 || IndexOf(s, CRLF2, 0) >= |p|
  {
    var h := IndexOf(s, CRLF2, 0);
    if h != -1 {
      assert At(s, CRLF2, h);
      hide IndexOf;
      AtBytes(s, CRLF2, h, 0);
      AtBytes(s, CRLF2, h, 1);
      assert forall k :: 0 <= k < |p| ==> s[k] == p[k] && p[k] in p;
    }
  }

  /** A whole JSON line is read, whatever follows it. */
  lemma JsonLineRead(p: Bytes, rest: Bytes)
    requires Sendable(JsonLine(p))
    ensures ReadOne(p + [LF] + rest) == Message(p, rest)
  {
    var s := p + [LF] + rest;
    NewlineAfter(p, rest);
    BlankLineBeyond(p, s);
    assert s[..|p|] == p && s[|p| + 1..] == rest;
  }

  // ---------------------------------------------------------------- Content-Length framing

  lemma HeaderShape(n: nat)
    ensures forall b :: b in HeaderOf(n) ==> b != LF && b != CR
    ensures HeaderOf(n)[..15] == "Content-Length:" && HeaderOf(n)[15..] == [' '] + Decimal(n)
  {
  }

  lemma {:induction false} DigitsAll(s: Bytes)
    requires forall b :: b in s ==> IsDigit(b)
    ensures Digits(s) == s
  {
    if s != [] {
      assert s[0] in s && forall b :: b in s[1..] ==> b in s;
      DigitsAll(s[1..]);
    }
  }

  lemma HeaderLength(n: nat)
    ensures ContentLength(HeaderOf(n), 0) == Some(n)
  {
    var h := HeaderOf(n);
    HeaderShape(n);
    assert LowerAll(h[0..15]) == FIELD;
    var d := Decimal(n);
    assert h[0 + |FIELD|..] == [' '] + d;
    assert ([' '] + d)[1..] == d;
    assert IsDigit(d[0]);
    assert SkipSpace([' '] + d) == SkipSpace(d) == d;
    DigitsAll(d);
    DecimalRoundTrip(n);
  }

  lemma HeaderEnd(h: Bytes, rest: Bytes)
    requires forall b :: b in h ==> b != LF && b != CR
    ensures var s := h + CRLF2 + rest;
      && IndexOf(s, CRLF2, 0) == |h|
      && IndexOf(s, [LF], 0) == |h| + 1
      && (IndexOf(s, LF2, 0) == -1 || IndexOf(s, LF2, 0) > |h|)
  {
    var s := h + CRLF2 + rest;
    assert s[|h|..|h| + 4] == CRLF2;
    assert At(s, CRLF2, |h|);
    AtByte(s, LF, |h| + 1);
    forall i | 0 <= i < |h| ensures !At(s, CRLF2, i) && !At(s, [LF], i) && !At(s, LF2, i) {
      assert s[i] == h[i] && h[i] in h;
      if At(s, CRLF2, i) { AtBytes(s, CRLF2, i, 0); }
      if At(s, LF2, i) { AtBytes(s, LF2, i, 0); }
    }
    assert s[|h|] == CR;
    AtByte(s, LF, |h|);
    if At(s, LF2, |h|) { AtBytes(s, LF2, |h|, 0); }
  }

  /** A complete header: its body is read once it is all there. */
  lemma HeaderRead(n: nat, rest: Bytes)
    ensures ReadOne(HeaderOf(n) + CRLF2 + rest) == if |rest| < n then Wait else Message(rest[..n], rest[n..])
  {
    var h := HeaderOf(n);
    var s := h + CRLF2 + rest;
    HeaderShape(n);
    HeaderEnd(h, rest);
    HeaderLength(n);
    hide IndexOf, ContentLength, HeaderOf, Decimal;
    assert s[..|h|] == h;
    assert s[|h| + 4..] == rest;
    if |rest| >= n {
      assert s[|h| + 4..|h| + 4 + n] == rest[..n] && s[|h| + 4 + n..] == rest[n..];
    }
  }

  /** A header whose blank line is not complete yet is not taken for anything else. */
  lemma HeaderWaits(h: Bytes, tail: Bytes)
    requires forall b :: b in h ==> b != LF && b != CR
    requires !LooksLikeJson(h) && |tail| < 4 && tail == CRLF2[..|tail|]
    ensures ReadOne(h + tail).Wait?
  {
    var s := h + tail;
    if |tail| < 2 {
      assert LF !in s;
      NoNewlineNowhere(s);
    } else {
      assert tail[0] == CR && tail[1] == LF && (|tail| == 3 ==> tail[2] == CR);
      NewlineAfter(h + [CR], tail[2..]);
      assert s == (h + [CR]) + [LF] + tail[2..];
      var i, j := IndexOf(s, CRLF2, 0), IndexOf(s, LF2, 0);
      assert forall k :: 0 <= k < |s| && s[k] == LF ==> k == |h| + 1;
      if i != -1 {
        AtBytes(s, CRLF2, i, 1);
      }
      if j != -1 {
        AtBytes(s, LF2, j, 0);
        assert j == |h| + 1;
        AtBytes(s, LF2, j, 1);
      }
      assert s[..|h| + 1] == h + [CR];
      assert StripCr(h + [CR]) == h;
    }
  }

  lemma HeaderNotJson(n: nat, k: nat)
    requires k <= |HeaderOf(n)|
    ensures !LooksLikeJson(HeaderOf(n)[..k])
  {
    if k > 0 {
      assert HeaderOf(n)[..k][0] == 'C';
    }
  }

  // ---------------------------------------------------------------- lines of other implementations

  lemma CrlfPositions(p: Bytes, rest: Bytes)
    requires LF !in p && p != [] && p[|p| - 1] != CR
    ensures var s := p + [CR, LF] + rest;
      && IndexOf(s, [LF], 0) == |p| + 1
      && (IndexOf(s, CRLF2, 0) == |p| || IndexOf(s, CRLF2, 0) == -1 || IndexOf(s, CRLF2, 0) > |p| + 1)
      && (IndexOf(s, CRLF2, 0) == |p| <==> [CR, LF] <= rest)
      && (IndexOf(s, LF2, 0) == -1 || IndexOf(s, LF2, 0) > |p|)
  {
    var s := p + [CR, LF] + rest;
    var line := p + [CR];
    assert s == line + [LF] + rest;
    NewlineAfter(line, rest);
    var h, l := IndexOf(s, CRLF2, 0), IndexOf(s, LF2, 0);
    hide IndexOf;
    assert forall i :: 0 <= i <= |p| ==> s[i] == line[i] && s[i] in line;
    if h != -1 {
      AtBytes(s, CRLF2, h, 1);
      AtBytes(s, CRLF2, h, 0);
      if h == |p| {
        AtBytes(s, CRLF2, h, 2);
        AtBytes(s, CRLF2, h, 3);
        assert rest[..2] == [CR, LF];
      }
    }
    if l != -1 {
      AtBytes(s, LF2, l, 0);
    }
    if [CR, LF] <= rest {
      assert s[|p|..|p| + 4] == CRLF2;
      assert At(s, CRLF2, |p|);
    }
  }

  /** A foreign peer that ends a JSON line in `\r\n` is understood exactly when the bytes
      that follow in the same read are not another `\r\n`. */
  lemma CrlfLineRead(p: Bytes, rest: Bytes)
    requires Sendable(JsonLine(p))
    ensures (ReadOne(p + [CR, LF] + rest) == Message(p, rest)) == !([CR, LF] <= rest)
  {
    var s := p + [CR, LF] + rest;
    CrlfPositions(p, rest);
    assert s[..|p| + 1] == p + [CR] && StripCr(p + [CR]) == p && s[|p| + 2..] == rest;
    if [CR, LF] <= rest {
      FramedRest(s, |p|);
    }
    hide IndexOf, ContentLength, ReadFramed;
  }

  /** Reading past a header takes its blank line with it. */
  lemma FramedRest(s: Bytes, h: nat)
    requires IndexOf(s, CRLF2, 0) == h && (IndexOf(s, LF2, 0) == -1 || IndexOf(s, LF2, 0) > h)
    ensures ReadFramed(s).Message? ==> |ReadFramed(s).rest| <= |s| - h - 4
  {
    hide ContentLength;
  }

  // ---------------------------------------------------------------- any frame

  /** A complete frame at the front of the buffer is read as its payload. */
  lemma FrameRead(f: Frame, rest: Bytes)
    requires Sendable(f) && (f.CrlfLine? ==> rest == [] || rest[0] != CR)
    ensures ReadOne(Serialize(f) + rest) == Message(f.payload, rest)
  {
    match f
    case JsonLine(p) => JsonLineRead(p, rest);
    case ContentLengthFrame(p) =>
      HeaderRead(|p|, p + rest);
      assert Serialize(f) + rest == HeaderOf(|p|) + CRLF2 + (p + rest);
    case CrlfLine(p) => CrlfLineRead(p, rest);
  }

  /** A frame that is not all there yet leaves the reader waiting. */
  lemma FrameWaits(f: Frame, part: Bytes)
    requires Sendable(f) && part < Serialize(f)
    ensures ReadOne(part).Wait?
  {
    match f
    case JsonLine(p) =>
      assert part == p[..|part|];
      NoNewlineNowhere(part);
    case CrlfLine(p) =>
      assert part == (p + [CR])[..|part|];
      NoNewlineNowhere(part);
    case ContentLengthFrame(p) =>
      var h := HeaderOf(|p|);
      HeaderShape(|p|);
      var k := if |part| < |h| then |part| else |h|;
      HeaderNotJson(|p|, k);
      if |part| < |h| + 4 {
        assert part == h[..k] + CRLF2[..|part| - k];
        assert forall b :: b in h[..k] ==> b in h;
        HeaderWaits(h[..k], CRLF2[..|part| - k]);
      } else {
        var body := part[|h| + 4..];
        assert part == h + CRLF2 + body;
        HeaderRead(|p|, body);
      }
  }

  // ---------------------------------------------------------------- the stream

  /** Reading `piece` delivers the first `k` frames and keeps the beginning of the next. */
  ghost predicate PieceIs(fs: seq<Frame>, piece: Bytes, k: nat) {
    && k <= |fs|
    && ParseAll(piece).messages == Payloads(fs[..k])
    && piece == Stream(fs[..k]) + ParseAll(piece).rest
    && (if k == |fs| then ParseAll(piece).rest == [] else ParseAll(piece).rest < Serialize(fs[k]))
  }

  lemma PieceNone(fs: seq<Frame>, piece: Bytes)
    requires ReadOne(piece).Wait? && if fs == [] then piece == [] else piece < Serialize(fs[0])
    ensures PieceIs(fs, piece, 0)
  {
    hide ReadOne, Serialize;
    assert fs[..0] == [];
  }

  lemma {:induction false} PieceMore(f: Frame, fs: seq<Frame>, piece: Bytes, rest: Bytes, k: nat)
    requires ReadOne(piece) == Message(f.payload, rest) && piece == Serialize(f) + rest && PieceIs(fs, rest, k)
    ensures PieceIs([f] + fs, piece, k + 1)
  {
    hide ReadOne, Serialize;
    var gs := ([f] + fs)[..k + 1];
    assert gs[0] == f && gs[1..] == fs[..k];
    assert ParseAll(piece) == Parsed([f.payload] + ParseAll(rest).messages, ParseAll(rest).rest);
    assert piece == (Serialize(f) + Stream(fs[..k])) + ParseAll(rest).rest;
  }

  /** Any piece of the stream from its start is read frame by frame. */
  lemma {:induction false} PieceRead(fs: seq<Frame>, piece: Bytes) returns (k: nat)
    requires AllSendable(fs) && piece <= Stream(fs)
    ensures PieceIs(fs, piece, k)
  {
    hide PieceIs, ReadOne, Serialize, Sendable, AllSendable;
    if fs == [] {
      EmptyWaits();
      PieceNone(fs, piece);
      return 0;
    }
    SendableFrom(fs, 0);
    SendableFrom(fs, 1);
    var first := Serialize(fs[0]);
    if |piece| < |first| {
      FrameWaits(fs[0], piece);
      PieceNone(fs, piece);
      return 0;
    }
    var rest := piece[|first|..];
    assert piece == first + rest && rest <= Stream(fs[1..]);
    StreamStarts(fs[1..]);
    FrameRead(fs[0], rest);
    k := PieceRead(fs[1..], rest);
    PieceMore(fs[0], fs[1..], piece, rest, k);
    assert [fs[0]] + fs[1..] == fs;
    k := k + 1;
  }

  /** No frame starts with a carriage return. */
  lemma StreamStarts(fs: seq<Frame>)
    requires AllSendable(fs)
    ensures Stream(fs) == [] || Stream(fs)[0] != CR
  {
    if fs != [] {
      SendableFrom(fs, 0);
      assert Sendable(fs[0]);
      assert Serialize(fs[0]) != [] && Serialize(fs[0])[0] != CR by {
        if fs[0].ContentLengthFrame? {
          HeaderShape(|fs[0].payload|);
        }
      }
    }
  }

  lemma EmptyWaits()
    ensures ReadOne([]).Wait?
  {
    NoNewlineNowhere([]);
  }

  lemma {:induction false} StreamSplit(fs: seq<Frame>, k: nat)
    requires k <= |fs|
    ensures Stream(fs) == Stream(fs[..k]) + Stream(fs[k..])
    ensures Payloads(fs) == Payloads(fs[..k]) + Payloads(fs[k..])
  {
    if k > 0 {
      StreamSplit(fs[1..], k - 1);
      assert fs[..k][1..] == fs[1..][..k - 1] && fs[1..][k - 1..] == fs[k..];
    } else {
      assert fs[..0] == [] && fs[0..] == fs;
    }
  }

  ghost predicate Begun(fs: seq<Frame>, buffer: Bytes) {
    if fs == [] then buffer == [] else buffer < Serialize(fs[0])
  }

  /** What is left after a piece is the beginning of what is left of the stream. */
  lemma {:induction false} PieceLeaves(fs: seq<Frame>, piece: Bytes, k: nat, more: Bytes)
    requires PieceIs(fs, piece, k) && piece + more == Stream(fs)
    ensures ParseAll(piece).rest + more == Stream(fs[k..]) && Begun(fs[k..], ParseAll(piece).rest)
    ensures ParseAll(piece).messages + Payloads(fs[k..]) == Payloads(fs)
  {
    hide ParseAll, Serialize, Stream, Payloads;
    StreamSplit(fs, k);
    CancelPrefix(Stream(fs[..k]), ParseAll(piece).rest, more, Stream(fs[k..]));
    if k < |fs| {
      assert fs[k..][0] == fs[k];
    }
  }

  lemma {:induction false} FeedStream(fs: seq<Frame>, buffer: Bytes, chunks: seq<Bytes>)
    requires AllSendable(fs) && Begun(fs, buffer) && buffer + Concat(chunks) == Stream(fs)
    ensures Feed(buffer, chunks) == Parsed(Payloads(fs), [])
    decreases |chunks|
  {
    if chunks == [] {
      assert buffer + [] == buffer;
    } else {
      hide AllSendable, Begun, PieceIs, ParseAll, Stream, Payloads;
      var piece := buffer + chunks[0];
      assert piece + Concat(chunks[1..]) == Stream(fs);
      var k := PieceRead(fs, piece);
      PieceLeaves(fs, piece, k, Concat(chunks[1..]));
      SendableFrom(fs, k);
      FeedStream(fs[k..], ParseAll(piece).rest, chunks[1..]);
    }
  }

  lemma CancelPrefix(p: Bytes, a: Bytes, b: Bytes, c: Bytes)
    requires (p + a) + b == p + c
    ensures a + b == c
  {
    assert (p + a) + b == p + (a + b);
    assert (p + (a + b))[|p|..] == a + b && (p + c)[|p|..] == c;
  }

  /** Every list of payloads, framed in any of these ways, arrives complete, in order and with nothing
      left over, however the bytes are cut into chunks. */
  lemma RoundTrip(fs: seq<Frame>, chunks: seq<Bytes>)
    requires AllSendable(fs)
    requires Concat(chunks) == Stream(fs)
    ensures Feed([], chunks) == Parsed(Payloads(fs), [])
  {
    assert Begun(fs, []);
    assert [] + Concat(chunks) == Stream(fs);
    FeedStream(fs, [], chunks);
  }
}
