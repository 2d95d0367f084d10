/** How the MCP client frames messages and takes a byte stream apart again. Newline framing
    is the stdio transport of MCP 2024-11-05; Content-Length framing is the "Base Protocol,
    Header Part" of the Language Server Protocol. */
module McpFraming {
  import opened Options

  /** Bytes are written as the characters with the same code, as in a binary string. */
  type Byte = char
  type Bytes = string

  const LF: Byte := '\n'
  const CR: Byte := '\r'
  const CRLF2: Bytes := "\r\n\r\n"
  const LF2: Bytes := "\n\n"
  const FIELD: Bytes := "content-length:"

  // ---------------------------------------------------------------- searching

  ghost predicate At(s: Bytes, pat: Bytes, i: int) {
    0 <= i && i + |pat| <= |s| && s[i..i + |pat|] == pat
  }

  /** `Buffer.indexOf`. */
  function IndexOf(s: Bytes, pat: Bytes, from: nat): (r: int)
    requires from <= |s|
    ensures r == -1 ==> forall i :: from <= i ==> !At(s, pat, i)
    ensures r != -1 ==> from <= r && At(s, pat, r) && forall i :: from <= i < r ==> !At(s, pat, i)
    decreases |s| - from
  {
    if from + |pat| > |s| then -1
    else if s[from..from + |pat|] == pat then from
    else if from == |s| then -1
    else IndexOf(s, pat, from + 1)
  }

  // ---------------------------------------------------------------- decimal numbers

  predicate IsDigit(b: Byte) {
    '0' <= b <= '9'
  }

  function DigitOf(d: nat): (b: Byte)
    requires d < 10
    ensures IsDigit(b) && b as int - '0' as int == d
  {
    '0' + d as char
  }

  function Decimal(n: nat): (s: Bytes)
    ensures s != [] && forall b :: b in s ==> IsDigit(b)
  {
    if n < 10 then [DigitOf(n)] else Decimal(n / 10) + [DigitOf(n % 10)]
  }

  function Value(s: Bytes): nat
    requires forall b :: b in s ==> IsDigit(b)
  {
    if s == [] then 0
    else
      assert IsDigit(s[|s| - 1]) && forall b :: b in s[..|s| - 1] ==> b in s;
      10 * Value(s[..|s| - 1]) + (s[|s| - 1] as int - '0' as int)
  }

  lemma {:induction false} DecimalRoundTrip(n: nat)
    ensures Value(Decimal(n)) == n
  {
    if n < 10 {
      assert Decimal(n)[..0] == [];
    } else {
      DecimalRoundTrip(n / 10);
      assert Decimal(n)[..|Decimal(n)| - 1] == Decimal(n / 10);
    }
  }

  // ---------------------------------------------------------------- headers and lines

  predicate IsSpace(b: Byte) {
    b == ' ' || b == '\t' || b == '\n' || b == '\r' || b as int == 11 || b as int == 12
  }

  function Lower(b: Byte): Byte {
    if 'A' <= b <= 'Z' then b - 'A' + 'a' else b
  }

  function LowerAll(s: Bytes): (r: Bytes)
    ensures |r| == |s| && forall i :: 0 <= i < |s| ==> r[i] == Lower(s[i])
  {
    seq(|s|, i requires 0 <= i < |s| => Lower(s[i]))
  }

  function SkipSpace(s: Bytes): Bytes {
    if s != [] && IsSpace(s[0]) then SkipSpace(s[1..]) else s
  }

  /** The digits a text starts with. */
  function Digits(s: Bytes): (d: Bytes)
    ensures forall b :: b in d ==> IsDigit(b)
  {
    if s != [] && IsDigit(s[0]) then [s[0]] + Digits(s[1..]) else []
  }

  /** The first match of `content-length:\s*(\d+)`, in any case, at `from` or later. */
  function ContentLength(header: Bytes, from: nat): Option<nat>
    requires from <= |header|
    decreases |header| - from
  {
    if from + |FIELD| > |header| then None
    else
      var digits := Digits(SkipSpace(header[from + |FIELD|..]));
      if LowerAll(header[from..from + |FIELD|]) == FIELD && digits != [] then Some(Value(digits))
      else ContentLength(header, from + 1)
  }

  /** A line without its trailing carriage return. */
  function StripCr(line: Bytes): Bytes {
    if line != [] && line[|line| - 1] == CR then line[..|line| - 1] else line
  }

  predicate LooksLikeJson(line: Bytes) {
    var text := SkipSpace(line);
    text != [] && text[0] == '{'
  }

  // ---------------------------------------------------------------- one turn of the loop

  datatype Turn = Message(body: Bytes, rest: Bytes) | Dropped(rest: Bytes) | Wait

  /** `tryReadJsonLine`. */
  function ReadJsonLine(buffer: Bytes): Option<Turn> {
    var newline := IndexOf(buffer, [LF], 0);
    var headerEnd := IndexOf(buffer, CRLF2, 0);
    if newline == -1 || (headerEnd != -1 && headerEnd < newline) then None
    else
      var line := StripCr(buffer[..newline]);
      if LooksLikeJson(line) then Some(Message(line, buffer[newline + 1..])) else None
  }

  /** The rest of the loop body of `onData`. */
  function ReadFramed(buffer: Bytes): (t: Turn)
    ensures !t.Wait? ==> |t.rest| < |buffer|
  {
    var crlf := IndexOf(buffer, CRLF2, 0);
    var lf := IndexOf(buffer, LF2, 0);
    var useCrlf := crlf != -1 && (lf == -1 || crlf <= lf);
    var headerEnd := if useCrlf then crlf else lf;
    if headerEnd == -1 then Wait
    else
      var bodyStart := headerEnd + if useCrlf then 4 else 2;
      match ContentLength(buffer[..headerEnd], 0)
      case None => Dropped(buffer[bodyStart..])
      case Some(length) =>
        if |buffer| < bodyStart + length then Wait
        else Message(buffer[bodyStart..bodyStart + length], buffer[bodyStart + length..])
  }

  function ReadOne(buffer: Bytes): (t: Turn)
    ensures !t.Wait? ==> |t.rest| < |buffer|
  {
    match ReadJsonLine(buffer)
    case Some(t) => t
    case None => ReadFramed(buffer)
  }

  datatype Parsed = Parsed(messages: seq<Bytes>, rest: Bytes)

  /** Everything one `onData` takes out of the buffer. */
  function ParseAll(buffer: Bytes): Parsed
    decreases |buffer|
  {
    match ReadOne(buffer)
    case Wait => Parsed([], buffer)
    case Dropped(rest) => ParseAll(rest)
    case Message(body, rest) =>
      var p := ParseAll(rest);
      Parsed([body] + p.messages, p.rest)
  }

  /** What arrives chunk by chunk. */
  function Feed(buffer: Bytes, chunks: seq<Bytes>): Parsed
    decreases |chunks|
  {
    if chunks == [] then Parsed([], buffer)
    else
      var p := ParseAll(buffer + chunks[0]);
      var q := Feed(p.rest, chunks[1..]);
      Parsed(p.messages + q.messages, q.rest)
  }

  class Reader {
    var buffer: Bytes
    /** The bodies handed to `handleMessage`, in order. */
    var handled: seq<Bytes>

    constructor ()
      ensures buffer == [] && handled == []
    {
      buffer, handled := [], [];
    }

    method OnData(chunk: Bytes)
      modifies this
      ensures var p := ParseAll(old(buffer) + chunk);
        buffer == p.rest && handled == old(handled) + p.messages
    {
      buffer := buffer + chunk;
      ghost var start := buffer;
      var waiting := false;
      while !waiting
        invariant ParseAll(start).rest == ParseAll(buffer).rest
        invariant old(handled) + ParseAll(start).messages == handled + ParseAll(buffer).messages
        invariant waiting ==> ReadOne(buffer).Wait?
        decreases !waiting, |buffer|
      {
        hide ReadOne;
        match ReadOne(buffer)
        case Wait =>
          waiting := true;
        case Dropped(rest) =>
          buffer := rest;
        case Message(body, rest) =>
          assert handled + ([body] + ParseAll(rest).messages) == (handled + [body]) + ParseAll(rest).messages;
          buffer, handled := rest, handled + [body];
      }
    }
  }
}
