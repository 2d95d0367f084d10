/** Lines that end in a carriage return and a newline, with blank lines anywhere among them:
    exactly when the chunks do not matter. */
module McpCrlfLines {
  import opened Options
  import opened McpFraming
  import opened McpRoundTrip

  datatype Item = Line(payload: Bytes) | Blank

  function Text(items: seq<Item>): Bytes {
    if items == [] then []
    else Written(items[0]) + Text(items[1..])
  }

  function Written(i: Item): Bytes {
    if i.Line? then i.payload + [CR, LF] else [CR, LF]
  }

  function LinesOf(items: seq<Item>): seq<Bytes> {
    if items == [] then []
    else (if items[0].Line? then [items[0].payload] else []) + LinesOf(items[1..])
  }

  ghost predicate Writable(items: seq<Item>) {
    forall i :: 0 <= i < |items| && items[i].Line? ==> Sendable(CrlfLine(items[i].payload))
  }

  function LeadingBlanks(items: seq<Item>): nat {
    if items == [] || items[0].Line? then 0 else 1 + LeadingBlanks(items[1..])
  }

  /** No blank line follows a line, and those at the beginning come in pairs, or nothing else comes. */
  predicate Harmless(items: seq<Item>) {
    && (forall i :: 0 < i < |items| && items[i].Blank? ==> items[i - 1].Blank?)
    && (LeadingBlanks(items) % 2 == 0 || forall i :: 0 <= i < |items| ==> items[i].Blank?)
  }

  // ---------------------------------------------------------------- streams and what follows

  /** What follows a stream is read when the stream has been delivered. */
  lemma {:induction false} StreamThen(fs: seq<Frame>, tail: Bytes)
    requires AllSendable(fs) && (tail == [] || tail[0] != CR)
    ensures ParseAll(Stream(fs) + tail).messages == Payloads(fs) + ParseAll(tail).messages
  {
    hide ReadOne, ParseAll, Serialize;
    if fs == [] {
      assert [] + tail == tail;
    } else {
      SendableFrom(fs, 0);
      SendableFrom(fs, 1);
      StreamStarts(fs[1..]);
      var x, rest := fs[0].payload, Stream(fs[1..]) + tail;
      assert Stream(fs) + tail == Serialize(fs[0]) + rest && Payloads(fs) == [x] + Payloads(fs[1..]);
      FrameRead(fs[0], rest);
      hide Stream, Payloads, Sendable, AllSendable;
      ParseMessage(Serialize(fs[0]) + rest, x, rest);
      StreamThen(fs[1..], tail);
      var m := ParseAll(tail).messages;
      assert [x] + (Payloads(fs[1..]) + m) == ([x] + Payloads(fs[1..])) + m;
    }
  }

  lemma ParseMessage(s: Bytes, body: Bytes, rest: Bytes)
    requires ReadOne(s) == Message(body, rest)
    ensures ParseAll(s).messages == [body] + ParseAll(rest).messages
  {
    hide ReadOne;
  }

  // ---------------------------------------------------------------- what a turn of the loop can deliver

  /** The bytes that are not part of the end of a line. */
  function Weight(s: Bytes): nat {
    if s == [] then 0
    else (if s[0] == LF || (s[0] == CR && |s| > 1 && s[1] == LF) then 0 else 1) + Weight(s[1..])
  }

  function Total(ms: seq<Bytes>): nat {
    if ms == [] then 0 else |ms[0]| + Total(ms[1..])
  }

  predicate Plain(m: Bytes) {
    m != [] && LF !in m && m[|m| - 1] != CR
  }

  ghost predicate AllPlain(ms: seq<Bytes>) {
    forall i :: 0 <= i < |ms| ==> Plain(ms[i])
  }

  lemma {:induction false} WeightPlain(m: Bytes, rest: Bytes)
    requires m == [] || Plain(m)
    ensures Weight(m + rest) == |m| + Weight(rest)
  {
    if m == [] {
      assert m + rest == rest;
    } else {
      assert (m + rest)[1..] == m[1..] + rest;
      assert m[0] in m && (|m| > 1 ==> m[1] in m && (m + rest)[1] == m[1]);
      WeightPlain(m[1..], rest);
    }
  }

  lemma {:induction false} WeightSuffix(s: Bytes, k: nat)
    requires k <= |s|
    ensures Weight(s[k..]) <= Weight(s)
  {
    if k > 0 {
      WeightSuffix(s[1..], k - 1);
      assert s[1..][k - 1..] == s[k..];
    }
  }

  lemma WeightOfEnd(rest: Bytes)
    ensures Weight([CR, LF] + rest) == Weight(rest)
  {
    assert ([CR, LF] + rest)[1..] == [LF] + rest && ([LF] + rest)[1..] == rest;
  }

  /** What a turn takes out lies in the buffer at `from` or later, the rest behind it. */
  ghost predicate LiesFrom(s: Bytes, t: Turn, from: nat) {
    !t.Wait? ==>
      var end := |s| - |t.rest|;
      && from <= end && s[end..] == t.rest
      && (t.Message? ==> exists a {:trigger s[a..]} :: from <= a && a + |t.body| <= end && s[a..][..|t.body|] == t.body)
  }

  lemma FramedLies(s: Bytes, from: nat)
    requires var h := IndexOf(s, CRLF2, 0); h == -1 || h >= from
    requires var l := IndexOf(s, LF2, 0); l == -1 || l >= from
    ensures LiesFrom(s, ReadFramed(s), from)
  {
    hide IndexOf, ContentLength;
    var t := ReadFramed(s);
    if t.Message? {
      var end := |s| - |t.rest|;
      var a := end - |t.body|;
      assert s[a..][..|t.body|] == t.body;
    }
  }

  lemma TurnLies(s: Bytes)
    ensures LiesFrom(s, ReadOne(s), 0)
  {
    if ReadJsonLine(s) == None {
      FramedLies(s, 0);
    } else {
      var t := ReadOne(s);
      hide IndexOf, LooksLikeJson;
      assert s[0..][..|t.body|] == t.body;
    }
  }

  lemma TurnWeight(s: Bytes, t: Turn, from: nat)
    requires LiesFrom(s, t, from) && !t.Wait? && (t.Message? ==> Plain(t.body))
    ensures (if t.Message? then |t.body| else 0) + Weight(t.rest) <= Weight(s[from..])
  {
    var end := |s| - |t.rest|;
    hide Plain, Weight;
    if t.Message? {
      var a :| from <= a && a + |t.body| <= end && s[a..][..|t.body|] == t.body;
      LaterWeighsLess(s, from, a);
      PartWeight(s[a..], t.body, t.rest);
    } else {
      LaterWeighsLess(s, from, end);
    }
  }

  lemma LaterWeighsLess(s: Bytes, from: nat, k: nat)
    requires from <= k <= |s|
    ensures Weight(s[k..]) <= Weight(s[from..])
  {
    assert s[from..][k - from..] == s[k..];
    WeightSuffix(s[from..], k - from);
  }

  lemma PartWeight(s: Bytes, m: Bytes, rest: Bytes)
    requires Plain(m) && |m| + |rest| <= |s| && s[..|m|] == m && s[|s| - |rest|..] == rest
    ensures |m| + Weight(rest) <= Weight(s)
  {
    hide Plain, Weight;
    assert s == m + s[|m|..];
    WeightPlain(m, s[|m|..]);
    LaterWeighsLess(s, |m|, |s| - |rest|);
  }

  /** Plain messages are no more than the buffer holds. */
  lemma {:induction false} DeliveredWeight(s: Bytes)
    requires AllPlain(ParseAll(s).messages)
    ensures Total(ParseAll(s).messages) <= Weight(s)
    decreases |s|
  {
    TurnLies(s);
    AfterTurn(s, 0);
    assert s[0..] == s;
  }

  /** And if the first turn leaves the bytes before `from` out, no more than come after them. */
  lemma {:induction false} AfterTurn(s: Bytes, from: nat)
    requires AllPlain(ParseAll(s).messages) && LiesFrom(s, ReadOne(s), from) && from <= |s|
    ensures Total(ParseAll(s).messages) <= Weight(s[from..])
    decreases |s|, 0
  {
    var t, ms := ReadOne(s), ParseAll(s).messages;
    hide ReadOne, Plain, Weight, LiesFrom;
    match t
    case Wait =>
    case Dropped(rest) =>
      DeliveredWeight(rest);
      TurnWeight(s, t, from);
    case Message(body, rest) =>
      var more := ParseAll(rest).messages;
      assert ms == [body] + more && ms[0] == body && ms[1..] == more;
      assert forall i :: 0 <= i < |more| ==> more[i] == ms[i + 1];
      DeliveredWeight(rest);
      TurnWeight(s, t, from);
  }

  // ---------------------------------------------------------------- the text

  lemma LineWeight(p: Bytes, rest: Bytes, lines: seq<Bytes>)
    requires Sendable(CrlfLine(p))
    ensures Weight(p + ([CR, LF] + rest)) == |p| + Weight(rest)
    ensures Total([p] + lines) == |p| + Total(lines) && (AllPlain(lines) ==> AllPlain([p] + lines))
  {
    assert ([p] + lines)[1..] == lines;
    assert Plain(p);
    hide Weight, Plain;
    WeightOfEnd(rest);
    WeightPlain(p, [CR, LF] + rest);
  }

  lemma {:induction false} TextWeight(items: seq<Item>)
    requires Writable(items)
    ensures Weight(Text(items)) == Total(LinesOf(items)) && AllPlain(LinesOf(items))
  {
    if items != [] {
      var tail := items[1..];
      assert forall i :: 0 <= i < |tail| ==> tail[i] == items[i + 1];
      assert items[0].Line? ==> Sendable(CrlfLine(items[0].payload));
      assert Text(items) == Written(items[0]) + Text(tail);
      assert LinesOf(items) == (if items[0].Line? then [items[0].payload] else []) + LinesOf(tail);
      hide Text, LinesOf, Sendable;
      TextWeight(tail);
      hide Writable;
      if items[0].Line? {
        Associative(items[0].payload, [CR, LF], Text(tail));
        LineWeight(items[0].payload, Text(tail), LinesOf(tail));
      } else {
        WeightOfEnd(Text(tail));
        assert [] + LinesOf(tail) == LinesOf(tail);
      }
    }
  }

  /** Read at once, `s` delivers less than these lines, or something that is no line. */
  ghost predicate Loses(s: Bytes, lines: seq<Bytes>) {
    var ms := ParseAll(s).messages;
    AllPlain(ms) ==> Total(ms) < Total(lines)
  }

  lemma FirstLost(s: Bytes, p: Bytes, from: nat, items: seq<Item>)
    requires from <= |s| && LiesFrom(s, ReadOne(s), from) && p != []
    requires Weight(s[from..]) == Total(LinesOf(items))
    ensures Loses(s, [p] + LinesOf(items))
  {
    hide ReadOne, LiesFrom, ParseAll, Weight;
    assert ([p] + LinesOf(items))[1..] == LinesOf(items);
    if AllPlain(ParseAll(s).messages) {
      AfterTurn(s, from);
    }
  }

  /** A line and a blank line in one read: the line is taken for a header. */
  lemma LineThenBlank(p: Bytes, rest: Bytes)
    requires Sendable(CrlfLine(p))
    ensures LiesFrom(p + [CR, LF] + [CR, LF] + rest, ReadOne(p + [CR, LF] + [CR, LF] + rest), |p|)
  {
    var s := p + [CR, LF] + [CR, LF] + rest;
    assert s == p + [CR, LF] + ([CR, LF] + rest);
    CrlfPositions(p, [CR, LF] + rest);
    hide IndexOf, ReadFramed, LiesFrom;
    assert ReadJsonLine(s) == None;
    FramedLies(s, |p|);
  }

  /** A blank line before a line: both are taken for the beginning of a header. */
  lemma BlankThenLine(p: Bytes, rest: Bytes)
    requires Sendable(CrlfLine(p))
    ensures LiesFrom([CR, LF] + p + [CR, LF] + rest, ReadOne([CR, LF] + p + [CR, LF] + rest), |p| + 2)
  {
    var s := [CR, LF] + p + [CR, LF] + rest;
    assert s == [CR] + [LF] + (p + [CR, LF] + rest);
    NewlineAfter([CR], p + [CR, LF] + rest);
    assert forall i :: 2 <= i < |p| + 2 ==> s[i] == p[i - 2] && s[i] in p;
    var h, l := IndexOf(s, CRLF2, 0), IndexOf(s, LF2, 0);
    hide IndexOf;
    assert s[2] == '{' && s[|p| + 2] == CR;
    if h != -1 {
      AtBytes(s, CRLF2, h, 1);
      AtBytes(s, CRLF2, h, 2);
    }
    if l != -1 {
      AtBytes(s, LF2, l, 0);
      AtBytes(s, LF2, l, 1);
    }
    hide ReadFramed, LiesFrom;
    assert StripCr(s[..1]) == [];
    assert ReadJsonLine(s) == None;
    FramedLies(s, |p| + 2);
  }

  /** Two blank lines are an empty header. */
  lemma PairDropped(rest: Bytes)
    ensures ReadOne(CRLF2 + rest) == Dropped(rest)
  {
    var s := CRLF2 + rest;
    assert s[..4] == CRLF2 && s[4..] == rest && s[..0] == [];
    assert s == [CR] + [LF] + ([CR, LF] + rest);
    NewlineAfter([CR], [CR, LF] + rest);
    assert IndexOf(s, CRLF2, 0) == 0;
    hide IndexOf;
  }

  lemma FirstTwo(items: seq<Item>)
    requires |items| >= 2
    ensures Text(items[1..]) == Written(items[1]) + Text(items[2..])
    ensures Text(items) == Written(items[0]) + Written(items[1]) + Text(items[2..])
    ensures LinesOf(items) == (if items[0].Line? then [items[0].payload] else []) + LinesOf(items[1..])
    ensures LinesOf(items[1..]) == (if items[1].Line? then [items[1].payload] else []) + LinesOf(items[2..])
  {
    var after := items[1..];
    assert after[0] == items[1] && after[1..] == items[2..];
    assert Text(after) == Written(after[0]) + Text(after[1..]) && Text(items) == Written(items[0]) + Text(after);
    assert LinesOf(items) == (if items[0].Line? then [items[0].payload] else []) + LinesOf(after);
    hide *;
    Associative(Written(items[0]), Written(items[1]), Text(items[2..]));
  }

  lemma Associative(x: Bytes, y: Bytes, z: Bytes)
    ensures x + (y + z) == x + y + z
  {
  }

  /** In one read a text that is not harmless is not delivered. */
  lemma {:induction false} NotDelivered(items: seq<Item>)
    requires Writable(items) && !Harmless(items)
    ensures Loses(Text(items), LinesOf(items))
  {
    var s := Text(items);
    assert |items| >= 2;
    var next, rest := items[2..], Text(items[2..]);
    FirstTwo(items);
    hide Weight, Text, LinesOf, ReadOne, ParseAll, Sendable;
    match (items[0], items[1])
    case (Blank, Blank) =>
      PairFirst(items);
      PairParsed(rest);
      hide Harmless;
      NotDelivered(next);
    case (Blank, Line(p)) =>
      hide Loses, Harmless;
      assert s == [CR, LF] + (p + [CR, LF]) + rest && LinesOf(items) == [p] + LinesOf(next);
      BlankLoses(s, p, next);
    case (Line(p), Blank) =>
      hide Loses, Harmless;
      assert s == p + [CR, LF] + [CR, LF] + rest && LinesOf(items) == [p] + LinesOf(next);
      LineLoses(s, p, next);
    case (Line(p), Line(q)) =>
      LineHarmless(items);
      hide Loses, Harmless;
      var more := Text(items[1..]);
      assert s == p + [CR, LF] + more && more == q + ([CR, LF] + rest) by { FirstTwoLines(items); }
      NotDelivered(items[1..]);
      LineRead(p, q, [CR, LF] + rest);
      LineDelivered(s, p, more, LinesOf(items[1..]));
  }

  lemma FirstTwoLines(items: seq<Item>)
    requires |items| >= 2 && items[0].Line? && items[1].Line?
    ensures Text(items[1..]) == items[1].payload + ([CR, LF] + Text(items[2..]))
    ensures Text(items) == items[0].payload + [CR, LF] + Text(items[1..])
  {
    FirstTwo(items);
    Associative(items[1].payload, [CR, LF], Text(items[2..]));
  }

  lemma LineRead(p: Bytes, q: Bytes, rest: Bytes)
    requires Sendable(CrlfLine(p)) && Sendable(CrlfLine(q))
    ensures ReadOne(p + [CR, LF] + (q + rest)) == Message(p, q + rest)
  {
    assert (q + rest)[0] == '{';
    hide ReadOne;
    FrameRead(CrlfLine(p), q + rest);
  }

  lemma PairParsed(rest: Bytes)
    ensures ParseAll(CRLF2 + rest) == ParseAll(rest)
  {
    PairDropped(rest);
    hide ReadOne;
  }

  lemma BlankLoses(s: Bytes, p: Bytes, next: seq<Item>)
    requires Sendable(CrlfLine(p)) && Writable(next) && s == [CR, LF] + (p + [CR, LF]) + Text(next)
    ensures Loses(s, [p] + LinesOf(next))
  {
    var rest := Text(next);
    assert s == [CR, LF] + p + [CR, LF] + rest && s[|p| + 2..] == [CR, LF] + rest;
    hide ReadOne, ParseAll, Text, Weight, LiesFrom, Loses;
    TextWeight(next);
    BlankThenLine(p, rest);
    WeightOfEnd(rest);
    FirstLost(s, p, |p| + 2, next);
  }

  lemma LineLoses(s: Bytes, p: Bytes, next: seq<Item>)
    requires Sendable(CrlfLine(p)) && Writable(next) && s == p + [CR, LF] + [CR, LF] + Text(next)
    ensures Loses(s, [p] + LinesOf(next))
  {
    var rest := Text(next);
    assert s[|p|..] == [CR, LF] + ([CR, LF] + rest);
    hide ReadOne, ParseAll, Text, Weight, LiesFrom, Loses;
    TextWeight(next);
    LineThenBlank(p, rest);
    WeightOfEnd(rest);
    WeightOfEnd([CR, LF] + rest);
    FirstLost(s, p, |p|, next);
  }

  lemma PairHarmless(items: seq<Item>)
    requires |items| >= 2 && items[0].Blank? && items[1].Blank?
    ensures Harmless(items[2..]) == Harmless(items)
  {
    var next := items[2..];
    assert items[1..][1..] == next && LeadingBlanks(items) == 2 + LeadingBlanks(next);
    assert forall i :: 0 <= i < |next| ==> next[i] == items[i + 2];
    assert forall i :: 2 <= i < |items| ==> items[i] == next[i - 2];
  }

  lemma PairFirst(items: seq<Item>)
    requires |items| >= 2 && items[0].Blank? && items[1].Blank?
    ensures Text(items) == CRLF2 + Text(items[2..]) && LinesOf(items) == LinesOf(items[2..])
    ensures Harmless(items[2..]) == Harmless(items)
  {
    PairHarmless(items);
    FirstTwo(items);
    hide Text, LinesOf, Harmless;
    assert [CR, LF] + [CR, LF] == CRLF2;
  }

  lemma LineHarmless(items: seq<Item>)
    requires |items| >= 2 && items[0].Line? && items[1].Line?
    ensures Harmless(items[1..]) == Harmless(items)
  {
    var next := items[1..];
    assert forall i :: 0 <= i < |next| ==> next[i] == items[i + 1];
    assert forall i :: 1 <= i < |items| ==> items[i] == next[i - 1];
  }

  lemma LineDelivered(s: Bytes, p: Bytes, more: Bytes, lines: seq<Bytes>)
    requires ReadOne(s) == Message(p, more) && Loses(more, lines)
    ensures Loses(s, [p] + lines)
  {
    hide ReadOne, Plain;
    var ms := ParseAll(more).messages;
    assert ParseAll(s).messages == [p] + ms;
    assert ([p] + ms)[1..] == ms && ([p] + lines)[1..] == lines;
    assert forall i :: 0 <= i < |ms| ==> ms[i] == ([p] + ms)[i + 1];
  }

  // ---------------------------------------------------------------- blank lines in chunks

  lemma BlankWaits(piece: Bytes)
    requires piece <= [CR, LF]
    ensures ReadOne(piece).Wait?
  {
    if |piece| < 2 {
      NoNewlineNowhere(piece);
    } else {
      assert piece == [] + [CR] + [LF] + [];
      NewlineAfter([CR], []);
      assert [CR] + [LF] + [] == piece;
      var i, j := IndexOf(piece, CRLF2, 0), IndexOf(piece, LF2, 0);
      if i != -1 {
        AtBytes(piece, CRLF2, i, 3);
      }
      if j != -1 {
        AtBytes(piece, LF2, j, 0);
        AtBytes(piece, LF2, j, 1);
      }
      assert StripCr(piece[..1]) == [];
    }
  }

  lemma {:induction false} BlankDelivers(buffer: Bytes, chunks: seq<Bytes>)
    requires buffer + Concat(chunks) == [CR, LF]
    ensures Feed(buffer, chunks).messages == []
    decreases |chunks|
  {
    if chunks != [] {
      var piece := buffer + chunks[0];
      assert piece + Concat(chunks[1..]) == [CR, LF];
      BlankWaits(piece);
      hide ReadOne;
      BlankDelivers(piece, chunks[1..]);
    }
  }

  lemma ShortWaits(piece: Bytes)
    requires piece < CRLF2
    ensures ReadOne(piece).Wait?
  {
    if |piece| == 3 {
      assert piece == [CR] + [LF] + [CR];
      NewlineAfter([CR], [CR]);
      assert piece[2] == CR;
      var j := IndexOf(piece, LF2, 0);
      if j != -1 {
        AtBytes(piece, LF2, j, 0);
        AtBytes(piece, LF2, j, 1);
      }
      assert StripCr(piece[..1]) == [];
    } else {
      BlankWaits(piece);
    }
  }

  /** A pair of blank lines at the beginning is passed over, wherever the chunks are cut. */
  lemma {:induction false} PairSkipped(buffer: Bytes, chunks: seq<Bytes>, rest: Bytes) returns (others: seq<Bytes>)
    requires buffer < CRLF2 && buffer + Concat(chunks) == CRLF2 + rest
    ensures Concat(others) == rest && Feed(buffer, chunks).messages == Feed([], others).messages
    decreases |chunks|
  {
    assert chunks != [];
    var piece := buffer + chunks[0];
    var whole := CRLF2 + rest;
    assert piece + Concat(chunks[1..]) == whole;
    if |piece| < 4 {
      assert piece == whole[..|piece|] == CRLF2[..|piece|];
      ShortWaits(piece);
      hide ReadOne;
      others := PairSkipped(piece, chunks[1..], rest);
    } else {
      var more := piece[4..];
      assert piece[..4] == whole[..4] == CRLF2;
      assert piece == CRLF2 + more && more + Concat(chunks[1..]) == whole[4..] == rest;
      PairDropped(more);
      hide ReadOne;
      others := [more] + chunks[1..];
      assert others[1..] == chunks[1..] && [] + more == more;
    }
  }

  function FramesOf(items: seq<Item>): seq<Frame>
    requires forall i :: 0 <= i < |items| ==> items[i].Line?
  {
    seq(|items|, i requires 0 <= i < |items| => CrlfLine(items[i].payload))
  }

  lemma {:induction false} TextOfLines(items: seq<Item>)
    requires forall i :: 0 <= i < |items| ==> items[i].Line?
    ensures Text(items) == Stream(FramesOf(items)) && LinesOf(items) == Payloads(FramesOf(items))
  {
    if items != [] {
      TextOfLines(items[1..]);
      assert FramesOf(items)[1..] == FramesOf(items[1..]);
      assert Text(items) == Serialize(FramesOf(items)[0]) + Text(items[1..]);
    }
  }

  lemma {:induction false} OnlyLines(items: seq<Item>)
    requires Harmless(items) && (items == [] || items[0].Line?)
    ensures forall i :: 0 <= i < |items| ==> items[i].Line?
  {
    if |items| > 1 {
      LineHarmless(items);
      OnlyLines(items[1..]);
      assert forall i :: 1 <= i < |items| ==> items[i] == items[1..][i - 1];
    }
  }

  /** A harmless text is delivered, wherever the chunks are cut. */
  lemma {:induction false} Delivered(items: seq<Item>, chunks: seq<Bytes>)
    requires Writable(items) && Harmless(items) && Concat(chunks) == Text(items)
    ensures Feed([], chunks).messages == LinesOf(items)
  {
    hide Feed, Sendable;
    if items == [] || items[0].Line? {
      OnlyLines(items);
      TextOfLines(items);
      RoundTrip(FramesOf(items), chunks);
    } else if |items| == 1 {
      assert [] + Concat(chunks) == Text(items) == [CR, LF];
      BlankDelivers([], chunks);
    } else {
      var next := items[2..];
      assert items[1].Blank? by { assert LeadingBlanks(items) == 1 + LeadingBlanks(items[1..]); }
      PairFirst(items);
      hide Text, LinesOf, Harmless, Concat;
      assert [] + Concat(chunks) == CRLF2 + Text(next);
      var others := PairSkipped([], chunks, Text(next));
      Delivered(next, others);
    }
  }

  // ---------------------------------------------------------------- the main result

  ghost predicate DeliversAnyhow(items: seq<Item>) {
    forall chunks :: Concat(chunks) == Text(items) ==> Feed([], chunks).messages == LinesOf(items)
  }

  lemma OneChunk(whole: Bytes)
    ensures Concat([whole]) == whole && Feed([], [whole]).messages == ParseAll(whole).messages
  {
    assert [whole][1..] == [] && [] + whole == whole;
    hide ParseAll;
    assert Feed(ParseAll(whole).rest, []).messages == [];
  }

  /** Lines that end in a carriage return and a newline, with blank lines anywhere among them,
      are delivered under every chunking exactly if no blank line follows a line and those at
      the beginning come in pairs, or there are only blank ones. */
  lemma {:induction false} CrlfStreamIff(items: seq<Item>)
    requires Writable(items)
    ensures DeliversAnyhow(items) == Harmless(items)
  {
    hide Harmless, Feed;
    if Harmless(items) {
      forall chunks | Concat(chunks) == Text(items) ensures Feed([], chunks).messages == LinesOf(items) {
        Delivered(items, chunks);
      }
    } else {
      NotDelivered(items);
      TextWeight(items);
      OneChunk(Text(items));
      assert Feed([], [Text(items)]).messages != LinesOf(items);
    }
  }

  /** The shortest of the harmful ones: a line and a blank line in one read. */
  lemma LastLineLost(p: Bytes)
    requires Sendable(CrlfLine(p))
    ensures ParseAll(p + [CR, LF] + [CR, LF]).messages != [p]
  {
    var items := [Line(p), Blank];
    assert items[1..] == [Blank] && [Blank][1..] == [] && LinesOf([Blank]) == [] && Text([Blank]) == [CR, LF];
    assert Text(items) == p + [CR, LF] + [CR, LF] && LinesOf(items) == [p];
    assert !Harmless(items) by { assert items[1].Blank? && items[0].Line?; }
    hide ParseAll, Harmless;
    NotDelivered(items);
    TextWeight(items);
  }
}
