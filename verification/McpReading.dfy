/** What one turn of the reader makes of any buffer, told by what the bytes are: lines, header
    ends and length fields, wherever they come from. */
module McpReading {
  import opened Options
  import opened McpFraming
  import opened McpRoundTrip

  predicate Blank(b: Byte) {
    b == ' ' || 9 <= b as int <= 13
  }

  predicate Figure(b: Byte) {
    48 <= b as int <= 57
  }

  // ---------------------------------------------------------------- decimal numbers

  function Power(n: nat): nat {
    if n == 0 then 1 else 10 * Power(n - 1)
  }

  /** What figures stand for, each by its place. */
  function Worth(s: Bytes): int
    requires forall k :: 0 <= k < |s| ==> Figure(s[k])
  {
    if s == [] then 0 else (s[0] as int - 48) * Power(|s| - 1) + Worth(s[1..])
  }

  lemma Distribute(a: int, b: int, c: int)
    ensures 10 * (a * b + c) == a * (10 * b) + 10 * c
  {
  }

  lemma {:induction false} WorthSnoc(s: Bytes, b: Byte)
    requires (forall k :: 0 <= k < |s| ==> Figure(s[k])) && Figure(b)
    ensures forall k :: 0 <= k < |s + [b]| ==> Figure((s + [b])[k])
    ensures Worth(s + [b]) == 10 * Worth(s) + (b as int - 48)
  {
    var t := s + [b];
    assert forall k :: 0 <= k < |t| ==> Figure(t[k]);
    if s == [] {
      assert t[1..] == [] && Power(0) == 1 && Worth(t) == (t[0] as int - 48) * Power(0) + Worth(t[1..]);
    } else {
      assert t[1..] == s[1..] + [b] && t[0] == s[0];
      WorthSnoc(s[1..], b);
      var figure, place := s[0] as int - 48, Power(|s| - 1);
      assert Power(|t| - 1) == 10 * place;
      Distribute(figure, place, Worth(s[1..]));
    }
  }

  /** The reader takes figures for what they stand for. */
  lemma {:induction false} ValueIsWorth(s: Bytes)
    requires forall b :: b in s ==> IsDigit(b)
    ensures (forall k :: 0 <= k < |s| ==> Figure(s[k])) && Value(s) == Worth(s)
  {
    assert forall k :: 0 <= k < |s| ==> s[k] in s;
    if s != [] {
      var n := |s| - 1;
      assert forall b :: b in s[..n] ==> b in s;
      ValueIsWorth(s[..n]);
      WorthSnoc(s[..n], s[n]);
      assert s == s[..n] + [s[n]];
    }
  }

  /** And a length is printed in figures that stand for it, the first not a zero but for zero. */
  lemma {:induction false} DecimalIsWorth(n: nat)
    ensures var s := Decimal(n);
      && (forall k :: 0 <= k < |s| ==> Figure(s[k])) && Worth(s) == n
      && (n > 0 ==> s[0] != '0')
  {
    DecimalRoundTrip(n);
    ValueIsWorth(Decimal(n));
    if n >= 10 {
      DecimalIsWorth(n / 10);
    }
  }

  /** What the client itself writes: the payload and a newline, or the payload behind a header
      with its length, both as other implementations expect them. */
  lemma SerializedAs(p: Bytes)
    ensures Serialize(JsonLine(p)) == p + "\n"
    ensures exists figures: Bytes ::
      (forall k :: 0 <= k < |figures| ==> Figure(figures[k])) && Worth(figures) == |p|
      && Serialize(ContentLengthFrame(p)) == "Content-Length: " + figures + "\r\n\r\n" + p
  {
    DecimalIsWorth(|p|);
    var figures := Decimal(|p|);
    assert Serialize(ContentLengthFrame(p)) == "Content-Length: " + figures + "\r\n\r\n" + p;
  }

  // ---------------------------------------------------------------- length fields

  /** The same letter, small or capital, or the same other byte. */
  predicate SameLetter(b: Byte, small: Byte) {
    b == small || ('a' <= small <= 'z' && b as int + 32 == small as int)
  }

  ghost predicate NameAt(h: Bytes, i: nat) {
    i + |FIELD| <= |h| && forall x {:trigger FIELD[x]} :: 0 <= x < |FIELD| ==> SameLetter(h[i + x], FIELD[x])
  }

  /** From `from` on stand perhaps blanks, then from `j` to `k` figures, as many as there are. */
  ghost predicate FiguresAt(h: Bytes, from: nat, j: nat, k: nat) {
    && from <= j < k <= |h|
    && (forall x :: from <= x < j ==> Blank(h[x]))
    && (forall x :: j <= x < k ==> Figure(h[x]))
    && (k < |h| ==> !Figure(h[k]))
  }

  /** At `i` stands a length field, with its figures from `j` to `k`. */
  ghost predicate FieldAt(h: Bytes, i: nat, j: nat, k: nat) {
    NameAt(h, i) && FiguresAt(h, i + |FIELD|, j, k)
  }

  ghost predicate NoFieldBefore(h: Bytes, i: nat) {
    forall x: nat, j: nat, k: nat :: x < i ==> !FieldAt(h, x, j, k)
  }

  ghost predicate NoField(h: Bytes) {
    forall i: nat, j: nat, k: nat :: !FieldAt(h, i, j, k)
  }

  /** The first length field says `n`. */
  ghost predicate LengthIs(h: Bytes, n: nat) {
    exists i: nat, j: nat, k: nat :: FirstFieldSays(h, i, j, k, n)
  }

  ghost predicate FirstFieldSays(h: Bytes, i: nat, j: nat, k: nat, n: nat) {
    FieldAt(h, i, j, k) && NoFieldBefore(h, i) && Worth(h[j..k]) == n
  }

  lemma {:induction false} SkipSpaceIs(s: Bytes)
    ensures var n := |s| - |SkipSpace(s)|;
      && 0 <= n && SkipSpace(s) == s[n..]
      && (forall x :: 0 <= x < n ==> Blank(s[x])) && (n < |s| ==> !Blank(s[n]))
  {
    var more := s != [] && IsSpace(s[0]);
    assert SkipSpace(s) == if more then SkipSpace(s[1..]) else s;
    assert more <==> s != [] && Blank(s[0]);
    hide SkipSpace, Blank;
    if more {
      var t := s[1..];
      SkipSpaceIs(t);
      var m := |t| - |SkipSpace(t)|;
      assert t[m..] == s[m + 1..];
      assert forall x :: 0 < x < m + 1 ==> s[x] == t[x - 1];
    }
  }

  lemma {:induction false} DigitsIs(s: Bytes)
    ensures var n := |Digits(s)|;
      && n <= |s| && Digits(s) == s[..n]
      && (forall x :: 0 <= x < n ==> Figure(s[x])) && (n < |s| ==> !Figure(s[n]))
  {
    if s != [] && IsDigit(s[0]) {
      DigitsIs(s[1..]);
      var n := |Digits(s)|;
      assert forall x :: 0 < x < n ==> s[x] == s[1..][x - 1];
    }
  }

  /** What the search takes for the figures after a name are those that stand there. */
  lemma FiguresHere(h: Bytes, from: nat)
    requires from <= |h|
    ensures var spaced := SkipSpace(h[from..]); var digits := Digits(spaced);
      var j := |h| - |spaced|; var k := j + |digits|;
      && from <= j <= k <= |h| && digits == h[j..k]
      && (digits != [] <==> FiguresAt(h, from, j, k))
      && (forall y: nat, z: nat :: FiguresAt(h, from, y, z) ==> y == j && z == k)
  {
    var after := h[from..];
    var spaced := SkipSpace(after);
    SkipSpaceIs(after);
    DigitsIs(spaced);
    var j := |h| - |spaced|;
    var k := j + |Digits(spaced)|;
    hide SkipSpace, Digits;
    assert spaced == h[j..] && Digits(spaced) == h[j..k];
    assert forall x :: from <= x < j ==> h[x] == after[x - from];
    assert j < |h| ==> h[j] == after[j - from];
    assert forall x :: j <= x < |h| ==> h[x] == spaced[x - j];
    forall y: nat, z: nat | FiguresAt(h, from, y, z) ensures y == j && z == k {
      OneRun(h, from, j, k, y, z);
    }
  }

  lemma OneRun(h: Bytes, from: nat, j: nat, k: nat, y: nat, z: nat)
    requires from <= j <= k <= |h| && FiguresAt(h, from, y, z)
    requires (forall x :: from <= x < j ==> Blank(h[x])) && (j < |h| ==> !Blank(h[j]))
    requires (forall x :: j <= x < k ==> Figure(h[x])) && (k < |h| ==> !Figure(h[k]))
    ensures y == j && z == k
  {
    assert Figure(h[y]) && !Blank(h[y]);
    assert j < |h| ==> !Blank(h[j]);
    assert y == j;
    assert z < |h| ==> !Figure(h[z]);
    assert k < |h| ==> !Figure(h[k]);
  }

  lemma NameHere(h: Bytes, i: nat)
    requires i + |FIELD| <= |h|
    ensures LowerAll(h[i..i + |FIELD|]) == FIELD <==> NameAt(h, i)
  {
    var s := h[i..i + |FIELD|];
    forall x {:trigger FIELD[x]} | 0 <= x < |FIELD| ensures LowerAll(s)[x] == FIELD[x] <==> SameLetter(h[i + x], FIELD[x]) {
      assert s[x] == h[i + x];
    }
  }

  /** The search finds the first field there is, and its number. */
  lemma {:induction false} ContentLengthIs(h: Bytes, from: nat)
    requires from <= |h| && NoFieldBefore(h, from)
    ensures match ContentLength(h, from)
      case None => NoField(h)
      case Some(n) => LengthIs(h, n)
    decreases |h| - from
  {
    if from + |FIELD| <= |h| {
      NameHere(h, from);
      FiguresHere(h, from + |FIELD|);
      var spaced := SkipSpace(h[from + |FIELD|..]);
      var j := |h| - |spaced|;
      var k := j + |Digits(spaced)|;
      ValueIsWorth(Digits(spaced));
      hide SkipSpace, Digits, LowerAll, NameAt, FiguresAt, Worth, Value;
      if FieldAt(h, from, j, k) {
        assert ContentLength(h, from) == Some(Value(h[j..k]));
        assert FirstFieldSays(h, from, j, k, Value(h[j..k]));
      } else {
        assert ContentLength(h, from) == ContentLength(h, from + 1);
        NextField(h, from);
        ContentLengthIs(h, from + 1);
      }
    } else {
      hide FiguresAt;
    }
  }

  lemma NextField(h: Bytes, from: nat)
    requires NoFieldBefore(h, from) && forall j: nat, k: nat :: !FieldAt(h, from, j, k)
    ensures NoFieldBefore(h, from + 1)
  {
    hide FieldAt;
  }

  // ---------------------------------------------------------------- one turn

  /** The first line ends at `newline` and begins, after blanks, with a brace; no blank line
      comes before its end. */
  ghost predicate JsonLineAt(s: Bytes, newline: nat) {
    && newline < |s| && s[newline] == LF
    && (forall x :: 0 <= x < newline ==> s[x] != LF && !At(s, CRLF2, x))
    && exists k :: 0 <= k < newline && s[k] == '{' && forall x :: 0 <= x < k ==> Blank(s[x])
  }

  ghost predicate NoJsonLine(s: Bytes) {
    forall newline: nat :: !JsonLineAt(s, newline)
  }

  function WithoutCr(line: Bytes): Bytes {
    if line != [] && line[|line| - 1] == CR then line[..|line| - 1] else line
  }

  /** The first blank line starts at `i`, and `n` bytes after that the body. */
  ghost predicate HeaderEndsAt(s: Bytes, i: nat, n: nat) {
    && ((n == 4 && At(s, CRLF2, i)) || (n == 2 && At(s, LF2, i)))
    && forall x :: 0 <= x < i ==> !At(s, CRLF2, x) && !At(s, LF2, x)
  }

  lemma BraceIs(line: Bytes)
    ensures LooksLikeJson(line) <==> exists k :: 0 <= k < |line| && line[k] == '{' && forall x :: 0 <= x < k ==> Blank(line[x])
  {
    SkipSpaceIs(line);
    var n := |line| - |SkipSpace(line)|;
    hide SkipSpace;
    assert n < |line| ==> SkipSpace(line)[0] == line[n];
    forall k | 0 <= k < |line| && line[k] == '{' && forall x :: 0 <= x < k ==> Blank(line[x]) ensures k == n {
      assert !Blank(line[k]);
      assert n < |line| ==> !Blank(line[n]);
    }
  }

  lemma FirstNewline(s: Bytes, newline: nat)
    requires newline < |s| && s[newline] == LF && forall x :: 0 <= x < newline ==> s[x] != LF
    ensures IndexOf(s, [LF], 0) == newline
  {
    assert s[newline..newline + 1] == [LF] && At(s, [LF], newline);
    forall x | 0 <= x < newline ensures !At(s, [LF], x) {
      assert s[x..x + 1] == [s[x]];
    }
  }

  lemma BraceInLine(s: Bytes, newline: nat)
    requires newline < |s| && s[newline] == LF
    ensures LooksLikeJson(StripCr(s[..newline])) <==>
      exists k :: 0 <= k < newline && s[k] == '{' && forall x :: 0 <= x < k ==> Blank(s[x])
  {
    var line := StripCr(s[..newline]);
    BraceIs(line);
    hide LooksLikeJson;
    assert forall k :: 0 <= k < |line| ==> line[k] == s[k];
    if k :| 0 <= k < newline && s[k] == '{' && forall x :: 0 <= x < k ==> Blank(s[x]) {
      assert k < |line| && line[k] == '{';
    }
  }

  /** The first line is read, without its carriage return, if it looks like an object, and
      otherwise nothing is read as a line. */
  lemma ReadsLine(s: Bytes)
    ensures forall newline: nat :: JsonLineAt(s, newline) ==>
      ReadOne(s) == Message(WithoutCr(s[..newline]), s[newline + 1..])
    ensures NoJsonLine(s) ==> ReadOne(s) == ReadFramed(s)
  {
    var newline := IndexOf(s, [LF], 0);
    LineFound(s);
    forall nl: nat | JsonLineAt(s, nl) ensures nl == newline {
      FirstNewline(s, nl);
    }
    hide ReadFramed, LooksLikeJson, JsonLineAt, IndexOf;
  }

  lemma LineFound(s: Bytes)
    ensures var newline, header := IndexOf(s, [LF], 0), IndexOf(s, CRLF2, 0);
      newline != -1 && !(header != -1 && header < newline) && LooksLikeJson(StripCr(s[..newline]))
      <==> newline != -1 && JsonLineAt(s, newline)
  {
    hide LooksLikeJson;
    var newline, header := IndexOf(s, [LF], 0), IndexOf(s, CRLF2, 0);
    if newline != -1 {
      assert s[newline..newline + 1][0] == s[newline] == LF;
      assert forall x :: 0 <= x < newline && s[x] == LF ==> s[x..x + 1] == [LF] && At(s, [LF], x);
      BraceInLine(s, newline);
    }
    hide IndexOf;
    assert header != -1 && header < newline ==> At(s, CRLF2, header);
  }

  lemma NotBoth(s: Bytes, i: nat)
    ensures !(At(s, CRLF2, i) && At(s, LF2, i))
  {
    if At(s, CRLF2, i) {
      assert s[i..i + 4][0] == s[i];
    }
    if At(s, LF2, i) {
      assert s[i..i + 2][0] == s[i];
    }
  }

  lemma HeaderFound(s: Bytes, i: nat, n: nat)
    requires HeaderEndsAt(s, i, n)
    ensures var crlf, lf := IndexOf(s, CRLF2, 0), IndexOf(s, LF2, 0);
      if n == 4 then crlf == i && (lf == -1 || crlf <= lf) else n == 2 && lf == i && !(crlf != -1 && crlf <= lf)
  {
    var crlf, lf := IndexOf(s, CRLF2, 0), IndexOf(s, LF2, 0);
    NotBoth(s, i);
    hide IndexOf;
    assert crlf != -1 ==> At(s, CRLF2, crlf);
    assert lf != -1 ==> At(s, LF2, lf);
  }

  /** What follows the first blank line is a body, if the header before it has a length field,
      and is read once all of it is there; without such a field the header is dropped. */
  lemma ReadsFrame(s: Bytes, i: nat, n: nat)
    requires NoJsonLine(s) && HeaderEndsAt(s, i, n)
    ensures NoField(s[..i]) ==> ReadOne(s) == Dropped(s[i + n..])
    ensures forall length: nat :: LengthIs(s[..i], length) ==>
      ReadOne(s) == if |s| < i + n + length then Wait else Message(s[i + n..][..length], s[i + n..][length..])
  {
    ReadsLine(s);
    FramedTurn(s, i, n);
    assert NoFieldBefore(s[..i], 0);
    ContentLengthIs(s[..i], 0);
    hide ReadOne, ReadFramed, ContentLength, NoFieldBefore, JsonLineAt, LengthIs, NoField, HeaderEndsAt;
    forall length: nat | LengthIs(s[..i], length) ensures ContentLength(s[..i], 0) == Some(length) {
      OneLength(s[..i], length);
    }
  }

  lemma FramedTurn(s: Bytes, i: nat, n: nat)
    requires HeaderEndsAt(s, i, n)
    ensures i + n <= |s| && ReadFramed(s) ==
      match ContentLength(s[..i], 0)
      case None => Dropped(s[i + n..])
      case Some(length) =>
        if |s| < i + n + length then Wait else Message(s[i + n..][..length], s[i + n..][length..])
  {
    HeaderFound(s, i, n);
    hide IndexOf, ContentLength, At;
    assert (n == 4 || n == 2) && i + n <= |s|;
    if ContentLength(s[..i], 0).Some? {
      var length := ContentLength(s[..i], 0).value;
      if |s| >= i + n + length {
        assert s[i + n..][..length] == s[i + n..i + n + length] && s[i + n..][length..] == s[i + n + length..];
      }
    }
  }

  /** There is only one first length field. */
  lemma OneLength(h: Bytes, length: nat)
    requires LengthIs(h, length)
    ensures !NoField(h) && forall other: nat :: LengthIs(h, other) ==> other == length
  {
    hide FirstFieldSays, FieldAt;
    var i: nat, j: nat, k: nat :| FirstFieldSays(h, i, j, k, length);
    OneField(h, i, j, k, length, i, j, k, length);
    forall other: nat | LengthIs(h, other) ensures other == length {
      var x: nat, y: nat, z: nat :| FirstFieldSays(h, x, y, z, other);
      OneField(h, i, j, k, length, x, y, z, other);
    }
  }

  lemma OneField(h: Bytes, i: nat, j: nat, k: nat, n: nat, x: nat, y: nat, z: nat, m: nat)
    requires FirstFieldSays(h, i, j, k, n) && FirstFieldSays(h, x, y, z, m)
    ensures FieldAt(h, i, j, k) && n == m
  {
    FiguresHere(h, i + |FIELD|);
    hide FiguresAt, NameAt, SkipSpace, Digits;
  }

  /** Without a blank line the reader waits. */
  lemma ReadsNothing(s: Bytes)
    requires NoJsonLine(s) && forall i: nat, n: nat :: !HeaderEndsAt(s, i, n)
    ensures ReadOne(s) == Wait
  {
    ReadsLine(s);
    HeaderThere(s);
    hide ReadOne, IndexOf, ContentLength, JsonLineAt, HeaderEndsAt;
  }

  lemma HeaderThere(s: Bytes)
    ensures IndexOf(s, CRLF2, 0) != -1 || IndexOf(s, LF2, 0) != -1 ==> exists i: nat, n: nat :: HeaderEndsAt(s, i, n)
  {
    var crlf, lf := IndexOf(s, CRLF2, 0), IndexOf(s, LF2, 0);
    hide IndexOf;
    if crlf != -1 && (lf == -1 || crlf <= lf) {
      assert HeaderEndsAt(s, crlf, 4);
    } else if lf != -1 {
      assert HeaderEndsAt(s, lf, 2);
    }
  }
}
