/** The line diff: a table of longest common subsequences of prefixes, and a walk back
    through it. */
module LcsDiff {

  datatype DiffItem = Common(text: string) | Added(text: string) | Removed(text: string)

  // ---------------------------------------------------------------- scripts

  /** What a script reads: everything it does not add. */
  function OldOf(d: seq<DiffItem>): seq<string> {
    if d == [] then [] else (if d[0].Added? then [] else [d[0].text]) + OldOf(d[1..])
  }

  /** What a script writes: everything it does not remove. */
  function NewOf(d: seq<DiffItem>): seq<string> {
    if d == [] then [] else (if d[0].Removed? then [] else [d[0].text]) + NewOf(d[1..])
  }

  function CommonOf(d: seq<DiffItem>): seq<string> {
    if d == [] then [] else (if d[0].Common? then [d[0].text] else []) + CommonOf(d[1..])
  }

  ghost predicate Transforms(d: seq<DiffItem>, a: seq<string>, b: seq<string>) {
    OldOf(d) == a && NewOf(d) == b
  }

  /** The added and removed lines. */
  function Changes(d: seq<DiffItem>): nat {
    if d == [] then 0 else (if d[0].Common? then 0 else 1) + Changes(d[1..])
  }

  /** Inside a block of changes the removed lines come first. */
  ghost predicate RemovalsFirst(d: seq<DiffItem>) {
    forall k :: 0 <= k < |d| - 1 ==> !(d[k].Added? && d[k + 1].Removed?)
  }

  /** No script from `a` to `b` changes fewer lines. */
  ghost predicate IsShortest(d: seq<DiffItem>, a: seq<string>, b: seq<string>) {
    forall e :: Transforms(e, a, b) ==> Changes(d) <= Changes(e)
  }

  ghost predicate IsLongestCommon(s: seq<string>, a: seq<string>, b: seq<string>) {
    && Subsequence(s, a) && Subsequence(s, b)
    && forall c :: Subsequence(c, a) && Subsequence(c, b) ==> |c| <= |s|
  }

  lemma {:induction false} ScriptLengths(d: seq<DiffItem>)
    ensures Changes(d) + 2 * |CommonOf(d)| == |OldOf(d)| + |NewOf(d)|
  {
    if d != [] {
      ScriptLengths(d[1..]);
    }
  }

  lemma {:induction false} OldSnoc(d: seq<DiffItem>, x: DiffItem)
    ensures OldOf(d + [x]) == OldOf(d) + OldOf([x])
  {
    if d == [] {
      assert d + [x] == [x];
    } else {
      assert (d + [x])[1..] == d[1..] + [x];
      OldSnoc(d[1..], x);
    }
  }

  lemma {:induction false} NewSnoc(d: seq<DiffItem>, x: DiffItem)
    ensures NewOf(d + [x]) == NewOf(d) + NewOf([x])
  {
    if d == [] {
      assert d + [x] == [x];
    } else {
      assert (d + [x])[1..] == d[1..] + [x];
      NewSnoc(d[1..], x);
    }
  }

  lemma Associative(a: seq<string>, b: seq<string>, c: seq<string>)
    ensures a + (b + c) == a + b + c
  {
  }

  lemma {:induction false} CommonSnoc(d: seq<DiffItem>, x: DiffItem)
    ensures CommonOf(d + [x]) == CommonOf(d) + CommonOf([x])
  {
    if d == [] {
      assert d + [x] == [x];
    } else {
      assert (d + [x])[1..] == d[1..] + [x] && (d + [x])[0] == d[0];
      CommonSnoc(d[1..], x);
      var head := if d[0].Common? then [d[0].text] else [];
      var rest, last := CommonOf(d[1..]), CommonOf([x]);
      assert CommonOf(d + [x]) == head + CommonOf(d[1..] + [x]) && CommonOf(d) == head + rest;
      hide CommonOf;
      Associative(head, rest, last);
    }
  }

  // ---------------------------------------------------------------- the longest common subsequence

  function Max(x: nat, y: nat): nat {
    if x > y then x else y
  }

  /** The table entry for the first `i` lines of `a` and the first `j` lines of `b`. */
  function Lcs(a: seq<string>, b: seq<string>, i: nat, j: nat): nat
    requires i <= |a| && j <= |b|
  {
    if i == 0 || j == 0 then 0
    else if a[i - 1] == b[j - 1] then Lcs(a, b, i - 1, j - 1) + 1
    else Max(Lcs(a, b, i - 1, j), Lcs(a, b, i, j - 1))
  }

  ghost predicate Subsequence(c: seq<string>, a: seq<string>) {
    c == [] ||
    (a != [] &&
     ((c[|c| - 1] == a[|a| - 1] && Subsequence(c[..|c| - 1], a[..|a| - 1])) ||
      Subsequence(c, a[..|a| - 1])))
  }

  lemma {:induction false} LcsStep(a: seq<string>, b: seq<string>, i: nat, j: nat)
    requires i <= |a| && j <= |b|
    ensures i > 0 ==> Lcs(a, b, i - 1, j) <= Lcs(a, b, i, j) <= Lcs(a, b, i - 1, j) + 1
    ensures j > 0 ==> Lcs(a, b, i, j - 1) <= Lcs(a, b, i, j) <= Lcs(a, b, i, j - 1) + 1
  {
    if i > 0 && j > 0 {
      LcsStep(a, b, i - 1, j);
      LcsStep(a, b, i, j - 1);
      LcsStep(a, b, i - 1, j - 1);
    }
  }

  lemma {:induction false} SubsequenceInit(c: seq<string>, a: seq<string>)
    requires c != [] && Subsequence(c, a)
    ensures a != [] && Subsequence(c[..|c| - 1], a[..|a| - 1])
  {
    if !(c[|c| - 1] == a[|a| - 1] && Subsequence(c[..|c| - 1], a[..|a| - 1])) {
      SubsequenceInit(c, a[..|a| - 1]);
      SubsequenceWiden(c[..|c| - 1], a[..|a| - 1]);
    }
  }

  lemma SubsequenceWiden(c: seq<string>, a: seq<string>)
    requires a != [] && Subsequence(c, a[..|a| - 1])
    ensures Subsequence(c, a)
  {
  }

  /** No common subsequence is longer than the table entry. */
  lemma {:induction false} LcsBounds(c: seq<string>, a: seq<string>, b: seq<string>, i: nat, j: nat)
    requires i <= |a| && j <= |b|
    requires Subsequence(c, a[..i]) && Subsequence(c, b[..j])
    ensures |c| <= Lcs(a, b, i, j)
    decreases i + j
  {
    if c != [] {
      assert a[..i][..i - 1] == a[..i - 1] && b[..j][..j - 1] == b[..j - 1];
      if a[i - 1] == b[j - 1] {
        SubsequenceInit(c, a[..i]);
        SubsequenceInit(c, b[..j]);
        LcsBounds(c[..|c| - 1], a, b, i - 1, j - 1);
      } else if c[|c| - 1] != a[i - 1] {
        LcsBounds(c, a, b, i - 1, j);
      } else {
        LcsBounds(c, a, b, i, j - 1);
      }
    }
  }

  /** The common lines of a script are a common subsequence of what it reads and writes. */
  lemma {:induction false} CommonLines(d: seq<DiffItem>)
    ensures Subsequence(CommonOf(d), OldOf(d)) && Subsequence(CommonOf(d), NewOf(d))
  {
    if d != [] {
      var front, x := d[..|d| - 1], d[|d| - 1];
      assert d == front + [x] && [x][1..] == [];
      CommonLines(front);
      OldSnoc(front, x);
      NewSnoc(front, x);
      CommonSnoc(front, x);
      assert OldOf([x]) == if x.Added? then [] else [x.text];
      assert NewOf([x]) == if x.Removed? then [] else [x.text];
      assert CommonOf([x]) == if x.Common? then [x.text] else [];
      SnocSubsequence(CommonOf(front), OldOf(front), x.text);
      SnocSubsequence(CommonOf(front), NewOf(front), x.text);
    }
  }

  lemma SnocSubsequence(c: seq<string>, a: seq<string>, x: string)
    requires Subsequence(c, a)
    ensures Subsequence(c, a + []) && Subsequence(c, a + [x]) && Subsequence(c + [x], a + [x])
    ensures c + [] == c && a + [] == a
  {
    assert (c + [x])[..|c|] == c && (a + [x])[..|a|] == a && a + [] == a;
  }

  /** Every script from `a` to `b` keeps at most as many lines as the table says, so it
      changes at least as many as the rest. */
  lemma {:induction false} NoShorterScript(d: seq<DiffItem>, a: seq<string>, b: seq<string>)
    requires Transforms(d, a, b)
    ensures |CommonOf(d)| <= Lcs(a, b, |a|, |b|)
    ensures Changes(d) >= |a| + |b| - 2 * Lcs(a, b, |a|, |b|)
  {
    CommonLines(d);
    assert a[..|a|] == a && b[..|b|] == b;
    LcsBounds(CommonOf(d), a, b, |a|, |b|);
    ScriptLengths(d);
  }

  // ---------------------------------------------------------------- the algorithm

  function Reversed(d: seq<DiffItem>): (r: seq<DiffItem>)
    ensures |r| == |d|
    ensures forall k :: 0 <= k < |d| ==> r[k] == d[|d| - 1 - k]
  {
    if d == [] then [] else [d[|d| - 1]] + Reversed(d[..|d| - 1])
  }

  lemma ReversedSnoc(d: seq<DiffItem>, x: DiffItem)
    ensures Reversed(d + [x]) == [x] + Reversed(d)
  {
    assert (d + [x])[..|d|] == d;
  }

  ghost predicate IsTable(dp: array2<nat>, a: seq<string>, b: seq<string>)
    reads dp
  {
    && dp.Length0 == |a| + 1 && dp.Length1 == |b| + 1
    && forall x, y :: 0 <= x <= |a| && 0 <= y <= |b| ==> dp[x, y] == Lcs(a, b, x, y)
  }

  ghost predicate IsCell(a: seq<string>, b: seq<string>, i: nat, j: nat, diagonal: nat, up: nat, left: nat)
    requires 0 < i <= |a| && 0 < j <= |b|
  {
    diagonal == Lcs(a, b, i - 1, j - 1) && up == Lcs(a, b, i - 1, j) && left == Lcs(a, b, i, j - 1)
  }

  lemma CellValue(a: seq<string>, b: seq<string>, i: nat, j: nat, diagonal: nat, up: nat, left: nat)
    requires 0 < i <= |a| && 0 < j <= |b| && IsCell(a, b, i, j, diagonal, up, left)
    ensures Lcs(a, b, i, j) == if a[i - 1] == b[j - 1] then diagonal + 1 else Max(up, left)
  {
  }

  lemma Borders(a: seq<string>, b: seq<string>)
    ensures forall x :: 0 <= x <= |a| ==> Lcs(a, b, x, 0) == 0
    ensures forall y :: 0 <= y <= |b| ==> Lcs(a, b, 0, y) == 0
  {
  }

  ghost predicate Rows(dp: array2<nat>, a: seq<string>, b: seq<string>, i: nat)
    reads dp
  {
    && dp.Length0 == |a| + 1 && dp.Length1 == |b| + 1 && i <= |a| + 1
    && (forall x, y :: 0 <= x < i && 0 <= y <= |b| ==> dp[x, y] == Lcs(a, b, x, y))
    && (forall x :: 0 <= x <= |a| ==> dp[x, 0] == 0)
  }

  method FillTable(a: seq<string>, b: seq<string>) returns (dp: array2<nat>)
    ensures fresh(dp) && IsTable(dp, a, b)
  {
    dp := new nat[|a| + 1, |b| + 1]((x, y) => 0);
    Borders(a, b);
    hide Lcs;
    for i := 1 to |a| + 1
      invariant Rows(dp, a, b, i)
    {
      FillRow(dp, a, b, i);
    }
  }

  /** The inner loop. */
  method FillRow(dp: array2<nat>, a: seq<string>, b: seq<string>, i: nat)
    requires 1 <= i <= |a| && Rows(dp, a, b, i)
    modifies dp
    ensures Rows(dp, a, b, i + 1)
  {
    Borders(a, b);
    hide Lcs;
    for j := 1 to |b| + 1
      invariant Rows(dp, a, b, i)
      invariant forall y :: 0 <= y < j ==> dp[i, y] == Lcs(a, b, i, y)
    {
      CellValue(a, b, i, j, dp[i - 1, j - 1], dp[i - 1, j], dp[i, j - 1]);
      if a[i - 1] == b[j - 1] {
        dp[i, j] := dp[i - 1, j - 1] + 1;
      } else {
        dp[i, j] := Max(dp[i - 1, j], dp[i, j - 1]);
      }
    }
  }

  /** Whether the last line of a script may be `x`, with the first `i` old and `j` new lines
      before and in it: lines that are equal are kept, and of lines that differ the new one is
      added unless that would cost a common line. */
  ghost predicate MayEnd(x: DiffItem, a: seq<string>, b: seq<string>, i: nat, j: nat)
    requires i <= |a| && j <= |b|
  {
    match x
    case Common(_) => i > 0 && j > 0 && a[i - 1] == b[j - 1]
    case Added(_) => j > 0 && (i == 0 || (a[i - 1] != b[j - 1] && Lcs(a, b, i, j - 1) >= Lcs(a, b, i - 1, j)))
    case Removed(_) => i > 0 && (j == 0 || (a[i - 1] != b[j - 1] && Lcs(a, b, i, j - 1) < Lcs(a, b, i - 1, j)))
  }

  /** Every line of the script, from line `i` of the old and `j` of the new ones on, is chosen so. */
  ghost predicate Chosen(d: seq<DiffItem>, a: seq<string>, b: seq<string>, i: nat, j: nat)
    decreases |d|
  {
    d != [] ==>
      var x := i + if d[0].Added? then 0 else 1;
      var y := j + if d[0].Removed? then 0 else 1;
      x <= |a| && y <= |b| && MayEnd(d[0], a, b, x, y) && Chosen(d[1..], a, b, x, y)
  }

  lemma {:induction false} ChosenSnoc(d: seq<DiffItem>, x: DiffItem, a: seq<string>, b: seq<string>, i: nat, j: nat)
    requires Chosen(d + [x], a, b, i, j)
    ensures Chosen(d, a, b, i, j)
    ensures var m, n := i + |OldOf(d + [x])|, j + |NewOf(d + [x])|; m <= |a| && n <= |b| && MayEnd(x, a, b, m, n)
    decreases |d|
  {
    var whole := d + [x];
    if d == [] {
      assert whole == [x] && whole[1..] == [];
    } else {
      assert whole[1..] == d[1..] + [x] && whole[0] == d[0];
      var m := i + if d[0].Added? then 0 else 1;
      var n := j + if d[0].Removed? then 0 else 1;
      assert m <= |a| && n <= |b| && MayEnd(d[0], a, b, m, n) && Chosen(d[1..] + [x], a, b, m, n);
      assert |OldOf(whole)| == (m - i) + |OldOf(d[1..] + [x])| && |NewOf(whole)| == (n - j) + |NewOf(d[1..] + [x])|;
      hide MayEnd, OldOf, NewOf;
      ChosenSnoc(d[1..], x, a, b, m, n);
    }
  }

  lemma LastOfBoth(d: seq<DiffItem>, x: DiffItem, a: seq<string>, b: seq<string>, i: nat, j: nat)
    requires i <= |a| && j <= |b| && Transforms(d + [x], a[..i], b[..j])
    ensures !x.Added? ==> i > 0 && x.text == a[i - 1]
    ensures !x.Removed? ==> j > 0 && x.text == b[j - 1]
    ensures var m := if x.Added? then i else i - 1; var n := if x.Removed? then j else j - 1;
      m >= 0 && n >= 0 && Transforms(d, a[..m], b[..n])
  {
    OldSnoc(d, x);
    NewSnoc(d, x);
    assert [x][1..] == [];
    var m := if x.Added? then i else i - 1;
    var n := if x.Removed? then j else j - 1;
    assert OldOf([x]) == (if x.Added? then [] else [x.text]) && NewOf([x]) == (if x.Removed? then [] else [x.text]);
    assert !x.Added? ==> a[..i][|OldOf(d)|] == x.text && OldOf(d) == a[..i][..m];
    assert !x.Removed? ==> b[..j][|NewOf(d)|] == x.text && NewOf(d) == b[..j][..n];
    assert x.Added? ==> OldOf(d) + [] == OldOf(d);
    assert x.Removed? ==> NewOf(d) + [] == NewOf(d);
  }

  lemma SameEnd(x: DiffItem, y: DiffItem, a: seq<string>, b: seq<string>, i: nat, j: nat)
    requires i <= |a| && j <= |b| && MayEnd(x, a, b, i, j) && MayEnd(y, a, b, i, j)
    requires (!x.Added? ==> i > 0 && x.text == a[i - 1]) && (!x.Removed? ==> j > 0 && x.text == b[j - 1])
    requires (!y.Added? ==> i > 0 && y.text == a[i - 1]) && (!y.Removed? ==> j > 0 && y.text == b[j - 1])
    ensures x == y
  {
    hide Lcs;
  }

  /** There is only one script that is chosen so. */
  lemma {:induction false} ScriptIsUnique(d: seq<DiffItem>, e: seq<DiffItem>, a: seq<string>, b: seq<string>,
        i: nat, j: nat)
    requires i <= |a| && j <= |b|
    requires Transforms(d, a[..i], b[..j]) && Chosen(d, a, b, 0, 0)
    requires Transforms(e, a[..i], b[..j]) && Chosen(e, a, b, 0, 0)
    ensures d == e
    decreases i + j
  {
    if d != [] && e != [] {
      var m, n := |d| - 1, |e| - 1;
      var x, y := d[m], e[n];
      assert d == d[..m] + [x] && e == e[..n] + [y];
      ChosenSnoc(d[..m], x, a, b, 0, 0);
      ChosenSnoc(e[..n], y, a, b, 0, 0);
      LastOfBoth(d[..m], x, a, b, i, j);
      LastOfBoth(e[..n], y, a, b, i, j);
      SameEnd(x, y, a, b, i, j);
      hide MayEnd, Chosen, Transforms;
      ScriptIsUnique(d[..m], e[..n], a, b, if x.Added? then i else i - 1, if x.Removed? then j else j - 1);
    } else {
      NothingFromNothing(d);
      NothingFromNothing(e);
    }
  }

  lemma {:induction false} NothingFromNothing(d: seq<DiffItem>)
    ensures d == [] <==> OldOf(d) == [] && NewOf(d) == []
  {
  }

  /** What the walk back has written is right for the lines it has passed, has kept as many
      lines as the table promised, and would not add a line in front of a removed one. */
  ghost predicate WalkedBack(r: seq<DiffItem>, a: seq<string>, b: seq<string>, i: nat, j: nat)
    requires i <= |a| && j <= |b|
  {
    && Transforms(r, a[i..], b[j..]) && Chosen(r, a, b, i, j)
    && |CommonOf(r)| + Lcs(a, b, i, j) == Lcs(a, b, |a|, |b|)
    && RemovalsFirst(r)
    && (r != [] && r[0].Removed? && j > 0 ==> Lcs(a, b, i, j - 1) < Lcs(a, b, i, j))
  }

  lemma ScriptCons(x: DiffItem, r: seq<DiffItem>)
    ensures OldOf([x] + r) == (if x.Added? then [] else [x.text]) + OldOf(r)
    ensures NewOf([x] + r) == (if x.Removed? then [] else [x.text]) + NewOf(r)
    ensures CommonOf([x] + r) == (if x.Common? then [x.text] else []) + CommonOf(r)
  {
    assert ([x] + r)[1..] == r;
  }

  lemma RemovalsFirstCons(x: DiffItem, r: seq<DiffItem>)
    requires RemovalsFirst(r) && !(x.Added? && r != [] && r[0].Removed?)
    ensures RemovalsFirst([x] + r)
  {
    var d := [x] + r;
    assert forall k :: 0 < k < |d| ==> d[k] == r[k - 1];
  }

  lemma ChosenCons(x: DiffItem, r: seq<DiffItem>, a: seq<string>, b: seq<string>, i: nat, j: nat)
    requires i <= |a| && j <= |b| && MayEnd(x, a, b, i, j) && Chosen(r, a, b, i, j)
    ensures Chosen([x] + r, a, b, if x.Added? then i else i - 1, if x.Removed? then j else j - 1)
  {
    assert ([x] + r)[1..] == r;
    hide Lcs;
  }

  lemma WalkCommon(r: seq<DiffItem>, a: seq<string>, b: seq<string>, i: nat, j: nat)
    requires 0 < i <= |a| && 0 < j <= |b| && a[i - 1] == b[j - 1] && WalkedBack(r, a, b, i, j)
    ensures WalkedBack([Common(a[i - 1])] + r, a, b, i - 1, j - 1)
  {
    assert a[i - 1..] == [a[i - 1]] + a[i..] && b[j - 1..] == [b[j - 1]] + b[j..];
    ScriptCons(Common(a[i - 1]), r);
    ChosenCons(Common(a[i - 1]), r, a, b, i, j);
    RemovalsFirstCons(Common(a[i - 1]), r);
    hide Chosen, MayEnd, OldOf, NewOf, CommonOf, RemovalsFirst;
  }

  lemma WalkAdded(r: seq<DiffItem>, a: seq<string>, b: seq<string>, i: nat, j: nat)
    requires i <= |a| && 0 < j <= |b| && WalkedBack(r, a, b, i, j)
    requires i == 0 || (a[i - 1] != b[j - 1] && Lcs(a, b, i, j - 1) >= Lcs(a, b, i - 1, j))
    ensures WalkedBack([Added(b[j - 1])] + r, a, b, i, j - 1)
  {
    assert b[j - 1..] == [b[j - 1]] + b[j..];
    ScriptCons(Added(b[j - 1]), r);
    ChosenCons(Added(b[j - 1]), r, a, b, i, j);
    RemovalsFirstCons(Added(b[j - 1]), r);
    hide Chosen, MayEnd, OldOf, NewOf, CommonOf, RemovalsFirst;
  }

  lemma WalkRemoved(r: seq<DiffItem>, a: seq<string>, b: seq<string>, i: nat, j: nat)
    requires 0 < i <= |a| && j <= |b| && WalkedBack(r, a, b, i, j)
    requires j == 0 || (a[i - 1] != b[j - 1] && Lcs(a, b, i, j - 1) < Lcs(a, b, i - 1, j))
    ensures WalkedBack([Removed(a[i - 1])] + r, a, b, i - 1, j)
  {
    assert a[i - 1..] == [a[i - 1]] + a[i..];
    ScriptCons(Removed(a[i - 1]), r);
    ChosenCons(Removed(a[i - 1]), r, a, b, i, j);
    RemovalsFirstCons(Removed(a[i - 1]), r);
    hide Chosen, MayEnd, OldOf, NewOf, CommonOf, RemovalsFirst;
    if j > 0 {
      LcsStep(a, b, i, j - 1);
    }
  }

  lemma WalkStarts(a: seq<string>, b: seq<string>)
    ensures WalkedBack(Reversed([]), a, b, |a|, |b|)
  {
    hide Lcs;
  }

  lemma WalkEnds(r: seq<DiffItem>, a: seq<string>, b: seq<string>)
    requires WalkedBack(r, a, b, 0, 0)
    ensures Transforms(r, a, b) && |CommonOf(r)| == Lcs(a, b, |a|, |b|) && RemovalsFirst(r) && Chosen(r, a, b, 0, 0)
  {
    assert a[0..] == a && b[0..] == b;
    assert Lcs(a, b, 0, 0) == 0;
    hide Lcs;
  }

  method ComputeLcs(oldLines: seq<string>, newLines: seq<string>) returns (diff: seq<DiffItem>)
    ensures Transforms(diff, oldLines, newLines)
    ensures |CommonOf(diff)| == Lcs(oldLines, newLines, |oldLines|, |newLines|)
    ensures IsLongestCommon(CommonOf(diff), oldLines, newLines)
    ensures IsShortest(diff, oldLines, newLines)
    ensures RemovalsFirst(diff)
    ensures Chosen(diff, oldLines, newLines, 0, 0)
  {
    WalkStarts(oldLines, newLines);
    hide Chosen, WalkedBack, Reversed, Lcs, IsLongestCommon, IsShortest, RemovalsFirst, Transforms;
    var dp := FillTable(oldLines, newLines);
    var i, j := |oldLines|, |newLines|;
    diff := [];
    while i > 0 || j > 0
      invariant 0 <= i <= |oldLines| && 0 <= j <= |newLines|
      invariant IsTable(dp, oldLines, newLines)
      invariant WalkedBack(Reversed(diff), oldLines, newLines, i, j)
      decreases i + j
    {
      if i > 0 && j > 0 && oldLines[i - 1] == newLines[j - 1] {
        WalkCommon(Reversed(diff), oldLines, newLines, i, j);
        ReversedSnoc(diff, Common(oldLines[i - 1]));
        diff := diff + [Common(oldLines[i - 1])];
        i, j := i - 1, j - 1;
      } else if j > 0 && (i == 0 || dp[i, j - 1] >= dp[i - 1, j]) {
        WalkAdded(Reversed(diff), oldLines, newLines, i, j);
        ReversedSnoc(diff, Added(newLines[j - 1]));
        diff := diff + [Added(newLines[j - 1])];
        j := j - 1;
      } else {
        WalkRemoved(Reversed(diff), oldLines, newLines, i, j);
        ReversedSnoc(diff, Removed(oldLines[i - 1]));
        diff := diff + [Removed(oldLines[i - 1])];
        i := i - 1;
      }
    }
    diff := Reversed(diff);
    WalkEnds(diff, oldLines, newLines);
    Optimal(diff, oldLines, newLines);
  }

  /** A script that keeps as many lines as the table says is shortest, and what it keeps is
      a longest common subsequence. */
  lemma {:induction false} Optimal(diff: seq<DiffItem>, a: seq<string>, b: seq<string>)
    requires Transforms(diff, a, b) && |CommonOf(diff)| == Lcs(a, b, |a|, |b|)
    ensures IsLongestCommon(CommonOf(diff), a, b) && IsShortest(diff, a, b)
  {
    CommonLines(diff);
    ScriptLengths(diff);
    assert a[..|a|] == a && b[..|b|] == b;
    forall c | Subsequence(c, a) && Subsequence(c, b) ensures |c| <= |CommonOf(diff)| {
      LcsBounds(c, a, b, |a|, |b|);
    }
    forall d | Transforms(d, a, b) ensures Changes(diff) <= Changes(d) {
      NoShorterScript(d, a, b);
    }
  }
}
