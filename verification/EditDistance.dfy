/** Spotting near misses of known words (src/utils/ocrDiagnostics.js). */
module EditDistance {
  import opened Common

  // ------------------------------------------------------------------ definition

  function Cost(x: char, y: char): nat {
    if x == y then 0 else 1
  }

  function Init(s: string): string
    requires s != ""
  {
    s[..|s| - 1]
  }

  function Last(s: string): char
    requires s != ""
  {
    s[|s| - 1]
  }

  // The recursive minimum, over the last characters.
  function Lev(a: string, b: string): nat
    decreases |a| + |b|
  {
    if a == "" then |b|
    else if b == "" then |a|
    else Min(Min(Lev(Init(a), b) + 1, Lev(a, Init(b)) + 1), Lev(Init(a), Init(b)) + Cost(Last(a), Last(b)))
  }

  // ------------------------------------------------------------------ one row in place

  // The i-th row of the table: distances from the first i characters of a.
  function Row(a: string, b: string, i: nat): (row: seq<int>)
    requires i <= |a|
    ensures |row| == |b| + 1
    ensures forall k :: 0 <= k <= |b| ==> row[k] == Lev(a[..i], b[..k])
  {
    seq(|b| + 1, k requires 0 <= k <= |b| => Lev(a[..i], b[..k]))
  }

  // Each row from the one above it, left to right.
  predicate Follows(above: seq<int>, row: seq<int>, b: string, i: nat, x: char) {
    && |above| == |row| == |b| + 1
    && row[0] == i
    && forall j :: 1 <= j <= |b| ==>
         row[j] == Min(Min(above[j] + 1, row[j - 1] + 1), above[j - 1] + if x == b[j - 1] then 0 else 1)
  }

  lemma RowFollows(a: string, b: string, i: nat)
    requires 1 <= i <= |a|
    ensures Follows(Row(a, b, i - 1), Row(a, b, i), b, i, a[i - 1])
  {
    var above, row := Row(a, b, i - 1), Row(a, b, i);
    assert Init(a[..i]) == a[..i - 1] && b[..0] == "";
    forall j | 1 <= j <= |b|
      ensures row[j] == Min(Min(above[j] + 1, row[j - 1] + 1), above[j - 1] + if a[i - 1] == b[j - 1] then 0 else 1)
    {
      assert Init(b[..j]) == b[..j - 1];
    }
  }

  lemma FirstRow(a: string, b: string)
    ensures forall k :: 0 <= k <= |b| ==> Row(a, b, 0)[k] == k
  {
    assert a[..0] == "";
  }

  // The inner loop: one row becomes the next, in place.
  method NextRow(previous: array<int>, b: string, i: nat, x: char, ghost row: seq<int>)
    requires previous.Length == |b| + 1 && Follows(previous[..], row, b, i, x)
    modifies previous
    ensures previous[..] == row
  {
    ghost var upper := previous[..];
    var diagonal := previous[0];
    previous[0] := i;
    var j := 1;
    while j <= |b|
      invariant 1 <= j <= |b| + 1
      invariant diagonal == upper[j - 1]
      invariant forall k :: 0 <= k < j ==> previous[k] == row[k]
      invariant forall k :: j <= k <= |b| ==> previous[k] == upper[k]
    {
      var above := previous[j];
      previous[j] := Min(Min(previous[j] + 1, previous[j - 1] + 1), diagonal + if x == b[j - 1] then 0 else 1);
      diagonal := above;
      j := j + 1;
    }
  }

  method Levenshtein(a: string, b: string) returns (distance: nat)
    ensures distance == Lev(a, b)
  {
    var previous := new int[|b| + 1](i => i);
    FirstRow(a, b);
    assert previous[..] == Row(a, b, 0);
    var i := 1;
    while i <= |a|
      invariant 1 <= i <= |a| + 1
      invariant previous[..] == Row(a, b, i - 1)
    {
      RowFollows(a, b, i);
      NextRow(previous, b, i, a[i - 1], Row(a, b, i));
      i := i + 1;
    }
    assert a[..|a|] == a && b[..|b|] == b;
    assert previous[|b|] == Row(a, b, |a|)[|b|];
    return previous[|b|];
  }

  // ------------------------------------------------------------------ a metric

  lemma {:induction false} Bounds(a: string, b: string)
    ensures Abs(|a| - |b|) <= Lev(a, b) <= Max(|a|, |b|)
    decreases |a| + |b|
  {
    if a != "" && b != "" {
      Bounds(Init(a), b);
      Bounds(a, Init(b));
      Bounds(Init(a), Init(b));
    }
  }

  lemma {:induction false} Symmetric(a: string, b: string)
    ensures Lev(a, b) == Lev(b, a)
    decreases |a| + |b|
  {
    if a != "" && b != "" {
      Symmetric(Init(a), b);
      Symmetric(a, Init(b));
      Symmetric(Init(a), Init(b));
    }
  }

  lemma {:induction false} ZeroIffEqual(a: string, b: string)
    ensures Lev(a, b) == 0 <==> a == b
    decreases |a| + |b|
  {
    if a != "" && b != "" {
      ZeroIffEqual(Init(a), Init(b));
      assert a == Init(a) + [Last(a)] && b == Init(b) + [Last(b)];
    }
  }

  lemma {:induction false} Triangle(a: string, b: string, c: string)
    ensures Lev(a, c) <= Lev(a, b) + Lev(b, c)
    decreases |a| + |b| + |c|
  {
    if a == "" || c == "" {
      Bounds(a, b);
      Bounds(b, c);
    } else if b == "" {
      Bounds(a, c);
    } else if Lev(a, b) == Lev(Init(a), b) + 1 {
      Triangle(Init(a), b, c);
    } else if Lev(b, c) == Lev(b, Init(c)) + 1 {
      Triangle(a, b, Init(c));
    } else if Lev(a, b) == Lev(a, Init(b)) + 1 {
      if Lev(b, c) == Lev(Init(b), c) + 1 { Triangle(a, Init(b), c); } else { Triangle(a, Init(b), Init(c)); }
    } else if Lev(b, c) == Lev(Init(b), c) + 1 {
      Triangle(Init(a), Init(b), c);
    } else {
      Triangle(Init(a), Init(b), Init(c));
    }
  }

  // ------------------------------------------------------------------ what it counts

  // One stretch of at most one character replaced by at most one character.
  predicate EditAt(a: string, b: string, u: string, x: string, y: string, v: string) {
    |x| <= 1 && |y| <= 1 && a == u + x + v && b == u + y + v
  }

  ghost predicate OneEdit(a: string, b: string) {
    exists u, x, y, v :: EditAt(a, b, u, x, y, v)
  }

  ghost predicate Edits(words: seq<string>) {
    forall i :: 0 <= i < |words| - 1 ==> OneEdit(words[i], words[i + 1])
  }

  // b can be typed from a with at most n single-character edits.
  ghost predicate Within(a: string, b: string, n: nat) {
    exists words: seq<string> :: |words| == n + 1 && words[0] == a && words[n] == b && Edits(words)
  }

  lemma {:induction false} CommonEnd(a: string, b: string, v: string)
    ensures Lev(a + v, b + v) <= Lev(a, b)
  {
    if v == "" {
      assert a + v == a && b + v == b;
    } else {
      CommonEnd(a, b, Init(v));
      assert Init(a + v) == a + Init(v) && Init(b + v) == b + Init(v);
    }
  }

  lemma {:induction false} CommonStart(u: string, a: string, b: string)
    requires |a| <= 1 && |b| <= 1
    ensures Lev(u + a, u + b) <= Lev(a, b)
  {
    ZeroIffEqual(u, u);
    assert u + "" == u;
    if a != "" { assert Init(u + a) == u && Init(a) == ""; }
    if b != "" { assert Init(u + b) == u && Init(b) == ""; }
  }

  lemma OneEditIsClose(a: string, b: string)
    requires OneEdit(a, b)
    ensures Lev(a, b) <= 1
  {
    var u, x, y, v :| EditAt(a, b, u, x, y, v);
    CommonEnd(u + x, u + y, v);
    CommonStart(u, x, y);
    Bounds(x, y);
  }

  lemma {:induction false} ChainIsClose(words: seq<string>)
    requires words != [] && Edits(words)
    ensures Lev(words[0], words[|words| - 1]) <= |words| - 1
  {
    var n := |words| - 1;
    if n == 0 {
      ZeroIffEqual(words[0], words[0]);
    } else {
      var rest := words[..n];
      assert forall i :: 0 <= i < |rest| - 1 ==> OneEdit(words[i], words[i + 1]);
      ChainIsClose(rest);
      OneEditIsClose(words[n - 1], words[n]);
      Triangle(words[0], words[n - 1], words[n]);
    }
  }

  lemma EditInside(a: string, b: string, end: string)
    requires OneEdit(a, b)
    ensures OneEdit(a + end, b + end)
  {
    var u, x, y, v :| EditAt(a, b, u, x, y, v);
    assert a + end == u + x + (v + end) && b + end == u + y + (v + end);
    assert EditAt(a + end, b + end, u, x, y, v + end);
  }

  lemma EditLast(a: string, x: string, y: string)
    requires |x| <= 1 && |y| <= 1
    ensures OneEdit(a + x, a + y)
  {
    assert a + x == a + x + "" && a + y == a + y + "";
    assert EditAt(a + x, a + y, a, x, y, "");
  }

  // Towards b with one edit: one step nearer.
  lemma {:induction false} NearerWord(a: string, b: string) returns (c: string)
    requires Lev(a, b) > 0
    ensures OneEdit(a, c) && Lev(c, b) < Lev(a, b)
    decreases |a| + |b|
  {
    if b == "" || (a != "" && Lev(a, b) == Lev(Init(a), b) + 1) {
      c := Init(a);
      EditLast(c, [Last(a)], "");
      assert a == c + [Last(a)] && c + "" == c;
    } else {
      var x := Last(b);
      assert b == Init(b) + [x];
      if a == "" || Lev(a, b) == Lev(a, Init(b)) + 1 {
        c := a + [x];
        EditLast(a, "", [x]);
        assert a + "" == a;
        CommonEnd(a, Init(b), [x]);
      } else {
        assert a == Init(a) + [Last(a)];
        assert Lev(a, b) == Lev(Init(a), Init(b)) + Cost(Last(a), x);
        var d := Init(a);
        if Last(a) == x { d := NearerWord(Init(a), Init(b)); EditInside(Init(a), d, [x]); } else { EditLast(d, [Last(a)], [x]); }
        c := d + [x];
        CommonEnd(d, Init(b), [x]);
      }
    }
  }

  lemma {:induction false} CloseIsChain(a: string, b: string, n: nat)
    requires Lev(a, b) <= n
    ensures Within(a, b, n)
    decreases n
  {
    if n == 0 {
      ZeroIffEqual(a, b);
      var words := [a];
      assert |words| == n + 1 && words[0] == a && words[n] == b && Edits(words);
    } else {
      var c := a;
      assert EditAt(a, a, a, "", "", "");
      if Lev(a, b) > 0 { c := NearerWord(a, b); }
      CloseIsChain(c, b, n - 1);
      var rest: seq<string> :| |rest| == n && rest[0] == c && rest[n - 1] == b && Edits(rest);
      var words := [a] + rest;
      forall i | 0 <= i < |words| - 1 ensures OneEdit(words[i], words[i + 1]) {
        if i > 0 { assert words[i] == rest[i - 1] && words[i + 1] == rest[i - 1 + 1]; }
      }
      assert |words| == n + 1 && words[0] == a && words[n] == b && Edits(words);
    }
  }

  // Main result: the distance is the least number of single-character edits.
  lemma DistanceCountsEdits(a: string, b: string, n: nat)
    ensures Lev(a, b) <= n <==> Within(a, b, n)
  {
    if Lev(a, b) <= n {
      CloseIsChain(a, b, n);
    } else if Within(a, b, n) {
      var words: seq<string> :| |words| == n + 1 && words[0] == a && words[n] == b && Edits(words);
      ChainIsClose(words);
    }
  }

  // ------------------------------------------------------------------ the vocabulary

  function AllowedDistance(word: string): nat {
    if |word| >= 8 then 2 else if |word| >= 5 then 1 else 0
  }

  // tokens.some(...): the cheap length test comes before the distance.
  predicate SomeNear(tokens: seq<string>, word: string) {
    tokens != [] &&
    ((Abs(|tokens[0]| - |word|) <= AllowedDistance(word) && Lev(tokens[0], word) <= AllowedDistance(word))
     || SomeNear(tokens[1..], word))
  }

  predicate Exact(tokens: seq<string>, word: string) {
    word in tokens
  }

  predicate Near(tokens: seq<string>, word: string) {
    word !in tokens && AllowedDistance(word) > 0 && SomeNear(tokens, word)
  }

  lemma {:induction false} LengthTestRejectsNoNearMatch(tokens: seq<string>, word: string)
    ensures SomeNear(tokens, word) <==> exists t :: t in tokens && Lev(t, word) <= AllowedDistance(word)
  {
    if tokens != [] {
      LengthTestRejectsNoNearMatch(tokens[1..], word);
      Bounds(tokens[0], word);
      assert tokens == [tokens[0]] + tokens[1..];
    }
  }

  // Words below 5 characters are reported only when read exactly, those below 8
  // within one edit, longer ones within two.
  lemma ReportedByLength(tokens: seq<string>, word: string)
    ensures |word| < 5 ==> (Exact(tokens, word) || Near(tokens, word) <==> word in tokens)
    ensures 5 <= |word| < 8 ==> (Exact(tokens, word) || Near(tokens, word) <==> exists t :: t in tokens && Within(t, word, 1))
    ensures 8 <= |word| ==> (Exact(tokens, word) || Near(tokens, word) <==> exists t :: t in tokens && Within(t, word, 2))
  {
    ReportedIffWithinAllowance(tokens, word);
  }

  // A word is reported, exactly or as a near miss, exactly when some token is
  // within its allowed number of edits; it is never reported as both.
  lemma ReportedIffWithinAllowance(tokens: seq<string>, word: string)
    ensures (Exact(tokens, word) || Near(tokens, word)) <==> exists t :: t in tokens && Within(t, word, AllowedDistance(word))
    ensures !(Exact(tokens, word) && Near(tokens, word))
  {
    LengthTestRejectsNoNearMatch(tokens, word);
    forall t | t in tokens
      ensures Lev(t, word) <= AllowedDistance(word) <==> Within(t, word, AllowedDistance(word))
      ensures Lev(t, word) == 0 <==> t == word
    {
      DistanceCountsEdits(t, word, AllowedDistance(word));
      ZeroIffEqual(t, word);
    }
    ZeroIffEqual(word, word);
    DistanceCountsEdits(word, word, AllowedDistance(word));
  }
}
