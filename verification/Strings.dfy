/**
 The string operations of the Python built-ins that the modelled code relies on:
 whitespace stripping and splitting, joining, searching, counting and lower-casing.
 Characters are restricted to the ASCII meaning of whitespace and letter case.
 */
module Strings {

  const SPACE := " "

  predicate IsSpace(c: char) {
    c == ' ' || '\t' <= c <= '\r' || '\U{1C}' <= c <= '\U{1F}'
  }

  predicate Blank(s: string) {
    forall i | 0 <= i < |s| :: IsSpace(s[i])
  }

  predicate NoSpace(s: string) {
    forall i | 0 <= i < |s| :: !IsSpace(s[i])
  }

  /** A nonempty run of characters without whitespace. */
  predicate Word(s: string) {
    s != "" && NoSpace(s)
  }

  predicate Words(ws: seq<string>) {
    forall i | 0 <= i < |ws| :: Word(ws[i])
  }

  /** No whitespace at either end. */
  predicate Trimmed(s: string) {
    s != "" ==> !IsSpace(s[0]) && !IsSpace(s[|s| - 1])
  }

  function LStrip(s: string): string {
    if s != "" && IsSpace(s[0]) then LStrip(s[1..]) else s
  }

  function RStrip(s: string): string {
    if s != "" && IsSpace(s[|s| - 1]) then RStrip(s[..|s| - 1]) else s
  }

  function Strip(s: string): string {
    RStrip(LStrip(s))
  }

  function WordLength(s: string): (n: nat)
    ensures n <= |s|
    ensures NoSpace(s[..n])
    ensures n < |s| ==> IsSpace(s[n])
  {
    if s == "" || IsSpace(s[0]) then 0
    else
      var n := 1 + WordLength(s[1..]);
      assert s[..n] == [s[0]] + s[1..][..n - 1];
      n
  }

  /** `str.split()`: the maximal runs of non-whitespace characters. */
  function Split(s: string): (ws: seq<string>)
    ensures Words(ws)
    ensures ws == [] <==> Blank(s)
    decreases |s|
  {
    if s == "" then []
    else if IsSpace(s[0]) then
      assert Blank(s) <==> Blank(s[1..]) by { assert forall i | 0 <= i < |s| - 1 :: s[1..][i] == s[i + 1]; }
      Split(s[1..])
    else
      var n := WordLength(s);
      [s[..n]] + Split(s[n..])
  }

  function Join(ws: seq<string>, sep: string): string {
    if ws == [] then ""
    else if |ws| == 1 then ws[0]
    else ws[0] + sep + Join(ws[1..], sep)
  }

  /** `str.find` for one character: the first index, or -1. */
  function Find(s: string, c: char): (r: int)
    ensures -1 <= r < |s|
    ensures r == -1 <==> c !in s
    ensures r >= 0 ==> s[r] == c && c !in s[..r]
  {
    if s == "" then -1
    else if s[0] == c then 0
    else
      var r := Find(s[1..], c);
      assert s == [s[0]] + s[1..];
      if r == -1 then -1
      else
        assert s[..r + 1] == [s[0]] + s[1..][..r];
        r + 1
  }

  function Count(s: string, c: char): nat {
    if s == "" then 0 else (if s[0] == c then 1 else 0) + Count(s[1..], c)
  }

  function LowerChar(c: char): char {
    if 'A' <= c <= 'Z' then (c as int + 32) as char else c
  }

  function Lower(s: string): (r: string)
    ensures |r| == |s|
  {
    if s == "" then "" else [LowerChar(s[0])] + Lower(s[1..])
  }

  // ---- whitespace ----

  lemma BlankConcat(a: string, b: string)
    ensures Blank(a + b) <==> Blank(a) && Blank(b)
  {
    if Blank(a + b) {
      forall i | 0 <= i < |a| ensures IsSpace(a[i]) { assert (a + b)[i] == a[i]; }
      forall i | 0 <= i < |b| ensures IsSpace(b[i]) { assert (a + b)[|a| + i] == b[i]; }
    }
  }

  lemma {:induction false} LStripBlank(w: string, s: string)
    requires Blank(w)
    requires s == "" || !IsSpace(s[0])
    ensures LStrip(w + s) == s
  {
    if w == "" {
      assert w + s == s;
    } else {
      assert (w + s)[1..] == w[1..] + s;
      LStripBlank(w[1..], s);
    }
  }

  lemma {:induction false} RStripBlank(s: string, w: string)
    requires Blank(w)
    requires s == "" || !IsSpace(s[|s| - 1])
    ensures RStrip(s + w) == s
  {
    if w == "" {
      assert s + w == s;
    } else {
      assert (s + w)[..|s + w| - 1] == s + w[..|w| - 1];
      RStripBlank(s, w[..|w| - 1]);
    }
  }

  /** Stripping removes exactly the blank margins of a trimmed core. */
  lemma StripMargins(left: string, core: string, right: string)
    requires Blank(left) && Blank(right) && Trimmed(core)
    ensures Strip(left + core + right) == core
  {
    if core == "" {
      BlankConcat(left, right);
      assert left + core + right == (left + right) + "";
      LStripBlank(left + right, "");
    } else {
      assert left + core + right == left + (core + right);
      LStripBlank(left, core + right);
      RStripBlank(core, right);
    }
  }

  lemma {:induction false} SplitBlankPrefix(w: string, s: string)
    requires Blank(w)
    ensures Split(w + s) == Split(s)
  {
    if w == "" {
      assert w + s == s;
    } else {
      assert (w + s)[1..] == w[1..] + s;
      SplitBlankPrefix(w[1..], s);
    }
  }

  lemma {:induction false} WordLengthConcat(w: string, s: string)
    requires NoSpace(w)
    requires s == "" || IsSpace(s[0])
    ensures WordLength(w + s) == |w|
  {
    if w == "" {
      assert w + s == s;
    } else {
      assert (w + s)[1..] == w[1..] + s;
      WordLengthConcat(w[1..], s);
    }
  }

  lemma SplitWord(w: string, s: string)
    requires Word(w)
    requires s == "" || IsSpace(s[0])
    ensures Split(w + s) == [w] + Split(s)
  {
    WordLengthConcat(w, s);
    assert (w + s)[0] == w[0];
    assert (w + s)[..|w|] == w && (w + s)[|w|..] == s;
  }

  lemma SplitBlank(s: string)
    requires Blank(s)
    ensures Split(s) == []
  {
    SplitBlankPrefix(s, "");
    assert s + "" == s;
  }

  /** Splitting undoes joining with single spaces, whatever blank margins surround the text. */
  lemma {:induction false} SplitJoin(ws: seq<string>, right: string)
    requires Words(ws) && Blank(right)
    ensures Split(Join(ws, SPACE) + right) == ws
  {
    hide Split;
    if ws == [] {
      assert Join(ws, SPACE) + right == right;
      SplitBlank(right);
    } else if |ws| == 1 {
      SplitWord(ws[0], right);
      SplitBlank(right);
    } else {
      var tail := Join(ws[1..], SPACE) + right;
      assert Join(ws, SPACE) + right == ws[0] + (SPACE + tail);
      SplitWord(ws[0], SPACE + tail);
      SplitBlankPrefix(SPACE, tail);
      SplitJoin(ws[1..], right);
      assert ws == [ws[0]] + ws[1..];
    }
  }

  /** A string whose words are separated by single spaces and that has no margins. */
  predicate Normalised(s: string) {
    Join(Split(s), SPACE) == s
  }

  /** Joining words leaves no blank margin. */
  lemma {:induction false} JoinTrimmed(ws: seq<string>)
    requires Words(ws)
    ensures Trimmed(Join(ws, SPACE))
    ensures Join(ws, SPACE) == "" <==> ws == []
  {
    if |ws| > 1 {
      JoinTrimmed(ws[1..]);
      var t := Join(ws[1..], SPACE);
      assert Join(ws, SPACE) == ws[0] + SPACE + t;
      assert Join(ws, SPACE)[|Join(ws, SPACE)| - 1] == t[|t| - 1];
    }
  }

  lemma SplitFirst(a: string, b: string, n: nat)
    requires a != "" && !IsSpace(a[0]) && n == WordLength(a)
    ensures Split(a + SPACE + b) == [a[..n]] + Split(a[n..] + SPACE + b)
  {
    var rest := a[n..] + SPACE + b;
    assert a + SPACE + b == a[..n] + rest;
    assert rest[0] == if n < |a| then a[n] else ' ';
    SplitWord(a[..n], rest);
  }

  /** Text split at a space between two parts is split part by part. */
  lemma {:induction false} SplitConcat(a: string, b: string)
    ensures Split(a + SPACE + b) == Split(a) + Split(b)
    decreases |a|
  {
    if a == "" {
      assert a + SPACE + b == SPACE + b;
      SplitBlankPrefix(SPACE, b);
    } else if IsSpace(a[0]) {
      assert (a + SPACE + b)[1..] == a[1..] + SPACE + b;
      SplitConcat(a[1..], b);
    } else {
      var n := WordLength(a);
      SplitConcat(a[n..], b);
      SplitFirst(a, b, n);
      calc {
        Split(a + SPACE + b);
        [a[..n]] + Split(a[n..] + SPACE + b);
        [a[..n]] + (Split(a[n..]) + Split(b));
        ([a[..n]] + Split(a[n..])) + Split(b);
      }
    }
  }

  lemma {:induction false} JoinConcat(xs: seq<string>, ys: seq<string>)
    requires xs != [] && ys != []
    ensures Join(xs + ys, SPACE) == Join(xs, SPACE) + SPACE + Join(ys, SPACE)
  {
    assert (xs + ys)[1..] == xs[1..] + ys;
    if |xs| > 1 {
      JoinConcat(xs[1..], ys);
    } else {
      assert xs + ys == [xs[0]] + ys;
    }
  }

  lemma NormalisedConcat(a: string, b: string)
    requires Normalised(a) && Normalised(b) && a != "" && b != ""
    ensures Normalised(a + SPACE + b)
  {
    SplitConcat(a, b);
    JoinConcat(Split(a), Split(b));
  }

  lemma {:induction false} JoinAppendChar(ws: seq<string>, c: char)
    requires ws != []
    ensures Join(ws[|ws| - 1 := ws[|ws| - 1] + [c]], SPACE) == Join(ws, SPACE) + [c]
  {
    if |ws| > 1 {
      var vs := ws[1..];
      assert ws[|ws| - 1 := ws[|ws| - 1] + [c]][1..] == vs[|vs| - 1 := vs[|vs| - 1] + [c]];
      JoinAppendChar(vs, c);
    }
  }

  lemma NormalisedAppend(a: string, c: char)
    requires Normalised(a) && !IsSpace(c)
    ensures Normalised(a + [c])
  {
    var ws := Split(a);
    if ws == [] {
      assert a + [c] == [c] + "";
      SplitWord([c], "");
    } else {
      JoinAppendChar(ws, c);
      var vs := ws[|ws| - 1 := ws[|ws| - 1] + [c]];
      assert Join(vs, SPACE) + "" == a + [c];
      SplitJoin(vs, "");
    }
  }

  lemma NormalisedPrepend(c: char, a: string)
    requires Normalised(a) && !IsSpace(c)
    ensures Normalised([c] + a)
  {
    var ws := Split(a);
    if ws == [] {
      assert [c] + a == [c] + "";
      SplitWord([c], "");
    } else {
      var vs := ws[0 := [c] + ws[0]];
      assert vs[1..] == ws[1..];
      assert Join(vs, SPACE) + "" == [c] + a;
      SplitJoin(vs, "");
    }
  }

  lemma NormalisedTrimmed(a: string)
    requires Normalised(a)
    ensures Trimmed(a) && Strip(a) == a
  {
    JoinTrimmed(Split(a));
    StripMargins("", a, "");
    assert "" + a + "" == a;
  }

  // ---- searching and counting ----

  lemma {:induction false} CountConcat(a: string, b: string, c: char)
    ensures Count(a + b, c) == Count(a, c) + Count(b, c)
  {
    if a == "" {
      assert a + b == b;
    } else {
      assert (a + b)[1..] == a[1..] + b;
      CountConcat(a[1..], b, c);
    }
  }

  lemma {:induction false} CountAbsent(s: string, c: char)
    requires c !in s
    ensures Count(s, c) == 0
  {
    if s != "" {
      CountAbsent(s[1..], c);
    }
  }

  /** The first occurrence is at the end of a prefix that does not contain the character. */
  lemma FindAfter(pre: string, c: char, post: string)
    requires c !in pre
    ensures Find(pre + [c] + post, c) == |pre|
  {
    var s := pre + [c] + post;
    assert s[|pre|] == c;
    assert forall i | 0 <= i < |pre| :: s[i] == pre[i];
    assert forall i | |pre| < i < |s| :: s[..i][|pre|] == c;
  }

  // ---- letter case ----

  lemma {:induction false} LowerAt(s: string, i: nat)
    requires i < |s|
    ensures Lower(s)[i] == LowerChar(s[i])
  {
    if i > 0 {
      LowerAt(s[1..], i - 1);
    }
  }

  lemma {:induction false} LowerIdempotent(s: string)
    ensures Lower(Lower(s)) == Lower(s)
  {
    if s != "" {
      LowerIdempotent(s[1..]);
      assert Lower(s)[1..] == Lower(s[1..]);
    }
  }
}
