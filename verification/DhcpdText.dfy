/**
 What a printed file consists of, however its components are spread over the lines, and what
 becomes of a comment that stands behind a statement.
 */
module DhcpdText {
  import opened Wrappers
  import opened Strings
  import opened DhcpdModel
  import opened DhcpdParser
  import opened DhcpdPrinter
  import opened DhcpdTidy
  import opened DhcpdScan
  import opened DhcpdRoundTrip
  import opened DhcpdReparse
  import opened DhcpdLines
  import opened DhcpdHosts
  import DhcpdPrinted

  // ---- texts between blank space ----

  /** The text is made of the parts, in their order, and of blank space around them. */
  ghost predicate Interleaved(text: string, parts: seq<string>)
    decreases |parts|
  {
    if parts == [] then Blank(text)
    else exists pre: string, post: string :: StartsWith(text, pre, parts[0], post) && Interleaved(post, parts[1..])
  }

  ghost predicate StartsWith(text: string, pre: string, part: string, post: string) {
    Blank(pre) && text == pre + part + post
  }

  lemma {:induction false} BlankBefore(w: string, text: string, parts: seq<string>)
    requires Blank(w) && Interleaved(text, parts)
    ensures Interleaved(w + text, parts)
  {
    if parts == [] {
      BlankConcat(w, text);
    } else {
      var pre: string, post: string :| StartsWith(text, pre, parts[0], post) && Interleaved(post, parts[1..]);
      BlankConcat(w, pre);
      assert w + (pre + parts[0] + post) == (w + pre) + parts[0] + post;
      assert StartsWith(w + text, w + pre, parts[0], post);
    }
  }

  lemma InterleavedCons(text: string, pre: string, part: string, post: string, parts: seq<string>)
    requires StartsWith(text, pre, part, post) && Interleaved(post, parts)
    ensures Interleaved(text, [part] + parts)
  {
    hide Blank;
    var all := [part] + parts;
    assert all[1..] == parts;
    assert StartsWith(text, pre, all[0], post) && Interleaved(post, all[1..]);
  }

  lemma FirstPart(text: string, parts: seq<string>) returns (pre: string, post: string)
    requires parts != [] && Interleaved(text, parts)
    ensures StartsWith(text, pre, parts[0], post) && Interleaved(post, parts[1..])
  {
    hide Blank, StartsWith;
    pre, post :| StartsWith(text, pre, parts[0], post) && Interleaved(post, parts[1..]);
  }

  lemma {:induction false} InterleavedConcat(a: string, p: seq<string>, b: string, q: seq<string>)
    requires Interleaved(a, p) && Interleaved(b, q)
    ensures Interleaved(a + b, p + q)
    decreases |p|
  {
    if p == [] {
      BlankBefore(a, b, q);
      assert p + q == q;
    } else {
      hide Interleaved, StartsWith;
      var pre, post := FirstPart(a, p);
      InterleavedConcat(post, p[1..], b, q);
      StartsBefore(a, pre, p[0], post, b);
      InterleavedCons(a + b, pre, p[0], post + b, p[1..] + q);
      assert p + q == [p[0]] + (p[1..] + q) by { assert p == [p[0]] + p[1..]; }
    }
  }

  lemma StartsBefore(text: string, pre: string, part: string, post: string, more: string)
    requires StartsWith(text, pre, part, post)
    ensures StartsWith(text + more, pre, part, post + more)
  {
    hide Blank;
    assert (pre + part + post) + more == pre + part + (post + more);
  }

  lemma OnePart(pre: string, part: string)
    requires Blank(pre)
    ensures Interleaved(pre + part, [part])
  {
    var parts := [part];
    EmptyIsBlank();
    assert parts[1..] == [];
    assert pre + part == pre + part + "";
    assert StartsWith(pre + part, pre, parts[0], "");
    assert Interleaved("", parts[1..]);
  }

  lemma {:induction false} LStripLeft(s: string) returns (left: string)
    ensures Blank(left) && s == left + LStrip(s)
  {
    if s != "" && IsSpace(s[0]) {
      var more := LStripLeft(s[1..]);
      left := [s[0]] + more;
    } else {
      left := "";
    }
  }

  // ---- the components in the printed text ----

  /** The texts of the components, without their indentation. */
  ghost function Cores(s: Store, b: nat, ids: seq<nat>): (texts: seq<string>)
    requires Valid(s) && b < |s| && ChildrenOf(s, b, ids)
    ensures |texts| == |ids| && forall k | 0 <= k < |ids| :: texts[k] == LStrip(AsText(s, ids[k]))
  {
    seq(|ids|, k requires 0 <= k < |ids| => LStrip(AsText(s, ids[k])))
  }

  lemma RefIsCore(s: Store, b: nat, ids: seq<nat>, k: nat)
    requires Valid(s) && b < |s| && ChildrenOf(s, b, ids) && k < |ids|
    ensures Interleaved(RefText(s, b, ids, k), [LStrip(AsText(s, ids[k]))])
  {
    hide Valid, AsText, LStrip, Interleaved;
    var text := AsText(s, ids[k]);
    if k > 0 && s[ids[k]].body.Comment? {
      OnePart(" ", LStrip(text));
    } else {
      var left := LStripLeft(text);
      OnePart(left, LStrip(text));
    }
  }

  lemma TailChildren(s: Store, b: nat, ids: seq<nat>, k: nat)
    requires b < |s| && ChildrenOf(s, b, ids) && k <= |ids|
    ensures ChildrenOf(s, b, ids[k..])
  {
    assert ids == ids[..k] + ids[k..];
    ChildrenSplit(s, b, ids[..k], ids[k..]);
  }

  lemma {:induction false} LineIsInterleaved(s: Store, b: nat, ids: seq<nat>, k: nat)
    requires Valid(s) && b < |s| && ChildrenOf(s, b, ids) && k <= |ids|
    ensures ChildrenOf(s, b, ids[k..]) && Interleaved(LineText(s, b, ids, k), Cores(s, b, ids[k..]))
    decreases |ids| - k
  {
    hide Valid, AsText, LStrip, Interleaved, ChildrenOf;
    TailChildren(s, b, ids, k);
    if k == |ids| {
      EmptyIsBlank();
      assert Cores(s, b, ids[k..]) == [];
    } else {
      TailChildren(s, b, ids, k + 1);
      RefIsCore(s, b, ids, k);
      LineIsInterleaved(s, b, ids, k + 1);
      InterleavedConcat(RefText(s, b, ids, k), [LStrip(AsText(s, ids[k]))], LineText(s, b, ids, k + 1), Cores(s, b, ids[k + 1..]));
      assert Cores(s, b, ids[k..]) == [LStrip(AsText(s, ids[k]))] + Cores(s, b, ids[k + 1..]);
    }
  }

  lemma EmptyIsBlank()
    ensures Interleaved("", []) && Interleaved("\n", [])
  {
  }

  lemma {:induction false} PlanIsInterleaved(s: Store, b: nat, groups: seq<seq<nat>>)
    requires Valid(s) && b < |s| && (forall k | 0 <= k < |groups| :: ChildrenOf(s, b, groups[k])) && ChildrenOf(s, b, Flatten(groups))
    ensures Interleaved(PlanText(s, b, groups), Cores(s, b, Flatten(groups)))
    decreases |groups|
  {
    hide Valid, AsText, LStrip, Interleaved, ChildrenOf, LineText;
    if groups == [] {
      EmptyIsBlank();
      assert Cores(s, b, Flatten(groups)) == [];
    } else {
      var first, rest := groups[0], Flatten(groups[1..]);
      assert Flatten(groups) == first + rest;
      ChildrenSplit(s, b, first, rest);
      LineIsInterleaved(s, b, first, 0);
      assert first[0..] == first;
      PlanIsInterleaved(s, b, groups[1..]);
      EmptyIsBlank();
      InterleavedConcat(LineText(s, b, first, 0), Cores(s, b, first), "\n", []);
      assert Cores(s, b, first) + [] == Cores(s, b, first);
      InterleavedConcat(LineText(s, b, first, 0) + "\n", Cores(s, b, first), PlanText(s, b, groups[1..]), Cores(s, b, rest));
      assert Cores(s, b, first + rest) == Cores(s, b, first) + Cores(s, b, rest);
    }
  }

  /**
   The printed text of a block of a tidy store, as every parsed one is: between the header and the
   closing bracket, which the global block does not have, just the texts of its components, in their
   order and apart from blank space nothing else, however many of them share a line.
   */
  lemma PrintedBlockHasAll(s: Store, b: nat) returns (body: string)
    requires Tidy(s) && IsBlock(s, b)
    ensures ChildrenOf(s, b, s[b].body.components) && Interleaved(body, Cores(s, b, s[b].body.components))
    ensures b == GLOBAL ==> AsText(s, b) == body
    ensures b != GLOBAL ==>
              AsText(s, b) == Shifting(s, b) + Join(s[b].body.settings, SPACE) + " {\n" + body + Shifting(s, b) + "}"
  {
    hide Interleaved, Shifting, Join, Plan, Flatten;
    assert ValidBlock(s, b);
    PlanIsComplete(s, b);
    body := PlanText(s, b, Plan(s, b));
    PlanIsInterleaved(s, b, Plan(s, b));
  }

  // ---- a comment behind a statement ----

  /** A statement with a comment behind it, as one line of a file. */
  function Commented(text: string, comment: string): string {
    text + "; #" + comment + "\n"
  }

  /** What the parser takes for the comment. */
  function WholeLine(text: string, comment: string): string
    requires text != ""
  {
    text[1..] + "; #" + comment
  }

  /** The store of the parsed line: the comment comes first. */
  function CommentedStore(key: string, value: Value, data: string): Store {
    [Component(1, 1, NOPARENT, Block("global", [], [1, 2], map[1 := [1, 2]])),
     Component(1, 1, GLOBAL, Comment(data)),
     Component(1, 1, GLOBAL, Parameter(key, value))]
  }

  lemma AppendsTwo(key: string, value: Value, data: string)
    ensures var one := Append([GlobalBlock(1)], GLOBAL, 1, Comment(data));
            IsBlock(one, GLOBAL) && Append(one, GLOBAL, 1, Parameter(key, value)) == CommentedStore(key, value, data)
  {
    var one := Append([GlobalBlock(1)], GLOBAL, 1, Comment(data));
    var none: seq<nat> := [];
    assert none + [1] == [1] && [1] + [2] == [1, 2];
    assert one == [Component(1, 1, NOPARENT, Block("global", [], [1], map[1 := [1]])), Component(1, 1, GLOBAL, Comment(data))];
    assert map[1 := [1]][1 := [1, 2]] == map[1 := [1, 2]];
  }

  predicate Loseable(key: string, value: Value, comment: string) {
    var text := key + " " + ValueText(key, value);
    && ParameterSafe(key, value) && '#' !in text && '\n' !in text
    && '\n' !in comment && (comment != "" ==> !IsSpace(comment[|comment| - 1]))
  }

  lemma StatementEnds(key: string, value: Value)
    requires ParameterSafe(key, value)
    ensures var text := key + " " + ValueText(key, value);
            text != "" && !IsSpace(text[0]) && ';' !in text && EvenQuotes(text)
  {
  }

  lemma CommentedText(text: string, comment: string)
    requires '#' !in text && EvenQuotes(text)
    ensures var x := text + "; ";
            Commented(text, comment) == x + ['#'] + (comment + "\n") && '#' !in x && !OpenQuote(x)
  {
    CountConcat(text, "; ", '"');
    CountConcat(text, "; ", '\'');
    CountAbsent("; ", '"');
    CountAbsent("; ", '\'');
    assert "; #" == "; " + "#";
  }

  lemma CommentedCore(text: string, comment: string)
    requires text != "" && !IsSpace(text[0]) && (comment != "" ==> !IsSpace(comment[|comment| - 1]))
    ensures var core := text + "; #" + comment;
            Commented(text, comment) == core + "\n" && core != "" && Trimmed(core) && core[1..] == WholeLine(text, comment)
  {
    var core := text + "; #" + comment;
    assert core[0] == text[0] && core[|core| - 1] == if comment == "" then '#' else comment[|comment| - 1];
  }

  lemma CommentedLine(text: string, comment: string)
    requires text != "" && !IsSpace(text[0]) && (comment != "" ==> !IsSpace(comment[|comment| - 1]))
    ensures Strip(Commented(text, comment)) != "" && Strip(Commented(text, comment))[1..] == WholeLine(text, comment)
  {
    hide Commented, Strip;
    var core := text + "; #" + comment;
    CommentedCore(text, comment);
    StripMargins("", core, "\n");
    assert "" + core + "\n" == core + "\n";
  }

  lemma TakesComment(st: ParseState, text: string, comment: string)
    requires ValidState(st) && st.minIndex == 0 && st.data == Commented(text, comment)
    requires text != "" && !IsSpace(text[0]) && '#' !in text && EvenQuotes(text)
    requires comment != "" ==> !IsSpace(comment[|comment| - 1])
    ensures var next := st.(data := text + "; ", store := Append(st.store, st.block, st.line, Comment(WholeLine(text, comment))));
            ValidState(next) && Step(st) == More(next) && Run(st) == Run(next)
  {
    hide Valid, Append, Strip, OpenQuote, Run, Commented, WholeLine, Step, TakeToken;
    CommentedText(text, comment);
    CommentedLine(text, comment);
    TakeStep(st, text + "; ", '#', comment + "\n");
    CommentToken(st, |text + "; "|);
    RunStep(st);
  }

  lemma CommentToken(st: ParseState, index: nat)
    requires IsBlock(st.store, st.block) && index < |st.data| && Strip(st.data) != ""
    ensures TakeToken(st, '#', index) ==
              More(st.(data := st.data[..index], store := Append(st.store, st.block, st.line, Comment(Strip(st.data)[1..]))))
  {
    hide Append, Strip;
  }

  lemma TakesStatement(st: ParseState, key: string, value: Value)
    requires ValidState(st) && st.minIndex == 0 && ParameterSafe(key, value) && '#' !in key + " " + ValueText(key, value)
    requires st.data == key + " " + ValueText(key, value) + "; "
    ensures var next := st.(data := " ", store := Append(st.store, st.block, st.line, Parameter(key, value)));
            ValidState(next) && Step(st) == More(next) && Run(st) == Run(next)
  {
    hide Valid, Append, Strip, OpenQuote, Run, Step, Split, Join, MakeValue, Unquote, ParseSemicolon, ParameterSafe, ValueText, Unseen;
    var text := key + " " + ValueText(key, value);
    StatementEnds(key, value);
    NotOpen(text);
    assert st.data == text + [';'] + " ";
    NoHashSeen(st.data);
    TakeStep(st, text, ';', " ");
    ReadParameter("", key, value);
    assert "" + (key + " " + ValueText(key, value)) == text;
    KeyIsNoOption(key, value);
    ReadsParameter(st, |text|, key, value);
    RunStep(st);
  }

  lemma KeyIsNoOption(key: string, value: Value)
    requires ParameterSafe(key, value)
    ensures key != "option"
  {
  }

  lemma NotOpen(text: string)
    requires EvenQuotes(text)
    ensures !OpenQuote(text)
  {
  }

  lemma NoHashSeen(data: string)
    requires '#' !in data
    ensures NothingBefore(data, ';')
  {
  }

  lemma EndsHere(st: ParseState)
    requires ValidState(st) && Blank(st.data) && st.line >= |st.lines|
    ensures Run(st) == (st, None)
  {
    BlankStrip(st.data);
    RunStep(st);
  }

  lemma ParsesCommented(key: string, value: Value, comment: string)
    requires Loseable(key, value, comment)
    ensures var text := key + " " + ValueText(key, value);
            && text != ""
            && var (end, error) := ParseLines([Commented(text, comment)]);
               error == None && end.store == CommentedStore(key, value, WholeLine(text, comment))
  {
    hide Valid, Append, Run, Step, ValueText, ParameterSafe, Commented, WholeLine, Strip;
    var text := key + " " + ValueText(key, value);
    StatementEnds(key, value);
    var line := Commented(text, comment);
    var st := Initial([line]);
    CommentedLine(text, comment);
    var mid := FirstLine(line);
    TakesComment(mid, text, comment);
    var next := Step(mid).next;
    TakesStatement(next, key, value);
    var last := Step(next).next;
    EndsHere(last);
    AppendsTwo(key, value, WholeLine(text, comment));
  }

  /** Reading the only line of a file. */
  lemma FirstLine(line: string) returns (mid: ParseState)
    requires Strip(line) != ""
    ensures ValidState(mid) && Run(Initial([line])) == Run(mid) && mid == Initial([line]).(data := line, line := 1)
  {
    hide Strip, Run, Step;
    var st := Initial([line]);
    assert st.data + line == line;
    EmptyIsBlank();
    ReadStep(st);
    mid := NewData(st);
  }

  lemma PrintsCommented(key: string, value: Value, data: string)
    requires Valid(CommentedStore(key, value, data))
    ensures AsText(CommentedStore(key, value, data), GLOBAL) == "#" + data + (key + " " + ValueText(key, value) + ";") + "\n"
  {
    hide Valid, ValueText;
    var s := CommentedStore(key, value, data);
    var none: seq<nat> := [];
    PlanOfCommented(key, value, data);
    assert Shifting(s, 1) == "" && Shifting(s, 2) == "" by { assert Depth(s, GLOBAL) == 0 && Tabs(0) == ""; }
    var first, second := "#" + data, key + " " + ValueText(key, value) + ";";
    assert AsText(s, 1) == "" + "#" + data == first;
    assert AsText(s, 2) == "" + key + " " + ValueText(key, value) + ";" == second;
    assert ChildrenOf(s, GLOBAL, [1, 2]);
    assert LineText(s, GLOBAL, [1, 2], 2) == "" && RefText(s, GLOBAL, [1, 2], 1) == second && RefText(s, GLOBAL, [1, 2], 0) == first;
    assert LineText(s, GLOBAL, [1, 2], 1) == second + "" == second;
    assert LineText(s, GLOBAL, [1, 2], 0) == first + second;
    assert [[1, 2]][1..] == [] && PlanText(s, GLOBAL, []) == "";
    assert PlanText(s, GLOBAL, [[1, 2]]) == first + second + "\n" + "";
  }

  lemma PlanOfCommented(key: string, value: Value, data: string)
    requires Valid(CommentedStore(key, value, data))
    ensures Plan(CommentedStore(key, value, data), GLOBAL) == [[1, 2]]
  {
    var s := CommentedStore(key, value, data);
    NothingUnplaced(key, value, data);
    assert LineGroups(s, GLOBAL, 2) == [];
    assert LineGroups(s, GLOBAL, 1) == [[1, 2]] + [];
    assert Singletons([]) == [];
  }

  lemma NothingUnplaced(key: string, value: Value, data: string)
    ensures var s := CommentedStore(key, value, data); Unplaced(s, GLOBAL, [1, 2]) == []
  {
    var s := CommentedStore(key, value, data);
    assert LinePlaced(s, GLOBAL, 1) && LinePlaced(s, GLOBAL, 2);
    assert [1, 2][1..] == [2] && [2][1..] == [];
    assert Unplaced(s, GLOBAL, []) == [] && Unplaced(s, GLOBAL, [2]) == [] + [] && Unplaced(s, GLOBAL, [1, 2]) == [] + [];
  }

  /** A line that begins with '#' is one comment. */
  lemma ReadsComment(data: string)
    requires '\n' !in data && data != "" && !IsSpace(data[|data| - 1])
    ensures var (end, error) := ParseLines(ReadLines("#" + data + "\n"));
            error == None && Contents(end.store) == [CommentTree(data)]
  {
    hide Valid, Run, Step, Append, Strip, ReadLines, Contents;
    var line := "#" + data + "\n";
    OneLineRead(data);
    StripMargins("", "#" + data, "\n");
    assert "" + ("#" + data) + "\n" == line;
    var mid := FirstLine(line);
    TakeComment(mid, data);
    EndsHere(Step(mid).next);
    OneCommentStore(data);
  }

  lemma TakeComment(st: ParseState, data: string)
    requires ValidState(st) && st.minIndex == 0 && st.data == "#" + data + "\n" && Strip(st.data) == "#" + data
    ensures var next := st.(data := "", store := Append(st.store, st.block, st.line, Comment(data)));
            ValidState(next) && Step(st) == More(next) && Run(st) == Run(next)
  {
    hide Valid, Append, Strip, OpenQuote, Run, Step, TakeToken;
    assert st.data == "" + ['#'] + (data + "\n");
    NoQuotes();
    TakeStep(st, "", '#', data + "\n");
    assert ("#" + data)[1..] == data;
    CommentToken(st, 0);
    assert st.data[..0] == "";
    RunStep(st);
  }

  lemma OneLineRead(data: string)
    requires '\n' !in data
    ensures ReadLines("#" + data + "\n") == ["#" + data + "\n"]
  {
    var line := "#" + data + "\n";
    assert line == ("#" + data) + ['\n'] + "";
    FindAfter("#" + data, '\n', "");
    assert line[..|line|] == line && line[|line|..] == "" && ReadLines("") == [];
  }

  lemma OnlyChild(s: Store)
    requires Valid(s) && 1 < |s| && s[GLOBAL].body.components == [1]
    ensures Contents(s) == [TreeAt(s, 1)]
  {
    hide Valid, TreeAt;
    var none: seq<nat> := [];
    assert [1][1..] == none;
    assert ValidBlock(s, GLOBAL) by { BlockOf(s); }
    assert Forest(s, GLOBAL, none) == [] && Forest(s, GLOBAL, [1]) == [TreeAt(s, 1)] + [];
  }

  lemma BlockOf(s: Store)
    requires Valid(s)
    ensures IsBlock(s, GLOBAL) && ValidBlock(s, GLOBAL)
  {
  }

  lemma OneCommentStore(data: string)
    ensures var s := Append([GlobalBlock(1)], GLOBAL, 1, Comment(data));
            Valid(s) && Contents(s) == [CommentTree(data)]
  {
    hide Contents, Forest;
    var one: Store := [GlobalBlock(1)];
    assert ValidBlock(one, GLOBAL) && Valid(one);
    AppendValid(one, GLOBAL, 1, Comment(data));
    hide Valid;
    var s := Append(one, GLOBAL, 1, Comment(data));
    var none: seq<nat> := [];
    assert none + [1] == [1] && s[GLOBAL].body.components == [1];
    OnlyChild(s);
  }

  /**
   A statement with a comment behind it is lost when the file is written: the comment is read as the
   whole line and printed before the statement on the same line, so that the next reading finds one
   comment and no statement, whatever the statement and the comment.
   */
  lemma StatementIsLost(key: string, value: Value, comment: string)
    requires Loseable(key, value, comment)
    ensures var text := key + " " + ValueText(key, value);
            && text != ""
            && var s := ParseLines([Commented(text, comment)]).0.store;
               && Contents(s) == [CommentTree(WholeLine(text, comment)), ParameterTree(key, value)]
               && Contents(ParseLines(ReadLines(AsText(s, GLOBAL))).0.store) == [CommentTree(WholeLine(text, comment) + text + ";")]
  {
    hide Valid, Run, Step, ParseLines, ReadLines, AsText, ValueText, CommentedStore, Contents, WholeLine, Commented;
    var text := key + " " + ValueText(key, value);
    var data := WholeLine(text, comment);
    ParsesCommented(key, value, comment);
    var s := ParseLines([Commented(text, comment)]).0.store;
    PrintsCommented(key, value, data);
    MoreIsOneLine(text, comment);
    ReadsComment(data + text + ";");
    TwoTrees(key, value, data);
  }

  lemma MoreIsOneLine(text: string, comment: string)
    requires text != "" && '\n' !in text && '\n' !in comment
    ensures var data := WholeLine(text, comment);
            var more := data + text + ";";
            && "#" + data + (text + ";") + "\n" == "#" + more + "\n"
            && '\n' !in more && more != "" && !IsSpace(more[|more| - 1])
  {
    assert forall i | 0 <= i < |text| - 1 :: text[1..][i] == text[i + 1];
  }

  lemma TwoTrees(key: string, value: Value, data: string)
    requires Valid(CommentedStore(key, value, data))
    ensures Contents(CommentedStore(key, value, data)) == [CommentTree(data), ParameterTree(key, value)]
  {
    var s := CommentedStore(key, value, data);
    assert ValidBlock(s, GLOBAL);
    var none: seq<nat> := [];
    assert [1, 2][1..] == [2] && [2][1..] == none;
    assert Forest(s, GLOBAL, none) == [];
    assert Forest(s, GLOBAL, [2]) == [TreeAt(s, 2)] + [];
    assert Forest(s, GLOBAL, [1, 2]) == [TreeAt(s, 1)] + Forest(s, GLOBAL, [2]);
  }

  /** There are such statements. */
  lemma SomeStatementIsLost()
    ensures Loseable(FIXED, Str("c"), "")
  {
    hide ParameterSafe;
    DhcpdPrinted.LetterSafe();
    assert Lower("c") == "c" by { assert "c"[1..] == ""; }
    assert Normalise(Str("c")) == Str("c");
    assert !IsDottedPair("c");
  }
}
