/**
 Printing and parsing undo each other. A safe tree is printed one component per line, the
 parser reads exactly that tree back, and printing the result gives the same text again.
 */
module DhcpdRoundTrip {
  import opened Wrappers
  import opened Strings
  import opened DhcpdModel
  import opened DhcpdParser
  import opened DhcpdPrinter
  import opened DhcpdTidy
  import opened DhcpdScan

  // ---- the printed lines of a tree ----

  function Render(t: Tree, d: nat): seq<string>
    decreases t, 1
  {
    match t
    case ParameterTree(key, value) => [Tabs(d) + (key + " " + ValueText(key, value)) + ";"]
    case ChoiceTree(name, values) => [Tabs(d) + ChoiceText(name, values) + ";"]
    case CommentTree(data) => [Tabs(d) + "#" + data]
    case EmptyTree => [Tabs(d)]
    case BlockTree(_, settings, kids) =>
      [Tabs(d) + Join(settings, SPACE) + " {"] + RenderAll(kids, d + 1) + [Tabs(d) + "}"]
  }

  function RenderAll(ts: seq<Tree>, d: nat): seq<string>
    decreases ts, 0
  {
    if ts == [] then [] else Render(ts[0], d) + RenderAll(ts[1..], d)
  }

  function Terminated(lines: seq<string>): seq<string> {
    if lines == [] then [] else [lines[0] + "\n"] + Terminated(lines[1..])
  }

  function Concat(lines: seq<string>): string {
    if lines == [] then "" else lines[0] + Concat(lines[1..])
  }

  /** The text of a file with these lines. */
  function FileText(lines: seq<string>): string {
    Concat(Terminated(lines))
  }

  ghost predicate Safe(t: Tree)
    decreases t, 1
  {
    match t
    case ParameterTree(key, value) => ParameterSafe(key, value)
    case ChoiceTree(name, values) => ChoiceSafe(name, values)
    case CommentTree(data) => CommentSafe(data)
    case EmptyTree => true
    case BlockTree(ty, settings, kids) => BlockSafe(ty, settings) && SafeAll(kids)
  }

  ghost predicate SafeAll(ts: seq<Tree>)
    decreases ts, 0
  {
    ts == [] || (Safe(ts[0]) && SafeAll(ts[1..]))
  }

  // ---- sequences of lines ----

  lemma {:induction false} TerminatedConcat(a: seq<string>, b: seq<string>)
    ensures Terminated(a + b) == Terminated(a) + Terminated(b)
  {
    if a == [] {
      assert a + b == b;
    } else {
      assert (a + b)[1..] == a[1..] + b;
      TerminatedConcat(a[1..], b);
    }
  }

  lemma {:induction false} ConcatConcat(a: seq<string>, b: seq<string>)
    ensures Concat(a + b) == Concat(a) + Concat(b)
  {
    if a == [] {
      assert a + b == b;
    } else {
      assert (a + b)[1..] == a[1..] + b;
      ConcatConcat(a[1..], b);
    }
  }

  lemma FileTextConcat(a: seq<string>, b: seq<string>)
    ensures FileText(a + b) == FileText(a) + FileText(b)
  {
    TerminatedConcat(a, b);
    ConcatConcat(Terminated(a), Terminated(b));
  }

  /** `file.readlines()`: the text cut after every newline. */
  function ReadLines(text: string): seq<string>
    decreases |text|
  {
    if text == "" then []
    else
      var i := Find(text, '\n');
      if i == -1 then [text] else [text[..i + 1]] + ReadLines(text[i + 1..])
  }

  ghost predicate NewlineFree(lines: seq<string>) {
    forall i | 0 <= i < |lines| :: '\n' !in lines[i]
  }

  lemma {:induction false} ReadLinesOfFile(lines: seq<string>)
    requires NewlineFree(lines)
    ensures ReadLines(FileText(lines)) == Terminated(lines)
  {
    if lines != [] {
      var rest := FileText(lines[1..]);
      ReadLinesOfFile(lines[1..]);
      assert FileText(lines) == lines[0] + ['\n'] + rest;
      FindAfter(lines[0], '\n', rest);
      assert FileText(lines)[..|lines[0]| + 1] == lines[0] + "\n";
      assert FileText(lines)[|lines[0]| + 1..] == rest;
    }
  }

  // ---- printing a store with one component per line ----

  /** The number of tabs before a component. */
  ghost function Indent(s: Store, i: nat): nat
    requires Valid(s) && i < |s|
  {
    if s[i].parent < 0 then 0 else assert i > 0; Depth(s, s[i].parent)
  }

  lemma LeafIsRender(s: Store, i: nat)
    requires Valid(s) && 0 < i < |s| && !s[i].body.Block?
    ensures FileText(Render(TreeAt(s, i), Indent(s, i))) == AsText(s, i) + "\n"
  {
    var tabs := Tabs(Indent(s, i));
    var line := Render(TreeAt(s, i), Indent(s, i))[0];
    LineFile(line);
    match s[i].body
    case Parameter(key, value) =>
      assert tabs + (key + " " + ValueText(key, value)) + ";" == tabs + key + " " + ValueText(key, value) + ";";
    case Choice(name, values) =>
      var text := Join(OptionTexts(name, values), ", ");
      assert tabs + ("option " + name + " " + text) + ";" == tabs + "option " + name + " " + text + ";";
    case Comment(_) =>
    case EmptyLine =>
  }

  lemma BlockIsRender(tabs: string, header: string, kids: seq<string>)
    ensures FileText([tabs + header + " {"] + kids + [tabs + "}"]) ==
              tabs + header + " {\n" + FileText(kids) + tabs + "}" + "\n"
  {
    var open, close := [tabs + header + " {"], [tabs + "}"];
    FileTextConcat(open + kids, close);
    FileTextConcat(open, kids);
    LineFile(open[0]);
    LineFile(close[0]);
    BlockLines(tabs, header, FileText(kids));
  }

  /** Every block prints each of its components on a line of its own. */
  ghost predicate PrintsSingly(s: Store) {
    Valid(s) && forall b | 0 <= b < |s| && s[b].body.Block? :: Plan(s, b) == Singletons(s[b].body.components)
  }

  lemma BlockText(s: Store, i: nat)
    requires PrintsSingly(s) && 0 < i && IsBlock(s, i)
    ensures AsText(s, i) == Shifting(s, i) + Join(s[i].body.settings, SPACE) + " {\n"
                          + PlanText(s, i, Singletons(s[i].body.components)) + Shifting(s, i) + "}"
  {
    hide Valid, PlanText, Singletons, Join, Shifting;
  }

  lemma BlockTreeRender(s: Store, i: nat)
    requires Valid(s) && 0 < i && IsBlock(s, i)
    ensures ChildrenOf(s, i, s[i].body.components)
    ensures var kids := RenderAll(Forest(s, i, s[i].body.components), Depth(s, i));
            FileText(Render(TreeAt(s, i), Indent(s, i))) ==
            Shifting(s, i) + Join(s[i].body.settings, SPACE) + " {\n" + FileText(kids) + Shifting(s, i) + "}" + "\n"
  {
    hide Valid, ValidBlock, Render, RenderAll, FileText, Join, Tabs;
    BlockAt(s, i);
    IndentAt(s, i);
    RenderBlock(s[i].body.blockType, s[i].body.settings, Forest(s, i, s[i].body.components), Indent(s, i));
  }

  lemma BlockAt(s: Store, i: nat)
    requires Valid(s) && IsBlock(s, i)
    ensures ChildrenOf(s, i, s[i].body.components)
    ensures TreeAt(s, i) == BlockTree(s[i].body.blockType, s[i].body.settings, Forest(s, i, s[i].body.components))
  {
    assert ValidBlock(s, i);
  }

  lemma IndentAt(s: Store, i: nat)
    requires Valid(s) && 0 < i < |s|
    ensures Depth(s, i) == Indent(s, i) + 1 && Shifting(s, i) == Tabs(Indent(s, i))
  {
  }

  lemma RenderBlock(ty: string, settings: seq<string>, kids: seq<Tree>, d: nat)
    ensures FileText(Render(BlockTree(ty, settings, kids), d)) ==
            Tabs(d) + Join(settings, SPACE) + " {\n" + FileText(RenderAll(kids, d + 1)) + Tabs(d) + "}" + "\n"
  {
    BlockIsRender(Tabs(d), Join(settings, SPACE), RenderAll(kids, d + 1));
  }

  lemma {:induction false} TextIsRender(s: Store, i: nat)
    requires PrintsSingly(s) && 0 < i < |s|
    ensures AsText(s, i) + "\n" == FileText(Render(TreeAt(s, i), Indent(s, i)))
    decreases |s| - i, 1, 0
  {
    if s[i].body.Block? {
      BlockTreeRender(s, i);
      BlockText(s, i);
      ForestIsRender(s, i, s[i].body.components);
    } else {
      LeafIsRender(s, i);
    }
  }

  lemma LineFile(line: string)
    ensures FileText([line]) == line + "\n"
  {
    assert Terminated([line]) == [line + "\n"];
    assert Concat([line + "\n"]) == line + "\n" + Concat([line + "\n"][1..]);
  }

  lemma BlockLines(tabs: string, header: string, body: string)
    ensures tabs + header + " {\n" + body + tabs + "}" + "\n" ==
              (tabs + header + " {" + "\n") + body + (tabs + "}" + "\n")
  {
    assert " {\n" == " {" + "\n";
    assert tabs + header + " {\n" == tabs + header + " {" + "\n";
  }

  lemma PlanTextStep(s: Store, b: nat, ids: seq<nat>)
    requires Valid(s) && b < |s| && ChildrenOf(s, b, ids) && ids != []
    ensures PlanText(s, b, Singletons(ids)) == AsText(s, ids[0]) + "\n" + PlanText(s, b, Singletons(ids[1..]))
  {
    hide Valid, AsText, LineText;
    var groups := Singletons(ids);
    assert groups[0] == [ids[0]] && groups[1..] == Singletons(ids[1..]);
    SingleText(s, b, ids[0]);
    assert PlanText(s, b, groups) == LineText(s, b, groups[0], 0) + "\n" + PlanText(s, b, groups[1..]);
  }

  lemma {:induction false} ForestIsRender(s: Store, b: nat, ids: seq<nat>)
    requires PrintsSingly(s) && IsBlock(s, b) && ChildrenOf(s, b, ids)
    ensures PlanText(s, b, Singletons(ids)) == FileText(RenderAll(Forest(s, b, ids), Depth(s, b)))
    decreases |s| - b, 0, |ids|
  {
    if ids != [] {
      PlanTextStep(s, b, ids);
      TextIsRender(s, ids[0]);
      ForestIsRender(s, b, ids[1..]);
      RenderForestStep(s, b, ids);
    }
  }

  lemma RenderForestStep(s: Store, b: nat, ids: seq<nat>)
    requires Valid(s) && IsBlock(s, b) && ChildrenOf(s, b, ids) && ids != []
    ensures var d := Depth(s, b);
            FileText(RenderAll(Forest(s, b, ids), d)) ==
            FileText(Render(TreeAt(s, ids[0]), Indent(s, ids[0]))) + FileText(RenderAll(Forest(s, b, ids[1..]), d))
  {
    var d := Depth(s, b);
    FileTextConcat(Render(TreeAt(s, ids[0]), d), RenderAll(Forest(s, b, ids[1..]), d));
    RenderAllStep(TreeAt(s, ids[0]), Forest(s, b, ids[1..]), d);
  }

  lemma RenderAllStep(t: Tree, ts: seq<Tree>, d: nat)
    ensures RenderAll([t] + ts, d) == Render(t, d) + RenderAll(ts, d)
  {
    assert ([t] + ts)[1..] == ts;
  }

  lemma OnePerLinePrintsSingly(s: Store)
    requires OnePerLine(s)
    ensures PrintsSingly(s)
  {
    forall b | 0 <= b < |s| && s[b].body.Block? ensures Plan(s, b) == Singletons(s[b].body.components) {
      PlanIsSingletons(s, b);
    }
  }

  /** With one component per line, the printed text is the rendered tree. */
  lemma FileIsRender(s: Store)
    requires OnePerLine(s)
    ensures AsText(s, GLOBAL) == FileText(RenderAll(Contents(s), 0))
  {
    OnePerLinePrintsSingly(s);
    assert ValidBlock(s, GLOBAL);
    ForestIsRender(s, GLOBAL, s[GLOBAL].body.components);
  }
}
