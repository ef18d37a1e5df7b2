/**
 The parser reads the printed lines of a safe tree back as that tree, and the composition
 of printing and parsing in both directions.
 */
module DhcpdReparse {
  import opened Wrappers
  import opened Strings
  import opened DhcpdModel
  import opened DhcpdParser
  import opened DhcpdPrinter
  import opened DhcpdTidy
  import opened DhcpdScan
  import opened DhcpdRoundTrip

  /** No two components share a line, and all lines read so far are at most `line`. */
  ghost predicate StrictStarts(s: Store, line: int) {
    && (forall i | 0 < i < |s| :: s[i].startLine <= line)
    && (forall i, j | 0 < i < j < |s| :: s[i].startLine < s[j].startLine)
  }

  /** The parser is about to read a new line. */
  ghost predicate Ready(st: ParseState) {
    ValidState(st) && Blank(st.data) && st.minIndex == 0 && StrictStarts(st.store, st.line)
  }

  lemma BlankStrip(s: string)
    ensures Blank(s) ==> Strip(s) == ""
  {
    if Blank(s) {
      StripMargins(s, "", "");
      assert s + "" + "" == s;
    }
  }

  // ---- the text at the parser while it reads one printed line ----

  /** A line that is not blank, after the blank rest of the lines before it. */
  lemma LineData(rest: string, tabs: string, core: string)
    requires Blank(rest) && Blank(tabs) && Trimmed(core) && core != ""
    ensures rest + (tabs + core + "\n") == (rest + tabs) + core + "\n"
    ensures Blank(rest + tabs) && Strip(rest + (tabs + core + "\n")) == core
  {
    BlankConcat(rest, tabs);
    assert rest + (tabs + core + "\n") == (rest + tabs) + core + "\n";
    StripMargins(rest + tabs, core, "\n");
  }

  /** The text up to a token, and what remains behind it. */
  lemma Around(w: string, text: string, token: string, post: string)
    requires |token| == 1
    ensures (w + text + token + post)[..|w| + |text|] == w + text
    ensures (w + text + token + post)[|w| + |text| + 1..] == post
  {
  }

  lemma StatementData(rest: string, tabs: string, text: string)
    requires Blank(rest) && Blank(tabs) && StatementSafe(text) && text != "" && !IsSpace(text[0])
    ensures var data := rest + (tabs + text + ";" + "\n");
            var index := |rest + tabs| + |text|;
            && Strip(data) != "" && PickFrom(TOKENS, data, 0) == Some(';') && Find(data, ';') == index
            && index < |data| && data[..index] == (rest + tabs) + text && data[index + 1..] == "\n"
            && Blank(rest + tabs)
  {
    var w := rest + tabs;
    assert tabs + text + ";" + "\n" == tabs + (text + ";") + "\n";
    LineData(rest, tabs, text + ";");
    assert rest + (tabs + text + ";" + "\n") == w + text + ";" + "\n";
    PickSemicolon(w, text);
    Around(w, text, ";", "\n");
  }

  lemma CommentData(rest: string, tabs: string, text: string)
    requires Blank(rest) && Blank(tabs) && CommentSafe(text)
    ensures var data := rest + (tabs + "#" + text + "\n");
            && Strip(data) == "#" + text && PickFrom(TOKENS, data, 0) == Some('#')
            && Find(data, '#') == |rest + tabs| < |data| && data[..|rest + tabs|] == rest + tabs && Blank(rest + tabs)
  {
    assert tabs + "#" + text + "\n" == tabs + ("#" + text) + "\n";
    LineData(rest, tabs, "#" + text);
    PickHash(rest + tabs, text + "\n");
    assert rest + (tabs + "#" + text + "\n") == (rest + tabs) + "#" + (text + "\n");
  }

  /** What the scan finds in a line that opens a block. */
  predicate Opens(data: string, settings: seq<string>) {
    var index := Find(data, '{');
    && Strip(data) != "" && PickFrom(TOKENS, data, 0) == Some('{') && index >= 0
    && Split(data[..index]) == settings && data[index + 1..] == "\n"
  }

  lemma OpenPick(w: string, settings: seq<string>, data: string)
    requires Blank(w) && Words(settings) && HeaderSafe(Join(settings, SPACE))
    requires data == w + (Join(settings, SPACE) + " ") + "{" + "\n"
    ensures var index := Find(data, '{');
            && PickFrom(TOKENS, data, 0) == Some('{') && index >= 0
            && Split(data[..index]) == settings && data[index + 1..] == "\n"
  {
    hide HeaderSafe, Blank, Words, Split, Join, PickFrom;
    PickLbracket(w, Join(settings, SPACE));
    Around(w, Join(settings, SPACE) + " ", "{", "\n");
    SplitHeader(w, settings);
  }

  lemma OpenData(rest: string, tabs: string, header: string, data: string)
    requires Blank(rest) && Blank(tabs) && header != "" && Trimmed(header)
    requires data == rest + (tabs + header + " {" + "\n")
    ensures Blank(rest + tabs) && Strip(data) != ""
    ensures data == (rest + tabs) + (header + " ") + "{" + "\n"
  {
    Regroup(rest, tabs, header);
    LineData(rest, tabs, header + " {");
  }

  lemma OpenScan(rest: string, tabs: string, settings: seq<string>, data: string)
    requires Blank(rest) && Blank(tabs) && settings != [] && Words(settings) && HeaderSafe(Join(settings, SPACE))
    requires data == rest + (tabs + Join(settings, SPACE) + " {" + "\n")
    ensures Opens(data, settings)
  {
    JoinTrimmed(settings);
    OpenData(rest, tabs, Join(settings, SPACE), data);
    OpenPick(rest + tabs, settings, data);
  }

  lemma SplitHeader(w: string, settings: seq<string>)
    requires Blank(w) && Words(settings)
    ensures Split(w + (Join(settings, SPACE) + " ")) == settings
  {
    SplitBlankPrefix(w, Join(settings, SPACE) + " ");
    SplitJoin(settings, " ");
  }

  lemma Regroup(rest: string, tabs: string, header: string)
    ensures tabs + header + " {" + "\n" == tabs + (header + " {") + "\n"
    ensures rest + (tabs + header + " {" + "\n") == (rest + tabs) + (header + " ") + "{" + "\n"
  {
  }

  lemma CloseData(rest: string, tabs: string)
    requires Blank(rest) && Blank(tabs)
    ensures var data := rest + (tabs + "}" + "\n");
            && Strip(data) != "" && PickFrom(TOKENS, data, 0) == Some('}')
            && Find(data, '}') == |rest + tabs| < |data| && data[|rest + tabs| + 1..] == "\n"
  {
    hide PickFrom, Strip;
    LineData(rest, tabs, "}");
    BlankConcat(rest, tabs);
    PickRbracket(rest + tabs);
    Around(rest + tabs, "", "}", "\n");
    EmptyBetween(rest + tabs, "}", "\n");
  }

  lemma EmptyBetween(a: string, b: string, c: string)
    ensures a + "" + b + c == a + b + c
  {
  }

  // ---- two steps for one printed line ----

  lemma ReadStep(st: ParseState)
    requires ValidState(st) && Blank(st.data) && st.line < |st.lines|
    requires Strip(st.data + st.lines[st.line]) != ""
    ensures Step(st) == More(NewData(st)) && Run(st) == Run(NewData(st))
  {
    BlankStrip(st.data);
  }

  lemma TokenStep(mid: ParseState, token: char)
    requires IsBlock(mid.store, mid.block) && Strip(mid.data) != "" && mid.minIndex == 0
    requires PickFrom(TOKENS, mid.data, 0) == Some(token)
    ensures var index := Find(mid.data, token);
            Step(mid) == if token == '#' then More(ParseComment(mid, index))
                         else if token == ';' then ParseSemicolon(mid, index)
                         else if token == '}' then ParseRbracket(mid, index)
                         else ParseLbracket(mid, index)
  {
    assert mid.(minIndex := 0) == mid;
  }

  lemma AppendStrict(s: Store, b: nat, line: int, body: Body)
    requires IsBlock(s, b) && StrictStarts(s, line - 1)
    ensures StrictStarts(Append(s, b, line, body), line)
  {
  }

  /** The state after a line that added one component to the current block. */
  ghost predicate OneAdded(st: ParseState, next: ParseState, body: Body)
    requires ValidState(st)
  {
    && next.lines == st.lines && next.line == st.line + 1 && next.block == st.block
    && next.store == Append(st.store, st.block, st.line + 1, body)
    && Ready(next) && Run(st) == Run(next)
  }

  function Added(st: ParseState, data: string, body: Body): ParseState
    requires IsBlock(st.store, st.block)
  {
    st.(line := st.line + 1, data := data, store := Append(st.store, st.block, st.line + 1, body))
  }

  lemma AppendShape(s: Store, b: nat, line: int, body: Body)
    requires IsBlock(s, b)
    ensures var t := Append(s, b, line, body);
            |t| == |s| + 1 && IsBlock(t, b) && t[|s|] == Component(line, line, b, body)
  {
  }

  lemma AppendValidState(s: Store, b: nat, line: int, body: Body)
    requires Valid(s) && IsBlock(s, b)
    requires body.Block? ==> body.components == [] && body.lineRefs == map[]
    ensures var t := Append(s, b, line, body);
            Valid(t) && IsBlock(t, b) && (body.Block? ==> IsBlock(t, |s|))
  {
    AppendValid(s, b, line, body);
    AppendShape(s, b, line, body);
  }

  lemma AddedReady(st: ParseState, data: string, body: Body)
    requires Ready(st) && Blank(data) && !body.Block?
    ensures Ready(Added(st, data, body))
  {
    hide Valid, Append, Run, Step, StrictStarts;
    var next := Added(st, data, body);
    assert ValidState(next) by { AppendValidState(st.store, st.block, st.line + 1, body); }
    assert StrictStarts(next.store, next.line) by { AppendStrict(st.store, st.block, st.line + 1, body); }
  }

  lemma OpenedValid(st: ParseState, body: Body)
    requires ValidState(st) && body.Block? && body.components == [] && body.lineRefs == map[]
    ensures ValidState(Added(st, "\n", body).(block := |st.store|))
  {
    hide Valid, Append, Run, Step;
    AppendValidState(st.store, st.block, st.line + 1, body);
  }

  lemma OpenedReady(st: ParseState, body: Body)
    requires Ready(st) && body.Block? && body.components == [] && body.lineRefs == map[]
    ensures Ready(Added(st, "\n", body).(block := |st.store|))
  {
    hide Valid, Append, Run;
    OpenedValid(st, body);
    AppendStrict(st.store, st.block, st.line + 1, body);
  }

  lemma FinishLine(st: ParseState, data: string, body: Body) returns (next: ParseState)
    requires Ready(st) && st.line < |st.lines| && Blank(data) && !body.Block?
    requires Run(st) == Run(NewData(st)) && Step(NewData(st)) == More(Added(st, data, body))
    ensures OneAdded(st, next, body)
  {
    next := Added(st, data, body);
    AddedReady(st, data, body);
  }

  lemma ReadsParameter(mid: ParseState, index: nat, key: string, value: Value)
    requires IsBlock(mid.store, mid.block) && index < |mid.data| && key != "option"
    requires var words := Split(mid.data[..index]);
             words != [] && words[0] == key && MakeValue(Unquote(Strip(Join(words[1..], SPACE)))) == value
    ensures ParseSemicolon(mid, index) ==
              More(mid.(data := mid.data[index + 1..], store := Append(mid.store, mid.block, mid.line, Parameter(key, value))))
  {
  }

  lemma ReadsChoice(mid: ParseState, index: nat, name: string, values: seq<string>)
    requires IsBlock(mid.store, mid.block) && index < |mid.data|
    requires var words := Split(mid.data[..index]);
             |words| >= 2 && words[0] == "option" && words[1] == name
             && ScanEnd(ScanValues(SCANSTART, Strip(Join(words[2..], SPACE)))) == values
    ensures ParseSemicolon(mid, index) ==
              More(mid.(data := mid.data[index + 1..], store := Append(mid.store, mid.block, mid.line, Choice(name, values))))
  {
  }

  /** What the token step reads from one printed line, whatever the store. */
  ghost predicate AtLine(st: ParseState, tabs: string, line: string) {
    && IsBlock(st.store, st.block) && Blank(st.data) && st.minIndex == 0
    && st.line < |st.lines| && st.lines[st.line] == line && Blank(tabs)
  }

  lemma ParameterStep(st: ParseState, tabs: string, key: string, value: Value)
    requires AtLine(st, tabs, tabs + (key + " " + ValueText(key, value)) + ";" + "\n") && ParameterSafe(key, value)
    ensures Strip(NewData(st).data) != ""
    ensures Step(NewData(st)) == More(Added(st, "\n", Parameter(key, value)))
  {
    hide Valid, Append, Run, ParseSemicolon, Strip, Split, Find, PickFrom, Join, StatementSafe, Blank, MakeValue, Unquote;
    var text := key + " " + ValueText(key, value);
    StatementData(st.data, tabs, text);
    TokenStep(NewData(st), ';');
    ReadParameter(st.data + tabs, key, value);
    ReadsParameter(NewData(st), |st.data + tabs| + |text|, key, value);
  }

  lemma ChoiceStep(st: ParseState, tabs: string, name: string, values: seq<string>)
    requires AtLine(st, tabs, tabs + ChoiceText(name, values) + ";" + "\n") && ChoiceSafe(name, values)
    ensures Strip(NewData(st).data) != ""
    ensures Step(NewData(st)) == More(Added(st, "\n", Choice(name, values)))
  {
    hide Valid, Append, Run, ParseSemicolon, Strip, Split, Find, PickFrom, ScanValues, ScanEnd, Join, OptionTexts, StatementSafe, Blank;
    var text := ChoiceText(name, values);
    StatementData(st.data, tabs, text);
    TokenStep(NewData(st), ';');
    ReadChoice(st.data + tabs, name, values);
    ReadsChoice(NewData(st), |st.data + tabs| + |text|, name, values);
  }

  lemma OpenStep(st: ParseState, tabs: string, ty: string, settings: seq<string>)
    requires AtLine(st, tabs, tabs + Join(settings, SPACE) + " {" + "\n") && BlockSafe(ty, settings)
    ensures Strip(NewData(st).data) != ""
    ensures Step(NewData(st)) == More(Added(st, "\n", Block(ty, settings, [], map[])).(block := |st.store|))
  {
    hide Words, HeaderSafe, Join, Step, Strip;
    OpenScan(st.data, tabs, settings, NewData(st).data);
    OpenTokenStep(NewData(st), settings);
    OpensNotBlank(NewData(st).data, settings);
  }

  lemma OpensNotBlank(data: string, settings: seq<string>)
    requires Opens(data, settings)
    ensures Strip(data) != ""
  {
  }

  lemma OpenTokenStep(mid: ParseState, settings: seq<string>)
    requires IsBlock(mid.store, mid.block) && mid.minIndex == 0 && settings != [] && Opens(mid.data, settings)
    ensures Step(mid) == More(mid.(data := "\n", block := |mid.store|,
                                   store := Append(mid.store, mid.block, mid.line, Block(settings[0], settings, [], map[]))))
  {
    TokenStep(mid, '{');
    OpensBlock(mid, Find(mid.data, '{'), settings);
  }

  lemma ParseParameter(st: ParseState, tabs: string, key: string, value: Value) returns (next: ParseState)
    requires Ready(st) && ParameterSafe(key, value)
    requires AtLine(st, tabs, tabs + (key + " " + ValueText(key, value)) + ";" + "\n")
    ensures OneAdded(st, next, Parameter(key, value))
  {
    ParameterStep(st, tabs, key, value);
    ReadStep(st);
    next := FinishLine(st, "\n", Parameter(key, value));
  }

  lemma ParseChoice(st: ParseState, tabs: string, name: string, values: seq<string>) returns (next: ParseState)
    requires Ready(st) && ChoiceSafe(name, values)
    requires AtLine(st, tabs, tabs + ChoiceText(name, values) + ";" + "\n")
    ensures OneAdded(st, next, Choice(name, values))
  {
    ChoiceStep(st, tabs, name, values);
    ReadStep(st);
    next := FinishLine(st, "\n", Choice(name, values));
  }

  lemma ParseCommentLine(st: ParseState, tabs: string, data: string) returns (next: ParseState)
    requires Ready(st) && st.line < |st.lines| && Blank(tabs) && CommentSafe(data)
    requires st.lines[st.line] == tabs + "#" + data + "\n"
    ensures OneAdded(st, next, Comment(data))
  {
    CommentData(st.data, tabs, data);
    ReadStep(st);
    TokenStep(NewData(st), '#');
    assert ("#" + data)[1..] == data;
    next := FinishLine(st, st.data + tabs, Comment(data));
  }

  lemma ParseBlankLine(st: ParseState, tabs: string) returns (next: ParseState)
    requires Ready(st) && st.line < |st.lines| && Blank(tabs)
    requires st.lines[st.line] == tabs + "\n"
    ensures OneAdded(st, next, EmptyLine)
  {
    hide Valid, Run, Step, Append;
    BlankStep(st, tabs);
    RunStep(st);
    next := Added(st, st.data + tabs, EmptyLine);
    BlankConcat(st.data, tabs);
    AddedReady(st, st.data + tabs, EmptyLine);
  }

  lemma BlankStep(st: ParseState, tabs: string)
    requires ValidState(st) && Blank(st.data) && st.line < |st.lines| && Blank(tabs) && st.lines[st.line] == tabs + "\n"
    ensures Step(st) == More(Added(st, st.data + tabs, EmptyLine))
  {
    hide Valid, Strip, Blank, PickFrom, Append, TakeToken;
    var data := st.data + (tabs + "\n");
    BlankStrip(st.data);
    NewlineBlank();
    BlankConcat(tabs, "\n");
    BlankConcat(st.data, tabs + "\n");
    BlankStrip(data);
    assert data[..|data| - 1] == st.data + tabs;
  }

  lemma NewlineBlank()
    ensures Blank("\n")
  {
  }

  /** Opening a block appends it to the current block and makes it the current one. */
  lemma ParseOpen(st: ParseState, tabs: string, ty: string, settings: seq<string>) returns (next: ParseState)
    requires Ready(st) && BlockSafe(ty, settings)
    requires AtLine(st, tabs, tabs + Join(settings, SPACE) + " {" + "\n")
    ensures next == Added(st, "\n", Block(ty, settings, [], map[])).(block := |st.store|)
    ensures Ready(next) && Run(st) == Run(next)
  {
    next := Added(st, "\n", Block(ty, settings, [], map[])).(block := |st.store|);
    OpenStep(st, tabs, ty, settings);
    ReadStep(st);
    OpenedReady(st, Block(ty, settings, [], map[]));
  }

  lemma OpensBlock(mid: ParseState, index: nat, settings: seq<string>)
    requires IsBlock(mid.store, mid.block) && index < |mid.data| && Split(mid.data[..index]) == settings != []
    ensures ParseLbracket(mid, index) ==
              More(mid.(data := mid.data[index + 1..], block := |mid.store|,
                        store := Append(mid.store, mid.block, mid.line, Block(settings[0], settings, [], map[]))))
  {
  }

  function Closed(st: ParseState): ParseState
    requires IsBlock(st.store, st.block) && st.store[st.block].parent >= 0
  {
    st.(line := st.line + 1, data := "\n", block := st.store[st.block].parent,
        store := st.store[st.block := st.store[st.block].(endLine := st.line + 1)])
  }

  lemma ClosesBlock(mid: ParseState, index: nat)
    requires IsBlock(mid.store, mid.block) && index < |mid.data| && mid.store[mid.block].parent >= 0
    ensures ParseRbracket(mid, index) ==
              More(mid.(data := mid.data[index + 1..], block := mid.store[mid.block].parent,
                        store := mid.store[mid.block := mid.store[mid.block].(endLine := mid.line)]))
  {
  }

  lemma ParentIsBlock(s: Store, b: nat)
    requires Valid(s) && IsBlock(s, b) && b != GLOBAL
    ensures 0 <= s[b].parent < b && IsBlock(s, s[b].parent)
  {
  }

  lemma ClosedReady(st: ParseState)
    requires Ready(st) && st.block != GLOBAL
    ensures st.store[st.block].parent >= 0 && Ready(Closed(st))
  {
    hide Valid;
    ParentIsBlock(st.store, st.block);
    CloseValid(st.store, st.block, st.line + 1);
  }

  /** Closing a block returns to its parent. */
  lemma ParseClose(st: ParseState, tabs: string) returns (next: ParseState)
    requires Ready(st) && st.line < |st.lines| && Blank(tabs) && st.block != GLOBAL
    requires st.lines[st.line] == tabs + "}" + "\n"
    ensures st.store[st.block].parent >= 0 && next == Closed(st)
    ensures Ready(next) && Run(st) == Run(next)
  {
    hide Valid, Run, StrictStarts;
    ClosedReady(st);
    CloseStep(st, tabs);
    RunStep(NewData(st));
    next := Closed(st);
  }

  lemma CloseStep(st: ParseState, tabs: string)
    requires ValidState(st) && Blank(st.data) && st.minIndex == 0 && st.line < |st.lines| && Blank(tabs)
    requires st.store[st.block].parent >= 0 && st.lines[st.line] == tabs + "}" + "\n"
    ensures Run(st) == Run(NewData(st)) && Step(NewData(st)) == More(Closed(st))
  {
    hide Valid, Run, Step, Strip, Blank, PickFrom, ParseRbracket;
    CloseData(st.data, tabs);
    ReadStep(st);
    TokenStep(NewData(st), '}');
    ClosesBlock(NewData(st), |st.data + tabs|);
  }

  // ---- whole trees ----

  /** Block `b` gained components that represent `ts`; nothing else below the new records changed. */
  ghost predicate Grown(s: Store, t: Store, b: nat, ts: seq<Tree>) {
    && Valid(s) && Valid(t) && IsBlock(s, b) && IsBlock(t, b) && |s| <= |t|
    && (forall i | 0 <= i < |s| && i != b :: t[i] == s[i])
    && t[b].parent == s[b].parent && t[b].startLine == s[b].startLine && t[b].endLine == s[b].endLine
    && t[b].body.blockType == s[b].body.blockType && t[b].body.settings == s[b].body.settings
    && var was, cs := s[b].body.components, t[b].body.components;
       && was <= cs && ChildrenOf(t, b, cs[|was|..]) && Forest(t, b, cs[|was|..]) == ts
  }

  ghost predicate Parsed(st: ParseState, next: ParseState, count: nat, ts: seq<Tree>) {
    && Ready(st) && Ready(next) && next.lines == st.lines && next.line == st.line + count && next.block == st.block
    && Run(st) == Run(next) && Grown(st.store, next.store, st.block, ts)
  }

  lemma ParsedAt(st: ParseState, next: ParseState, count: nat, ts: seq<Tree>)
    requires Parsed(st, next, count, ts)
    ensures next.lines == st.lines && next.line == st.line + count
  {
  }

  lemma GrownNothing(s: Store, b: nat)
    requires Valid(s) && IsBlock(s, b)
    ensures Grown(s, s, b, [])
  {
    assert ValidBlock(s, b);
  }

  lemma LaterChildren(s: Store, b: nat, k: nat)
    requires Valid(s) && IsBlock(s, b) && k <= |s[b].body.components|
    ensures ChildrenOf(s, b, s[b].body.components[k..])
  {
    assert ValidBlock(s, b);
  }

  lemma GrownTrans(s: Store, t: Store, u: Store, b: nat, xs: seq<Tree>, ys: seq<Tree>)
    requires Grown(s, t, b, xs) && Grown(t, u, b, ys)
    ensures Grown(s, u, b, xs + ys)
  {
    hide TreeAt, Valid, Forest;
    var was, mid, cs := s[b].body.components, t[b].body.components, u[b].body.components;
    var first, second := mid[|was|..], cs[|mid|..];
    assert cs[|was|..] == first + second;
    LaterChildren(u, b, |was|);
    ForestFrame(t, u, b, b, first);
    ForestConcat(u, b, first, second);
  }

  lemma GrownLeaf(s: Store, b: nat, line: int, body: Body)
    requires Valid(s) && IsBlock(s, b) && !body.Block?
    ensures Valid(Append(s, b, line, body)) && |Append(s, b, line, body)| == |s| + 1
    ensures Grown(s, Append(s, b, line, body), b, [TreeAt(Append(s, b, line, body), |s|)])
  {
    hide Valid, TreeAt;
    AppendValid(s, b, line, body);
    AppendShape(s, b, line, body);
    var t := Append(s, b, line, body);
    var was, cs := s[b].body.components, t[b].body.components;
    assert cs == was + [|s|] && cs[|was|..] == [|s|];
    LaterChildren(t, b, |was|);
    FirstTree(t, b, [|s|]);
    assert [|s|][1..] == [];
  }

  lemma TabsBlank(n: nat)
    ensures Blank(Tabs(n))
  {
    if n > 0 {
      TabsBlank(n - 1);
      BlankConcat("\t", Tabs(n - 1));
    }
  }

  ghost function LeafBody(t: Tree): Body
    requires !t.BlockTree?
  {
    match t
    case ParameterTree(key, value) => Parameter(key, value)
    case ChoiceTree(name, values) => Choice(name, values)
    case CommentTree(data) => Comment(data)
    case EmptyTree => EmptyLine
  }

  lemma ParseLeaf(st: ParseState, t: Tree, d: nat) returns (next: ParseState)
    requires Ready(st) && !t.BlockTree? && Safe(t) && st.line < |st.lines|
    requires st.lines[st.line] == Render(t, d)[0] + "\n"
    ensures Parsed(st, next, 1, [t])
  {
    hide Parsed, Valid, Run, OneAdded, LeafBody, Render, Safe;
    next := LeafStep(st, t, d);
    LeafParsed(st, next, t);
  }

  lemma LeafStep(st: ParseState, t: Tree, d: nat) returns (next: ParseState)
    requires Ready(st) && !t.BlockTree? && Safe(t) && st.line < |st.lines|
    requires st.lines[st.line] == Render(t, d)[0] + "\n"
    ensures OneAdded(st, next, LeafBody(t))
  {
    hide StrictStarts, Valid, Run, Append, OneAdded, ParameterSafe, ChoiceSafe, CommentSafe, Blank, Tabs, ValueText, ChoiceText;
    TabsBlank(d);
    match t {
      case ParameterTree(key, value) => next := ParseParameter(st, Tabs(d), key, value);
      case ChoiceTree(name, values) => next := ParseChoice(st, Tabs(d), name, values);
      case CommentTree(data) => next := ParseCommentLine(st, Tabs(d), data);
      case EmptyTree => next := ParseBlankLine(st, Tabs(d));
    }
  }

  lemma LeafParsed(st: ParseState, next: ParseState, t: Tree)
    requires Ready(st) && !t.BlockTree? && OneAdded(st, next, LeafBody(t))
    ensures Parsed(st, next, 1, [t])
  {
    hide Valid, Run, Append, StrictStarts, Blank, Grown;
    GrownLeaf(st.store, st.block, st.line + 1, LeafBody(t));
    AppendShape(st.store, st.block, st.line + 1, LeafBody(t));
    assert TreeAt(next.store, |st.store|) == t;
  }

  /** The lines still to read start with these. */
  ghost predicate Upcoming(st: ParseState, lines: seq<string>) {
    st.line + |lines| <= |st.lines| && forall i | 0 <= i < |lines| :: st.lines[st.line + i] == lines[i] + "\n"
  }

  lemma UpcomingSplit(st: ParseState, a: seq<string>, b: seq<string>)
    requires Upcoming(st, a + b)
    ensures Upcoming(st, a)
    ensures forall next: ParseState | next.lines == st.lines && next.line == st.line + |a| :: Upcoming(next, b)
  {
    forall i | 0 <= i < |a| ensures st.lines[st.line + i] == a[i] + "\n" { assert (a + b)[i] == a[i]; }
    forall i | 0 <= i < |b| ensures st.lines[st.line + |a| + i] == b[i] + "\n" { assert (a + b)[|a| + i] == b[i]; }
  }

  lemma ParsedTrans(s: ParseState, t: ParseState, u: ParseState, m: nat, n: nat, xs: seq<Tree>, ys: seq<Tree>)
    requires Parsed(s, t, m, xs) && Parsed(t, u, n, ys)
    ensures Parsed(s, u, m + n, xs + ys)
  {
    GrownTrans(s.store, t.store, u.store, s.block, xs, ys);
  }

  /** Opening, filling and closing a block. */
  lemma GrownBlock(s: Store, b: nat, line: int, ty: string, settings: seq<string>, inner: Store, end: int, kids: seq<Tree>)
    requires Valid(s) && IsBlock(s, b)
    requires Grown(Append(s, b, line, Block(ty, settings, [], map[])), inner, |s|, kids)
    ensures IsBlock(inner, |s|) && inner[|s|].parent == b
    ensures Grown(s, inner[|s| := inner[|s|].(endLine := end)], b, [BlockTree(ty, settings, kids)])
  {
    var id, begun := |s|, Append(s, b, line, Block(ty, settings, [], map[]));
    AppendShape(s, b, line, Block(ty, settings, [], map[]));
    CloseValid(inner, id, end);
    var t := inner[id := inner[id].(endLine := end)];
    assert inner[b] == begun[b];
    var was, cs := s[b].body.components, t[b].body.components;
    assert cs == was + [id] && cs[|was|..] == [id];
    assert begun[id].body.components == [];
    var ids := inner[id].body.components;
    assert ids[0..] == ids;
    assert ValidBlock(inner, id) && ValidBlock(t, id) && ValidBlock(t, b);
    ForestFrame(inner, t, id, id, ids);
    assert TreeAt(t, id) == BlockTree(ty, settings, kids);
    assert Forest(t, b, [id]) == [TreeAt(t, id)] by { assert Forest(t, b, [id][1..]) == []; }
  }

  function OpenLine(settings: seq<string>, d: nat): string { Tabs(d) + Join(settings, SPACE) + " {" }

  function CloseLine(d: nat): string { Tabs(d) + "}" }

  lemma BlockLinesUpcoming(st: ParseState, t: Tree, d: nat)
    requires t.BlockTree? && Upcoming(st, Render(t, d))
    ensures Upcoming(st, [OpenLine(t.settings, d)])
    ensures forall next: ParseState | next.lines == st.lines && next.line == st.line + 1 ::
              Upcoming(next, RenderAll(t.kids, d + 1))
    ensures forall next: ParseState | next.lines == st.lines && next.line == st.line + 1 + |RenderAll(t.kids, d + 1)| ::
              Upcoming(next, [CloseLine(d)])
  {
    var kids := RenderAll(t.kids, d + 1);
    UpcomingSplit(st, [OpenLine(t.settings, d)] + kids, [CloseLine(d)]);
    UpcomingSplit(st, [OpenLine(t.settings, d)], kids);
  }

  ghost predicate Begun(st: ParseState, begun: ParseState, t: Tree) {
    && Ready(st) && Ready(begun) && t.BlockTree?
    && begun == Added(st, "\n", Block(t.blockType, t.settings, [], map[])).(block := |st.store|)
    && Run(st) == Run(begun)
  }

  lemma BeginBlock(st: ParseState, t: Tree, d: nat) returns (begun: ParseState)
    requires Ready(st) && t.BlockTree? && BlockSafe(t.blockType, t.settings) && Upcoming(st, [OpenLine(t.settings, d)])
    ensures Begun(st, begun, t)
  {
    TabsBlank(d);
    assert st.lines[st.line + 0] == [OpenLine(t.settings, d)][0] + "\n";
    begun := ParseOpen(st, Tabs(d), t.blockType, t.settings);
  }

  lemma EndBlock(st: ParseState, begun: ParseState, filled: ParseState, t: Tree, n: nat, d: nat) returns (next: ParseState)
    requires Begun(st, begun, t) && Parsed(begun, filled, n, t.kids) && Upcoming(filled, [CloseLine(d)])
    ensures Parsed(st, next, n + 2, [t])
  {
    hide Valid, Run, Step, Append;
    TabsBlank(d);
    assert filled.lines[filled.line + 0] == [CloseLine(d)][0] + "\n";
    next := ParseClose(filled, Tabs(d));
    GrownBlock(st.store, st.block, st.line + 1, t.blockType, t.settings, filled.store, filled.line + 1, t.kids);
  }

  lemma ParseTree(st: ParseState, t: Tree, d: nat) returns (next: ParseState)
    requires Ready(st) && Safe(t) && Upcoming(st, Render(t, d))
    ensures Parsed(st, next, |Render(t, d)|, [t])
    decreases t, 1
  {
    hide Valid, Run, Parsed, Append, Grown, Upcoming, Render, RenderAll, Safe, BlockSafe, StrictStarts, Blank, Join, Tabs, Added;
    SafeParts(t);
    if t.BlockTree? {
      BlockLinesUpcoming(st, t, d);
      var begun := BeginBlock(st, t, d);
      BegunAt(st, begun, t);
      var filled := ParseForest(begun, t.kids, d + 1);
      ParsedAt(begun, filled, |RenderAll(t.kids, d + 1)|, t.kids);
      next := EndBlock(st, begun, filled, t, |RenderAll(t.kids, d + 1)|, d);
      assert |RenderAll(t.kids, d + 1)| + 2 == |Render(t, d)| by { BlockLength(t, d); }
    } else {
      LeafUpcoming(st, t, d);
      next := ParseLeaf(st, t, d);
    }
  }

  lemma BegunAt(st: ParseState, begun: ParseState, t: Tree)
    requires Begun(st, begun, t)
    ensures Ready(begun) && begun.lines == st.lines && begun.line == st.line + 1
  {
  }

  lemma SafeParts(t: Tree)
    requires Safe(t)
    ensures t.BlockTree? ==> BlockSafe(t.blockType, t.settings) && SafeAll(t.kids)
  {
  }

  lemma BlockLength(t: Tree, d: nat)
    requires t.BlockTree?
    ensures |Render(t, d)| == |RenderAll(t.kids, d + 1)| + 2
  {
  }

  lemma LeafUpcoming(st: ParseState, t: Tree, d: nat)
    requires !t.BlockTree? && Upcoming(st, Render(t, d))
    ensures |Render(t, d)| == 1 && st.line < |st.lines| && st.lines[st.line] == Render(t, d)[0] + "\n"
  {
    assert st.lines[st.line + 0] == Render(t, d)[0] + "\n";
  }

  lemma ParseForest(st: ParseState, ts: seq<Tree>, d: nat) returns (next: ParseState)
    requires Ready(st) && SafeAll(ts) && Upcoming(st, RenderAll(ts, d))
    ensures Parsed(st, next, |RenderAll(ts, d)|, ts)
    decreases ts, 0
  {
    hide Valid, Grown, Upcoming, Render, Safe, Run;
    if ts == [] {
      next := st;
      assert Ready(st);
      GrownNothing(st.store, st.block);
    } else {
      UpcomingSplit(st, Render(ts[0], d), RenderAll(ts[1..], d));
      var mid := ParseTree(st, ts[0], d);
      next := ParseForest(mid, ts[1..], d);
      ParsedTrans(st, mid, next, |Render(ts[0], d)|, |RenderAll(ts[1..], d)|, [ts[0]], ts[1..]);
      assert ts == [ts[0]] + ts[1..];
    }
  }

  // ---- the file as a whole ----

  lemma {:induction false} TerminatedAt(lines: seq<string>, i: nat)
    requires i < |lines|
    ensures |Terminated(lines)| == |lines| && Terminated(lines)[i] == lines[i] + "\n"
  {
    if i > 0 {
      TerminatedAt(lines[1..], i - 1);
    } else {
      TerminatedLength(lines);
    }
  }

  lemma {:induction false} TerminatedLength(lines: seq<string>)
    ensures |Terminated(lines)| == |lines|
  {
    if lines != [] { TerminatedLength(lines[1..]); }
  }

  lemma StrictSeparate(s: Store, line: int)
    requires Tidy(s) && StrictStarts(s, line)
    ensures OnePerLine(s)
  {
    forall b | 0 <= b < |s| && s[b].body.Block? ensures Separate(s, b) {
      assert ValidBlock(s, b);
    }
  }

  lemma FinishRun(st: ParseState)
    requires Ready(st) && st.line == |st.lines|
    ensures Run(st) == (st, None)
  {
    BlankStrip(st.data);
  }

  lemma InitialReady(lines: seq<string>)
    ensures Ready(Initial(lines))
  {
  }

  /** Parsing the printed form of a safe tree succeeds and yields that tree, one component per line. */
  lemma ParseOfPrinted(ts: seq<Tree>)
    requires SafeAll(ts)
    ensures var (end, error) := ParseLines(Terminated(RenderAll(ts, 0)));
            error == None && OnePerLine(end.store) && Contents(end.store) == ts
  {
    var rendered := RenderAll(ts, 0);
    var lines := Terminated(rendered);
    var st := Initial(lines);
    InitialReady(lines);
    TerminatedLength(rendered);
    forall i | 0 <= i < |rendered| ensures st.lines[st.line + i] == rendered[i] + "\n" { TerminatedAt(rendered, i); }
    var end := ParseForest(st, ts, 0);
    FinishRun(end);
    ParseIsTidy(lines);
    StrictSeparate(end.store, end.line);
    var cs := end.store[GLOBAL].body.components;
    assert cs[0..] == cs;
  }

  // ---- printed lines hold no newline ----

  lemma {:induction false} JoinChars(ws: seq<string>, sep: string, c: char)
    requires c !in sep && forall i | 0 <= i < |ws| :: c !in ws[i]
    ensures c !in Join(ws, sep)
  {
    if |ws| > 1 { JoinChars(ws[1..], sep, c); }
  }

  lemma NormalisedNoNewline(s: string)
    requires Normalised(s)
    ensures '\n' !in s
  {
    var ws := Split(s);
    forall i | 0 <= i < |ws| ensures '\n' !in ws[i] { assert Word(ws[i]); }
    JoinChars(ws, SPACE, '\n');
  }

  lemma RenderNewlineFree(t: Tree, d: nat)
    requires Safe(t)
    ensures NewlineFree(Render(t, d))
    decreases t, 1
  {
    hide ParameterSafe, ChoiceSafe, CommentSafe, BlockSafe, ValueText, ChoiceText, Join, Tabs, NewlineFree;
    TabsNoNewline(d);
    match t
    case ParameterTree(key, value) =>
      ParameterNoNewline(key, value);
      OneLine(Tabs(d) + (key + " " + ValueText(key, value)) + ";");
    case ChoiceTree(name, values) =>
      ChoiceNoNewline(name, values);
      OneLine(Tabs(d) + ChoiceText(name, values) + ";");
    case CommentTree(data) =>
      CommentNoNewline(data);
      OneLine(Tabs(d) + "#" + data);
    case EmptyTree =>
      OneLine(Tabs(d));
    case BlockTree(ty, settings, kids) =>
      HeaderNoNewline(ty, settings);
      RenderAllNewlineFree(kids, d + 1);
      OneLine(Tabs(d) + Join(settings, SPACE) + " {");
      OneLine(Tabs(d) + "}");
      BothNewlineFree([Tabs(d) + Join(settings, SPACE) + " {"], RenderAll(kids, d + 1));
      BothNewlineFree([Tabs(d) + Join(settings, SPACE) + " {"] + RenderAll(kids, d + 1), [Tabs(d) + "}"]);
  }

  lemma OneLine(line: string)
    requires '\n' !in line
    ensures NewlineFree([line])
  {
  }

  lemma BothNewlineFree(a: seq<string>, b: seq<string>)
    requires NewlineFree(a) && NewlineFree(b)
    ensures NewlineFree(a + b)
  {
  }

  lemma ParameterNoNewline(key: string, value: Value)
    requires ParameterSafe(key, value)
    ensures '\n' !in key && '\n' !in ValueText(key, value)
  {
    hide StatementSafe, Normalised;
    ValueTextNormalised(key, value);
    NormalisedNoNewline(ValueText(key, value));
  }

  lemma ChoiceNoNewline(name: string, values: seq<string>)
    requires ChoiceSafe(name, values)
    ensures '\n' !in ChoiceText(name, values)
  {
    hide StatementSafe, Split, ScanValues, ScanEnd, Normalised, OptionTexts, Join;
    ReadValues(OptionFlags(name, values), values);
    TextsOf(name, values);
    NormalisedNoNewline(Join(OptionTexts(name, values), ", "));
    assert '\n' !in name && '\n' !in "option " && '\n' !in " ";
  }

  lemma TextsOf(name: string, values: seq<string>)
    ensures OptionTexts(name, values) == QuoteAll(OptionFlags(name, values), values)
  {
  }

  lemma CommentNoNewline(data: string)
    requires CommentSafe(data)
    ensures '\n' !in data
  {
  }

  lemma HeaderNoNewline(ty: string, settings: seq<string>)
    requires BlockSafe(ty, settings)
    ensures '\n' !in Join(settings, SPACE)
  {
    hide HeaderSafe, Join;
    forall i | 0 <= i < |settings| ensures '\n' !in settings[i] { assert Word(settings[i]); }
    JoinChars(settings, SPACE, '\n');
  }

  lemma {:induction false} TabsNoNewline(d: nat)
    ensures '\n' !in Tabs(d)
  {
    if d > 0 { TabsNoNewline(d - 1); }
  }

  lemma RenderAllNewlineFree(ts: seq<Tree>, d: nat)
    requires SafeAll(ts)
    ensures NewlineFree(RenderAll(ts, d))
    decreases ts, 0
  {
    if ts != [] {
      RenderNewlineFree(ts[0], d);
      RenderAllNewlineFree(ts[1..], d);
    }
  }

  /**
   Writing a file and reading it again: a store with one component per line and safe contents
   is read back as the same tree, and printing what was read gives the same text.
   */
  lemma RoundTrip(s: Store)
    requires OnePerLine(s) && SafeAll(Contents(s))
    ensures var (end, error) := ParseLines(ReadLines(AsText(s, GLOBAL)));
            && error == None && OnePerLine(end.store) && Contents(end.store) == Contents(s)
            && AsText(end.store, GLOBAL) == AsText(s, GLOBAL)
  {
    var ts := Contents(s);
    FileIsRender(s);
    RenderAllNewlineFree(ts, 0);
    ReadLinesOfFile(RenderAll(ts, 0));
    ParseOfPrinted(ts);
    FileIsRender(ParseLines(ReadLines(AsText(s, GLOBAL))).0.store);
  }
}
