/**
 How the text of a file is divided into lines does not matter to the parser, except where it
 does: laws that compare what is parsed from different lines, behind any prefix that ends
 between statements and before any rest.
 */
module DhcpdLines {
  import opened Wrappers
  import opened Strings
  import opened DhcpdModel
  import opened DhcpdParser
  import opened DhcpdPrinter
  import opened DhcpdScan
  import opened DhcpdReparse

  // ---- stores that differ in line numbers only ----

  function WithoutLines(c: Component): Component {
    c.(startLine := 0, endLine := 0, body := if c.body.Block? then c.body.(lineRefs := map[]) else c.body)
  }

  ghost predicate Alike(s: Store, t: Store) {
    |s| == |t| && forall i | 0 <= i < |s| :: WithoutLines(s[i]) == WithoutLines(t[i])
  }

  lemma AlikeTrans(s: Store, t: Store, u: Store)
    requires Alike(s, t) && Alike(s, u)
    ensures Alike(t, u)
  {
    forall i | 0 <= i < |t| ensures WithoutLines(t[i]) == WithoutLines(u[i]) { assert WithoutLines(s[i]) == WithoutLines(t[i]); }
  }

  lemma {:induction false} AlikeTree(s: Store, t: Store, i: nat)
    requires Valid(s) && Valid(t) && Alike(s, t) && i < |s|
    ensures TreeAt(s, i) == TreeAt(t, i)
    decreases |s| - i, 1, 0
  {
    assert WithoutLines(s[i]) == WithoutLines(t[i]);
    if s[i].body.Block? {
      assert ValidBlock(s, i) && ValidBlock(t, i);
      AlikeForest(s, t, i, s[i].body.components);
    }
  }

  lemma {:induction false} AlikeForest(s: Store, t: Store, b: nat, ids: seq<nat>)
    requires Valid(s) && Valid(t) && Alike(s, t) && b < |s| && ChildrenOf(s, b, ids) && ChildrenOf(t, b, ids)
    ensures Forest(s, b, ids) == Forest(t, b, ids)
    decreases |s| - b, 0, |ids|
  {
    hide Valid, Alike;
    if ids != [] {
      AlikeLength(s, t);
      AlikeTree(s, t, ids[0]);
      AlikeForest(s, t, b, ids[1..]);
    }
  }

  lemma AlikeLength(s: Store, t: Store)
    requires Alike(s, t)
    ensures |s| == |t|
  {
  }

  lemma AlikeContents(s: Store, t: Store)
    requires Valid(s) && Valid(t) && Alike(s, t)
    ensures Contents(s) == Contents(t)
  {
    assert ValidBlock(s, GLOBAL) && ValidBlock(t, GLOBAL);
    assert WithoutLines(s[GLOBAL]) == WithoutLines(t[GLOBAL]);
    AlikeForest(s, t, GLOBAL, s[GLOBAL].body.components);
  }

  lemma AppendAlike(s: Store, t: Store, b: nat, k: int, l: int, body: Body)
    requires Alike(s, t) && IsBlock(s, b) && IsBlock(t, b)
    ensures Alike(Append(s, b, k, body), Append(t, b, l, body))
  {
    var u, v := Append(s, b, k, body), Append(t, b, l, body);
    forall i | 0 <= i < |u| ensures WithoutLines(u[i]) == WithoutLines(v[i]) {
      if i < |s| { assert WithoutLines(s[i]) == WithoutLines(t[i]); }
    }
  }

  lemma CloseAlike(s: Store, t: Store, b: nat, k: int, l: int)
    requires Alike(s, t) && b < |s|
    ensures Alike(s[b := s[b].(endLine := k)], t[b := t[b].(endLine := l)])
  {
    assert WithoutLines(s[b]) == WithoutLines(t[b]);
  }

  // ---- states that go on alike ----

  /** The same text at hand, the same block, and stores that differ in line numbers only. */
  ghost predicate SameHand(st: ParseState, tt: ParseState) {
    && IsBlock(st.store, st.block) && IsBlock(tt.store, tt.block)
    && Alike(st.store, tt.store) && st.data == tt.data && st.block == tt.block
  }

  /** The lines that are still to be read, after which the file ends. */
  predicate Ahead(st: ParseState, rest: seq<string>) {
    st.line <= |st.lines| && st.lines[st.line..] == rest
  }

  /** Both outcomes are a further state, or the same end. */
  ghost predicate SameStep(r: StepResult, q: StepResult) {
    match r
    case More(next) => q.More? && SameHand(next, q.next) && next.minIndex == q.next.minIndex
    case Finished(last) => q.Finished? && SameHand(last, q.last)
    case Failed(at, error) => q.Failed? && SameHand(at, q.at) && error == q.error
  }

  lemma SemicolonAlike(st: ParseState, tt: ParseState, index: nat)
    requires SameHand(st, tt) && st.minIndex == tt.minIndex && index < |st.data|
    ensures SameStep(ParseSemicolon(st, index), ParseSemicolon(tt, index))
  {
    hide Alike, Append, Split, Strip, Join, ScanValues, ScanEnd, MakeValue, Unquote;
    forall body: Body | !body.Block?
      ensures SameHand(st.(store := Append(st.store, st.block, st.line, body)), tt.(store := Append(tt.store, tt.block, tt.line, body)))
    {
      AppendSame(st, tt, body);
    }
  }

  lemma AppendSame(st: ParseState, tt: ParseState, body: Body)
    requires SameHand(st, tt)
    ensures SameHand(st.(store := Append(st.store, st.block, st.line, body)), tt.(store := Append(tt.store, tt.block, tt.line, body)))
    ensures |st.store| == |tt.store|
    ensures body.Block? ==>
              IsBlock(Append(st.store, st.block, st.line, body), |st.store|) && IsBlock(Append(tt.store, tt.block, tt.line, body), |st.store|)
  {
    AppendAlike(st.store, tt.store, st.block, st.line, tt.line, body);
    AppendShape(st.store, st.block, st.line, body);
    AppendShape(tt.store, tt.block, tt.line, body);
  }

  lemma LbracketAlike(st: ParseState, tt: ParseState, index: nat)
    requires SameHand(st, tt) && st.minIndex == tt.minIndex && index < |st.data|
    ensures SameStep(ParseLbracket(st, index), ParseLbracket(tt, index))
  {
    hide Alike, Append, Split;
    var words := Split(st.data[..index]);
    if words != [] { AppendSame(st, tt, Block(words[0], words, [], map[])); }
  }

  lemma RbracketAlike(st: ParseState, tt: ParseState, index: nat)
    requires ValidState(st) && ValidState(tt) && SameHand(st, tt) && st.minIndex == tt.minIndex && index < |st.data|
    ensures SameStep(ParseRbracket(st, index), ParseRbracket(tt, index))
  {
    CloseAlike(st.store, tt.store, st.block, st.line, tt.line);
    assert WithoutLines(st.store[st.block]) == WithoutLines(tt.store[tt.block]);
  }

  lemma TokenAlike(st: ParseState, tt: ParseState, token: char, index: nat)
    requires ValidState(st) && ValidState(tt) && SameHand(st, tt) && st.minIndex == tt.minIndex && index < |st.data|
    ensures SameStep(TakeToken(st, token, index), TakeToken(tt, token, index))
  {
    hide Valid, Append, Strip, ParseSemicolon, ParseRbracket, ParseLbracket, Alike;
    if token == '#' {
      var text := Strip(st.data);
      AppendSame(st, tt, Comment(if text == "" then "" else text[1..]));
    } else if token == ';' {
      SemicolonAlike(st, tt, index);
    } else if token == '}' {
      RbracketAlike(st, tt, index);
    } else {
      LbracketAlike(st, tt, index);
    }
  }

  /** The step takes the same token, or none, from the text at hand. */
  predicate SamePick(st: ParseState, tt: ParseState) {
    st.minIndex == tt.minIndex || (Strip(st.data) != "" && PickFrom(TOKENS, st.data, st.minIndex) == PickFrom(TOKENS, st.data, tt.minIndex))
  }

  lemma StepAlike(st: ParseState, tt: ParseState, rest: seq<string>)
    requires ValidState(st) && ValidState(tt) && SameHand(st, tt) && Ahead(st, rest) && Ahead(tt, rest) && SamePick(st, tt)
    ensures SameStep(Step(st), Step(tt))
    ensures Step(st).More? ==> exists more :: Ahead(Step(st).next, more) && Ahead(Step(tt).next, more)
  {
    hide Valid, Append, Strip, TakeToken, Alike, PickFrom;
    StepAhead(st, rest);
    StepAhead(tt, rest);
    assert rest != [] ==> rest[0] == st.lines[st.line] == tt.lines[tt.line];
    if Strip(st.data) == "" {
      if rest != [] { AppendSame(NewData(st), NewData(tt), EmptyLine); }
    } else {
      var token := PickFrom(TOKENS, st.data, st.minIndex);
      if token.Some? { TokenAlike(st.(minIndex := 0), tt.(minIndex := 0), token.value, Find(st.data, token.value)); }
    }
  }

  /** A step reads a line when there is no text left, or no token in it. */
  predicate Reads(st: ParseState) {
    Strip(st.data) == "" || PickFrom(TOKENS, st.data, st.minIndex) == None
  }

  lemma StepAhead(st: ParseState, rest: seq<string>)
    requires IsBlock(st.store, st.block) && Ahead(st, rest)
    ensures Step(st).More? ==> Ahead(Step(st).next, if Reads(st) then rest[1..] else rest) && (Reads(st) ==> rest != [])
    ensures st.line < |st.lines| <==> rest != []
  {
    hide Append, Strip, PickFrom, Split, Join, ScanValues, ScanEnd;
    if st.line < |st.lines| { assert st.lines[st.line + 1..] == rest[1..]; }
  }

  ghost predicate SameOutcome(r: (ParseState, Option<ParseError>), q: (ParseState, Option<ParseError>)) {
    SameHand(r.0, q.0) && r.1 == q.1
  }

  /** States that go on alike end alike. */
  lemma {:induction false} RunAlike(st: ParseState, tt: ParseState, rest: seq<string>)
    requires ValidState(st) && ValidState(tt) && SameHand(st, tt) && Ahead(st, rest) && Ahead(tt, rest) && SamePick(st, tt)
    ensures SameOutcome(Run(st), Run(tt))
    decreases |st.lines| - st.line, |st.data|
  {
    hide Step, Run, Valid, SameHand, Ahead, SamePick;
    RunStep(st);
    RunStep(tt);
    StepAlike(st, tt, rest);
    if Step(st).More? {
      var more :| Ahead(Step(st).next, more) && Ahead(Step(tt).next, more);
      assert SamePick(Step(st).next, Step(tt).next) by { SameIndex(Step(st).next, Step(tt).next); }
      RunAlike(Step(st).next, Step(tt).next, more);
    }
  }

  lemma SameIndex(st: ParseState, tt: ParseState)
    requires st.minIndex == tt.minIndex
    ensures SamePick(st, tt)
  {
  }

  // ---- behind a prefix ----

  /** The parser stands between two statements. */
  ghost predicate Between(st: ParseState) {
    ValidState(st) && Strip(st.data) == "" && st.minIndex == 0
  }

  /** A blank text at hand comes with search bound 0. */
  predicate Bound(st: ParseState) {
    Strip(st.data) == "" ==> st.minIndex == 0
  }

  lemma StepBound(st: ParseState)
    requires IsBlock(st.store, st.block) && Bound(st)
    ensures Step(st).More? ==> Bound(Step(st).next)
    ensures Step(st).Finished? && Strip(Step(st).last.data) == "" ==> Step(st).last == st
  {
    hide Append, Split, Join, ScanValues, ScanEnd, PickFrom, Strip;
    if Strip(st.data) != "" && PickFrom(TOKENS, st.data, st.minIndex) == None && st.line < |st.lines| {
      MoreNotBlank(st.data, st.lines[st.line]);
    }
  }

  lemma MoreNotBlank(a: string, b: string)
    requires Strip(a) != ""
    ensures Strip(a + b) != ""
  {
    if Strip(a + b) == "" {
      StripBlank(a + b);
      BlankConcat(a, b);
      BlankStrip(a);
    }
  }

  lemma {:induction false} LStripped(s: string)
    ensures LStrip(s) == "" ==> Blank(s)
    ensures LStrip(s) != "" ==> !IsSpace(LStrip(s)[0])
  {
    if s != "" && IsSpace(s[0]) {
      LStripped(s[1..]);
      assert s == [s[0]] + s[1..];
    }
  }

  lemma {:induction false} RStripped(s: string)
    requires s != "" && !IsSpace(s[0])
    ensures RStrip(s) != ""
  {
    if IsSpace(s[|s| - 1]) { RStripped(s[..|s| - 1]); }
  }

  lemma StripBlank(s: string)
    ensures Strip(s) == "" <==> Blank(s)
  {
    LStripped(s);
    if LStrip(s) != "" { RStripped(LStrip(s)); }
    BlankStrip(s);
  }

  /** Behind the text that was read so far, further lines follow. */
  ghost predicate Longer(st: ParseState, tt: ParseState, more: seq<string>) {
    SameHand(st, tt) && st.minIndex == tt.minIndex && st.line == tt.line <= |st.lines| && tt.lines == st.lines + more
  }

  lemma StepLonger(st: ParseState, tt: ParseState, more: seq<string>)
    requires ValidState(st) && ValidState(tt) && Longer(st, tt, more) && !Step(st).Finished?
    ensures SameStep(Step(st), Step(tt))
    ensures Step(st).More? ==> Longer(Step(st).next, Step(tt).next, more)
  {
    hide Valid, Append, Strip, TakeToken, Alike, PickFrom;
    StepLines(st);
    StepLines(tt);
    if Strip(st.data) == "" {
      AppendSame(NewData(st), NewData(tt), EmptyLine);
    } else {
      var token := PickFrom(TOKENS, st.data, st.minIndex);
      if token.Some? { TokenAlike(st.(minIndex := 0), tt.(minIndex := 0), token.value, Find(st.data, token.value)); }
    }
  }

  lemma StepLines(st: ParseState)
    requires IsBlock(st.store, st.block)
    ensures Step(st).More? ==> Step(st).next.lines == st.lines && Step(st).next.line == if Reads(st) then st.line + 1 else st.line
  {
    hide Append, Strip, PickFrom, Split, Join, ScanValues, ScanEnd;
  }

  /** What is parsed from a prefix that ends between statements is where the rest of the file goes on. */
  lemma {:induction false} RunLonger(st: ParseState, tt: ParseState, more: seq<string>) returns (next: ParseState)
    requires ValidState(st) && ValidState(tt) && Longer(st, tt, more) && Bound(st)
    requires Run(st).1 == None && Strip(Run(st).0.data) == ""
    ensures Between(next) && SameHand(Run(st).0, next) && Run(tt) == Run(next) && Ahead(next, more)
    decreases |st.lines| - st.line, |st.data|
  {
    hide Step, Run, Valid, Strip, Alike;
    RunStep(st);
    RunStep(tt);
    StepBound(st);
    if Step(st).Finished? {
      EndOfLines(st);
      next := tt;
      assert tt.lines[tt.line..] == more;
    } else {
      StepLonger(st, tt, more);
      next := RunLonger(Step(st).next, Step(tt).next, more);
    }
  }

  lemma EndOfLines(st: ParseState)
    requires IsBlock(st.store, st.block) && Step(st).Finished?
    ensures st.line >= |st.lines|
  {
    hide Append, Strip, PickFrom, Split, Join, ScanValues, ScanEnd, MakeValue, Unquote;
  }

  /** Parsing the lines ends without an error and between statements. */
  ghost predicate Complete(lines: seq<string>) {
    ParseLines(lines).1 == None && Strip(ParseLines(lines).0.data) == ""
  }

  lemma Behind(pre: seq<string>, more: seq<string>) returns (next: ParseState)
    requires Complete(pre)
    ensures Between(next) && SameHand(ParseLines(pre).0, next) && ParseLines(pre + more) == Run(next) && Ahead(next, more)
  {
    hide Run;
    next := RunLonger(Initial(pre), Initial(pre + more), more);
  }

  /** The lines are read as the same trees with the same error, if any. */
  ghost predicate ReadAlike(x: seq<string>, y: seq<string>) {
    ParseLines(x).1 == ParseLines(y).1 && Contents(ParseLines(x).0.store) == Contents(ParseLines(y).0.store)
  }

  lemma OutcomeRead(x: seq<string>, y: seq<string>)
    requires SameOutcome(ParseLines(x), ParseLines(y))
    ensures ReadAlike(x, y)
  {
    hide Run, Valid, Contents;
    AlikeContents(ParseLines(x).0.store, ParseLines(y).0.store);
  }

  // ---- tokens in a text that grows ----

  predicate OpenQuote(s: string) {
    Count(s, '"') % 2 == 1 || Count(s, '\'') % 2 == 1
  }

  /** The token is not in the text, or its first occurrence stands inside quotes. */
  predicate Unseen(s: string, token: char) {
    token in s ==> OpenQuote(s[..Find(s, token)])
  }

  predicate NoToken(s: string) {
    Unseen(s, '#') && Unseen(s, ';') && Unseen(s, '}') && Unseen(s, '{')
  }

  /** The tokens that are tried before this one are not seen. */
  predicate NothingBefore(s: string, token: char) {
    Unseen(s, '#') && (token == ';' || (Unseen(s, ';') && (token == '}' || (Unseen(s, '}') && token == '{'))))
  }

  lemma FindInFirst(a: string, b: string, c: char)
    requires c in a
    ensures Find(a + b, c) == Find(a, c) && (a + b)[..Find(a, c)] == a[..Find(a, c)]
  {
    hide Find;
    var i := Find(a, c);
    assert a + b == a[..i] + [c] + (a[i + 1..] + b);
    FindAfter(a[..i], c, a[i + 1..] + b);
  }

  lemma FindInSecond(a: string, b: string, c: char)
    requires c !in a && c in b
    ensures Find(a + b, c) == |a| + Find(b, c) && (a + b)[..|a| + Find(b, c)] == a + b[..Find(b, c)]
  {
    hide Find;
    var i := Find(b, c);
    assert a + b == (a + b[..i]) + [c] + b[i + 1..];
    FindAfter(a + b[..i], c, b[i + 1..]);
  }

  lemma FindConcat(a: string, b: string, c: char)
    ensures c in a ==> Find(a + b, c) == Find(a, c) && (a + b)[..Find(a, c)] == a[..Find(a, c)]
    ensures c !in a && c in b ==> Find(a + b, c) == |a| + Find(b, c) && (a + b)[..|a| + Find(b, c)] == a + b[..Find(b, c)]
    ensures c !in a && c !in b ==> Find(a + b, c) == -1
  {
    hide Find;
    if c in a { FindInFirst(a, b, c); } else if c in b { FindInSecond(a, b, c); }
  }

  lemma OpenAfterBlank(w: string, s: string)
    requires Blank(w)
    ensures OpenQuote(w + s) <==> OpenQuote(s)
  {
    QuotesAfterBlank(w, s);
  }

  lemma UnseenAfterBlank(w: string, s: string, token: char)
    requires Blank(w) && !IsSpace(token)
    ensures Unseen(w + s, token) <==> Unseen(s, token)
  {
    hide OpenQuote;
    BlankHasNo(w, token);
    FindConcat(w, s, token);
    if token in s { OpenAfterBlank(w, s[..Find(s, token)]); }
  }

  lemma TokensAfterBlank(w: string, s: string)
    requires Blank(w)
    ensures NoToken(w + s) <==> NoToken(s)
    ensures forall token :: NothingBefore(w + s, token) <==> NothingBefore(s, token)
  {
    hide Unseen;
    UnseenAfterBlank(w, s, '#');
    UnseenAfterBlank(w, s, ';');
    UnseenAfterBlank(w, s, '}');
    UnseenAfterBlank(w, s, '{');
  }

  lemma NotAccepted(s: string, token: char)
    ensures Unseen(s, token) <==> !Accepts(s, 0, token)
  {
  }

  lemma AcceptsLater(a: string, b: string, token: char)
    requires Unseen(a, token)
    ensures Accepts(a + b, |a|, token) <==> Accepts(a + b, 0, token)
  {
    FindConcat(a, b, token);
  }

  /** A text without a token: whether the search goes on behind it or starts again makes no difference. */
  lemma PickLater(a: string, b: string)
    requires NoToken(a)
    ensures PickFrom(TOKENS, a, 0) == None && PickFrom(TOKENS, a + b, |a|) == PickFrom(TOKENS, a + b, 0)
  {
    hide Unseen, Accepts;
    NotAccepted(a, '#');
    NotAccepted(a, ';');
    NotAccepted(a, '}');
    NotAccepted(a, '{');
    AcceptsLater(a, b, '#');
    AcceptsLater(a, b, ';');
    AcceptsLater(a, b, '}');
    AcceptsLater(a, b, '{');
    PickOrder(a, 0);
    PickOrder(a + b, |a|);
    PickOrder(a + b, 0);
  }

  lemma PickToken(x: string, token: char, y: string)
    requires token !in x && !OpenQuote(x) && (token == '#' || NothingBefore(x + [token] + y, token))
    ensures var data := x + [token] + y;
            PickFrom(TOKENS, data, 0) == Some(token) && Find(data, token) == |x| && data[..|x|] == x && data[|x| + 1..] == y
  {
    hide Unseen;
    var data := x + [token] + y;
    FindAfter(x, token, y);
    assert data[..|x|] == x;
    assert Accepts(data, 0, token);
    NotAccepted(data, '#');
    NotAccepted(data, ';');
    NotAccepted(data, '}');
    PickOrder(data, 0);
  }

  // ---- a statement over several lines ----

  lemma ReadLine(st: ParseState, line: string, rest: seq<string>) returns (next: ParseState)
    requires Between(st) && Ahead(st, [line] + rest) && Strip(line) != ""
    ensures ValidState(next) && Run(st) == Run(next) && next == NewData(st) && next.data == st.data + line && Ahead(next, rest)
    ensures Strip(next.data) != "" && Blank(st.data)
  {
    hide Strip;
    assert st.lines[st.line] == line by { assert st.lines[st.line..][0] == line; }
    assert st.lines[st.line + 1..] == rest by { assert st.lines[st.line..][1..] == rest; }
    next := NewData(st);
    StripBlank(st.data);
    MoreBlank(st.data, line);
    ReadStep(st);
  }

  lemma MoreBlank(a: string, b: string)
    requires Strip(b) != ""
    ensures Strip(a + b) != ""
  {
    StripBlank(a + b);
    StripBlank(b);
    BlankConcat(a, b);
  }

  lemma GoesOn(st: ParseState, line: string, rest: seq<string>) returns (next: ParseState)
    requires ValidState(st) && Strip(st.data) != "" && st.minIndex == 0 && NoToken(st.data) && Ahead(st, [line] + rest)
    ensures ValidState(next) && Run(st) == Run(next) && Ahead(next, rest)
    ensures next == NewData(st).(minIndex := |st.data|) && next.data == st.data + line
  {
    hide Strip, NoToken, Run;
    assert st.lines[st.line] == line by { assert st.lines[st.line..][0] == line; }
    assert st.lines[st.line + 1..] == rest by { assert st.lines[st.line..][1..] == rest; }
    PickLater(st.data, "");
    next := NewData(st).(minIndex := |st.data|);
    assert Step(st) == More(next);
    RunStep(st);
  }

  lemma JoinedStates(st: ParseState, tt: ParseState, a: string, b: string, rest: seq<string>)
    requires Between(st) && Between(tt) && SameHand(st, tt) && Strip(a) != "" && NoToken(a)
    requires Ahead(st, [a] + ([b] + rest)) && Ahead(tt, [a + b] + rest)
    ensures SameOutcome(Run(st), Run(tt))
  {
    hide Strip, NoToken, Run, PickFrom, Alike, Valid;
    MoreNotBlank(a, b);
    var mid := ReadLine(st, a, [b] + rest);
    var other := ReadLine(tt, a + b, rest);
    TokensAfterBlank(st.data, a);
    var next := GoesOn(mid, b, rest);
    assert next.data == other.data;
    PickLater(mid.data, b);
    RunAlike(next, other, rest);
  }

  /**
   A line without a token is the beginning of the next one: a statement may be spread over any
   number of lines.
   */
  lemma LinesAreJoined(pre: seq<string>, a: string, b: string, rest: seq<string>)
    requires Complete(pre) && Strip(a) != "" && NoToken(a)
    ensures ReadAlike(pre + [a, b] + rest, pre + [a + b] + rest)
  {
    hide Run, Valid, NoToken, Strip, ReadAlike;
    var st := Behind(pre, [a] + ([b] + rest));
    var tt := Behind(pre, [a + b] + rest);
    assert pre + [a, b] + rest == pre + ([a] + ([b] + rest)) && pre + [a + b] + rest == pre + ([a + b] + rest);
    BothHands(ParseLines(pre).0, st, tt);
    JoinedStates(st, tt, a, b, rest);
    OutcomeRead(pre + [a, b] + rest, pre + [a + b] + rest);
  }

  lemma BothHands(end: ParseState, st: ParseState, tt: ParseState)
    requires SameHand(end, st) && SameHand(end, tt)
    ensures SameHand(st, tt)
  {
    AlikeTrans(end.store, st.store, tt.store);
  }

  // ---- several statements on a line ----

  /** What a structural token does depends on the text before it; the text behind it remains. */
  lemma TokenRest(st: ParseState, token: char, index: nat, x: string, y: string)
    requires IsBlock(st.store, st.block) && index < |st.data| && token != '#'
    requires st.data[..index] == x && st.data[index + 1..] == y
    ensures var r := TakeToken(st, token, index);
            var q := TakeToken(st.(data := x + [token]), token, |x|);
            && (r.More? <==> q.More?) && r.Failed? == q.Failed?
            && (r.More? ==> q.More? && r.next == q.next.(data := y) && q.next.data == "")
            && (r.Failed? ==> q.Failed? && r.at == q.at.(data := y) && r.error == q.error && q.at.data == "")
  {
    hide Append, Split, Strip, Join, ScanValues, ScanEnd, MakeValue, Unquote;
    assert |x| == index && (x + [token])[..|x|] == x && (x + [token])[|x| + 1..] == "";
  }

  /** The step that takes a token, and the text before and behind it. */
  lemma TakeStep(st: ParseState, x: string, token: char, y: string)
    requires ValidState(st) && st.minIndex == 0 && st.data == x + [token] + y
    requires token !in x && !OpenQuote(x) && (token == '#' || NothingBefore(st.data, token)) && !IsSpace(token)
    ensures Strip(st.data) != "" && |x| < |st.data|
    ensures Step(st) == TakeToken(st, token, |x|)
    ensures st.data[..|x|] == x && st.data[|x| + 1..] == y
  {
    hide Valid, TakeToken, PickFrom, Unseen;
    StripBlank(st.data);
    assert st.data[|x|] == token;
    PickToken(x, token, y);
    assert st.(minIndex := 0) == st;
  }

  lemma TokenFrame(st: ParseState, token: char, index: nat)
    requires IsBlock(st.store, st.block) && index < |st.data|
    ensures var r := TakeToken(st, token, index);
            r.More? ==> r.next.minIndex == st.minIndex && r.next.line == st.line && r.next.lines == st.lines
  {
    hide Append, Split, Strip, Join, ScanValues, ScanEnd, MakeValue, Unquote;
  }

  /** Where two states stand after the same token was taken, one of them with text behind it. */
  lemma TakenAlike(st: ParseState, tt: ParseState, x: string, token: char, y: string)
    requires ValidState(st) && ValidState(tt) && st.minIndex == 0 && tt.minIndex == 0 && SameHand(st, tt.(data := st.data))
    requires st.data == x + [token] + y && tt.data == x + [token] && token != '#'
    ensures var r, q := TakeToken(st, token, |x|), TakeToken(tt, token, |x|);
            && !r.Finished? && !q.Finished?
            && (r.More? ==> q.More? && r.next.data == y && q.next.data == "" && SameHand(r.next.(data := ""), q.next))
            && (r.Failed? ==> q.Failed? && r.error == q.error && SameHand(r.at.(data := ""), q.at))
  {
    hide Valid, Alike, TakeToken;
    assert st.data[..|x|] == x && st.data[|x| + 1..] == y;
    TokenRest(st, token, |x|, x, y);
    var short := st.(data := x + [token]);
    TokenAlike(short, tt, token, |x|);
    assert SameStep(TakeToken(short, token, |x|), TakeToken(tt, token, |x|));
    NeverFinished(st, token, |x|);
    NeverFinished(tt, token, |x|);
  }

  lemma NeverFinished(st: ParseState, token: char, index: nat)
    requires IsBlock(st.store, st.block) && index < |st.data|
    ensures !TakeToken(st, token, index).Finished?
  {
    hide Append, Split, Strip, Join, ScanValues, ScanEnd, MakeValue, Unquote;
  }

  /** As `SameOutcome`, whatever text is left after an error. */
  ghost predicate SameTrees(r: (ParseState, Option<ParseError>), q: (ParseState, Option<ParseError>)) {
    Alike(r.0.store, q.0.store) && r.1 == q.1
  }

  lemma SplitStates(st: ParseState, tt: ParseState, x: string, token: char, y: string, rest: seq<string>)
    requires Between(st) && Between(tt) && SameHand(st, tt) && Strip(y) != "" && token in ";}{"
    requires token !in x && !OpenQuote(x) && NothingBefore(x + [token] + y, token)
    requires Ahead(st, [x + [token] + y] + rest) && Ahead(tt, [x + [token]] + ([y] + rest))
    ensures SameTrees(Run(st), Run(tt))
  {
    hide Strip, Run, PickFrom, Alike, Valid, TakeToken, OpenQuote, NothingBefore, Step;
    var d := st.data;
    SplitLine(d, x, token, y);
    var mid := ReadLine(st, x + [token] + y, rest);
    var other := ReadLine(tt, x + [token], [y] + rest);
    OpenAfterBlank(d, x);
    TakeStep(mid, d + x, token, y);
    TakeStep(other, d + x, token, "");
    RunStep(mid);
    RunStep(other);
    TakenAlike(mid, other, d + x, token, y);
    TokenFrame(mid, token, |d + x|);
    TokenFrame(other, token, |d + x|);
    if Step(mid).More? {
      assert Strip(Step(other).next.data) == "" by { StripBlank(""); }
      var last := ReadLine(Step(other).next, y, rest);
      assert "" + y == y;
      RunAlike(Step(mid).next, last, rest);
    }
  }

  lemma SplitLine(d: string, x: string, token: char, y: string)
    requires Blank(d) || Strip(d) == ""
    requires token in ";}{" && token !in x && NothingBefore(x + [token] + y, token)
    ensures Blank(d) && token !in d + x
    ensures d + (x + [token] + y) == (d + x) + [token] + y && d + (x + [token]) == (d + x) + [token]
    ensures (d + x) + [token] + "" == (d + x) + [token]
    ensures NothingBefore((d + x) + [token] + y, token) && NothingBefore((d + x) + [token], token)
    ensures Strip(x + [token] + y) != "" && Strip(x + [token]) != ""
  {
    hide Strip, NothingBefore, Unseen;
    StripBlank(d);
    BlankHasNo(d, token);
    var whole := x + [token] + y;
    assert d + whole == (d + x) + [token] + y && d + (x + [token]) == (d + x) + [token];
    TokensAfterBlank(d, whole);
    TokensAfterBlank(d, x + [token]);
    assert whole == (x + [token]) + y;
    ShorterBefore(x + [token], y, token);
    assert whole[|x|] == token && (x + [token])[|x|] == token;
    StripBlank(whole);
    StripBlank(x + [token]);
  }

  lemma ShorterUnseen(a: string, b: string, token: char)
    requires Unseen(a + b, token)
    ensures Unseen(a, token)
  {
    FindConcat(a, b, token);
  }

  lemma ShorterBefore(a: string, b: string, token: char)
    requires NothingBefore(a + b, token)
    ensures NothingBefore(a, token)
  {
    hide Unseen;
    ShorterUnseen(a, b, '#');
    if token != ';' { ShorterUnseen(a, b, ';'); }
    if token == '{' { ShorterUnseen(a, b, '}'); }
  }

  lemma TreesRead(x: seq<string>, y: seq<string>)
    requires SameTrees(ParseLines(x), ParseLines(y))
    ensures ReadAlike(x, y)
  {
    hide Run, Valid, Contents;
    AlikeContents(ParseLines(x).0.store, ParseLines(y).0.store);
  }

  /**
   What stands behind a structural token might as well stand on a line of its own, if no token that
   is tried before this one is seen in the line.
   */
  lemma TokenEndsLine(pre: seq<string>, x: string, token: char, y: string, rest: seq<string>)
    requires Complete(pre) && Strip(y) != "" && token in ";}{"
    requires token !in x && !OpenQuote(x) && NothingBefore(x + [token] + y, token)
    ensures ReadAlike(pre + [x + [token] + y] + rest, pre + [x + [token], y] + rest)
  {
    hide Run, Valid, NothingBefore, OpenQuote, Strip, ReadAlike;
    var st := Behind(pre, [x + [token] + y] + rest);
    var tt := Behind(pre, [x + [token]] + ([y] + rest));
    var short, long := pre + [x + [token] + y] + rest, pre + [x + [token], y] + rest;
    assert short == pre + ([x + [token] + y] + rest) && long == pre + ([x + [token]] + ([y] + rest));
    BothHands(ParseLines(pre).0, st, tt);
    SplitStates(st, tt, x, token, y, rest);
    TreesRead(short, long);
  }

  // ---- comments behind other text ----

  /** The text of a comment that stands in a line. */
  function CommentOf(line: string): string {
    if Strip(line) == "" then "" else Strip(line)[1..]
  }

  lemma CommentStates(st: ParseState, tt: ParseState, x: string, y: string, rest: seq<string>)
    requires Between(st) && Between(tt) && SameHand(st, tt) && Strip(x) != "" && '#' !in x && !OpenQuote(x)
    requires Ahead(st, [x + "#" + y] + rest) && Ahead(tt, ["#" + CommentOf(x + "#" + y)] + ([x] + rest))
    ensures SameTrees(Run(st), Run(tt))
  {
    hide Strip, Run, PickFrom, Alike, Valid, OpenQuote, Step, Append;
    var d, line := st.data, x + "#" + y;
    var text := CommentOf(line);
    CommentLine(d, x, y);
    var mid := ReadLine(st, line, rest);
    var other := ReadLine(tt, "#" + text, [x] + rest);
    OpenAfterBlank(d, x);
    assert !OpenQuote(d) by { OpenAfterBlank(d, ""); NoQuotes(); assert d + "" == d; }
    TakeStep(mid, d + x, '#', y);
    TakeStep(other, d, '#', text);
    RunStep(mid);
    RunStep(other);
    AppendSame(mid.(data := ""), other.(data := ""), Comment(text));
    var first, second := Step(mid).next, Step(other).next;
    assert Strip(second.data) == "";
    var last := ReadLine(second, x, rest);
    RunAlike(first, last, rest);
  }

  lemma NoQuotes()
    ensures !OpenQuote("")
  {
  }

  lemma CommentLine(d: string, x: string, y: string)
    requires Strip(d) == "" && Strip(x) != "" && '#' !in x
    ensures var line, text := x + "#" + y, Strip(x + "#" + y);
            && Blank(d) && '#' !in d + x && '#' !in d && text != "" && CommentOf(line) == text[1..]
            && d + line == (d + x) + ['#'] + y && d + ("#" + text[1..]) == d + ['#'] + text[1..]
            && Strip(line) != "" && Strip(d + line) == text
            && Strip("#" + text[1..]) == "#" + text[1..] && Strip(d + ("#" + text[1..])) == "#" + text[1..]
  {
    hide Strip;
    StripBlank(d);
    BlankHasNo(d, '#');
    var line := x + "#" + y;
    assert line[|x|] == '#';
    StripBlank(line);
    StripTrimmed(line);
    StripAfterBlank(d, line);
    var text := Strip(line);
    var comment := "#" + text[1..];
    assert Trimmed(comment);
    StripMargins("", comment, "");
    StripMargins(d, comment, "");
    assert "" + comment + "" == comment && d + comment + "" == d + comment;
    assert d + line == (d + x) + ['#'] + y && d + comment == d + ['#'] + text[1..];
  }

  lemma {:induction false} RStripTrims(s: string)
    ensures RStrip(s) != "" ==> !IsSpace(RStrip(s)[|RStrip(s)| - 1])
    ensures RStrip(s) <= s
  {
    if s != "" && IsSpace(s[|s| - 1]) { RStripTrims(s[..|s| - 1]); }
  }

  lemma StripTrimmed(s: string)
    ensures Trimmed(Strip(s))
  {
    LStripped(s);
    RStripTrims(LStrip(s));
  }

  lemma {:induction false} LStripAfterBlank(w: string, s: string)
    requires Blank(w)
    ensures LStrip(w + s) == LStrip(s)
  {
    if w == "" {
      assert w + s == s;
    } else {
      assert (w + s)[1..] == w[1..] + s;
      LStripAfterBlank(w[1..], s);
    }
  }

  lemma StripAfterBlank(w: string, s: string)
    requires Blank(w)
    ensures Strip(w + s) == Strip(s)
  {
    LStripAfterBlank(w, s);
  }

  /**
   A comment behind other text: its own text is the whole line without the first character, and
   what stands before the '#' is parsed after it.
   */
  lemma CommentTakesLine(pre: seq<string>, x: string, y: string, rest: seq<string>)
    requires Complete(pre) && Strip(x) != "" && '#' !in x && !OpenQuote(x)
    ensures ReadAlike(pre + [x + "#" + y] + rest, pre + ["#" + CommentOf(x + "#" + y), x] + rest)
  {
    hide Run, Valid, OpenQuote, Strip, ReadAlike;
    assert Strip(x + "#" + y) != "" by { MoreNotBlank(x, "#" + y); assert x + ("#" + y) == x + "#" + y; }
    var comment := "#" + CommentOf(x + "#" + y);
    var st := Behind(pre, [x + "#" + y] + rest);
    var tt := Behind(pre, [comment] + ([x] + rest));
    var short, long := pre + [x + "#" + y] + rest, pre + [comment, x] + rest;
    assert short == pre + ([x + "#" + y] + rest) && long == pre + ([comment] + ([x] + rest));
    BothHands(ParseLines(pre).0, st, tt);
    CommentStates(st, tt, x, y, rest);
    TreesRead(short, long);
  }

  // ---- blank space within a statement ----

  lemma BeforeToken(x: string, token: char)
    ensures (x + [token])[..|x|] == x && (x + [token])[|x| + 1..] == ""
  {
  }

  lemma SemicolonWords(st: ParseState, x: string, y: string)
    requires IsBlock(st.store, st.block) && Split(x) == Split(y)
    ensures ParseSemicolon(st.(data := x + ";"), |x|) == ParseSemicolon(st.(data := y + ";"), |y|)
  {
    hide ParseSemicolon, FromWords, Split;
    BeforeToken(x, ';');
    BeforeToken(y, ';');
    SemicolonBody(st, x + ";", |x|);
    SemicolonBody(st, y + ";", |y|);
  }

  /** A statement is parsed from its words. */
  lemma SemicolonBody(st: ParseState, data: string, index: nat)
    requires IsBlock(st.store, st.block) && index < |data| && data[index + 1..] == ""
    ensures ParseSemicolon(st.(data := data), index) == FromWords(st.(data := ""), Split(data[..index]))
  {
    hide Append, Split, Strip, Join, ScanValues, ScanEnd, MakeValue, Unquote;
  }

  function FromWords(st: ParseState, words: seq<string>): StepResult
    requires IsBlock(st.store, st.block)
  {
    if words == [] then Failed(st, IndexError)
    else if words[0] != "option" then
      More(st.(store := Append(st.store, st.block, st.line, Parameter(words[0], MakeValue(Unquote(Strip(Join(words[1..], SPACE))))))))
    else if |words| < 2 then Failed(st, IndexError)
    else
      More(st.(store := Append(st.store, st.block, st.line,
                               Choice(words[1], ScanEnd(ScanValues(SCANSTART, Strip(Join(words[2..], SPACE))))))))
  }

  lemma LbracketWords(st: ParseState, x: string, y: string)
    requires IsBlock(st.store, st.block) && Split(x) == Split(y)
    ensures ParseLbracket(st.(data := x + "{"), |x|) == ParseLbracket(st.(data := y + "{"), |y|)
  {
    hide Append, Split;
    assert (x + "{")[..|x|] == x && (x + "{")[|x| + 1..] == "";
    assert (y + "{")[..|y|] == y && (y + "{")[|y| + 1..] == "";
    assert st.(data := x + "{").(data := "") == st.(data := y + "{").(data := "");
  }

  lemma RbracketWords(st: ParseState, x: string, y: string)
    requires IsBlock(st.store, st.block)
    ensures ParseRbracket(st.(data := x + "}"), |x|) == ParseRbracket(st.(data := y + "}"), |y|)
  {
    assert (x + "}")[|x| + 1..] == "" && (y + "}")[|y| + 1..] == "";
    assert st.(data := x + "}").(data := "") == st.(data := y + "}").(data := "");
  }

  /** What a structural token does depends on the words before it only. */
  lemma TokenWords(st: ParseState, token: char, x: string, y: string)
    requires IsBlock(st.store, st.block) && token in ";}{" && (token == '}' || Split(x) == Split(y))
    ensures TakeToken(st.(data := x + [token]), token, |x|) == TakeToken(st.(data := y + [token]), token, |y|)
  {
    hide ParseSemicolon, ParseLbracket, ParseRbracket, Split;
    if token == ';' {
      SemicolonWords(st, x, y);
    } else if token == '{' {
      LbracketWords(st, x, y);
    } else {
      RbracketWords(st, x, y);
    }
  }

  lemma WordsStates(st: ParseState, tt: ParseState, x: string, y: string, token: char, rest: seq<string>)
    requires Between(st) && Between(tt) && SameHand(st, tt) && token in ";}{" && (token == '}' || Split(x) == Split(y))
    requires token !in x && !OpenQuote(x) && NothingBefore(x + [token], token)
    requires token !in y && !OpenQuote(y) && NothingBefore(y + [token], token)
    requires Ahead(st, [x + [token]] + rest) && Ahead(tt, [y + [token]] + rest)
    ensures SameTrees(Run(st), Run(tt))
  {
    hide Strip, Split, Run, PickFrom, Alike, Valid, TakeToken, OpenQuote, NothingBefore, Step;
    var d := st.data;
    assert x + [token] + "" == x + [token] && y + [token] + "" == y + [token];
    SplitLine(d, x, token, "");
    SplitLine(d, y, token, "");
    var mid := ReadLine(st, x + [token], rest);
    var other := ReadLine(tt, y + [token], rest);
    OpenAfterBlank(d, x);
    OpenAfterBlank(d, y);
    TakeStep(mid, d + x, token, "");
    TakeStep(other, d + y, token, "");
    RunStep(mid);
    RunStep(other);
    SplitBlankPrefix(d, x);
    SplitBlankPrefix(d, y);
    var same := other.(data := mid.data);
    TokenWords(other, token, d + x, d + y);
    assert same == other.(data := (d + x) + [token]) && other == other.(data := (d + y) + [token]);
    TokenAlike(mid, same, token, |d + x|);
    TokenFrame(mid, token, |d + x|);
    TokenFrame(other, token, |d + y|);
    NeverFinished(mid, token, |d + x|);
    if Step(mid).More? { RunAlike(Step(mid).next, Step(other).next, rest); }
  }

  /** Statements and block headers of the same words are read alike, and what stands before a closing bracket is dropped. */
  lemma BlankSpaceDoesNotMatter(pre: seq<string>, x: string, y: string, token: char, rest: seq<string>)
    requires Complete(pre) && token in ";}{" && (token == '}' || Split(x) == Split(y))
    requires token !in x && !OpenQuote(x) && NothingBefore(x + [token], token)
    requires token !in y && !OpenQuote(y) && NothingBefore(y + [token], token)
    ensures ReadAlike(pre + [x + [token]] + rest, pre + [y + [token]] + rest)
  {
    hide Run, Valid, NothingBefore, OpenQuote, Split, ReadAlike;
    var st := Behind(pre, [x + [token]] + rest);
    var tt := Behind(pre, [y + [token]] + rest);
    var one, two := pre + [x + [token]] + rest, pre + [y + [token]] + rest;
    assert one == pre + ([x + [token]] + rest) && two == pre + ([y + [token]] + rest);
    BothHands(ParseLines(pre).0, st, tt);
    WordsStates(st, tt, x, y, token, rest);
    TreesRead(one, two);
  }

  // ---- errors, and the end of the file ----

  /** A statement without words, or only the word `option`, or a block without header. */
  predicate Incomplete(words: seq<string>, token: char) {
    (token == ';' && (words == [] || words == ["option"])) || (token == '{' && words == [])
  }

  lemma IncompleteToken(st: ParseState, x: string, token: char, y: string)
    requires ValidState(st) && st.data == x + [token] + y && Incomplete(Split(x), token)
    ensures TakeToken(st, token, |x|) == Failed(st.(data := y), IndexError)
  {
    hide Append, Split, Strip, Join, ScanValues, ScanEnd, MakeValue, Unquote;
    assert st.data[..|x|] == x && st.data[|x| + 1..] == y;
  }

  /** Such a statement or header ends the parse with an IndexError, and leaves what was parsed before. */
  lemma IncompleteFails(pre: seq<string>, x: string, token: char, y: string, rest: seq<string>)
    requires Complete(pre) && token in ";{" && Incomplete(Split(x), token)
    requires token !in x && !OpenQuote(x) && NothingBefore(x + [token] + y, token)
    ensures var (end, error) := ParseLines(pre + [x + [token] + y] + rest);
            error == Some(IndexError) && Contents(end.store) == Contents(ParseLines(pre).0.store)
  {
    hide Run, Valid, NothingBefore, OpenQuote, Strip, Split, Contents, TakeToken, Step, Alike;
    var line := x + [token] + y;
    var st := Behind(pre, [line] + rest);
    assert pre + [line] + rest == pre + ([line] + rest);
    var d := st.data;
    SplitLine(d, x, token, y);
    var mid := ReadLine(st, line, rest);
    OpenAfterBlank(d, x);
    TakeStep(mid, d + x, token, y);
    SplitBlankPrefix(d, x);
    IncompleteToken(mid, d + x, token, y);
    RunStep(mid);
    AlikeContents(ParseLines(pre).0.store, mid.store);
  }

  /** A closing bracket outside of any block ends the parse with a failed assertion. */
  lemma ClosingFails(pre: seq<string>, x: string, y: string, rest: seq<string>)
    requires Complete(pre) && ParseLines(pre).0.block == GLOBAL
    requires '}' !in x && !OpenQuote(x) && NothingBefore(x + "}" + y, '}')
    ensures var (end, error) := ParseLines(pre + [x + "}" + y] + rest);
            error == Some(AssertionError) && Contents(end.store) == Contents(ParseLines(pre).0.store)
  {
    hide Run, Valid, NothingBefore, OpenQuote, Strip, Split, Contents, TakeToken, Step, Alike, ParseRbracket;
    var line := x + "}" + y;
    var st := Behind(pre, [line] + rest);
    assert pre + [line] + rest == pre + ([line] + rest);
    var d := st.data;
    SplitLine(d, x, '}', y);
    var mid := ReadLine(st, line, rest);
    OpenAfterBlank(d, x);
    TakeStep(mid, d + x, '}', y);
    ClosesGlobal(mid, |d + x|);
    RunStep(mid);
    AlikeTrans(mid.store, ParseLines(pre).0.store, Step(mid).at.store) by { AlikeBack(ParseLines(pre).0.store, mid.store); }
    AlikeContents(ParseLines(pre).0.store, Step(mid).at.store);
  }

  lemma AlikeBack(s: Store, t: Store)
    requires Alike(s, t)
    ensures Alike(t, s)
  {
  }

  lemma ClosesGlobal(st: ParseState, index: nat)
    requires ValidState(st) && st.block == GLOBAL && index < |st.data|
    ensures var r := TakeToken(st, '}', index);
            r.Failed? && r.error == AssertionError && Valid(r.at.store) && Alike(st.store, r.at.store)
  {
    CloseValid(st.store, GLOBAL, st.line);
  }

  /** Text behind the last statement of a file is dropped without an error. */
  lemma UnfinishedIsDropped(pre: seq<string>, a: string)
    requires Complete(pre) && Strip(a) != "" && NoToken(a)
    ensures var (end, error) := ParseLines(pre + [a]);
            error == None && Contents(end.store) == Contents(ParseLines(pre).0.store)
  {
    hide Run, Valid, NoToken, Strip, Contents, Step, Alike, PickFrom;
    var st := Behind(pre, [a] + []);
    assert pre + [a] == pre + ([a] + []);
    var mid := ReadLine(st, a, []);
    TokensAfterBlank(st.data, a);
    PickLater(mid.data, "");
    EndsUnfinished(mid);
    RunStep(mid);
    AlikeContents(ParseLines(pre).0.store, mid.store);
  }

  lemma EndsUnfinished(st: ParseState)
    requires ValidState(st) && Strip(st.data) != "" && st.minIndex == 0 && PickFrom(TOKENS, st.data, 0) == None && Ahead(st, [])
    ensures Step(st) == Finished(st.(minIndex := |st.data|))
  {
    hide Strip, PickFrom;
    assert st.line >= |st.lines|;
  }

  // ---- values as they are written ----

  /** The words for on and off. */
  const ONWORDS: seq<string> := ["yes", "true", "on"]
  const OFFWORDS: seq<string> := ["no", "false", "off"]

  /** A parameter with an on or off word, in any letter case and in quotes or not, is read as that switch, which is printed as on or off. */
  lemma SwitchIsRead(w: string, key: string, text: string)
    requires Blank(w) && Word(key) && Word(text) && !Enclosed(text) && (Lower(text) in ONWORDS || Lower(text) in OFFWORDS)
    ensures var bare, quoted := Split(w + (key + " " + text)), Split(w + (key + " " + InQuotes(text)));
            && bare != [] && quoted != []
            && var value := MakeValue(Unquote(Strip(Join(bare[1..], SPACE))));
               && value == MakeValue(Unquote(Strip(Join(quoted[1..], SPACE))))
               && ValueText(key, value) == if Lower(text) in ONWORDS then "on" else "off"
  {
    hide Split, Strip, Join, Unquote, Enclosed;
    WordNormalised(text);
    QuotesAreDropped(w, key, text);
  }

  lemma WordNormalised(text: string)
    requires Word(text)
    ensures Normalised(text)
  {
    hide Split;
    assert Join([text], SPACE) == text && text + "" == text;
    SplitJoin([text], "");
  }

  /** An option value in the text: in quotes of either kind or without, between blank spaces. */
  datatype Written = Written(before: string, quote: Option<char>, text: string, after: string)

  predicate Readable(w: Written) {
    && Blank(w.before) && Blank(w.after)
    && (match w.quote
        case None => '"' !in w.text && '\'' !in w.text && ',' !in w.text
        case Some(q) => q in "\"'" && q !in w.text)
  }

  function WrittenText(w: Written): string {
    w.before + (if w.quote.Some? then [w.quote.value] + w.text + [w.quote.value] else w.text) + w.after
  }

  function WrittenTexts(ws: seq<Written>): seq<string> {
    if ws == [] then [] else [WrittenText(ws[0])] + WrittenTexts(ws[1..])
  }

  function Collected(w: Written): string {
    w.before + w.text + w.after
  }

  function WrittenValues(ws: seq<Written>): seq<string> {
    if ws == [] then [] else [Strip(Collected(ws[0]))] + WrittenValues(ws[1..])
  }

  lemma BlankIsPlain(s: string)
    requires Blank(s)
    ensures '"' !in s && '\'' !in s && ',' !in s
  {
    BlankHasNo(s, '"');
    BlankHasNo(s, '\'');
    BlankHasNo(s, ',');
  }

  lemma ScanQuoted(v: ValueScan, q: char, text: string)
    requires v.quote == None && q in "\"'" && q !in text
    ensures ScanValues(v, [q] + text + [q]) == v.(current := v.current + text)
  {
    var open := v.(quote := Some(q));
    var inside := open.(current := v.current + text);
    assert [q] + text + [q] == [q] + (text + [q]);
    ScanConcat(v, [q], text + [q]);
    ScanOne(v, q);
    ScanConcat(open, text, [q]);
    ScanInside(open, q, text);
    ScanOne(inside, q);
  }

  lemma ScanWritten(v: ValueScan, w: Written)
    requires v.quote == None && v.current == "" && Readable(w)
    ensures ScanValues(v, WrittenText(w)) == v.(current := Collected(w))
  {
    hide ScanValues;
    var middle := if w.quote.Some? then [w.quote.value] + w.text + [w.quote.value] else w.text;
    BlankIsPlain(w.before);
    BlankIsPlain(w.after);
    var first := v.(current := w.before);
    var second := v.(current := w.before + w.text);
    ScanConcat(v, w.before + middle, w.after);
    ScanConcat(v, w.before, middle);
    ScanPlain(v, w.before);
    assert v.current + w.before == w.before;
    if w.quote.Some? { ScanQuoted(first, w.quote.value, w.text); } else { ScanPlain(first, w.text); }
    ScanPlain(second, w.after);
  }

  /** The values of an option, in quotes or without and with any blank space around them, except that a last empty one is dropped. */
  lemma {:induction false} ReadWritten(v: ValueScan, ws: seq<Written>)
    requires v.quote == None && v.current == "" && ws != [] && forall i | 0 <= i < |ws| :: Readable(ws[i])
    ensures ScanEnd(ScanValues(v, Join(WrittenTexts(ws), ","))) ==
              v.values + WrittenValues(if Collected(ws[|ws| - 1]) == "" then ws[..|ws| - 1] else ws)
    decreases |ws|
  {
    hide ScanValues, ScanChar, Strip, WrittenText, Collected, Readable;
    ScanWritten(v, ws[0]);
    if |ws| == 1 {
      OneWritten(v, ws[0]);
      assert ws == [ws[0]];
    } else {
      var rest := ws[1..];
      assert WrittenTexts(ws)[1..] == WrittenTexts(rest) && |WrittenTexts(ws)| > 1 by { TextsCount(ws); TextsCount(rest); }
      var later := Join(WrittenTexts(rest), ",");
      assert Join(WrittenTexts(ws), ",") == WrittenText(ws[0]) + ("," + later);
      var mid := v.(current := Collected(ws[0]));
      ScanConcat(v, WrittenText(ws[0]), "," + later);
      ScanConcat(mid, ",", later);
      ScanOne(mid, ',');
      AtComma(mid);
      var next := ValueScan(v.values + [Strip(Collected(ws[0]))], "", None);
      ReadWritten(next, rest);
      LastWritten(ws);
    }
  }

  lemma AtComma(v: ValueScan)
    requires v.quote == None
    ensures ScanChar(v, ',') == ValueScan(v.values + [Strip(v.current)], "", None)
  {
  }

  lemma OneWritten(v: ValueScan, w: Written)
    ensures Join(WrittenTexts([w]), ",") == WrittenText(w)
    ensures ScanEnd(v.(current := Collected(w))) ==
              v.values + WrittenValues(if Collected(w) == "" then [w][..0] else [w])
  {
    assert [w][1..] == [] && [w][..0] == [];
  }

  lemma {:induction false} TextsCount(ws: seq<Written>)
    ensures |WrittenTexts(ws)| == |ws|
  {
    if ws != [] { TextsCount(ws[1..]); }
  }

  lemma LastWritten(ws: seq<Written>)
    requires |ws| > 1
    ensures ws[1..][|ws| - 2] == ws[|ws| - 1]
    ensures WrittenValues(ws) == [Strip(Collected(ws[0]))] + WrittenValues(ws[1..])
    ensures WrittenValues(ws[..|ws| - 1]) == [Strip(Collected(ws[0]))] + WrittenValues(ws[1..][..|ws| - 2])
  {
    hide Strip, Collected;
    assert ws[..|ws| - 1][1..] == ws[1..][..|ws| - 2];
  }

  /** A parameter value may stand in quotes, which are not part of it. */
  lemma QuotesAreDropped(w: string, key: string, text: string)
    requires Blank(w) && Word(key) && Normalised(text) && !Enclosed(text)
    ensures var bare, quoted := Split(w + (key + " " + text)), Split(w + (key + " " + InQuotes(text)));
            && bare != [] && quoted != [] && bare[0] == key == quoted[0]
            && Unquote(Strip(Join(bare[1..], SPACE))) == text == Unquote(Strip(Join(quoted[1..], SPACE)))
  {
    hide Split, Strip, Join, Normalised;
    SplitTwo(w, key, text);
    SplitTwo(w, key, InQuotes(text));
    assert ([key] + Split(text))[1..] == Split(text) && ([key] + Split(InQuotes(text)))[1..] == Split(InQuotes(text));
    NormalisedInQuotes(text);
    JoinSplit(text);
    JoinSplit(InQuotes(text));
    assert InQuotes(text)[1..|text| + 1] == text;
  }

  lemma JoinSplit(text: string)
    requires Normalised(text)
    ensures Strip(Join(Split(text), SPACE)) == text
  {
    NormalisedTrimmed(text);
  }
}
