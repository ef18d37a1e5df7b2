/**
 Why the printer prints every component exactly once and in order: in a tidy store the
 children of a block and its line references agree, and placed children come first, in
 the order of their lines. Every parse yields a tidy store.
 */
module DhcpdTidy {
  import opened Wrappers
  import opened Strings
  import opened DhcpdModel
  import opened DhcpdParser
  import opened DhcpdPrinter

  /** The children of a block are exactly the components its line references name. */
  ghost predicate Referenced(s: Store, b: nat)
    requires Valid(s) && IsBlock(s, b)
  {
    assert ValidBlock(s, b);
    && (forall c | c in s[b].body.components :: c in RefsAt(s[b].body.lineRefs, s[c].startLine))
    && (forall l, c | l in s[b].body.lineRefs && c in s[b].body.lineRefs[l] :: c in s[b].body.components)
  }

  /** Placed children come first, in line order. */
  ghost predicate Ordered(s: Store, b: nat)
    requires Valid(s) && IsBlock(s, b)
  {
    assert ValidBlock(s, b);
    forall c, d | c in s[b].body.components && d in s[b].body.components && c < d && InRange(s, b, s[d].startLine) ::
      InRange(s, b, s[c].startLine) && s[c].startLine <= s[d].startLine
  }

  /** No two placed children share a line. */
  ghost predicate Separate(s: Store, b: nat)
    requires Valid(s) && IsBlock(s, b)
  {
    assert ValidBlock(s, b);
    forall c, d | c in s[b].body.components && d in s[b].body.components && c != d && InRange(s, b, s[c].startLine) ::
      s[c].startLine != s[d].startLine
  }

  ghost predicate Tidy(s: Store) {
    Valid(s) && forall b | 0 <= b < |s| && s[b].body.Block? :: Referenced(s, b) && Ordered(s, b)
  }

  ghost predicate OnePerLine(s: Store) {
    Tidy(s) && forall b | 0 <= b < |s| && s[b].body.Block? :: Separate(s, b)
  }

  // ---- increasing sequences ----

  lemma {:induction false} SameIncreasing(xs: seq<nat>, ys: seq<nat>)
    requires Increasing(xs) && Increasing(ys)
    requires forall c :: c in xs <==> c in ys
    ensures xs == ys
  {
    if xs == [] {
      assert forall k | 0 <= k < |ys| :: ys[k] in ys;
    } else {
      assert xs[0] in xs;
      assert ys != [];
      assert ys[0] in ys && ys[0] in xs && xs[0] in ys;
      assert xs[0] == ys[0];
      assert xs == [xs[0]] + xs[1..] && ys == [ys[0]] + ys[1..];
      forall c ensures c in xs[1..] <==> c in ys[1..] {
        assert c in xs[1..] <==> c in xs && c != xs[0];
        assert c in ys[1..] <==> c in ys && c != ys[0];
      }
      SameIncreasing(xs[1..], ys[1..]);
    }
  }

  lemma IncreasingConcat(xs: seq<nat>, ys: seq<nat>)
    requires Increasing(xs) && Increasing(ys)
    requires forall x, y | x in xs && y in ys :: x < y
    ensures Increasing(xs + ys)
  {
    forall j, k | 0 <= j < k < |xs + ys| ensures (xs + ys)[j] < (xs + ys)[k] {
      if j < |xs| && k >= |xs| {
        assert xs[j] in xs && ys[k - |xs|] in ys;
      }
    }
  }

  function Flatten(g: seq<seq<nat>>): seq<nat> {
    if g == [] then [] else g[0] + Flatten(g[1..])
  }

  lemma {:induction false} FlattenConcat(g: seq<seq<nat>>, h: seq<seq<nat>>)
    ensures Flatten(g + h) == Flatten(g) + Flatten(h)
  {
    if g == [] {
      assert g + h == h;
    } else {
      assert (g + h)[1..] == g[1..] + h;
      FlattenConcat(g[1..], h);
    }
  }

  lemma {:induction false} FlattenSingletons(ids: seq<nat>)
    ensures Flatten(Singletons(ids)) == ids
  {
    if ids != [] {
      FlattenSingletons(ids[1..]);
      assert Singletons(ids)[1..] == Singletons(ids[1..]);
    }
  }

  // ---- the print plan of a tidy block ----

  /** The references of a line are the children that start there. */
  lemma LineIds(s: Store, b: nat, line: int)
    requires Valid(s) && IsBlock(s, b) && Referenced(s, b)
    ensures Increasing(RefsAt(s[b].body.lineRefs, line))
    ensures forall c :: c in RefsAt(s[b].body.lineRefs, line) <==>
              c in s[b].body.components && c < |s| && s[c].startLine == line
  {
    assert ValidBlock(s, b);
    var ids := RefsAt(s[b].body.lineRefs, line);
    if ids != [] { assert ChildrenOf(s, b, s[b].body.lineRefs[line]); }
  }

  lemma FlattenGroups(s: Store, b: nat, line: int)
    requires Valid(s) && IsBlock(s, b)
    ensures Flatten(LineGroups(s, b, line)) ==
              if line <= s[b].endLine then RefsAt(s[b].body.lineRefs, line) + Flatten(LineGroups(s, b, line + 1)) else []
  {
    hide Valid;
    if line <= s[b].endLine {
      var ids, later := RefsAt(s[b].body.lineRefs, line), LineGroups(s, b, line + 1);
      if ids == [] {
        assert LineGroups(s, b, line) == later && ids + Flatten(later) == Flatten(later);
      } else {
        assert LineGroups(s, b, line) == [ids] + later && LineGroups(s, b, line)[1..] == later;
      }
    }
  }

  lemma PlacedOrder(s: Store, b: nat, c: nat, d: nat)
    requires Valid(s) && IsBlock(s, b) && Ordered(s, b) && c < |s| && d < |s|
    requires c in s[b].body.components && d in s[b].body.components
    requires InRange(s, b, s[c].startLine) && s[c].startLine < s[d].startLine
    ensures c < d
  {
    assert c != d;
  }

  /** The line groups hold exactly the placed components from `line` on, in order. */
  lemma {:induction false} LineGroupsContent(s: Store, b: nat, line: int)
    requires Valid(s) && IsBlock(s, b) && Referenced(s, b) && Ordered(s, b)
    requires First(s, b) <= line
    ensures Increasing(Flatten(LineGroups(s, b, line)))
    ensures forall c :: c in Flatten(LineGroups(s, b, line)) <==>
              c in s[b].body.components && c < |s| && line <= s[c].startLine <= s[b].endLine
    decreases s[b].endLine - line
  {
    hide Valid, Referenced, Ordered, LineGroups, Flatten, Increasing;
    FlattenGroups(s, b, line);
    if line <= s[b].endLine {
      LineGroupsContent(s, b, line + 1);
      LineIds(s, b, line);
      var ids := RefsAt(s[b].body.lineRefs, line);
      var later := Flatten(LineGroups(s, b, line + 1));
      forall x, y | x in ids && y in later ensures x < y { PlacedOrder(s, b, x, y); }
      IncreasingConcat(ids, later);
    } else {
      IncreasingNothing();
    }
  }

  lemma IncreasingNothing()
    ensures Increasing([])
  {
  }

  /** A tidy block is printed completely: every component exactly once, in order. */
  lemma PlanIsComplete(s: Store, b: nat)
    requires Tidy(s) && IsBlock(s, b)
    ensures Flatten(Plan(s, b)) == s[b].body.components
  {
    assert ValidBlock(s, b);
    var placed := Flatten(LineGroups(s, b, First(s, b)));
    var rest := Rest(s, b);
    FlattenConcat(LineGroups(s, b, First(s, b)), Singletons(rest));
    FlattenSingletons(rest);
    LineGroupsContent(s, b, First(s, b));
    RestChildren(s, b);
    forall c ensures c in placed + rest <==> c in s[b].body.components {
      if c < |s| && c >= 0 { UnplacedMember(s, b, s[b].body.components, c); }
      assert c in rest ==> c < |s|;
      assert c in s[b].body.components ==> c < |s|;
    }
    forall x, y | x in placed && y in rest ensures x < y {
      UnplacedMember(s, b, s[b].body.components, y);
      if y < x { assert InRange(s, b, s[x].startLine); }
    }
    IncreasingConcat(placed, rest);
    SameIncreasing(placed + rest, s[b].body.components);
  }

  ghost predicate AllSingle(g: seq<seq<nat>>) {
    forall k | 0 <= k < |g| :: |g[k]| == 1
  }

  lemma {:induction false} FlattenAt(g: seq<seq<nat>>)
    requires AllSingle(g)
    ensures |Flatten(g)| == |g| && forall k | 0 <= k < |g| :: Flatten(g)[k] == g[k][0]
  {
    if g != [] { FlattenAt(g[1..]); }
  }

  lemma SingleGroups(g: seq<seq<nat>>)
    requires AllSingle(g)
    ensures g == Singletons(Flatten(g))
  {
    hide Singletons, Flatten;
    FlattenAt(g);
    var h := Singletons(Flatten(g));
    assert forall k | 0 <= k < |g| :: h[k] == g[k];
  }

  lemma SharedLine(s: Store, b: nat, line: int, c: nat, d: nat)
    requires Valid(s) && IsBlock(s, b) && Referenced(s, b) && Separate(s, b) && InRange(s, b, line)
    requires c in RefsAt(s[b].body.lineRefs, line) && d in RefsAt(s[b].body.lineRefs, line)
    ensures c == d
  {
    assert ValidBlock(s, b);
  }

  lemma {:induction false} LineGroupsSingle(s: Store, b: nat, line: int)
    requires Valid(s) && IsBlock(s, b) && Referenced(s, b) && Separate(s, b)
    requires First(s, b) <= line
    ensures AllSingle(LineGroups(s, b, line))
    decreases s[b].endLine - line
  {
    hide Valid, Referenced, Separate;
    if line <= s[b].endLine {
      LineGroupsSingle(s, b, line + 1);
      var ids := RefsAt(s[b].body.lineRefs, line);
      if ids != [] { OneShares(s, b, line); }
    }
  }

  lemma OneShares(s: Store, b: nat, line: int)
    requires Valid(s) && IsBlock(s, b) && Referenced(s, b) && Separate(s, b) && InRange(s, b, line)
    requires RefsAt(s[b].body.lineRefs, line) != []
    ensures |RefsAt(s[b].body.lineRefs, line)| == 1
  {
    hide Valid, Referenced, Separate;
    var ids := RefsAt(s[b].body.lineRefs, line);
    LineIds(s, b, line);
    if |ids| > 1 {
      assert ids[0] in ids && ids[1] in ids && ids[0] < ids[1];
      SharedLine(s, b, line, ids[0], ids[1]);
    }
  }

  /** With one component per line, a block prints each of its components on a line of its own. */
  lemma PlanIsSingletons(s: Store, b: nat)
    requires OnePerLine(s) && IsBlock(s, b)
    ensures Plan(s, b) == Singletons(s[b].body.components)
  {
    PlanIsComplete(s, b);
    LineGroupsSingle(s, b, First(s, b));
    SingleGroups(Plan(s, b));
  }

  // ---- every parse is tidy ----

  /** Components are created in the order of their lines. */
  ghost predicate Chronological(s: Store, line: int) {
    && (s != [] ==> s[GLOBAL].startLine == 1)
    && (forall i | 0 < i < |s| :: 1 <= s[i].startLine <= line)
    && (forall i, j | 0 < i < j < |s| :: s[i].startLine <= s[j].startLine)
  }

  ghost predicate AllReferenced(s: Store)
    requires Valid(s)
  {
    forall b | 0 <= b < |s| && s[b].body.Block? :: Referenced(s, b)
  }

  ghost predicate ParseInvariant(st: ParseState) {
    && ValidState(st) && Chronological(st.store, st.line) && AllReferenced(st.store)
    && (st.line == 0 ==> st.data == "")
  }

  lemma ChronologicalTidy(s: Store, line: int)
    requires Valid(s) && Chronological(s, line) && AllReferenced(s)
    ensures Tidy(s)
  {
    hide Referenced;
    forall b | 0 <= b < |s| && s[b].body.Block? ensures Ordered(s, b) {
      assert ValidBlock(s, b);
    }
  }

  lemma ReferencedKept(s: Store, t: Store, b: nat)
    requires Valid(s) && Valid(t) && SameSkeleton(s, t) && IsBlock(s, b) && t[b].body == s[b].body && Referenced(s, b)
    ensures Referenced(t, b)
  {
    hide Valid;
    BlockChildren(s, b);
  }

  lemma BlockChildren(s: Store, b: nat)
    requires Valid(s) && IsBlock(s, b)
    ensures ChildrenOf(s, b, s[b].body.components)
  {
    assert ValidBlock(s, b);
  }

  lemma ReferencedAfterAdd(s: Store, b: nat, line: int, body: Body)
    requires Valid(s) && IsBlock(s, b) && Referenced(s, b)
    requires Valid(Append(s, b, line, body))
    ensures Referenced(Append(s, b, line, body), b)
  {
    hide Valid;
    var t := Append(s, b, line, body);
    BlockChildren(s, b);
    BlockChildren(t, b);
    assert t[b].body.components == s[b].body.components + [|s|];
    forall c | c in t[b].body.components ensures c in RefsAt(t[b].body.lineRefs, t[c].startLine) {
      assert c == |s| || c in s[b].body.components;
    }
  }

  lemma AppendReferenced(s: Store, b: nat, line: int, body: Body)
    requires Valid(s) && IsBlock(s, b) && AllReferenced(s)
    requires body.Block? ==> body.components == [] && body.lineRefs == map[]
    ensures Valid(Append(s, b, line, body)) && AllReferenced(Append(s, b, line, body))
  {
    hide Valid, Referenced;
    AppendValid(s, b, line, body);
    var t := Append(s, b, line, body);
    forall i | 0 <= i < |t| && t[i].body.Block? ensures Referenced(t, i) {
      if i == b {
        ReferencedAfterAdd(s, b, line, body);
      } else if i < |s| {
        ReferencedKept(s, t, i);
      } else {
        NothingReferenced(t, i);
      }
    }
  }

  lemma NothingReferenced(s: Store, b: nat)
    requires Valid(s) && IsBlock(s, b) && s[b].body.components == [] && s[b].body.lineRefs == map[]
    ensures Referenced(s, b)
  {
  }

  lemma EmitInvariant(st: ParseState, body: Body)
    requires ParseInvariant(st) && st.line > 0
    requires body.Block? ==> body.components == [] && body.lineRefs == map[]
    ensures ParseInvariant(st.(store := Append(st.store, st.block, st.line, body)))
  {
    hide Valid;
    AppendReferenced(st.store, st.block, st.line, body);
  }

  lemma CloseReferenced(s: Store, b: nat, line: int)
    requires Valid(s) && IsBlock(s, b) && AllReferenced(s)
    ensures Valid(s[b := s[b].(endLine := line)]) && AllReferenced(s[b := s[b].(endLine := line)])
  {
    hide Valid, Referenced;
    var t := s[b := s[b].(endLine := line)];
    CloseValid(s, b, line);
    forall i | 0 <= i < |t| && t[i].body.Block? ensures Referenced(t, i) {
      ReferencedKept(s, t, i);
    }
  }

  lemma CloseInvariant(st: ParseState)
    requires ParseInvariant(st)
    ensures ParseInvariant(st.(store := st.store[st.block := st.store[st.block].(endLine := st.line)]))
  {
    CloseReferenced(st.store, st.block, st.line);
  }

  lemma StepInvariant(st: ParseState)
    requires ParseInvariant(st)
    ensures Step(st).More? ==> ParseInvariant(Step(st).next)
    ensures Step(st).Finished? ==> ParseInvariant(Step(st).last)
    ensures Step(st).Failed? ==> ParseInvariant(Step(st).at)
  {
    hide Strip, PickFrom, TakeToken, Valid, Chronological, AllReferenced;
    StepValid(st);
    if Strip(st.data) == "" {
      if st.line < |st.lines| { EmptyLineInvariant(st); }
    } else {
      var token := PickFrom(TOKENS, st.data, st.minIndex);
      if token.Some? {
        var st0 := st.(minIndex := 0);
        TokenInvariant(st0, token.value, Find(st.data, token.value));
      } else if st.line < |st.lines| {
        ReadInvariant(st.(minIndex := |st.data|));
      }
    }
  }

  lemma ReadInvariant(st: ParseState)
    requires ParseInvariant(st) && st.line < |st.lines|
    ensures ParseInvariant(NewData(st))
  {
  }

  lemma EmptyLineInvariant(st: ParseState)
    requires ParseInvariant(st) && st.line < |st.lines|
    ensures ParseInvariant(NewData(st)) && ParseInvariant(ParseEmptyLine(NewData(st)))
  {
    hide Valid, AllReferenced;
    EmitInvariant(NewData(st), EmptyLine);
  }

  ghost predicate ResultInvariant(r: StepResult) {
    match r
    case More(next) => ParseInvariant(next)
    case Finished(last) => ParseInvariant(last)
    case Failed(at, _) => ParseInvariant(at)
  }

  /** Taking any token: a component is added to the current block, or the block is closed. */
  lemma TokenInvariant(st: ParseState, token: char, index: nat)
    requires ParseInvariant(st) && index < |st.data|
    ensures ResultInvariant(TakeToken(st, token, index))
  {
    hide Valid, Chronological, AllReferenced, Append, MakeValue, Split, Strip, Join, Unquote, ScanValues, ScanEnd;
    var text := Strip(st.data);
    var words := Split(st.data[..index]);
    if token == '#' {
      EmitInvariant(st, Comment(if text == "" then "" else text[1..]));
    } else if token == ';' {
      if words != [] && words[0] != "option" {
        EmitInvariant(st, Parameter(words[0], MakeValue(Unquote(Strip(Join(words[1..], SPACE))))));
      } else if |words| >= 2 {
        EmitInvariant(st, Choice(words[1], ScanEnd(ScanValues(SCANSTART, Strip(Join(words[2..], SPACE))))));
      }
    } else if token == '}' {
      CloseInvariant(st);
      ParentState(st.(store := st.store[st.block := st.store[st.block].(endLine := st.line)]));
    } else if words != [] {
      EmitInvariant(st, Block(words[0], words, [], map[]));
      NewBlockState(st, Block(words[0], words, [], map[]));
    }
  }

  lemma ParentState(st: ParseState)
    requires ValidState(st)
    ensures st.store[st.block].parent >= 0 ==> IsBlock(st.store, st.store[st.block].parent)
  {
  }

  lemma NewBlockState(st: ParseState, body: Body)
    requires IsBlock(st.store, st.block) && body.Block?
    ensures IsBlock(Append(st.store, st.block, st.line, body), |st.store|)
  {
  }

  lemma {:induction false} RunInvariant(st: ParseState)
    requires ParseInvariant(st)
    ensures ParseInvariant(Run(st).0)
    decreases |st.lines| - st.line, |st.data|
  {
    hide Step, Run, Chronological, AllReferenced, Valid;
    StepInvariant(st);
    RunStep(st);
    if Step(st).More? { RunInvariant(Step(st).next); }
  }

  /** Whatever the file contains, the components parsed from it form a tidy store. */
  lemma ParseIsTidy(lines: seq<string>)
    ensures Tidy(ParseLines(lines).0.store)
  {
    assert Referenced([GlobalBlock(|lines|)], GLOBAL);
    RunInvariant(Initial(lines));
    var end := ParseLines(lines).0;
    ChronologicalTidy(end.store, end.line);
  }
}
