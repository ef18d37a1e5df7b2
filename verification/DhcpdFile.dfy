/**
 The dhcpd.conf file object: its fields, and its methods with the loops they run. Every
 method is proved to do what the specification functions of the other modules say.
 */
module DhcpdFile {
  import opened Wrappers
  import opened Strings
  import opened Dicts
  import opened DhcpdModel
  import opened DhcpdParser
  import opened DhcpdPrinter
  import opened DhcpdHosts
  import opened DhcpdAddHost

  /** `data[:index]` with a possibly negative index. */
  function SliceTo(data: string, index: int): string {
    if index >= |data| then data
    else if index >= 0 then data[..index]
    else if |data| + index >= 0 then data[..|data| + index]
    else ""
  }

  /** The character loop that takes an option's value text apart. */
  method ParseValues(value: string) returns (values: seq<string>)
    ensures values == ScanEnd(ScanValues(SCANSTART, value))
  {
    var quote: Option<char> := None;
    var current := "";
    values := [];
    var i := 0;
    while i < |value|
      invariant 0 <= i <= |value|
      invariant ScanValues(ValueScan(values, current, quote), value[i..]) == ScanValues(SCANSTART, value)
    {
      var c := value[i];
      ghost var before := ValueScan(values, current, quote);
      if c == '"' {
        if quote == Some('"') {
          quote := None;
        } else if quote == Some('\'') {
          current := current + [c];
        } else {
          quote := Some('"');
        }
      } else if c == '\'' {
        if quote == Some('\'') {
          quote := None;
        } else if quote == Some('"') {
          current := current + [c];
        } else {
          quote := Some('\'');
        }
      } else if IsSpace(c) {
        current := current + [c];
      } else if c == ',' {
        if quote.Some? {
          current := current + [c];
        } else {
          values := values + [Strip(current)];
          current := "";
        }
      } else {
        current := current + [c];
      }
      assert ValueScan(values, current, quote) == ScanChar(before, c);
      assert value[i..][0] == c && value[i..][1..] == value[i + 1..];
      i := i + 1;
    }
    if current != "" {
      values := values + [Strip(current)];
    }
  }

  class DhcpdConfFile {
    var lines: seq<string>
    var currentLine: nat
    var currentToken: Option<char>
    var currentIndex: int
    var data: string
    var store: Store
    var currentBlock: nat
    var parsed: bool

    constructor ()
      ensures store == [GlobalBlock(0)] && !parsed
    {
      lines, currentLine, currentToken, currentIndex, data := [], 0, None, -1, "";
      store, currentBlock, parsed := [GlobalBlock(0)], GLOBAL, false;
    }

    ghost function State(minIndex: nat): ParseState
      reads this
    {
      ParseState(lines, currentLine, data, minIndex, store, currentBlock)
    }

    ghost predicate ValidFile()
      reads this
    {
      Valid(store) && IsBlock(store, currentBlock)
    }

    // ---- parsing ----

    method GetNewData() returns (more: bool)
      modifies this`data, this`currentLine
      ensures more == (old(currentLine) < |lines|)
      ensures more ==> forall m :: State(m) == NewData(old(State(m)))
      ensures !more ==> data == old(data) && currentLine == old(currentLine)
    {
      if currentLine >= |lines| {
        return false;
      }
      data := data + lines[currentLine];
      currentLine := currentLine + 1;
      return true;
    }

    /** `add_component` for a component that was just created in block `b`. */
    method AppendComponent(b: nat, line: int, body: Body)
      requires Valid(store) && IsBlock(store, b)
      requires body.Block? ==> body.components == [] && body.lineRefs == map[]
      modifies this`store
      ensures store == Append(old(store), b, line, body) && Valid(store)
    {
      AppendValid(store, b, line, body);
      var id := |store|;
      store := store + [Component(line, line, b, body)];
      AddComponent(b, id);
    }

    method AddComponent(b: nat, c: nat)
      requires IsBlock(store, b) && c < |store|
      modifies this`store
      ensures store == Add(old(store), b, c)
    {
      var block := store[b].body;
      var line := store[c].startLine;
      var refs := block.lineRefs;
      if line !in refs {
        refs := refs[line := []];
      }
      refs := refs[line := refs[line] + [c]];
      assert refs == block.lineRefs[line := RefsAt(block.lineRefs, line) + [c]];
      store := store[b := store[b].(body := block.(components := block.components + [c], lineRefs := refs))];
    }

    method RemoveComponent(b: nat, c: nat)
      requires IsBlock(store, b) && c < |store|
      modifies this`store
      ensures store == Remove(old(store), b, c)
    {
      var block := store[b].body;
      var line := store[c].startLine;
      var refs := block.lineRefs;
      if line in refs {
        refs := refs[line := Without(refs[line], c)];
      }
      store := store[b := store[b].(body := block.(components := Without(block.components, c), lineRefs := refs))];
    }

    method ParseEmptyline()
      requires ValidFile() && currentIndex == -1
      modifies this`store, this`data
      ensures forall m :: State(m) == DhcpdParser.ParseEmptyLine(old(State(m)))
      ensures ValidFile()
    {
      AppendComponent(currentBlock, currentLine, EmptyLine);
      data := SliceTo(data, currentIndex);
      EmptyLineValid(old(State(0)));
    }

    method ParseCommentToken()
      requires ValidFile() && 0 <= currentIndex < |data|
      modifies this`store, this`data
      ensures forall m :: State(m) == ParseComment(old(State(m)), currentIndex)
      ensures ValidFile()
    {
      var text := Strip(data);
      var comment := if text == "" then "" else text[1..];
      EmitValid(State(0), Comment(comment));
      AppendComponent(currentBlock, currentLine, Comment(comment));
      data := data[..currentIndex];
    }

    method ParseSemicolonToken() returns (error: Option<ParseError>)
      requires ValidFile() && 0 <= currentIndex < |data|
      modifies this`store, this`data
      ensures forall m :: ParseSemicolon(old(State(m)), currentIndex) ==
                if error == None then More(State(m)) else Failed(State(m), error.value)
      ensures ValidFile()
    {
      hide Valid, Split, Join, Strip, ScanValues, ScanEnd, MakeValue, Append;
      ParseSemicolonValid(State(0), currentIndex);
      var words := Split(data[..currentIndex]);
      data := data[currentIndex + 1..];
      if words == [] {
        return Some(IndexError);
      }
      if words[0] != "option" {
        var value := Strip(Join(words[1..], SPACE));
        if |value| > 1 && value[0] == '"' && value[|value| - 1] == '"' {
          value := value[1..|value| - 1];
        }
        AppendComponent(currentBlock, currentLine, Parameter(words[0], MakeValue(value)));
        return None;
      }
      if |words| < 2 {
        return Some(IndexError);
      }
      var values := ParseValues(Strip(Join(words[2..], SPACE)));
      AppendComponent(currentBlock, currentLine, Choice(words[1], values));
      return None;
    }

    method ParseLbracketToken() returns (error: Option<ParseError>)
      requires ValidFile() && 0 <= currentIndex < |data|
      modifies this`store, this`data, this`currentBlock
      ensures forall m :: ParseLbracket(old(State(m)), currentIndex) ==
                if error == None then More(State(m)) else Failed(State(m), error.value)
      ensures ValidFile()
    {
      var words := Split(data[..currentIndex]);
      data := data[currentIndex + 1..];
      if words == [] {
        return Some(IndexError);
      }
      EmitValid(State(0), Block(words[0], words, [], map[]));
      var block := |store|;
      AppendComponent(currentBlock, currentLine, Block(words[0], words, [], map[]));
      currentBlock := block;
      return None;
    }

    method ParseRbracketToken() returns (error: Option<ParseError>)
      requires ValidFile() && 0 <= currentIndex < |data|
      modifies this`store, this`data, this`currentBlock
      ensures forall m :: ParseRbracket(old(State(m)), currentIndex) ==
                if error == None then More(State(m)) else Failed(State(m), error.value)
      ensures ValidFile()
    {
      CloseValid(store, currentBlock, currentLine);
      data := data[currentIndex + 1..];
      store := store[currentBlock := store[currentBlock].(endLine := currentLine)];
      if store[currentBlock].parent < 0 {
        return Some(AssertionError);
      }
      currentBlock := store[currentBlock].parent;
      return None;
    }

    /** The search for the next token, which takes the tokens in their fixed order. */
    method FindToken(minIndex: nat)
      requires currentToken == None && currentIndex == -1
      modifies this`currentToken, this`currentIndex
      ensures currentToken == PickFrom(TOKENS, data, minIndex)
      ensures currentToken.Some? ==> currentIndex == Find(data, currentToken.value) >= 0
      ensures currentToken == None ==> currentIndex == -1
    {
      var k := 0;
      while k < |TOKENS|
        invariant 0 <= k <= |TOKENS| && currentToken == None && currentIndex == -1
        invariant PickFrom(TOKENS[k..], data, minIndex) == PickFrom(TOKENS, data, minIndex)
      {
        var token := TOKENS[k];
        var index := Find(data, token);
        assert TOKENS[k..][0] == token && TOKENS[k..][1..] == TOKENS[k + 1..];
        if index != -1 && index >= minIndex && (currentIndex == -1 || index < currentIndex) {
          if Count(data[..index], '"') % 2 == 1 || Count(data[..index], '\'') % 2 == 1 {
            k := k + 1;
            continue;
          }
          currentToken, currentIndex := Some(token), index;
          return;
        }
        k := k + 1;
      }
    }

    method HandleToken() returns (error: Option<ParseError>)
      requires ValidFile() && currentToken.Some? && currentToken.value in TOKENS && 0 <= currentIndex < |data|
      modifies this`store, this`data, this`currentBlock
      ensures forall m :: TakeToken(old(State(m)), currentToken.value, currentIndex) ==
                if error == None then More(State(m)) else Failed(State(m), error.value)
      ensures ValidFile()
    {
      error := None;
      if currentToken == Some('#') {
        ParseCommentToken();
      } else if currentToken == Some(';') {
        error := ParseSemicolonToken();
      } else if currentToken == Some('}') {
        error := ParseRbracketToken();
      } else {
        error := ParseLbracketToken();
      }
    }

    // ---- printing ----

    method GetShifting(i: nat) returns (shifting: string)
      requires Valid(store) && i < |store|
      ensures shifting == Shifting(store, i)
    {
      hide Valid, Depth, Tabs;
      shifting := "";
      ParentBelow(store, i);
      if store[i].parent < 0 {
        return;
      }
      DepthNext(store, store[i].parent);
      TabsNext(0);
      var block := store[store[i].parent].parent;
      ghost var depth := Depth(store, store[i].parent);
      ghost var left := depth;
      assert "" + Tabs(left) == Tabs(depth);
      while block >= 0
        invariant block < |store| && left == (if block < 0 then 0 else 1 + Depth(store, block))
        invariant shifting + Tabs(left) == Tabs(depth)
        decreases block
      {
        DepthNext(store, block);
        OneTab(shifting, left - 1);
        shifting := shifting + "\t";
        block := store[block].parent;
        left := left - 1;
      }
      assert shifting + "" == shifting;
    }

    /** `as_text` for any component; blocks forget what they print through line numbers. */
    method AsText(i: nat) returns (text: string)
      requires Valid(store) && i < |store|
      modifies this`store
      ensures text == DhcpdPrinter.AsText(old(store), i)
      ensures store == Printed(old(store), i) && Valid(store)
      decreases |store| - i, 2
    {
      hide Partly, Printed, PlacedIn, PlanText, Valid, Plan;
      ghost var s := store;
      PrintedThinned(s, i);
      ThinnedValid(s, Printed(s, i));
      var shifting := GetShifting(i);
      match store[i].body
      case Parameter(key, value) =>
        text := shifting + key + " " + ValueText(key, value) + ";";
        LeafPrinted(s, i);
      case Choice(name, values) =>
        text := shifting + "option " + name + " " + Join(OptionTexts(name, values), ", ") + ";";
        LeafPrinted(s, i);
      case Comment(comment) =>
        text := shifting + "#" + comment;
        LeafPrinted(s, i);
      case EmptyLine =>
        text := shifting;
        LeafPrinted(s, i);
      case Block(_, settings, _, _) =>
        var lineText := PrintLines(i);
        var restText := PrintRest(i, s);
        PlanParts(s, i);
        text := lineText + restText;
        if i != GLOBAL {
          text := shifting + Join(settings, SPACE) + " {\n" + text + shifting + "}";
        }
    }

    /** The loop over the lines of a block. */
    method PrintLines(b: nat) returns (text: string)
      requires Valid(store) && IsBlock(store, b)
      modifies this`store
      ensures text == PlanText(old(store), b, LineGroups(old(store), b, First(old(store), b)))
      ensures store == Partly(old(store), b, PlacedIn(old(store), b), PlacedIn(old(store), b))
      decreases |store| - b, 1
    {
      hide Partly, PlacedIn, PlacedBefore, PlanText, LineText, Valid;
      ghost var s := store;
      ghost var result := PlanText(s, b, LineGroups(s, b, First(s, b)));
      var line := First(store, b);
      text := "";
      PlacedStart(s, b);
      PartlyRecords(s, b, PlacedBefore(s, b, line), PlacedBefore(s, b, line), b);
      while line <= store[b].endLine
        invariant First(s, b) <= line && IsBlock(store, b) && store[b].endLine == s[b].endLine
        invariant store == Partly(s, b, PlacedBefore(s, b, line), PlacedBefore(s, b, line))
        invariant result == text + PlanText(s, b, LineGroups(s, b, line))
        decreases s[b].endLine - line
      {
        PlacedNext(s, b, line);
        PartlyRecords(s, b, PlacedBefore(s, b, line), PlacedBefore(s, b, line), b);
        LineStep(s, b, line);
        if line !in store[b].body.lineRefs || store[b].body.lineRefs[line] == [] {
          assert RefsAt(s[b].body.lineRefs, line) == [];
          assert PlacedBefore(s, b, line + 1) == PlacedBefore(s, b, line);
          line := line + 1;
          continue;
        }
        var lineText := PrintRefs(b, line, s);
        text := text + lineText;
        text := text + "\n";
        line := line + 1;
        PartlyRecords(s, b, PlacedBefore(s, b, line), PlacedBefore(s, b, line), b);
      }
      PlacedEnd(s, b, line);
    }

    /** The loop over the components of one line. */
    method PrintRefs(b: nat, line: int, ghost s: Store) returns (text: string)
      requires Valid(s) && IsBlock(s, b) && InRange(s, b, line) && line in s[b].body.lineRefs
      requires store == Partly(s, b, PlacedBefore(s, b, line), PlacedBefore(s, b, line))
      modifies this`store
      ensures ChildrenOf(s, b, s[b].body.lineRefs[line]) && text == LineText(s, b, s[b].body.lineRefs[line], 0)
      ensures store == Partly(s, b, PlacedBefore(s, b, line + 1), PlacedBefore(s, b, line + 1))
      decreases |store| - b, 0
    {
      hide Partly, PlacedBefore, Printed, OnlyPlaced, PrintAlike, LineGroups, Members, DhcpdPrinter.AsText, Valid, LineText, Without,
        ChildrenOf;
      BlockRefs(s, b, line);
      PlacedNext(s, b, line);
      PartlyRecords(s, b, PlacedBefore(s, b, line), PlacedBefore(s, b, line), b);
      var refs := store[b].body.lineRefs[line];
      ghost var before := PlacedBefore(s, b, line);
      text := "";
      MembersEnds(refs);
      assert before + Members(refs[..0]) == before;
      for k := 0 to |refs|
        invariant store == Partly(s, b, before + Members(refs[..k]), before + Members(refs[..k]))
        invariant text + LineText(s, b, refs, k) == LineText(s, b, refs, 0)
      {
        var c := refs[k];
        ghost var gone := before + Members(refs[..k]);
        RefStep(s, b, line, k);
        RefTextStep(s, b, refs, k, text);
        var compText := AsText(c);
        if k > 0 && store[c].body.Comment? {
          compText := " " + LStrip(compText);
        }
        text := text + compText;
        if c in store[b].body.components {
          store := store[b := store[b].(body := store[b].body.(components := Without(store[b].body.components, c)))];
        } else {
          WithoutAbsent(store[b].body.components, c);
          assert store == store[b := store[b].(body := store[b].body.(components := store[b].body.components))];
        }
      }
      LineTextEnd(s, b, refs, text);
    }

    /** The loop over the components that were not printed through a line. */
    method PrintRest(b: nat, ghost s: Store) returns (text: string)
      requires Valid(s) && IsBlock(s, b) && store == Partly(s, b, PlacedIn(s, b), PlacedIn(s, b))
      modifies this`store
      ensures ChildrenOf(s, b, Rest(s, b)) && text == RestText(s, b, Rest(s, b))
      ensures store == Printed(s, b)
      decreases |store| - b, 1
    {
      hide Partly, Printed, PlacedIn, PrintAlike, RestText, Members, Rest, OnlyPlaced, DhcpdPrinter.AsText, Valid;
      RestDropped(s, b);
      PartlyRecords(s, b, PlacedIn(s, b), PlacedIn(s, b), b);
      var rest := store[b].body.components;
      assert rest == Rest(s, b);
      ghost var gone := PlacedIn(s, b);
      text := "";
      MembersEnds(rest);
      assert gone + Members(rest[..0]) == gone;
      for k := 0 to |rest|
        invariant store == Partly(s, b, gone, gone + Members(rest[..k]))
        invariant text + RestText(s, b, rest[k..]) == RestText(s, b, rest)
      {
        var c := rest[k];
        ghost var done := gone + Members(rest[..k]);
        MembersNext(rest, k);
        assert gone + Members(rest[..k + 1]) == done + {c};
        PartlyRecords(s, b, gone, done, b);
        PrintChild(s, b, gone, done, c);
        var compText := AsText(c);
        text := text + compText + "\n";
        RestStep(s, b, rest[k..]);
        assert rest[k..][1..] == rest[k + 1..];
      }
      RestStep(s, b, rest[|rest|..]);
      AllDone(s, b);
    }

    /** The body of the parse loop: one round, with the new search bound and whether the file is at its end. */
    method ParseRound(minIndex: nat) returns (end: bool, next: nat, error: Option<ParseError>)
      requires ValidFile()
      modifies this`currentToken, this`currentIndex, this`currentLine, this`data, this`store, this`currentBlock
      ensures Step(old(State(minIndex))) ==
                if error.Some? then Failed(State(next), error.value) else if end then Finished(State(next)) else More(State(next))
      ensures ValidFile()
    {
      currentToken, currentIndex := None, -1;
      end, next, error := false, minIndex, None;
      if Strip(data) == "" {
        var more := GetNewData();
        if !more {
          end := true;
          return;
        }
        if Strip(data) == "" {
          ParseEmptyline();
        }
        return;
      }
      FindToken(minIndex);
      if currentToken == None {
        next := |data|;
        var more := GetNewData();
        end := !more;
        return;
      }
      next := 0;
      error := HandleToken();
    }

    /** Reads and parses the file. An exception leaves what was parsed by then. */
    method Parse(fileLines: seq<string>) returns (error: Option<ParseError>)
      modifies this
      ensures var (end, e) := ParseLines(fileLines);
              && error == e && parsed == (e == None)
              && lines == fileLines && store == end.store && currentBlock == end.block
              && data == end.data && currentLine == end.line
      ensures ValidFile()
    {
      hide Step, Run;
      currentLine, currentToken, currentIndex, data, parsed := 0, None, -1, "", false;
      lines := fileLines;
      store, currentBlock := [GlobalBlock(|lines|)], GLOBAL;
      var minIndex: nat := 0;
      ghost var result := ParseLines(fileLines);
      while true
        invariant ValidFile() && lines == fileLines && !parsed
        invariant Run(State(minIndex)) == result
        decreases |lines| - currentLine, |data|
      {
        ghost var st := State(minIndex);
        RunStep(st);
        var end;
        end, minIndex, error := ParseRound(minIndex);
        assert error == None && !end ==> Progress(st, State(minIndex));
        if error.Some? {
          return;
        }
        if end {
          break;
        }
      }
      parsed := true;
    }

    // ---- hosts ----

    method GetBlocks(b: nat, ty: string, recursive: bool) returns (blocks: seq<nat>)
      requires Valid(store) && IsBlock(store, b)
      ensures blocks == DhcpdHosts.GetBlocks(store, b, ty, recursive)
      decreases |store| - b
    {
      hide Valid, DhcpdHosts.GetBlocks, BlocksIn, BlocksOf, AllBlocks;
      BlockComponents(store, b);
      var components := store[b].body.components;
      FoundIn(store, b, ty, recursive);
      blocks := [];
      for k := 0 to |components|
        invariant blocks + BlocksIn(store, b, components[k..], ty, recursive) == BlocksIn(store, b, components, ty, recursive)
      {
        var c := components[k];
        NextBlocks(store, b, components, k, ty, recursive);
        if !store[c].body.Block? {
          continue;
        }
        if ty == ANY || store[c].body.blockType == ty {
          blocks := blocks + [c];
        }
        if recursive {
          var inner := GetBlocks(c, ty, recursive);
          blocks := blocks + inner;
        }
      }
    }

    method GetParametersHash(b: nat, inherit: Option<string>) returns (parameters: Parameters)
      requires Valid(store) && IsBlock(store, b)
      ensures parameters == GetParameters(store, b, inherit)
      decreases b
    {
      hide Valid;
      BlockComponents(store, b);
      var components := store[b].body.components;
      parameters := [];
      for k := 0 to |components|
        invariant PutParameters(store, components[k..], parameters) == OwnParameters(store, b)
      {
        assert components[k..][0] == components[k] && components[k..][1..] == components[k + 1..];
        match store[components[k]].body
        case Parameter(key, value) => parameters := Put(parameters, key, value);
        case _ =>
      }
      if inherit != None && inherit.value != "" && store[b].body.blockType != inherit.value && store[b].parent >= 0 {
        ParentBelow(store, b);
        ghost var own := parameters;
        var inherited := GetParametersHash(store[b].parent, inherit);
        for k := 0 to |inherited|
          invariant AddMissing(parameters, inherited[k..]) == AddMissing(own, inherited)
        {
          var (key, value) := inherited[k];
          assert inherited[k..][0] == (key, value) && inherited[k..][1..] == inherited[k + 1..];
          if Lookup(parameters, key) == None {
            parameters := Put(parameters, key, value);
          }
        }
      }
    }

    method GetHost(hostname: string, inherit: Option<string>) returns (r: Result<Option<Parameters>, HostError>)
      requires Valid(store)
      ensures r == DhcpdHosts.GetHost(store, Hosts(store), hostname, inherit)
    {
      var blocks := GetBlocks(GLOBAL, "host", true);
      for k := 0 to |blocks|
        invariant DhcpdHosts.GetHost(store, blocks[k..], hostname, inherit) == DhcpdHosts.GetHost(store, blocks, hostname, inherit)
      {
        var block := blocks[k];
        assert blocks[k..][0] == block && blocks[k..][1..] == blocks[k + 1..];
        if |store[block].body.settings| < 2 {
          return Err(MissingSetting);
        }
        if store[block].body.settings[1] == hostname {
          var parameters := GetParametersHash(block, inherit);
          return Ok(Some(parameters));
        }
      }
      return Ok(None);
    }

    /** Whether one of the entries is this fixed address. */
    method HasFixedAddress(block: nat, hostname: string) returns (found: bool)
      requires Valid(store) && IsBlock(store, block)
      ensures found == (Lookup(OwnParameters(store, block), FIXED) == Some(Str(hostname)))
    {
      var parameters := GetParametersHash(block, None);
      DistinctOwn(store, block);
      found := false;
      for k := 0 to |parameters|
        invariant found <==> exists j | 0 <= j < k :: parameters[j] == (FIXED, Str(hostname))
      {
        var (key, value) := parameters[k];
        if key == FIXED && value == Str(hostname) {
          found := true;
        }
      }
      EntryLookup(parameters, FIXED, Str(hostname));
    }

    method RemoveBlocks(blocks: seq<nat>)
      requires Valid(store) && forall k | 0 <= k < |blocks| :: 0 < blocks[k] < |store|
      modifies this`store
      ensures Valid(store) && store == RemoveAll(old(store), blocks)
    {
      hide Valid;
      ghost var s := store;
      for k := 0 to |blocks|
        invariant Valid(store) && |store| == |s|
        invariant RemoveAll(store, blocks[k..]) == RemoveAll(s, blocks)
      {
        var block := blocks[k];
        assert blocks[k..][0] == block && blocks[k..][1..] == blocks[k + 1..];
        ParentBelow(store, block);
        RemoveValid(store, store[block].parent, block);
        RemoveComponent(store[block].parent, block);
      }
    }

    method DeleteHost(hostname: string) returns (error: Option<HostError>)
      requires Valid(store)
      modifies this`store
      ensures Valid(store)
      ensures DhcpdHosts.DeleteHost(old(store), hostname) == if error == None then Ok(store) else Err(error.value)
      ensures error != None ==> store == old(store)
    {
      hide Valid, Hosts, HostsToDelete, Lookup, OwnParameters;
      GlobalHosts(store);
      var blocks := GetBlocks(GLOBAL, "host", true);
      var hostBlocks: seq<nat> := [];
      ghost var result := HostsToDelete(store, blocks, hostname);
      assert blocks[0..] == blocks;
      PrefixedConcat([], [], result);
      for k := 0 to |blocks|
        invariant store == old(store)
        invariant result == Prefixed(hostBlocks, HostsToDelete(store, blocks[k..], hostname))
      {
        var block := blocks[k];
        NextToDelete(store, blocks, k, hostname);
        if |store[block].body.settings| < 2 {
          return Some(MissingSetting);
        }
        PrefixedConcat(hostBlocks, if Deletes(store, block, hostname) then [block] else [],
                       HostsToDelete(store, blocks[k + 1..], hostname));
        if store[block].body.settings[1] == hostname {
          hostBlocks := hostBlocks + [block];
        } else {
          var fixed := HasFixedAddress(block, hostname);
          if fixed {
            hostBlocks := hostBlocks + [block];
          }
        }
      }
      NoneToDelete(store, hostname);
      PrefixedConcat(hostBlocks, [], Ok([]));
      RemoveBlocks(hostBlocks);
      return None;
    }

    /** Whether the host uses one of the addresses. */
    method UsesAddress(block: nat, hardware: string, fixed: string) returns (used: bool)
      requires Valid(store) && IsBlock(store, block)
      ensures used <==> Uses(OwnParameters(store, block), FIXED, fixed) || Uses(OwnParameters(store, block), HARDWARE, "ethernet " + hardware)
    {
      hide Valid, OwnParameters, Lower, ValueString, Uses;
      var parameters := GetParametersHash(block, None);
      DistinctOwn(store, block);
      used := false;
      EntryUses(parameters, FIXED, fixed);
      EntryUses(parameters, HARDWARE, "ethernet " + hardware);
      for k := 0 to |parameters|
        invariant used <==> exists j | 0 <= j < k :: IsUse(parameters[j], FIXED, fixed) || IsUse(parameters[j], HARDWARE, "ethernet " + hardware)
      {
        var (key, value) := parameters[k];
        if key == FIXED && Lower(ValueString(value)) == fixed {
          used := true;
        }
        if key == HARDWARE && Lower(ValueString(value)) == "ethernet " + hardware {
          used := true;
        }
      }
    }

    method CheckHosts(hostname: string, hardware: string, fixed: string) returns (r: Result<bool, HostError>)
      requires Valid(store)
      ensures r == DhcpdHosts.CheckHosts(store, Hosts(store), hostname, hardware, fixed, false)
    {
      hide Valid, Hosts, OwnParameters, Lower, Uses, ValueString;
      GlobalHosts(store);
      var blocks := GetBlocks(GLOBAL, "host", true);
      var existing := false;
      assert blocks[0..] == blocks;
      for k := 0 to |blocks|
        invariant DhcpdHosts.CheckHosts(store, blocks[k..], hostname, hardware, fixed, existing)
                    == DhcpdHosts.CheckHosts(store, blocks, hostname, hardware, fixed, false)
      {
        var block := blocks[k];
        assert blocks[k..][0] == block && blocks[k..][1..] == blocks[k + 1..];
        if |store[block].body.settings| < 2 {
          return Err(MissingSetting);
        }
        if Lower(store[block].body.settings[1]) == hostname {
          existing := true;
        } else {
          var used := UsesAddress(block, hardware, fixed);
          if used {
            return Err(AddressInUse);
          }
        }
      }
      return Ok(existing);
    }

    /** The search for the subnet; the last one that contains the address is taken. */
    method FindSubnet(inNetwork: string -> bool) returns (r: Result<nat, HostError>)
      requires Valid(store)
      ensures r == LastMatch(store, DhcpdHosts.GetBlocks(store, GLOBAL, "subnet", true), inNetwork, GLOBAL)
    {
      hide Valid, DhcpdHosts.GetBlocks;
      GlobalHosts(store);
      var parent := GLOBAL;
      var blocks := GetBlocks(GLOBAL, "subnet", true);
      assert blocks[0..] == blocks;
      for k := 0 to |blocks|
        invariant IsBlock(store, parent)
        invariant LastMatch(store, blocks[k..], inNetwork, parent) == LastMatch(store, blocks, inNetwork, GLOBAL)
      {
        var block := blocks[k];
        assert blocks[k..][0] == block && blocks[k..][1..] == blocks[k + 1..];
        var settings := store[block].body.settings;
        if |settings| < 4 {
          return Err(MissingSetting);
        }
        if inNetwork(settings[1] + "/" + settings[3]) {
          parent := block;
        }
      }
      return Ok(parent);
    }

    method MatchCount(group: nat, parameters: Parameters) returns (count: int)
      requires Valid(store) && IsBlock(store, group)
      ensures count == GroupScore(store, group, parameters)
    {
      hide Valid, GetParameters, Lookup;
      var inherited := GetParametersHash(group, GLOBALTYPE);
      count := 0;
      for k := 0 to |inherited|
        invariant count + Score(inherited[k..], parameters) == Score(inherited, parameters)
      {
        var (key, value) := inherited[k];
        assert inherited[k..][0] == (key, value) && inherited[k..][1..] == inherited[k + 1..];
        match Lookup(parameters, key)
        case None =>
        case Some(requested) => count := if requested == value then count + 1 else count - 1;
      }
    }

    /** The search for the best group directly in a block. */
    method FindGroup(parent: nat, parameters: Parameters) returns (best: Option<nat>)
      requires Valid(store) && IsBlock(store, parent)
      ensures best == BestGroup(store, DhcpdHosts.GetBlocks(store, parent, "group", false), parameters, None, -1)
    {
      hide Valid, DhcpdHosts.GetBlocks, GroupScore;
      var blocks := GetBlocks(parent, "group", false);
      best := None;
      var bestCount := -1;
      assert blocks[0..] == blocks;
      for k := 0 to |blocks|
        invariant best.Some? ==> IsBlock(store, best.value)
        invariant BestGroup(store, blocks[k..], parameters, best, bestCount) == BestGroup(store, blocks, parameters, None, -1)
      {
        var block := blocks[k];
        assert blocks[k..][0] == block && blocks[k..][1..] == blocks[k + 1..];
        var count := MatchCount(block, parameters);
        if count > bestCount {
          bestCount := count;
          best := Some(block);
        }
      }
    }

    method RemoveInherited(parent: nat, parameters: Parameters) returns (own: Parameters)
      requires Valid(store) && IsBlock(store, parent)
      ensures own == DropInherited(GetParameters(store, parent, GLOBALTYPE), parameters)
    {
      hide Valid, GetParameters, Lookup, Delete;
      var inherited := GetParametersHash(parent, GLOBALTYPE);
      own := parameters;
      for k := 0 to |inherited|
        invariant DropInherited(inherited[k..], own) == DropInherited(inherited, parameters)
      {
        var (key, value) := inherited[k];
        assert inherited[k..][0] == (key, value) && inherited[k..][1..] == inherited[k + 1..];
        if Lookup(own, key) == Some(value) {
          own := Delete(own, key);
        }
      }
    }

    /** The new host block with its parameters, added to its parent. */
    method CreateHost(parent: nat, hostname: string, hardware: string, fixed: string, parameters: Parameters)
      requires Valid(store) && IsBlock(store, parent)
      modifies this`store
      ensures store == Add(WithHost(old(store), parent, hostname, HostParameters(hardware, fixed, parameters)), parent, |old(store)|)
    {
      hide Valid;
      var all := HostParameters(hardware, fixed, parameters);
      var host := |store|;
      ghost var goal := WithHost(store, parent, hostname, all);
      NewValid(store, Component(-1, -1, parent, Block("host", ["host", hostname], [], map[])));
      store := store + [Component(-1, -1, parent, Block("host", ["host", hostname], [], map[]))];
      for k := 0 to |all|
        invariant Valid(store) && IsBlock(store, host) && AppendParameters(store, host, all[k..]) == goal
      {
        assert all[k..][0] == all[k] && all[k..][1..] == all[k + 1..];
        var (key, value) := all[k];
        AppendValid(store, host, -1, Parameter(key, Normalise(value)));
        AppendComponent(host, -1, Parameter(key, Normalise(value)));
      }
      AddComponent(parent, host);
    }

    /** The conversion of the requested values. */
    method NormaliseParameters(parameters: Parameters) returns (normalised: Parameters)
      ensures normalised == NormaliseAll(parameters)
    {
      normalised := [];
      for k := 0 to |parameters|
        invariant normalised + NormaliseAll(parameters[k..]) == NormaliseAll(parameters)
      {
        var (key, value) := parameters[k];
        assert parameters[k..][0] == (key, value) && parameters[k..][1..] == parameters[k + 1..];
        normalised := normalised + [(key, Normalise(value))];
      }
    }

    method AddHost(hostname: string, hardware: string, inNetwork: string -> bool, fixed: string, parameters: Parameters)
      returns (error: Option<HostError>)
      requires Valid(store)
      modifies this`store
      ensures (store, error) == DhcpdHosts.AddHost(old(store), hostname, hardware, inNetwork, fixed, parameters)
    {
      hide Valid, DhcpdHosts.CheckHosts, DhcpdHosts.DeleteHost, LastMatch, BestGroup, DropInherited, WithHost, NormaliseAll;
      var check := CheckHosts(hostname, hardware, fixed);
      if check.Err? {
        return Some(check.error);
      }
      if check.value {
        error := DeleteHost(hostname);
        if error != None {
          return;
        }
      }
      var requested := NormaliseParameters(parameters);
      var subnet := FindSubnet(inNetwork);
      if subnet.Err? {
        return Some(subnet.error);
      }
      var parent := subnet.value;
      var group := FindGroup(parent, requested);
      if group.Some? {
        parent := group.value;
      }
      requested := RemoveInherited(parent, requested);
      CreateHost(parent, hostname, hardware, fixed, requested);
      return None;
    }
  }

  lemma EmptyLineValid(st: ParseState)
    requires ValidState(st)
    ensures ValidState(DhcpdParser.ParseEmptyLine(st))
  {
    EmitValid(st, EmptyLine);
  }

  lemma BlockComponents(s: Store, b: nat)
    requires Valid(s) && IsBlock(s, b)
    ensures ChildrenOf(s, b, s[b].body.components)
  {
    assert ValidBlock(s, b);
  }

  lemma FoundIn(s: Store, b: nat, ty: string, recursive: bool)
    requires Valid(s) && IsBlock(s, b) && ChildrenOf(s, b, s[b].body.components)
    ensures DhcpdHosts.GetBlocks(s, b, ty, recursive) == BlocksIn(s, b, s[b].body.components, ty, recursive)
    ensures BlocksIn(s, b, [], ty, recursive) == []
  {
  }

  /** The next child of a block in a search. */
  lemma NextBlocks(s: Store, b: nat, ids: seq<nat>, k: nat, ty: string, recursive: bool)
    requires Valid(s) && IsBlock(s, b) && ChildrenOf(s, b, ids) && k < |ids|
    ensures var c := ids[k];
            BlocksIn(s, b, ids[k..], ty, recursive) ==
              (if !s[c].body.Block? then []
               else (if ty == ANY || s[c].body.blockType == ty then [c] else [])
                    + (if recursive then DhcpdHosts.GetBlocks(s, c, ty, recursive) else []))
              + BlocksIn(s, b, ids[k + 1..], ty, recursive)
  {
    hide Valid, DhcpdHosts.GetBlocks, AllBlocks;
    assert ids[k..][0] == ids[k] && ids[k..][1..] == ids[k + 1..];
  }

  lemma GlobalHosts(s: Store)
    requires Valid(s)
    ensures IsBlock(s, GLOBAL) && Hosts(s) == DhcpdHosts.GetBlocks(s, GLOBAL, "host", true)
    ensures AllBlocks(s, Hosts(s)) && forall k | 0 <= k < |Hosts(s)| :: Hosts(s)[k] > 0
  {
  }

  lemma NoneToDelete(s: Store, hostname: string)
    requires Valid(s)
    ensures HostsToDelete(s, [], hostname) == Ok([])
  {
  }

  /** The next host that a deletion looks at. */
  lemma NextToDelete(s: Store, hosts: seq<nat>, k: nat, hostname: string)
    requires Valid(s) && AllBlocks(s, hosts) && (forall j | 0 <= j < |hosts| :: hosts[j] > 0) && k < |hosts|
    ensures var later := HostsToDelete(s, hosts[k + 1..], hostname);
            HostsToDelete(s, hosts[k..], hostname) ==
              if |s[hosts[k]].body.settings| < 2 then Err(MissingSetting)
              else Prefixed(if Deletes(s, hosts[k], hostname) then [hosts[k]] else [], later)
  {
    hide Valid, Deletes;
    assert hosts[k..][0] == hosts[k] && hosts[k..][1..] == hosts[k + 1..];
  }

  lemma TabsNext(n: nat)
    ensures Tabs(n + 1) == "\t" + Tabs(n) && Tabs(0) == ""
  {
  }

  lemma DepthNext(s: Store, b: nat)
    requires Valid(s) && b < |s|
    ensures s[b].parent < b && Depth(s, b) == if s[b].parent < 0 then 0 else 1 + Depth(s, s[b].parent)
  {
    hide ValidBlock;
  }

  lemma OneTab(shifting: string, n: nat)
    ensures shifting + Tabs(n + 1) == (shifting + "\t") + Tabs(n)
  {
    TabsNext(n);
    hide Tabs;
    assert shifting + ("\t" + Tabs(n)) == (shifting + "\t") + Tabs(n);
  }

  lemma ParentBelow(s: Store, b: nat)
    requires Valid(s) && b < |s|
    ensures b > 0 ==> s[b].parent >= 0
    ensures s[b].parent >= 0 ==> b > 0 && s[b].parent < b && IsBlock(s, s[b].parent)
  {
  }

  lemma DistinctOwn(s: Store, b: nat)
    requires Valid(s) && IsBlock(s, b)
    ensures GetParameters(s, b, None) == OwnParameters(s, b) && Distinct(OwnParameters(s, b))
  {
    DistinctParameters(s, b, None);
  }

  lemma EntryLookup(d: Parameters, key: string, value: Value)
    requires Distinct(d)
    ensures Lookup(d, key) == Some(value) <==> exists j | 0 <= j < |d| :: d[j] == (key, value)
  {
    if j: nat :| j < |d| && d[j] == (key, value) {
      LookupMember(d, j);
    }
    if Lookup(d, key) == Some(value) {
      LookupAbsent(d, key);
      var j :| 0 <= j < |d| && d[j].0 == key;
      LookupMember(d, j);
      assert d[j] == (key, value);
    }
  }

  /** The blocks found so far, before those still to come. */
  function Prefixed(ids: seq<nat>, rest: Result<seq<nat>, HostError>): Result<seq<nat>, HostError> {
    match rest case Ok(more) => Ok(ids + more) case Err(e) => Err(e)
  }

  lemma PrefixedConcat(ids: seq<nat>, more: seq<nat>, rest: Result<seq<nat>, HostError>)
    ensures Prefixed(ids, Prefixed(more, rest)) == Prefixed(ids + more, rest)
    ensures Prefixed([], rest) == rest && ids + [] == ids
  {
    if rest.Ok? {
      assert ids + (more + rest.value) == (ids + more) + rest.value;
      assert [] + rest.value == rest.value;
    }
  }

  predicate IsUse(entry: (string, Value), key: string, lowered: string) {
    entry.0 == key && Lower(ValueString(entry.1)) == lowered
  }

  lemma EntryUses(d: Parameters, key: string, lowered: string)
    requires Distinct(d)
    ensures Uses(d, key, lowered) <==> exists j | 0 <= j < |d| :: IsUse(d[j], key, lowered)
  {
    hide Lower, ValueString;
    if j: nat :| j < |d| && IsUse(d[j], key, lowered) {
      LookupMember(d, j);
    }
    if Lookup(d, key).Some? {
      LookupAbsent(d, key);
      var j :| 0 <= j < |d| && d[j].0 == key;
      LookupMember(d, j);
      assert IsUse(d[j], key, lowered) <==> Uses(d, key, lowered);
    }
  }
}
