/**
 The line- and token-driven parser of dhcpd.conf files, one step at a time.

 A step either reads a further line or consumes the text up to one structural token. The
 tokens are looked for in a fixed order, not by position, and only the first occurrence of
 each token is considered.
 */
module DhcpdParser {
  import opened Wrappers
  import opened Strings
  import opened DhcpdModel

  const TOKENS: seq<char> := ['#', ';', '}', '{']

  datatype ParseError = IndexError | AssertionError

  datatype ParseState = ParseState(lines: seq<string>, line: nat, data: string, minIndex: nat, store: Store, block: nat)

  datatype StepResult = More(next: ParseState) | Finished(last: ParseState) | Failed(at: ParseState, error: ParseError)

  // ---- values ----

  predicate IsYes(s: string) { Lower(s) == "yes" || Lower(s) == "true" || Lower(s) == "on" }

  predicate IsNo(s: string) { Lower(s) == "no" || Lower(s) == "false" || Lower(s) == "off" }

  /** The value a parameter object stores for a text: on/off words become booleans. */
  function MakeValue(s: string): Value {
    if IsYes(s) then Flag(true) else if IsNo(s) then Flag(false) else Str(s)
  }

  predicate Enclosed(s: string) {
    |s| > 1 && s[0] == '"' && s[|s| - 1] == '"'
  }

  function Unquote(s: string): string {
    if Enclosed(s) then s[1..|s| - 1] else s
  }

  /** The character loop over an option's value text: finished values, current characters, open quote. */
  datatype ValueScan = ValueScan(values: seq<string>, current: string, quote: Option<char>)

  function ScanChar(v: ValueScan, c: char): ValueScan {
    if c == '"' then
      if v.quote == Some('"') then v.(quote := None)
      else if v.quote == Some('\'') then v.(current := v.current + [c])
      else v.(quote := Some('"'))
    else if c == '\'' then
      if v.quote == Some('\'') then v.(quote := None)
      else if v.quote == Some('"') then v.(current := v.current + [c])
      else v.(quote := Some('\''))
    else if IsSpace(c) then v.(current := v.current + [c])
    else if c == ',' then
      if v.quote.Some? then v.(current := v.current + [c])
      else v.(values := v.values + [Strip(v.current)], current := "")
    else v.(current := v.current + [c])
  }

  function ScanValues(v: ValueScan, s: string): ValueScan
    decreases |s|
  {
    if s == "" then v else ScanValues(ScanChar(v, s[0]), s[1..])
  }

  function ScanEnd(v: ValueScan): seq<string> {
    if v.current != "" then v.values + [Strip(v.current)] else v.values
  }

  const SCANSTART := ValueScan([], "", None)

  // ---- tokens ----

  predicate EvenQuotes(s: string) {
    Count(s, '"') % 2 == 0 && Count(s, '\'') % 2 == 0
  }

  /** Whether the first occurrence of a token is acceptable. */
  predicate Accepts(data: string, minIndex: nat, token: char) {
    var i := Find(data, token);
    i != -1 && i >= minIndex && EvenQuotes(data[..i])
  }

  function PickFrom(tokens: seq<char>, data: string, minIndex: nat): (r: Option<char>)
    ensures r.Some? ==> r.value in tokens && Accepts(data, minIndex, r.value)
  {
    if tokens == [] then None
    else if Accepts(data, minIndex, tokens[0]) then Some(tokens[0])
    else PickFrom(tokens[1..], data, minIndex)
  }

  // ---- one step ----

  function ParseEmptyLine(st: ParseState): ParseState
    requires IsBlock(st.store, st.block)
  {
    st.(store := Append(st.store, st.block, st.line, EmptyLine),
        data := if st.data == "" then "" else st.data[..|st.data| - 1])
  }

  function ParseComment(st: ParseState, index: nat): ParseState
    requires IsBlock(st.store, st.block) && index < |st.data|
  {
    var text := Strip(st.data);
    st.(store := Append(st.store, st.block, st.line, Comment(if text == "" then "" else text[1..])),
        data := st.data[..index])
  }

  function ParseSemicolon(st: ParseState, index: nat): StepResult
    requires IsBlock(st.store, st.block) && index < |st.data|
  {
    var words := Split(st.data[..index]);
    var st := st.(data := st.data[index + 1..]);
    if words == [] then Failed(st, IndexError)
    else if words[0] != "option" then
      var value := Unquote(Strip(Join(words[1..], SPACE)));
      More(st.(store := Append(st.store, st.block, st.line, Parameter(words[0], MakeValue(value)))))
    else if |words| < 2 then Failed(st, IndexError)
    else
      var values := ScanEnd(ScanValues(SCANSTART, Strip(Join(words[2..], SPACE))));
      More(st.(store := Append(st.store, st.block, st.line, Choice(words[1], values))))
  }

  function ParseLbracket(st: ParseState, index: nat): StepResult
    requires IsBlock(st.store, st.block) && index < |st.data|
  {
    var words := Split(st.data[..index]);
    var st := st.(data := st.data[index + 1..]);
    if words == [] then Failed(st, IndexError)
    else
      More(st.(store := Append(st.store, st.block, st.line, Block(words[0], words, [], map[])),
               block := |st.store|))
  }

  function ParseRbracket(st: ParseState, index: nat): StepResult
    requires IsBlock(st.store, st.block) && index < |st.data|
  {
    var st := st.(data := st.data[index + 1..],
                  store := st.store[st.block := st.store[st.block].(endLine := st.line)]);
    var parent := st.store[st.block].parent;
    if parent < 0 then Failed(st, AssertionError) else More(st.(block := parent))
  }

  function TakeToken(st: ParseState, token: char, index: nat): StepResult
    requires IsBlock(st.store, st.block) && index < |st.data|
  {
    if token == '#' then More(ParseComment(st, index))
    else if token == ';' then ParseSemicolon(st, index)
    else if token == '}' then ParseRbracket(st, index)
    else ParseLbracket(st, index)
  }

  function NewData(st: ParseState): ParseState
    requires st.line < |st.lines|
  {
    st.(data := st.data + st.lines[st.line], line := st.line + 1)
  }

  ghost predicate ValidState(st: ParseState) {
    Valid(st.store) && IsBlock(st.store, st.block)
  }

  function Step(st: ParseState): StepResult
    requires IsBlock(st.store, st.block)
  {
    if Strip(st.data) == "" then
      if st.line >= |st.lines| then Finished(st)
      else
        var st := NewData(st);
        if Strip(st.data) == "" then More(ParseEmptyLine(st)) else More(st)
    else
      match PickFrom(TOKENS, st.data, st.minIndex)
      case None =>
        var st := st.(minIndex := |st.data|);
        if st.line >= |st.lines| then Finished(st) else More(NewData(st))
      case Some(token) =>
        TakeToken(st.(minIndex := 0), token, Find(st.data, token))
  }

  lemma EmitValid(st: ParseState, body: Body)
    requires ValidState(st)
    requires body.Block? ==> body.components == [] && body.lineRefs == map[]
    ensures ValidState(st.(store := Append(st.store, st.block, st.line, body)))
    ensures ValidState(st.(store := Append(st.store, st.block, st.line, body), block := if body.Block? then |st.store| else st.block))
  {
    AppendValid(st.store, st.block, st.line, body);
  }

  lemma ParseSemicolonValid(st: ParseState, index: nat)
    requires ValidState(st) && index < |st.data|
    ensures match ParseSemicolon(st, index) case More(n) => ValidState(n) case Failed(at, _) => ValidState(at) case Finished(_) => false
  {
    var words := Split(st.data[..index]);
    if words != [] && words[0] != "option" {
      EmitValid(st, Parameter(words[0], MakeValue(Unquote(Strip(Join(words[1..], SPACE))))));
    } else if |words| >= 2 {
      EmitValid(st, Choice(words[1], ScanEnd(ScanValues(SCANSTART, Strip(Join(words[2..], SPACE))))));
    }
  }

  /** Steps preserve well-formedness, on success and on failure. */
  lemma StepValid(st: ParseState)
    requires ValidState(st)
    ensures Step(st).More? ==> ValidState(Step(st).next)
    ensures Step(st).Finished? ==> ValidState(Step(st).last)
    ensures Step(st).Failed? ==> ValidState(Step(st).at)
  {
    if Strip(st.data) == "" {
      if st.line < |st.lines| { EmitValid(NewData(st), EmptyLine); }
    } else {
      var token := PickFrom(TOKENS, st.data, st.minIndex);
      if token.Some? {
        var index := Find(st.data, token.value);
        var st0 := st.(minIndex := 0);
        var text := Strip(st.data);
        if token.value == '#' {
          EmitValid(st0, Comment(if text == "" then "" else text[1..]));
        } else if token.value == ';' {
          ParseSemicolonValid(st0, index);
        } else if token.value == '}' {
          CloseValid(st.store, st.block, st.line);
        } else {
          var words := Split(st.data[..index]);
          if words != [] { EmitValid(st0, Block(words[0], words, [], map[])); }
        }
      }
    }
  }

  lemma CloseValid(s: Store, b: nat, line: int)
    requires Valid(s) && IsBlock(s, b)
    ensures Valid(s[b := s[b].(endLine := line)])
  {
    var t := s[b := s[b].(endLine := line)];
    forall i | 0 <= i < |t| && t[i].body.Block? ensures ValidBlock(t, i) {
      ValidBlockFrame(s, t, i);
    }
  }

  /** The whole parse: the state in which it ends and the exception it ends with, if any. */
  ghost function Run(st: ParseState): (r: (ParseState, Option<ParseError>))
    requires ValidState(st)
    ensures ValidState(r.0)
    decreases |st.lines| - st.line, |st.data|
  {
    hide Step, Valid;
    StepValid(st);
    StepProgress(st);
    match Step(st)
    case More(next) => Run(next)
    case Finished(last) => (last, None)
    case Failed(at, error) => (at, Some(error))
  }

  function Initial(lines: seq<string>): ParseState {
    ParseState(lines, 0, "", 0, [GlobalBlock(|lines|)], GLOBAL)
  }

  ghost function ParseLines(lines: seq<string>): (r: (ParseState, Option<ParseError>))
    ensures ValidState(r.0)
  {
    Run(Initial(lines))
  }

  /** A line was read, or the text at hand got shorter. */
  predicate Progress(st: ParseState, next: ParseState) {
    next.lines == st.lines && ((st.line < next.line <= |st.lines|) || (next.line == st.line && |next.data| < |st.data|))
  }

  lemma TokenProgress(st: ParseState, token: char, index: nat)
    requires IsBlock(st.store, st.block) && index < |st.data|
    ensures TakeToken(st, token, index).More? ==> Progress(st, TakeToken(st, token, index).next)
  {
  }

  lemma StepProgress(st: ParseState)
    requires IsBlock(st.store, st.block)
    ensures Step(st).More? ==> Progress(st, Step(st).next)
  {
    if Strip(st.data) != "" {
      var token := PickFrom(TOKENS, st.data, st.minIndex);
      if token.Some? { TokenProgress(st.(minIndex := 0), token.value, Find(st.data, token.value)); }
    }
  }

  lemma RunStep(st: ParseState)
    requires ValidState(st)
    ensures Step(st).More? ==>
              ValidState(Step(st).next) && Run(st) == Run(Step(st).next) && Progress(st, Step(st).next)
    ensures Step(st).Finished? ==> Run(st) == (Step(st).last, None)
    ensures Step(st).Failed? ==> Run(st) == (Step(st).at, Some(Step(st).error))
  {
    StepValid(st);
    StepProgress(st);
  }
}
