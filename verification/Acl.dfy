/**
 The access control file: which objects and attributes the clients of an RPC method may use.
 Every character of an entry's parameters drives a small state machine.
 */
module Acl {
  import opened Wrappers
  import opened Strings

  const ALL := "all"
  const SELF := "self"
  const DEPOTSERVER := "opsi_depotserver"
  const CLIENT := "opsi_client"
  const SYSGROUP := "sys_group"
  const SYSUSER := "sys_user"

  predicate TakesIds(ty: string) {
    ty == DEPOTSERVER || ty == CLIENT || ty == SYSGROUP || ty == SYSUSER
  }

  predicate KnownType(ty: string) {
    ty == ALL || ty == SELF || TakesIds(ty)
  }

  /** An access control entry for the methods that match a pattern. */
  datatype Ace = Ace(pattern: string, ty: string, id: Option<string>, allowed: set<string>, denied: set<string>)

  datatype Error = BadLine | BadPattern | MissingBracket | UnknownType | NoParameters | BadParameters | UnknownParameter | IndexError

  // ---- the machine that reads the parameters of an entry ----

  /** The parameter being read, its values in brackets, and what the finished parameters gave. */
  datatype Machine = Machine(
    param: string, values: seq<string>, inValues: bool, ids: seq<string>, allowed: set<string>, denied: set<string>)

  const STARTED := Machine("", [""], false, [], {}, {})

  /** The group names that replace the placeholders in a group id. */
  type Groups = string -> string

  function Attributes(values: seq<string>, denied: bool): set<string> {
    if values == [] then {}
    else
      var value := Strip(values[0]);
      (if value == "" || (value[0] == '!') != denied then {} else {if denied then Strip(value[1..]) else value})
      + Attributes(values[1..], denied)
  }

  function Finish(m: Machine, ty: string, groups: Groups): Result<Machine, Error> {
    var param := Strip(m.param);
    if param == "attributes" then
      Ok(Machine("", [""], m.inValues, m.ids, m.allowed + Attributes(m.values, false), m.denied + Attributes(m.values, true)))
    else if TakesIds(ty) then
      Ok(Machine("", [""], m.inValues, m.ids + [if ty == SYSGROUP then groups(param) else param], m.allowed, m.denied))
    else Err(UnknownParameter)
  }

  predicate Balanced(m: Machine) {
    m.values != []
  }

  function AppendLast(values: seq<string>, c: char): seq<string>
    requires values != []
  {
    values[|values| - 1 := values[|values| - 1] + [c]]
  }

  /** What one character does to the parameter, before it may end it. */
  function ReadChar(m: Machine, c: char, last: bool): (r: Result<Machine, Error>)
    requires Balanced(m)
    ensures r.Ok? ==> Balanced(r.value)
  {
    if c == '(' then
      if m.inValues then Err(BadParameters) else Ok(m.(inValues := true))
    else if c == ')' then
      if !m.inValues || m.param == "" then Err(BadParameters) else Ok(m.(inValues := false))
    else if c != ',' || last then
      if m.inValues then Ok(m.(values := AppendLast(m.values, c))) else Ok(m.(param := m.param + [c]))
    else Ok(m)
  }

  function EndParam(m: Machine, ty: string, groups: Groups, c: char, last: bool): (r: Result<Machine, Error>)
    requires Balanced(m)
    ensures r.Ok? ==> Balanced(r.value)
  {
    if c != ',' && !last then Ok(m)
    else if m.inValues then
      if last then Err(BadParameters) else Ok(m.(values := m.values + [""]))
    else Finish(m, ty, groups)
  }

  function Step(m: Machine, ty: string, groups: Groups, c: char, last: bool): (r: Result<Machine, Error>)
    requires Balanced(m)
    ensures r.Ok? ==> Balanced(r.value)
  {
    match ReadChar(m, c, last)
    case Err(e) => Err(e)
    case Ok(m1) => EndParam(m1, ty, groups, c, last)
  }

  function Run(m: Machine, ty: string, groups: Groups, text: string): Result<Machine, Error>
    requires Balanced(m)
    decreases |text|
  {
    if text == "" then Ok(m)
    else
      match Step(m, ty, groups, text[0], |text| == 1)
      case Err(e) => Err(e)
      case Ok(m1) => Run(m1, ty, groups, text[1..])
  }

  // ---- entries, lines and files ----

  function Aces(pattern: string, ty: string, ids: seq<string>, allowed: set<string>, denied: set<string>): seq<Ace> {
    if ids == [] then [Ace(pattern, ty, None, allowed, denied)]
    else seq(|ids|, i requires 0 <= i < |ids| => Ace(pattern, ty, Some(ids[i]), allowed, denied))
  }

  function TypeAces(pattern: string, ty: string, params: string, groups: Groups): Result<seq<Ace>, Error> {
    if ty == "" then Ok([])
    else if !KnownType(ty) then Err(UnknownType)
    else if params == "" then
      if ty == SYSGROUP || ty == SYSUSER then Err(NoParameters) else Ok([Ace(pattern, ty, None, {}, {})])
    else
      match Run(STARTED, ty, groups, params)
      case Err(e) => Err(e)
      case Ok(m) => Ok(Aces(pattern, ty, m.ids, m.allowed, m.denied))
  }

  function EntryAces(pattern: string, text: string, groups: Groups): Result<seq<Ace>, Error> {
    var entry := Strip(text);
    var i := Find(entry, '(');
    if i == -1 then TypeAces(pattern, entry, "", groups)
    else
      var params := entry[i + 1..];
      if params == "" then Err(IndexError)
      else if params[|params| - 1] != ')' then Err(MissingBracket)
      else TypeAces(pattern, Strip(entry[..i]), params[..|params| - 1], groups)
  }

  function SplitAt(text: string, c: char): seq<string>
    decreases |text|
  {
    var i := Find(text, c);
    if i == -1 then [text] else [text[..i]] + SplitAt(text[i + 1..], c)
  }

  function EntriesAces(pattern: string, entries: seq<string>, groups: Groups): Result<seq<Ace>, Error> {
    if entries == [] then Ok([])
    else
      match EntryAces(pattern, entries[0], groups)
      case Err(e) => Err(e)
      case Ok(first) =>
        match EntriesAces(pattern, entries[1..], groups)
        case Err(e) => Err(e)
        case Ok(more) => Ok(first + more)
  }

  /** Which method patterns are regular expressions. */
  type Compiles = string -> bool

  function LineAces(text: string, groups: Groups, compiles: Compiles): Result<seq<Ace>, Error> {
    var line := Strip(text);
    if line == "" || line[0] == '#' then Ok([])
    else
      var i := Find(line, ':');
      if i < 1 || Blank(line[i + 1..]) then Err(BadLine)
      else if !compiles(Strip(line[..i])) then Err(BadPattern)
      else EntriesAces(Strip(line[..i]), SplitAt(LStrip(line[i + 1..]), ';'), groups)
  }

  /** `read_acl_file`, for the lines of the file. */
  function FileAces(lines: seq<string>, groups: Groups, compiles: Compiles): Result<seq<Ace>, Error> {
    if lines == [] then Ok([])
    else
      match LineAces(lines[0], groups, compiles)
      case Err(e) => Err(e)
      case Ok(first) =>
        match FileAces(lines[1..], groups, compiles)
        case Err(e) => Err(e)
        case Ok(more) => Ok(first + more)
  }

  // ---- the loops ----

  /** The character loop. */
  method ReadParams(ty: string, params: string, groups: Groups) returns (result: Result<Machine, Error>)
    ensures result == Run(STARTED, ty, groups, params)
  {
    var m := STARTED;
    for k := 0 to |params|
      invariant Balanced(m) && Run(m, ty, groups, params[k..]) == Run(STARTED, ty, groups, params)
    {
      var c, last := params[k], k == |params| - 1;
      assert params[k..][0] == c && params[k..][1..] == params[k + 1..] && |params[k..]| == |params| - k;
      ghost var before := m;
      if c == '(' {
        if m.inValues {
          return Err(BadParameters);
        }
        m := m.(inValues := true);
      } else if c == ')' {
        if !m.inValues || m.param == "" {
          return Err(BadParameters);
        }
        m := m.(inValues := false);
      } else if c != ',' || last {
        if m.inValues {
          m := m.(values := AppendLast(m.values, c));
        } else {
          m := m.(param := m.param + [c]);
        }
      }
      assert ReadChar(before, c, last) == Ok(m);
      if c == ',' || last {
        if m.inValues {
          if last {
            return Err(BadParameters);
          }
          m := m.(values := m.values + [""]);
        } else {
          var finished := Finish(m, ty, groups);
          if finished.Err? {
            return Err(finished.error);
          }
          m := finished.value;
        }
      }
      assert Step(before, ty, groups, c, last) == Ok(m);
    }
    return Ok(m);
  }

  method ReadEntry(pattern: string, text: string, groups: Groups) returns (result: Result<seq<Ace>, Error>)
    ensures result == EntryAces(pattern, text, groups)
  {
    hide Run, Strip;
    var entry := Strip(text);
    var ty, params := entry, "";
    var i := Find(entry, '(');
    if i != -1 {
      ty, params := entry[..i], entry[i + 1..];
      if params == "" {
        return Err(IndexError);
      }
      if params[|params| - 1] != ')' {
        return Err(MissingBracket);
      }
      ty := Strip(ty);
      params := params[..|params| - 1];
    }
    if ty == "" {
      return Ok([]);
    }
    if !KnownType(ty) {
      return Err(UnknownType);
    }
    if params == "" {
      if ty == SYSGROUP || ty == SYSUSER {
        return Err(NoParameters);
      }
      return Ok([Ace(pattern, ty, None, {}, {})]);
    }
    var machine := ReadParams(ty, params, groups);
    if machine.Err? {
      return Err(machine.error);
    }
    var m := machine.value;
    if m.ids == [] {
      return Ok([Ace(pattern, ty, None, m.allowed, m.denied)]);
    }
    var acl: seq<Ace> := [];
    for k := 0 to |m.ids|
      invariant acl == Aces(pattern, ty, m.ids, m.allowed, m.denied)[..k]
    {
      acl := acl + [Ace(pattern, ty, Some(m.ids[k]), m.allowed, m.denied)];
    }
    assert acl == Aces(pattern, ty, m.ids, m.allowed, m.denied);
    return Ok(acl);
  }

  method ReadAclFile(lines: seq<string>, groups: Groups, compiles: Compiles) returns (result: Result<seq<Ace>, Error>)
    ensures result == FileAces(lines, groups, compiles)
  {
    hide LineAces;
    var acl: seq<Ace> := [];
    PrependedTwice([], [], FileAces(lines, groups, compiles));
    assert lines[0..] == lines;
    for k := 0 to |lines|
      invariant FileAces(lines, groups, compiles) == Prepended(acl, FileAces(lines[k..], groups, compiles))
    {
      assert lines[k..][0] == lines[k] && lines[k..][1..] == lines[k + 1..];
      var line := ReadLine(lines[k], groups, compiles);
      if line.Err? {
        return Err(line.error);
      }
      PrependedTwice(acl, line.value, FileAces(lines[k + 1..], groups, compiles));
      acl := acl + line.value;
    }
    PrependedTwice(acl, [], Ok([]));
    return Ok(acl);
  }

  method ReadLine(text: string, groups: Groups, compiles: Compiles) returns (result: Result<seq<Ace>, Error>)
    ensures result == LineAces(text, groups, compiles)
  {
    hide EntryAces, Strip, LStrip, SplitAt;
    var line := Strip(text);
    if line == "" || line[0] == '#' {
      return Ok([]);
    }
    var i := Find(line, ':');
    if i < 1 || Blank(line[i + 1..]) {
      return Err(BadLine);
    }
    if !compiles(Strip(line[..i])) {
      return Err(BadPattern);
    }
    var pattern, entries := Strip(line[..i]), SplitAt(LStrip(line[i + 1..]), ';');
    var acl: seq<Ace> := [];
    PrependedTwice([], [], EntriesAces(pattern, entries, groups));
    assert entries[0..] == entries;
    for k := 0 to |entries|
      invariant EntriesAces(pattern, entries, groups) == Prepended(acl, EntriesAces(pattern, entries[k..], groups))
    {
      assert entries[k..][0] == entries[k] && entries[k..][1..] == entries[k + 1..];
      var entry := ReadEntry(pattern, entries[k], groups);
      if entry.Err? {
        return Err(entry.error);
      }
      PrependedTwice(acl, entry.value, EntriesAces(pattern, entries[k + 1..], groups));
      acl := acl + entry.value;
    }
    PrependedTwice(acl, [], Ok([]));
    return Ok(acl);
  }

  function Prepended(acl: seq<Ace>, rest: Result<seq<Ace>, Error>): Result<seq<Ace>, Error> {
    match rest case Ok(more) => Ok(acl + more) case Err(e) => Err(e)
  }

  lemma PrependedTwice(a: seq<Ace>, b: seq<Ace>, rest: Result<seq<Ace>, Error>)
    ensures Prepended(a, Prepended(b, rest)) == Prepended(a + b, rest)
    ensures Prepended([], rest) == rest && a + [] == a
  {
    if rest.Ok? {
      assert a + (b + rest.value) == (a + b) + rest.value;
      assert [] + rest.value == rest.value;
    }
  }

  // ---- printed entries ----

  /** An attribute of an object, after blank space. */
  datatype Attribute = Attribute(gap: string, name: string, denied: bool)

  /** A parameter of an entry, after blank space: an id, or a list of attributes. */
  datatype Item = Id(gap: string, id: string) | AttributeList(gap: string, attributes: seq<Attribute>)

  predicate Special(c: char) {
    c == '(' || c == ')' || c == ',' || c == ';'
  }

  /** Free of separators and brackets. */
  predicate Clean(s: string) {
    forall i | 0 <= i < |s| :: !Special(s[i])
  }

  predicate CleanName(s: string) {
    s != "" && Trimmed(s) && Clean(s)
  }

  predicate CleanAttribute(a: Attribute) {
    Blank(a.gap) && CleanName(a.name) && a.name[0] != '!'
  }

  predicate CleanItem(item: Item) {
    Blank(item.gap) &&
    match item
    case Id(_, id) => CleanName(id) && id != "attributes"
    case AttributeList(_, attributes) => attributes != [] && forall i | 0 <= i < |attributes| :: CleanAttribute(attributes[i])
  }

  function SignedName(a: Attribute): string {
    if a.denied then "!" + a.name else a.name
  }

  function AttributeText(a: Attribute): string {
    a.gap + SignedName(a)
  }

  function AttributesText(attributes: seq<Attribute>): string {
    if attributes == [] then ""
    else if |attributes| == 1 then AttributeText(attributes[0])
    else AttributeText(attributes[0]) + ("," + AttributesText(attributes[1..]))
  }

  function ItemText(item: Item): string {
    match item
    case Id(gap, id) => gap + id
    case AttributeList(gap, attributes) => gap + "attributes(" + AttributesText(attributes) + ")"
  }

  function ItemsText(items: seq<Item>): string {
    if items == [] then ""
    else if |items| == 1 then ItemText(items[0])
    else ItemText(items[0]) + ("," + ItemsText(items[1..]))
  }

  function Names(attributes: seq<Attribute>, denied: bool): set<string> {
    set a | a in attributes && a.denied == denied :: a.name
  }

  /** What the items say: the ids in order, and the attributes that are allowed or denied. */
  function IdsOf(items: seq<Item>, ty: string, groups: Groups): seq<string> {
    if items == [] then []
    else
      (match items[0] case Id(_, id) => [if ty == SYSGROUP then groups(id) else id] case _ => []) + IdsOf(items[1..], ty, groups)
  }

  function NamesOf(items: seq<Item>, denied: bool): set<string> {
    if items == [] then {}
    else (match items[0] case AttributeList(_, attributes) => Names(attributes, denied) case _ => {}) + NamesOf(items[1..], denied)
  }

  // ---- running over a printed entry ----

  /** Characters without meaning are collected. */
  lemma {:induction false} PlainRun(m: Machine, ty: string, groups: Groups, word: string, rest: string)
    requires !m.inValues && Clean(word) && rest != "" && Balanced(m)
    ensures Run(m, ty, groups, word + rest) == Run(m.(param := m.param + word), ty, groups, rest)
    decreases |word|
  {
    hide Finish;
    if word == "" {
      assert word + rest == rest && m.param + word == m.param;
    } else {
      assert (word + rest)[1..] == word[1..] + rest;
      PlainRun(m.(param := m.param + [word[0]]), ty, groups, word[1..], rest);
      assert m.param + [word[0]] + word[1..] == m.param + word;
    }
  }

  lemma {:induction false} ValueRun(m: Machine, ty: string, groups: Groups, word: string, rest: string)
    requires m.inValues && Clean(word) && rest != "" && Balanced(m)
    ensures var last := m.values[|m.values| - 1];
            Run(m, ty, groups, word + rest) == Run(m.(values := m.values[|m.values| - 1 := last + word]), ty, groups, rest)
    decreases |word|
  {
    hide Finish;
    var n := |m.values| - 1;
    if word == "" {
      assert word + rest == rest && m.values[n] + word == m.values[n] && m.values[n := m.values[n]] == m.values;
    } else {
      assert (word + rest)[1..] == word[1..] + rest;
      var m1 := m.(values := AppendLast(m.values, word[0]));
      ValueRun(m1, ty, groups, word[1..], rest);
      assert m.values[n] + [word[0]] + word[1..] == m.values[n] + word;
      assert m1.values[n := m.values[n] + word] == m.values[n := m.values[n] + word];
    }
  }

  /** The last plain characters end the parameter. */
  lemma {:induction false} PlainEnd(m: Machine, ty: string, groups: Groups, word: string)
    requires !m.inValues && Clean(word) && word != "" && Balanced(m)
    ensures Run(m, ty, groups, word) == Finish(m.(param := m.param + word), ty, groups)
  {
    hide Finish;
    var init, c := word[..|word| - 1], word[|word| - 1];
    assert word == init + [c];
    PlainRun(m, ty, groups, init, [c]);
    assert [c][1..] == "";
    assert m.param + init + [c] == m.param + word;
    var m1 := m.(param := m.param + init);
    assert Step(m1, ty, groups, c, true) == Finish(m1.(param := m1.param + [c]), ty, groups);
  }

  lemma CommaRun(m: Machine, ty: string, groups: Groups, rest: string)
    requires !m.inValues && rest != "" && Balanced(m)
    requires Finish(m, ty, groups).Ok? && Balanced(Finish(m, ty, groups).value)
    ensures Run(m, ty, groups, "," + rest) == Run(Finish(m, ty, groups).value, ty, groups, rest)
  {
    hide Finish;
    assert ("," + rest)[1..] == rest;
  }

  lemma NextValue(m: Machine, ty: string, groups: Groups, rest: string)
    requires m.inValues && Balanced(m) && rest != ""
    ensures Run(m, ty, groups, "," + rest) == Run(m.(values := m.values + [""]), ty, groups, rest)
  {
    hide Finish;
    assert ("," + rest)[1..] == rest;
  }

  lemma BlankClean(w: string)
    requires Blank(w)
    ensures Clean(w)
  {
  }

  lemma TextClean(a: Attribute)
    requires CleanAttribute(a)
    ensures Clean(AttributeText(a))
  {
    BlankClean(a.gap);
  }

  /** The value texts as the machine collects them. */
  function Texts(attributes: seq<Attribute>): seq<string> {
    if attributes == [] then [] else [AttributeText(attributes[0])] + Texts(attributes[1..])
  }

  /** One attribute and the comma behind it. */
  lemma FirstAttribute(m: Machine, ty: string, groups: Groups, text: string, later: string)
    requires m.inValues && Balanced(m) && m.values[|m.values| - 1] == "" && Clean(text) && later != ""
    ensures Run(m, ty, groups, text + ("," + later)) == Run(m.(values := m.values[..|m.values| - 1] + [text, ""]), ty, groups, later)
  {
    hide Run, Clean;
    var n := |m.values| - 1;
    ValueRun(m, ty, groups, text, "," + later);
    var m1 := m.(values := m.values[n := "" + text]);
    NextValue(m1, ty, groups, later);
    assert "" + text == text;
    assert m1.values + [""] == m.values[..n] + [text, ""];
  }

  lemma TextsStep(head: seq<string>, attributes: seq<Attribute>)
    requires attributes != []
    ensures var values := head + [AttributeText(attributes[0]), ""];
            |values| == |head| + 2 && values[|values| - 1] == ""
            && values[..|values| - 1] + Texts(attributes[1..]) == head + Texts(attributes)
  {
    hide AttributeText, Texts;
    assert Texts(attributes) == [AttributeText(attributes[0])] + Texts(attributes[1..]) by { TextsFirst(attributes); }
    OneBefore(head, AttributeText(attributes[0]), Texts(attributes[1..]));
  }

  lemma TextsFirst(attributes: seq<Attribute>)
    requires attributes != []
    ensures Texts(attributes) == [AttributeText(attributes[0])] + Texts(attributes[1..])
  {
  }

  lemma OneBefore(head: seq<string>, x: string, rest: seq<string>)
    ensures (head + [x, ""])[..|head| + 1] + rest == head + ([x] + rest)
  {
    assert (head + [x, ""])[..|head| + 1] == head + [x];
  }

  lemma TextsOne(attributes: seq<Attribute>)
    requires |attributes| == 1
    ensures Texts(attributes) == [AttributeText(attributes[0])]
  {
    assert Texts(attributes[1..]) == [];
  }

  /** An attribute at the end of the list. */
  lemma LastAttribute(m: Machine, ty: string, groups: Groups, text: string, rest: string)
    requires m.inValues && Balanced(m) && m.values[|m.values| - 1] == "" && Clean(text) && rest != ""
    ensures Run(m, ty, groups, text + rest) == Run(m.(values := m.values[..|m.values| - 1] + [text]), ty, groups, rest)
  {
    hide Run, Clean;
    var n := |m.values| - 1;
    ValueRun(m, ty, groups, text, rest);
    assert "" + text == text && m.values[n := text] == m.values[..n] + [text];
  }

  lemma AttributesSplit(attributes: seq<Attribute>, rest: string)
    requires attributes != []
    ensures AttributesText(attributes) + rest ==
              if |attributes| == 1 then AttributeText(attributes[0]) + rest
              else AttributeText(attributes[0]) + ("," + (AttributesText(attributes[1..]) + rest))
  {
    hide AttributeText, AttributesText;
    AttributesFirst(attributes);
    CommaBetween(AttributeText(attributes[0]), AttributesText(attributes[1..]), rest);
  }

  lemma AttributesFirst(attributes: seq<Attribute>)
    requires attributes != []
    ensures AttributesText(attributes) ==
              if |attributes| == 1 then AttributeText(attributes[0]) else AttributeText(attributes[0]) + ("," + AttributesText(attributes[1..]))
  {
  }

  lemma CommaBetween(text: string, more: string, rest: string)
    ensures text + ("," + more) + rest == text + ("," + (more + rest))
  {
  }

  /** One attribute after the other, up to the closing bracket. */
  lemma {:induction false} AttributesRun(m: Machine, ty: string, groups: Groups, attributes: seq<Attribute>, rest: string)
    requires m.inValues && Balanced(m) && m.values[|m.values| - 1] == "" && rest != ""
    requires attributes != [] && forall i | 0 <= i < |attributes| :: CleanAttribute(attributes[i])
    ensures Run(m, ty, groups, AttributesText(attributes) + rest) ==
              Run(m.(values := m.values[..|m.values| - 1] + Texts(attributes)), ty, groups, rest)
    decreases |attributes|
  {
    hide Run, Clean, CleanAttribute, AttributeText, AttributesText, Texts;
    var head := m.values[..|m.values| - 1];
    var text := AttributeText(attributes[0]);
    TextClean(attributes[0]);
    AttributesSplit(attributes, rest);
    if |attributes| == 1 {
      LastAttribute(m, ty, groups, text, rest);
      TextsOne(attributes);
    } else {
      var later := AttributesText(attributes[1..]) + rest;
      FirstAttribute(m, ty, groups, text, later);
      TextsStep(head, attributes);
      AttributesRun(m.(values := head + [text, ""]), ty, groups, attributes[1..], rest);
    }
  }

  lemma SignedText(a: Attribute)
    requires CleanAttribute(a)
    ensures var text := SignedName(a);
            && Strip(AttributeText(a)) == text && text != "" && (text[0] == '!' <==> a.denied)
            && (a.denied ==> Strip(text[1..]) == a.name)
  {
    var text := SignedName(a);
    StripMargins(a.gap, text, "");
    assert a.gap + text + "" == a.gap + text;
    if a.denied {
      assert ("!" + a.name)[1..] == a.name;
      StripMargins("", a.name, "");
      assert "" + a.name + "" == a.name;
    }
  }

  lemma NamesCons(a: Attribute, more: seq<Attribute>, denied: bool)
    ensures Names([a] + more, denied) == (if a.denied == denied then {a.name} else {}) + Names(more, denied)
  {
    var all := [a] + more;
    forall x ensures x in all <==> x == a || x in more { }
  }

  lemma {:induction false} TextsNames(attributes: seq<Attribute>, denied: bool)
    requires forall i | 0 <= i < |attributes| :: CleanAttribute(attributes[i])
    ensures Attributes(Texts(attributes), denied) == Names(attributes, denied)
    decreases |attributes|
  {
    hide Strip, CleanAttribute, Names, AttributeText;
    if attributes != [] {
      var a, more := attributes[0], attributes[1..];
      assert attributes == [a] + more;
      TextsNames(more, denied);
      SignedText(a);
      NamesCons(a, more, denied);
      assert Texts(attributes)[1..] == Texts(more);
    } else {
      NoNames(denied);
    }
  }

  lemma NoNames(denied: bool)
    ensures Names([], denied) == {}
  {
  }

  // ---- one parameter ----

  /** Between two parameters nothing is collected. */
  ghost predicate Between(m: Machine) {
    m == Machine("", [""], false, m.ids, m.allowed, m.denied)
  }

  /** The machine after an item was taken in. */
  function Taken(m: Machine, item: Item, ty: string, groups: Groups): Machine {
    match item
    case Id(_, id) => Machine("", [""], false, m.ids + [if ty == SYSGROUP then groups(id) else id], m.allowed, m.denied)
    case AttributeList(_, attributes) =>
      Machine("", [""], false, m.ids, m.allowed + Names(attributes, false), m.denied + Names(attributes, true))
  }

  /** What the machine has collected when the item ends. */
  function Collected(m: Machine, item: Item): Machine {
    match item
    case Id(gap, id) => m.(param := gap + id)
    case AttributeList(gap, attributes) => m.(param := gap + "attributes", values := Texts(attributes))
  }

  predicate Fits(item: Item, ty: string) {
    CleanItem(item) && (item.Id? ==> TakesIds(ty))
  }

  lemma FinishItem(m: Machine, item: Item, ty: string, groups: Groups)
    requires Between(m) && Fits(item, ty)
    ensures Finish(Collected(m, item), ty, groups) == Ok(Taken(m, item, ty, groups))
  {
    match item
    case Id(gap, id) =>
      StripMargins(gap, id, "");
      assert gap + id + "" == gap + id;
    case AttributeList(gap, attributes) =>
      StripMargins(gap, "attributes", "");
      assert gap + "attributes" + "" == gap + "attributes";
      TextsNames(attributes, false);
      TextsNames(attributes, true);
  }

  lemma BeforeBracket(m: Machine, ty: string, groups: Groups, gap: string, attributes: seq<Attribute>, rest: string)
    requires Between(m) && CleanItem(AttributeList(gap, attributes))
    ensures Run(m, ty, groups, ItemText(AttributeList(gap, attributes)) + rest) ==
              Run(Collected(m, AttributeList(gap, attributes)).(inValues := true), ty, groups, ")" + rest)
  {
    hide Run, Texts, AttributesText, Clean, Blank, CleanAttribute;
    var text := AttributesText(attributes);
    var word := gap + "attributes";
    WordClean(gap);
    assert ItemText(AttributeList(gap, attributes)) + rest == word + ("(" + (text + (")" + rest)));
    PlainRun(m, ty, groups, word, "(" + (text + (")" + rest)));
    assert "" + word == word;
    var m1 := m.(param := word);
    OpenRun(m1, ty, groups, text + (")" + rest));
    AttributesRun(m1.(inValues := true), ty, groups, attributes, ")" + rest);
    assert m1.values[..0] + Texts(attributes) == Texts(attributes);
  }

  lemma WordClean(gap: string)
    requires Blank(gap)
    ensures Clean(gap + "attributes")
  {
    BlankClean(gap);
  }

  lemma OpenRun(m: Machine, ty: string, groups: Groups, rest: string)
    requires !m.inValues && Balanced(m) && rest != ""
    ensures Run(m, ty, groups, "(" + rest) == Run(m.(inValues := true), ty, groups, rest)
  {
    hide Finish;
    assert ("(" + rest)[1..] == rest;
  }

  lemma CloseRun(m: Machine, ty: string, groups: Groups, rest: string)
    requires m.inValues && Balanced(m) && m.param != ""
    ensures rest != "" ==> Run(m, ty, groups, ")" + rest) == Run(m.(inValues := false), ty, groups, rest)
    ensures rest == "" ==> Run(m, ty, groups, ")" + rest) == Finish(m.(inValues := false), ty, groups)
  {
    hide Finish;
    assert (")" + rest)[1..] == rest;
    if rest == "" {
      assert ")" + rest == ")";
      assert Step(m, ty, groups, ')', true) == Finish(m.(inValues := false), ty, groups);
    }
  }

  lemma TextsNotEmpty(attributes: seq<Attribute>)
    requires attributes != []
    ensures Texts(attributes) != []
  {
  }

  lemma IdClean(gap: string, id: string)
    requires CleanItem(Id(gap, id))
    ensures Clean(gap + id) && gap + id != ""
  {
    BlankClean(gap);
  }

  /** An item at the end of the parameters. */
  lemma LastItem(m: Machine, item: Item, ty: string, groups: Groups)
    requires Between(m) && Fits(item, ty)
    ensures Run(m, ty, groups, ItemText(item)) == Ok(Taken(m, item, ty, groups))
  {
    hide Run, Finish, Texts, Clean;
    FinishItem(m, item, ty, groups);
    match item
    case Id(gap, id) =>
      IdClean(gap, id);
      PlainEnd(m, ty, groups, gap + id);
      assert "" + (gap + id) == gap + id;
    case AttributeList(gap, attributes) =>
      assert ItemText(item) + "" == ItemText(item);
      BeforeBracket(m, ty, groups, gap, attributes, "");
      TextsNotEmpty(attributes);
      CloseRun(Collected(m, item).(inValues := true), ty, groups, "");
  }

  /** An item that a comma follows. */
  lemma NextItem(m: Machine, item: Item, ty: string, groups: Groups, rest: string)
    requires Between(m) && Fits(item, ty) && rest != ""
    ensures Run(m, ty, groups, ItemText(item) + ("," + rest)) == Run(Taken(m, item, ty, groups), ty, groups, rest)
  {
    hide Run, Finish, Texts, Clean;
    FinishItem(m, item, ty, groups);
    var after := "," + rest;
    match item {
      case Id(gap, id) =>
        IdClean(gap, id);
        PlainRun(m, ty, groups, gap + id, after);
        assert "" + (gap + id) == gap + id;
      case AttributeList(gap, attributes) =>
        BeforeBracket(m, ty, groups, gap, attributes, after);
        TextsNotEmpty(attributes);
        CloseRun(Collected(m, item).(inValues := true), ty, groups, after);
    }
    CommaRun(Collected(m, item), ty, groups, rest);
  }

  // ---- all parameters ----

  /** Reading printed parameters collects exactly their ids and attributes. */
  lemma {:induction false} ItemsRun(m: Machine, items: seq<Item>, ty: string, groups: Groups)
    requires Between(m) && items != [] && forall i | 0 <= i < |items| :: Fits(items[i], ty)
    ensures Run(m, ty, groups, ItemsText(items)) ==
              Ok(Machine("", [""], false, m.ids + IdsOf(items, ty, groups), m.allowed + NamesOf(items, false), m.denied + NamesOf(items, true)))
    decreases |items|
  {
    hide Run, Fits, Taken, IdsOf, NamesOf, ItemText;
    var t := Taken(m, items[0], ty, groups);
    TakenIds(m, items, ty, groups);
    if |items| == 1 {
      LastItem(m, items[0], ty, groups);
      NothingMore(t, ty, groups);
      assert items[1..] == [];
    } else {
      var rest := ItemsText(items[1..]);
      ItemsNotEmpty(items[1..], ty);
      NextItem(m, items[0], ty, groups, rest);
      ItemsRun(t, items[1..], ty, groups);
    }
  }

  lemma NothingMore(m: Machine, ty: string, groups: Groups)
    ensures m.ids + IdsOf([], ty, groups) == m.ids && m.allowed + NamesOf([], false) == m.allowed && m.denied + NamesOf([], true) == m.denied
  {
  }

  lemma TakenIds(m: Machine, items: seq<Item>, ty: string, groups: Groups)
    requires items != []
    ensures var t := Taken(m, items[0], ty, groups);
            && t == Machine("", [""], false, t.ids, t.allowed, t.denied)
            && t.ids + IdsOf(items[1..], ty, groups) == m.ids + IdsOf(items, ty, groups)
            && t.allowed + NamesOf(items[1..], false) == m.allowed + NamesOf(items, false)
            && t.denied + NamesOf(items[1..], true) == m.denied + NamesOf(items, true)
  {
    hide Names;
    var ids, allowed, denied := IdsOf(items[1..], ty, groups), NamesOf(items[1..], false), NamesOf(items[1..], true);
    match items[0]
    case Id(_, id) =>
      var one := [if ty == SYSGROUP then groups(id) else id];
      assert (m.ids + one) + ids == m.ids + (one + ids);
      assert {} + allowed == allowed && {} + denied == denied;
    case AttributeList(_, attributes) =>
      assert [] + ids == ids;
      SetsConcat(m.allowed, Names(attributes, false), allowed);
      SetsConcat(m.denied, Names(attributes, true), denied);
  }

  lemma SetsConcat(a: set<string>, b: set<string>, c: set<string>)
    ensures (a + b) + c == a + (b + c)
  {
  }

  lemma ItemsNotEmpty(items: seq<Item>, ty: string)
    requires items != [] && Fits(items[0], ty)
    ensures ItemsText(items) != ""
  {
  }

  // ---- printed entries, lines and files ----

  /** An entry after blank space. */
  datatype Entry = Entry(gap: string, ty: string, items: seq<Item>)

  /** An entry of the documented form: group and user entries name at least one parameter, and `all` and `self` take no ids. */
  predicate WellFormed(e: Entry) {
    && Blank(e.gap) && KnownType(e.ty)
    && (e.items == [] ==> e.ty != SYSGROUP && e.ty != SYSUSER)
    && forall i | 0 <= i < |e.items| :: Fits(e.items[i], e.ty)
  }

  function EntryBody(e: Entry): string {
    if e.items == [] then e.ty else e.ty + "(" + ItemsText(e.items) + ")"
  }

  function EntryText(e: Entry): string {
    e.gap + EntryBody(e)
  }

  function Meaning(pattern: string, e: Entry, groups: Groups): seq<Ace> {
    Aces(pattern, e.ty, IdsOf(e.items, e.ty, groups), NamesOf(e.items, false), NamesOf(e.items, true))
  }

  predicate TypeName(s: string) {
    s != "" && Clean(s) && NoSpace(s)
  }

  lemma KnownNames(ty: string)
    requires KnownType(ty)
    ensures TypeName(ty) && ty[0] != '#'
  {
  }

  lemma BodyTrimmed(e: Entry)
    requires TypeName(e.ty)
    ensures EntryBody(e) != "" && Trimmed(EntryBody(e)) && !IsSpace(EntryBody(e)[0])
  {
  }

  lemma CleanHasNo(s: string, c: char)
    requires Clean(s) && Special(c)
    ensures c !in s
  {
  }

  lemma PlainEntry(pattern: string, text: string, ty: string, groups: Groups)
    requires Strip(text) == ty && '(' !in ty
    ensures EntryAces(pattern, text, groups) == TypeAces(pattern, ty, "", groups)
  {
    hide TypeAces, Strip;
  }

  lemma BracketEntry(pattern: string, text: string, ty: string, params: string, groups: Groups)
    requires Strip(text) == ty + "(" + params + ")" && '(' !in ty && Strip(ty) == ty
    ensures EntryAces(pattern, text, groups) == TypeAces(pattern, ty, params, groups)
  {
    hide TypeAces, Strip, Find;
    BracketText(ty, params);
  }

  lemma TextStripped(e: Entry)
    requires WellFormed(e)
    ensures Strip(EntryText(e)) == EntryBody(e) && '(' !in e.ty && Strip(e.ty) == e.ty
  {
    hide KnownType, Fits, Strip, EntryBody;
    KnownNames(e.ty);
    BodyTrimmed(e);
    StripMargins(e.gap, EntryBody(e), "") by { BlankEmpty(); }
    assert e.gap + EntryBody(e) + "" == e.gap + EntryBody(e);
    CleanHasNo(e.ty, '(');
    StripMargins("", e.ty, "") by { BlankEmpty(); TypeTrimmed(e.ty); }
    assert "" + e.ty + "" == e.ty;
  }

  /** One access control entry for each id, or one without id, each with the same attributes. */
  ghost predicate OneForEachId(acl: seq<Ace>, pattern: string, ty: string, ids: seq<string>, allowed: set<string>, denied: set<string>) {
    && |acl| == (if ids == [] then 1 else |ids|)
    && forall i | 0 <= i < |acl| ::
         acl[i] == Ace(pattern, ty, if ids == [] then None else Some(ids[i]), allowed, denied)
  }

  lemma AcesShape(pattern: string, ty: string, ids: seq<string>, allowed: set<string>, denied: set<string>)
    ensures OneForEachId(Aces(pattern, ty, ids, allowed, denied), pattern, ty, ids, allowed, denied)
  {
  }

  /** A printed entry is read as exactly one access control entry for each id, with exactly its attributes. */
  lemma PrintedEntryIsRead(pattern: string, e: Entry, groups: Groups)
    requires WellFormed(e)
    ensures EntryAces(pattern, EntryText(e), groups) == Ok(Meaning(pattern, e, groups))
    ensures OneForEachId(Meaning(pattern, e, groups), pattern, e.ty, IdsOf(e.items, e.ty, groups),
                         NamesOf(e.items, false), NamesOf(e.items, true))
  {
    hide Run, KnownType, Fits, Strip, EntryText, EntryAces, Aces, OneForEachId;
    AcesShape(pattern, e.ty, IdsOf(e.items, e.ty, groups), NamesOf(e.items, false), NamesOf(e.items, true));
    TextStripped(e);
    KnownFilled(e.ty);
    if e.items != [] {
      BracketEntry(pattern, EntryText(e), e.ty, ItemsText(e.items), groups);
      ItemsNotEmpty(e.items, e.ty);
      ItemsRun(STARTED, e.items, e.ty, groups);
      StartedEmpty(e, groups);
    } else {
      PlainEntry(pattern, EntryText(e), e.ty, groups);
      NoItems(e.ty, groups);
      NoIds(pattern, e.ty);
    }
  }

  lemma KnownFilled(ty: string)
    requires KnownType(ty)
    ensures ty != ""
  {
  }

  lemma NoIds(pattern: string, ty: string)
    ensures Aces(pattern, ty, [], {}, {}) == [Ace(pattern, ty, None, {}, {})]
  {
  }

  lemma NoItems(ty: string, groups: Groups)
    ensures IdsOf([], ty, groups) == [] && NamesOf([], false) == {} && NamesOf([], true) == {}
  {
  }

  lemma BlankEmpty()
    ensures Blank("")
  {
  }

  lemma TypeTrimmed(ty: string)
    requires TypeName(ty)
    ensures Trimmed(ty)
  {
  }

  lemma BracketText(ty: string, params: string)
    requires '(' !in ty
    ensures var text := ty + "(" + params + ")";
            && Find(text, '(') == |ty| && text[..|ty|] == ty && text[|ty| + 1..] == params + ")"
            && (params + ")")[|params + ")"| - 1] == ')' && (params + ")")[..|params + ")"| - 1] == params
  {
    FindAfter(ty, '(', params + ")");
    assert ty + ['('] + (params + ")") == ty + "(" + params + ")";
  }

  lemma StartedEmpty(e: Entry, groups: Groups)
    ensures STARTED.ids + IdsOf(e.items, e.ty, groups) == IdsOf(e.items, e.ty, groups)
    ensures STARTED.allowed + NamesOf(e.items, false) == NamesOf(e.items, false)
    ensures STARTED.denied + NamesOf(e.items, true) == NamesOf(e.items, true)
  {
  }

  // ---- lines ----

  function EntriesText(entries: seq<Entry>): string {
    if entries == [] then ""
    else if |entries| == 1 then EntryText(entries[0])
    else EntryText(entries[0]) + ";" + EntriesText(entries[1..])
  }

  function Meanings(pattern: string, entries: seq<Entry>, groups: Groups): seq<Ace> {
    if entries == [] then [] else Meaning(pattern, entries[0], groups) + Meanings(pattern, entries[1..], groups)
  }

  lemma {:induction false} AttributesNoSemicolon(attributes: seq<Attribute>)
    requires forall i | 0 <= i < |attributes| :: CleanAttribute(attributes[i])
    ensures ';' !in AttributesText(attributes)
    decreases |attributes|
  {
    hide CleanAttribute, AttributeText;
    if attributes != [] {
      TextClean(attributes[0]);
      CleanHasNo(AttributeText(attributes[0]), ';');
      AttributesNoSemicolon(attributes[1..]);
    }
  }

  lemma ItemNoSemicolon(item: Item)
    requires CleanItem(item)
    ensures ';' !in ItemText(item)
  {
    BlankClean(item.gap);
    CleanHasNo(item.gap, ';');
    match item
    case Id(_, id) => CleanHasNo(id, ';');
    case AttributeList(_, attributes) => AttributesNoSemicolon(attributes);
  }

  lemma {:induction false} ItemsNoSemicolon(items: seq<Item>, ty: string)
    requires forall i | 0 <= i < |items| :: Fits(items[i], ty)
    ensures ';' !in ItemsText(items)
    decreases |items|
  {
    hide CleanItem, ItemText;
    if items != [] {
      ItemNoSemicolon(items[0]);
      ItemsNoSemicolon(items[1..], ty);
    }
  }

  lemma EntryNoSemicolon(e: Entry)
    requires WellFormed(e)
    ensures ';' !in EntryText(e)
  {
    hide Fits, Clean, Blank, KnownType;
    KnownNames(e.ty);
    CleanHasNo(e.ty, ';');
    BlankClean(e.gap);
    CleanHasNo(e.gap, ';');
    ItemsNoSemicolon(e.items, e.ty);
  }

  lemma SplitFirst(a: string, rest: string)
    requires ';' !in a
    ensures SplitAt(a + ";" + rest, ';') == [a] + SplitAt(rest, ';')
  {
    var text := a + ";" + rest;
    FindAfter(a, ';', rest);
    assert text == a + [';'] + rest;
    assert text[..|a|] == a && text[|a| + 1..] == rest;
  }

  lemma SplitNone(a: string)
    requires ';' !in a
    ensures SplitAt(a, ';') == [a]
  {
  }

  /** The entries of a printed line are read one after the other. */
  lemma {:induction false} EntriesAreRead(pattern: string, entries: seq<Entry>, groups: Groups)
    requires entries != [] && forall i | 0 <= i < |entries| :: WellFormed(entries[i])
    ensures EntriesAces(pattern, SplitAt(EntriesText(entries), ';'), groups) == Ok(Meanings(pattern, entries, groups))
    decreases |entries|
  {
    hide EntryAces, WellFormed, SplitAt, Meaning, EntryText;
    var text := EntryText(entries[0]);
    EntryNoSemicolon(entries[0]);
    PrintedEntryIsRead(pattern, entries[0], groups);
    if |entries| == 1 {
      SplitNone(text);
      OneEntry(pattern, text, groups);
      assert Meanings(pattern, entries[1..], groups) == [];
    } else {
      var rest := EntriesText(entries[1..]);
      SplitFirst(text, rest);
      EntriesAreRead(pattern, entries[1..], groups);
      var pieces := [text] + SplitAt(rest, ';');
      assert pieces[1..] == SplitAt(rest, ';');
    }
  }

  lemma OneEntry(pattern: string, text: string, groups: Groups)
    requires EntryAces(pattern, text, groups).Ok?
    ensures EntriesAces(pattern, [text], groups) == Ok(EntryAces(pattern, text, groups).value + [])
  {
    hide EntryAces;
    assert [text][1..] == [];
  }

  /** A line of the file: a rule, or a line that says nothing. */
  datatype FileLine = Rule(pattern: string, entries: seq<Entry>) | Remark(text: string)

  predicate ProperLine(line: FileLine, compiles: Compiles) {
    match line
    case Rule(pattern, entries) =>
      && pattern != "" && Trimmed(pattern) && ':' !in pattern && pattern[0] != '#' && compiles(pattern)
      && entries != [] && forall i | 0 <= i < |entries| :: WellFormed(entries[i])
    case Remark(text) => Strip(text) == "" || Strip(text)[0] == '#'
  }

  function LineText(line: FileLine): string {
    match line
    case Rule(pattern, entries) => pattern + ":" + EntriesText(entries)
    case Remark(text) => text
  }

  function LineMeaning(line: FileLine, groups: Groups): seq<Ace> {
    match line case Rule(pattern, entries) => Meanings(pattern, entries, groups) case Remark(_) => []
  }

  /** The first entry without the blank space before it, which the line loses. */
  function Flush(entries: seq<Entry>): seq<Entry>
    requires entries != []
  {
    [entries[0].(gap := "")] + entries[1..]
  }

  lemma FlushText(entries: seq<Entry>)
    requires entries != []
    ensures EntriesText(entries) == entries[0].gap + EntriesText(Flush(entries))
  {
    hide EntryBody;
    var first := entries[0];
    BodyAlone(first);
    assert Flush(entries)[1..] == entries[1..] && "" + EntryBody(first) == EntryBody(first);
    if |entries| > 1 {
      GapFirst(first.gap, EntryBody(first), EntriesText(entries[1..]));
    }
  }

  lemma BodyAlone(e: Entry)
    ensures EntryBody(e.(gap := "")) == EntryBody(e)
  {
  }

  lemma GapFirst(gap: string, body: string, rest: string)
    ensures gap + body + ";" + rest == gap + (body + ";" + rest)
  {
  }

  lemma FlushSame(pattern: string, entries: seq<Entry>, groups: Groups)
    requires entries != [] && forall i | 0 <= i < |entries| :: WellFormed(entries[i])
    ensures Meanings(pattern, Flush(entries), groups) == Meanings(pattern, entries, groups)
    ensures forall i | 0 <= i < |Flush(entries)| :: WellFormed(Flush(entries)[i])
  {
    hide KnownType, Fits;
    assert Flush(entries)[1..] == entries[1..];
    BlankEmpty();
  }

  lemma {:induction false} EntriesEnd(entries: seq<Entry>)
    requires entries != [] && forall i | 0 <= i < |entries| :: WellFormed(entries[i])
    ensures var text := EntriesText(entries); text != "" && !IsSpace(text[|text| - 1])
    decreases |entries|
  {
    hide WellFormed, EntryBody;
    KnownEntry(entries[0]);
    BodyTrimmed(entries[0]);
    if |entries| > 1 {
      EntriesEnd(entries[1..]);
      var text, last := EntriesText(entries), EntriesText(entries[1..]);
      assert text[|text| - 1] == last[|last| - 1];
    }
  }

  lemma FlushTrimmed(entries: seq<Entry>)
    requires entries != [] && forall i | 0 <= i < |entries| :: WellFormed(entries[i])
    ensures var text := EntriesText(Flush(entries)); text != "" && Trimmed(text)
  {
    hide EntryBody, KnownType, Fits;
    FlushSame("", entries, s => s);
    EntriesEnd(Flush(entries));
    KnownEntry(entries[0]);
    BodyTrimmed(entries[0]);
    FlushStarts(entries);
  }

  lemma FlushStarts(entries: seq<Entry>)
    requires entries != [] && EntryBody(entries[0]) != ""
    ensures EntriesText(Flush(entries)) != "" && EntriesText(Flush(entries))[0] == EntryBody(entries[0])[0]
  {
    var first := entries[0].(gap := "");
    assert EntryBody(first) == EntryBody(entries[0]) && EntryText(first) == EntryBody(first);
  }

  lemma KnownEntry(e: Entry)
    requires WellFormed(e)
    ensures TypeName(e.ty)
  {
    KnownNames(e.ty);
  }

  lemma RuleText(pattern: string, w: string, rest: string)
    requires pattern != "" && Trimmed(pattern) && ':' !in pattern && Blank(w) && rest != "" && Trimmed(rest)
    ensures var line := pattern + ":" + (w + rest);
            && Strip(line) == line && line[0] == pattern[0] && Find(line, ':') == |pattern|
            && line[..|pattern|] == pattern && line[|pattern| + 1..] == w + rest
            && Strip(pattern) == pattern && LStrip(w + rest) == rest && !Blank(w + rest)
  {
    hide Strip, LStrip, Find;
    var line := pattern + ":" + (w + rest);
    assert line[|line| - 1] == rest[|rest| - 1];
    StripMargins("", line, "");
    assert "" + line + "" == line;
    StripMargins("", pattern, "");
    assert "" + pattern + "" == pattern;
    FindAfter(pattern, ':', w + rest);
    assert line == pattern + [':'] + (w + rest);
    LStripBlank(w, rest);
    assert (w + rest)[|w|] == rest[0];
  }

  lemma PrintedLineIsRead(line: FileLine, groups: Groups, compiles: Compiles)
    requires ProperLine(line, compiles)
    ensures LineAces(LineText(line), groups, compiles) == Ok(LineMeaning(line, groups))
  {
    hide WellFormed, EntriesText, EntriesAces, SplitAt, Strip, LStrip, Blank, Trimmed, Flush;
    match line
    case Remark(_) =>
    case Rule(pattern, entries) =>
      var text := EntriesText(Flush(entries));
      FlushText(entries);
      FlushTrimmed(entries);
      FlushSame(pattern, entries, groups);
      GapBlank(entries[0]);
      RuleText(pattern, entries[0].gap, text);
      assert |Flush(entries)| > 0 by { FlushFilled(entries); }
      EntriesAreRead(pattern, Flush(entries), groups);
  }

  lemma FlushFilled(entries: seq<Entry>)
    requires entries != []
    ensures Flush(entries) != []
  {
  }

  lemma GapBlank(e: Entry)
    requires WellFormed(e)
    ensures Blank(e.gap)
  {
  }

  function FileText(lines: seq<FileLine>): (r: seq<string>)
    ensures |r| == |lines|
  {
    if lines == [] then [] else [LineText(lines[0])] + FileText(lines[1..])
  }

  function FileMeaning(lines: seq<FileLine>, groups: Groups): seq<Ace> {
    if lines == [] then [] else LineMeaning(lines[0], groups) + FileMeaning(lines[1..], groups)
  }

  /** Reading a file that was written in the documented form, with any blank space, gives exactly what was written. */
  lemma {:induction false} PrintedFileIsRead(lines: seq<FileLine>, groups: Groups, compiles: Compiles)
    requires forall i | 0 <= i < |lines| :: ProperLine(lines[i], compiles)
    ensures FileAces(FileText(lines), groups, compiles) == Ok(FileMeaning(lines, groups))
  {
    hide ProperLine, LineAces, LineText, LineMeaning;
    if lines != [] {
      PrintedLineIsRead(lines[0], groups, compiles);
      PrintedFileIsRead(lines[1..], groups, compiles);
      assert FileText(lines)[1..] == FileText(lines[1..]);
    }
  }

  // ---- what is refused ----

  /** Every opening bracket is closed before the next one opens, and none is closed that is not open. */
  predicate Bracketed(text: string, open: bool)
    decreases |text|
  {
    if text == "" then !open
    else if text[0] == '(' then !open && Bracketed(text[1..], true)
    else if text[0] == ')' then open && Bracketed(text[1..], false)
    else Bracketed(text[1..], open)
  }

  lemma StepOpens(m: Machine, ty: string, groups: Groups, c: char, last: bool)
    requires Balanced(m) && Step(m, ty, groups, c, last).Ok?
    ensures var n := Step(m, ty, groups, c, last).value;
            && (c == '(' ==> !m.inValues) && (c == ')' ==> m.inValues)
            && n.inValues == (if c == '(' then true else if c == ')' then false else m.inValues)
            && (last ==> !n.inValues)
            && (!TakesIds(ty) ==> n.ids == m.ids)
  {
    hide Strip;
  }

  lemma {:induction false} RunBracketed(m: Machine, ty: string, groups: Groups, text: string)
    requires Balanced(m) && Run(m, ty, groups, text).Ok? && (text == "" ==> !m.inValues)
    ensures Bracketed(text, m.inValues)
    ensures !TakesIds(ty) ==> Run(m, ty, groups, text).value.ids == m.ids
    decreases |text|
  {
    hide Step;
    if text != "" {
      StepOpens(m, ty, groups, text[0], |text| == 1);
      RunBracketed(Step(m, ty, groups, text[0], |text| == 1).value, ty, groups, text[1..]);
    }
  }

  /** Parameters whose brackets do not match, or are nested, are refused. */
  lemma UnbalancedIsRefused(ty: string, params: string, groups: Groups)
    requires params != "" && !Bracketed(params, false)
    ensures Run(STARTED, ty, groups, params).Err?
  {
    if Run(STARTED, ty, groups, params).Ok? { RunBracketed(STARTED, ty, groups, params); }
  }

  /** An access control entry that was read: its type is known, only a type that takes ids has one, and its pattern compiles. */
  predicate Proper(ace: Ace, compiles: Compiles) {
    KnownType(ace.ty) && (ace.id.Some? ==> TakesIds(ace.ty)) && compiles(ace.pattern)
  }

  ghost predicate AllProper(acl: seq<Ace>, compiles: Compiles) {
    forall i | 0 <= i < |acl| :: Proper(acl[i], compiles)
  }

  lemma EntryProper(pattern: string, text: string, groups: Groups, compiles: Compiles)
    requires EntryAces(pattern, text, groups).Ok? && compiles(pattern)
    ensures AllProper(EntryAces(pattern, text, groups).value, compiles)
  {
    hide Run, Strip, Find;
    var entry := Strip(text);
    var i := Find(entry, '(');
    if i != -1 && entry[i + 1..] != "" && entry[|entry| - 1] == ')' {
      var ty, params := Strip(entry[..i]), entry[i + 1..|entry| - 1];
      assert entry[i + 1..][..|entry[i + 1..]| - 1] == params;
      if ty != "" && KnownType(ty) && params != "" { RunBracketed(STARTED, ty, groups, params); }
    }
  }

  lemma {:induction false} EntriesProper(pattern: string, entries: seq<string>, groups: Groups, compiles: Compiles)
    requires EntriesAces(pattern, entries, groups).Ok? && compiles(pattern)
    ensures AllProper(EntriesAces(pattern, entries, groups).value, compiles)
  {
    hide EntryAces, Proper;
    if entries != [] {
      EntryProper(pattern, entries[0], groups, compiles);
      EntriesProper(pattern, entries[1..], groups, compiles);
    }
  }

  /** Whatever the file, only proper entries come out of it. */
  lemma {:induction false} FileIsProper(lines: seq<string>, groups: Groups, compiles: Compiles)
    requires FileAces(lines, groups, compiles).Ok?
    ensures AllProper(FileAces(lines, groups, compiles).value, compiles)
  {
    hide EntriesAces, Strip, Find, Proper, SplitAt;
    if lines != [] {
      FileIsProper(lines[1..], groups, compiles);
      var line := Strip(lines[0]);
      if line != "" && line[0] != '#' {
        EntriesProper(Strip(line[..Find(line, ':')]), SplitAt(LStrip(line[Find(line, ':') + 1..]), ';'), groups, compiles);
      }
    }
  }

  /** The first line that is refused decides: no entry of any line is returned. */
  lemma {:induction false} FirstErrorCounts(before: seq<string>, bad: string, after: seq<string>, groups: Groups, compiles: Compiles)
    requires FileAces(before, groups, compiles).Ok? && LineAces(bad, groups, compiles).Err?
    ensures FileAces(before + [bad] + after, groups, compiles) == LineAces(bad, groups, compiles)
    decreases |before|
  {
    hide LineAces;
    if before == [] {
      assert before + [bad] + after == [bad] + after && ([bad] + after)[0] == bad;
    } else {
      assert (before + [bad] + after)[1..] == before[1..] + [bad] + after && (before + [bad] + after)[0] == before[0];
      FirstErrorCounts(before[1..], bad, after, groups, compiles);
    }
  }

  /** A line of one entry: pattern, colon and type, with parameters or without. */
  function OneEntryLine(pattern: string, ty: string, params: Option<string>): string {
    pattern + ":" + EntryOf(ty, params)
  }

  function EntryOf(ty: string, params: Option<string>): string {
    ty + if params.Some? then "(" + params.value + ")" else ""
  }

  lemma OneEntryRead(pattern: string, ty: string, params: Option<string>, groups: Groups, compiles: Compiles)
    requires pattern != "" && Trimmed(pattern) && ':' !in pattern && pattern[0] != '#' && compiles(pattern)
    requires ty != "" && Trimmed(ty) && '(' !in ty && ';' !in ty && (params.Some? ==> ';' !in params.value)
    ensures LineAces(OneEntryLine(pattern, ty, params), groups, compiles) ==
              TypeAces(pattern, ty, if params.Some? then params.value else "", groups)
  {
    hide TypeAces, EntryAces, Strip, Blank, LStrip, SplitAt, EntriesAces, Find;
    var body := EntryOf(ty, params);
    BodyOf(ty, params);
    OneLine(pattern, body);
    SplitNone(body);
    OnlyEntry(pattern, body, groups);
    StripSame(body);
    StripSame(pattern);
    StripSame(ty);
    if params.Some? { BracketEntry(pattern, body, ty, params.value, groups); } else { PlainEntry(pattern, body, ty, groups); }
  }

  lemma BodyOf(ty: string, params: Option<string>)
    requires ty != "" && Trimmed(ty) && '(' !in ty && ';' !in ty && (params.Some? ==> ';' !in params.value)
    ensures var body := EntryOf(ty, params);
            body != "" && Trimmed(body) && ';' !in body && (params.Some? ==> body == ty + "(" + params.value + ")")
  {
    var body := EntryOf(ty, params);
    assert body[0] == ty[0];
    if params.Some? {
      assert body == ty + "(" + params.value + ")";
    } else {
      assert body == ty;
    }
  }

  lemma OnlyEntry(pattern: string, text: string, groups: Groups)
    ensures EntriesAces(pattern, [text], groups) == EntryAces(pattern, text, groups)
  {
    hide EntryAces;
    assert [text][1..] == [];
    if EntryAces(pattern, text, groups).Ok? {
      OneEntry(pattern, text, groups);
      assert EntryAces(pattern, text, groups).value + [] == EntryAces(pattern, text, groups).value;
    }
  }

  lemma StripSame(s: string)
    requires Trimmed(s)
    ensures Strip(s) == s
  {
    StripMargins("", s, "") by { BlankEmpty(); }
    assert "" + s + "" == s;
  }

  lemma OneLine(pattern: string, body: string)
    requires pattern != "" && Trimmed(pattern) && ':' !in pattern && pattern[0] != '#'
    requires body != "" && Trimmed(body)
    ensures var line := pattern + ":" + body;
            && Strip(line) == line && line != "" && line[0] != '#' && Find(line, ':') == |pattern|
            && line[..|pattern|] == pattern && line[|pattern| + 1..] == body && !Blank(body) && LStrip(body) == body
  {
    hide Strip, Find;
    ColonSlices(pattern, body);
    StripSame(pattern + ":" + body);
    LStripBlank("", body);
    assert "" + body == body;
  }

  lemma ColonSlices(pattern: string, body: string)
    requires ':' !in pattern
    ensures var line := pattern + ":" + body;
            Find(line, ':') == |pattern| && line[..|pattern|] == pattern && line[|pattern| + 1..] == body
  {
    FindAfter(pattern, ':', body);
    assert pattern + ":" + body == pattern + [':'] + body;
  }

  /** The errors: a type that is not known, a group or user type without parameters, and parameters whose brackets do not match. */
  lemma BadEntryIsRefused(pattern: string, ty: string, params: Option<string>, groups: Groups, compiles: Compiles)
    requires pattern != "" && Trimmed(pattern) && ':' !in pattern && pattern[0] != '#' && compiles(pattern)
    requires ty != "" && Trimmed(ty) && '(' !in ty && ';' !in ty && (params.Some? ==> ';' !in params.value)
    ensures !KnownType(ty) ==> LineAces(OneEntryLine(pattern, ty, params), groups, compiles) == Err(UnknownType)
    ensures (ty == SYSGROUP || ty == SYSUSER) && (params == None || params.value == "") ==>
              LineAces(OneEntryLine(pattern, ty, params), groups, compiles) == Err(NoParameters)
    ensures KnownType(ty) && params.Some? && params.value != "" && !Bracketed(params.value, false) ==>
              LineAces(OneEntryLine(pattern, ty, params), groups, compiles).Err?
  {
    hide Run, Strip, Find, LineAces, Bracketed, OneEntryLine;
    OneEntryRead(pattern, ty, params, groups, compiles);
    if params.Some? && params.value != "" && !Bracketed(params.value, false) { UnbalancedIsRefused(ty, params.value, groups); }
  }
}
