/**
 Rewriting the configuration file: the options in it are changed, dropped or added, and every
 other line stays where it is.
 */
module ConfigFile {
  import opened Wrappers
  import opened Strings
  import opened Dicts

  type Options = Dict<string>

  // ---- lines ----

  function Lines(text: string): (r: seq<string>)
    ensures r != []
    decreases |text|
  {
    var i := Find(text, '\n');
    if i == -1 then [text] else [text[..i]] + Lines(text[i + 1..])
  }

  function Text(lines: seq<string>): string {
    Join(lines, "\n")
  }

  predicate OneLine(s: string) {
    '\n' !in s
  }

  predicate AllOneLine(lines: seq<string>) {
    forall i | 0 <= i < |lines| :: OneLine(lines[i])
  }

  /**
   A line that sets an option: after leading whitespace one character that starts no comment, at
   least one character that is not '=', then '=' and something that is not whitespace.
   */
  function ReadOption(line: string): Option<(string, string)> {
    var body := LStrip(line);
    if body == "" || body[0] == '#' || body[0] == ';' then None
    else
      var p := Find(body[1..], '=');
      if p < 1 || Blank(body[p + 2..]) then None
      else Some((Lower(Strip(body[..p + 1])), Strip(body[p + 2..])))
  }

  function OptionLine(key: string, value: string): string {
    key + " = " + value
  }

  // ---- parsing and generating ----

  /** The options in the order of their lines. */
  function OptionsOf(lines: seq<string>): Options {
    if lines == [] then []
    else (match ReadOption(lines[0]) case Some(o) => [o] case None => []) + OptionsOf(lines[1..])
  }

  function NonOptions(lines: seq<string>): seq<string> {
    if lines == [] then []
    else (if ReadOption(lines[0]).Some? then [] else [lines[0]]) + NonOptions(lines[1..])
  }

  function PutAll(d: Options, options: Options): Options
    decreases |options|
  {
    if options == [] then d else PutAll(Put(d, options[0].0, options[0].1), options[1..])
  }

  /** `_parse_config_file`: the last line counts. */
  function Parse(text: string): Options {
    PutAll([], OptionsOf(Lines(text)))
  }

  /** The lines that stay, and the options that no line had. */
  function Rewrite(lines: seq<string>, conf: Options): (seq<string>, Options)
    decreases |lines|
  {
    if lines == [] then ([], conf)
    else
      match ReadOption(lines[0])
      case None =>
        var (more, rest) := Rewrite(lines[1..], conf);
        ([lines[0]] + more, rest)
      case Some(o) =>
        match Lookup(conf, o.0)
        case None => Rewrite(lines[1..], conf)
        case Some(value) =>
          var (more, rest) := Rewrite(lines[1..], Delete(conf, o.0));
          ([OptionLine(o.0, value)] + more, rest)
  }

  function OptionLines(conf: Options): seq<string> {
    if conf == [] then [] else [OptionLine(conf[0].0, conf[0].1)] + OptionLines(conf[1..])
  }

  /** New options are inserted before the last line. */
  function Insert(lines: seq<string>, conf: Options): seq<string> {
    if conf == [] then lines
    else if lines == [] then OptionLines(conf)
    else lines[..|lines| - 1] + OptionLines(conf) + lines[|lines| - 1..]
  }

  function NewLines(text: string, conf: Options): seq<string> {
    var (lines, rest) := Rewrite(Lines(text), conf);
    Insert(lines, rest)
  }

  function Generate(text: string, conf: Options): string {
    Text(NewLines(text, conf))
  }

  /** `set_config_in_config_file` */
  function SetConfig(text: string, key: string, value: string): string {
    Generate(text, Put(Parse(text), key, value))
  }

  const DEPRECATED: seq<string> := ["monitoring-debug", "verify-ip", "dispatch-config-file", "jsonrpc-time-to-cache", "debug"]

  function DeleteAll(conf: Options, keys: seq<string>): Options
    decreases |keys|
  {
    if keys == [] then conf else DeleteAll(Delete(conf, keys[0]), keys[1..])
  }

  /** `_update_config_file` */
  function Update(text: string): string {
    Generate(text, DeleteAll(Parse(text), DEPRECATED))
  }

  // ---- the methods ----

  class Config {
    /** The contents of the file, if it exists. */
    var file: Option<string>

    constructor (file: Option<string>)
      ensures this.file == file
    {
      this.file := file;
    }

    function Contents(): string
      reads this
    {
      match file case Some(text) => text case None => ""
    }

    method ParseConfigFile() returns (conf: Options)
      ensures conf == Parse(Contents())
    {
      conf := [];
      if file == None {
        NothingParsed();
        return;
      }
      var lines := Lines(file.value);
      for k := 0 to |lines|
        invariant PutAll(conf, OptionsOf(lines[k..])) == Parse(Contents())
      {
        NextOption(lines, k);
        match ReadOption(lines[k])
        case Some(o) => conf := Put(conf, o.0, o.1);
        case None =>
      }
    }

    method GenerateConfigFile(newConf: Options)
      modifies this
      ensures file == Some(Generate(old(Contents()), newConf))
    {
      hide ReadOption, Lookup, Delete, Rewrite;
      var conf := newConf;
      NothingLeft(conf);
      var lines := Lines(Contents());
      var newLines: seq<string> := [];
      ghost var result := Rewrite(lines, newConf);
      for k := 0 to |lines|
        invariant file == old(file)
        invariant newLines + Rewrite(lines[k..], conf).0 == result.0 && Rewrite(lines[k..], conf).1 == result.1
      {
        NextLine(lines, k, conf, newLines);
        match ReadOption(lines[k])
        case Some(o) =>
          if Lookup(conf, o.0).Some? {
            newLines := newLines + [OptionLine(o.0, Lookup(conf, o.0).value)];
            conf := Delete(conf, o.0);
          }
        case None =>
          newLines := newLines + [lines[k]];
      }
      NothingLeft(conf);
      assert lines[|lines|..] == [] && newLines + [] == newLines;
      if conf != [] {
        newLines := Insert(newLines, conf);
      }
      file := Some(Text(newLines));
    }

    method SetConfigInConfigFile(key: string, value: string)
      modifies this
      ensures file == Some(SetConfig(old(Contents()), key, value))
    {
      var conf := ParseConfigFile();
      conf := Put(conf, key, value);
      GenerateConfigFile(conf);
    }

    method UpdateConfigFile()
      modifies this
      ensures file == Some(Update(old(Contents())))
    {
      var conf := ParseConfigFile();
      ghost var parsed := conf;
      for k := 0 to |DEPRECATED|
        invariant DeleteAll(conf, DEPRECATED[k..]) == DeleteAll(parsed, DEPRECATED) && file == old(file)
      {
        assert DEPRECATED[k..][0] == DEPRECATED[k] && DEPRECATED[k..][1..] == DEPRECATED[k + 1..];
        conf := Delete(conf, DEPRECATED[k]);
      }
      GenerateConfigFile(conf);
    }
  }

  /** One round of rewriting. */
  lemma NextLine(lines: seq<string>, k: nat, conf: Options, newLines: seq<string>)
    requires k < |lines|
    ensures match ReadOption(lines[k])
            case Some(o) =>
              if Lookup(conf, o.0).Some? then
                var later := Rewrite(lines[k + 1..], Delete(conf, o.0));
                && newLines + Rewrite(lines[k..], conf).0 == (newLines + [OptionLine(o.0, Lookup(conf, o.0).value)]) + later.0
                && Rewrite(lines[k..], conf).1 == later.1
              else Rewrite(lines[k..], conf) == Rewrite(lines[k + 1..], conf)
            case None =>
              && newLines + Rewrite(lines[k..], conf).0 == (newLines + [lines[k]]) + Rewrite(lines[k + 1..], conf).0
              && Rewrite(lines[k..], conf).1 == Rewrite(lines[k + 1..], conf).1
  {
    hide ReadOption, Lookup, Delete;
    assert lines[k..][0] == lines[k] && lines[k..][1..] == lines[k + 1..];
  }

  lemma NothingLeft(conf: Options)
    ensures Rewrite([], conf) == ([], conf)
  {
  }

  lemma NothingParsed()
    ensures Parse("") == []
  {
    assert Lines("") == [""] && ReadOption("") == None && [""][1..] == [];
    assert OptionsOf([""]) == [] + OptionsOf([]);
  }

  lemma NextOption(lines: seq<string>, k: nat)
    requires k < |lines|
    ensures OptionsOf(lines[k..]) == (match ReadOption(lines[k]) case Some(o) => [o] case None => []) + OptionsOf(lines[k + 1..])
    ensures forall d :: PutAll(d, OptionsOf(lines[k..])) ==
              match ReadOption(lines[k])
              case Some(o) => PutAll(Put(d, o.0, o.1), OptionsOf(lines[k + 1..]))
              case None => PutAll(d, OptionsOf(lines[k + 1..]))
  {
    assert lines[k..][0] == lines[k] && lines[k..][1..] == lines[k + 1..];
    var more := OptionsOf(lines[k + 1..]);
    match ReadOption(lines[k])
    case Some(o) => assert ([o] + more)[1..] == more;
    case None => assert [] + more == more;
  }

  // ---- which options can be written and read ----

  predicate ValidOption(key: string, value: string) {
    && key != "" && Trimmed(key) && Lower(key) == key && key[0] != '#' && key[0] != ';' && '=' !in key[1..]
    && value != "" && Trimmed(value)
  }

  lemma {:induction false} LStripParts(s: string) returns (left: string)
    ensures Blank(left) && s == left + LStrip(s) && (LStrip(s) != "" ==> !IsSpace(LStrip(s)[0]))
  {
    if s != "" && IsSpace(s[0]) {
      var more := LStripParts(s[1..]);
      left := [s[0]] + more;
      assert s == [s[0]] + s[1..];
    } else {
      left := "";
    }
  }

  lemma {:induction false} RStripParts(s: string) returns (right: string)
    ensures Blank(right) && s == RStrip(s) + right && (RStrip(s) != "" ==> !IsSpace(RStrip(s)[|RStrip(s)| - 1]))
    decreases |s|
  {
    if s != "" && IsSpace(s[|s| - 1]) {
      var more := RStripParts(s[..|s| - 1]);
      right := more + [s[|s| - 1]];
    } else {
      right := "";
    }
  }

  lemma StripProperties(s: string)
    ensures Trimmed(Strip(s)) && |Strip(s)| <= |s| && (Strip(s) == "" <==> Blank(s))
    ensures forall c :: c in Strip(s) ==> c in s
  {
    var left := LStripParts(s);
    var t := LStrip(s);
    var right := RStripParts(t);
    if Strip(s) != "" {
      assert Strip(s)[0] == t[0];
      assert s[|left|] == t[0];
    } else {
      assert s == left + right;
    }
    forall c | c in Strip(s) ensures c in s {
      assert c in t;
      var i :| 0 <= i < |t| && t[i] == c;
      assert s[|left| + i] == c;
    }
  }

  lemma StripTrimmed(s: string, right: string)
    requires Trimmed(s) && s != "" && Blank(right)
    ensures Strip(s + right) == s && LStrip(s + right) == s + right
  {
    StripMargins("", s, right);
    assert "" + s + right == s + right;
  }

  lemma ValidIsRead(key: string, value: string)
    requires ValidOption(key, value)
    ensures ReadOption(OptionLine(key, value)) == Some((key, value))
  {
    hide Strip, Lower, Find;
    var line := OptionLine(key, value);
    LineSides(key, value);
    assert LStrip(line) == line;
    FindAfter(key[1..] + " ", '=', " " + value);
    StripTrimmed(key, " ");
    StripMargins(" ", value, "");
    assert " " + value + "" == " " + value;
    assert (" " + value)[1] == value[0];
  }

  lemma LineSides(key: string, value: string)
    requires key != ""
    ensures var line := OptionLine(key, value);
            && line[0] == key[0] && line[1..] == (key[1..] + " ") + ['='] + (" " + value)
            && line[..|key| + 1] == key + " " && line[|key| + 2..] == " " + value
  {
    assert " = " == " " + ['='] + " ";
  }

  lemma LowerTrimmed(s: string)
    requires Trimmed(s)
    ensures Trimmed(Lower(s)) && Lower(Lower(s)) == Lower(s) && |Lower(s)| == |s|
  {
    LowerIdempotent(s);
    if s != "" {
      LowerAt(s, 0);
      LowerAt(s, |s| - 1);
    }
  }

  lemma LowerKeeps(s: string, c: char)
    requires !('a' <= c <= 'z')
    ensures c in Lower(s) ==> c in s
  {
    if c in Lower(s) {
      var i :| 0 <= i < |Lower(s)| && Lower(s)[i] == c;
      LowerAt(s, i);
      assert s[i] == c;
    }
  }

  /** The two sides of the '=' of an option line. */
  lemma ReadSides(line: string) returns (key: string, value: string)
    requires ReadOption(line).Some?
    ensures ReadOption(line) == Some((Lower(Strip(key)), Strip(value))) && !Blank(value)
    ensures key != "" && !IsSpace(key[0]) && key[0] != '#' && key[0] != ';' && '=' !in key[1..]
    ensures |key| <= Find(LStrip(line)[1..], '=') + 1
    ensures OneLine(line) ==> OneLine(key) && OneLine(value)
  {
    hide Lower, Strip, Blank, LStrip, OneLine;
    var left := LStripParts(line);
    var body := LStrip(line);
    var p := Find(body[1..], '=');
    key, value := body[..p + 1], body[p + 2..];
    KeySide(body, p);
    if OneLine(line) {
      PartOneLine(left, body);
      PartOneLine(key, body[p + 1..]);
      PartOneLine(body[..p + 2], value);
      assert key + body[p + 1..] == body && body[..p + 2] + value == body;
    }
  }

  lemma KeySide(body: string, p: nat)
    requires p < |body| - 1 && '=' !in body[1..][..p]
    ensures body[..p + 1][0] == body[0] && '=' !in body[..p + 1][1..]
  {
    assert body[..p + 1][1..] == body[1..][..p];
  }

  lemma PartOneLine(a: string, b: string)
    ensures OneLine(a + b) ==> OneLine(a) && OneLine(b)
  {
  }

  lemma KeyIsValid(key: string)
    requires key != "" && !IsSpace(key[0]) && key[0] != '#' && key[0] != ';' && '=' !in key[1..]
    ensures var k := Lower(Strip(key));
            k != "" && Trimmed(k) && Lower(k) == k && k[0] != '#' && k[0] != ';' && '=' !in k[1..] && |k| <= |key|
    ensures OneLine(key) ==> OneLine(Lower(Strip(key)))
  {
    hide Strip, Lower, Trimmed;
    StripProperties(key);
    var s := Strip(key);
    LowerTrimmed(s);
    KeyStart(key);
    assert s[0] == key[0];
    LowerAt(s, 0);
    forall i | 1 <= i < |s| ensures Lower(s)[i] != '=' {
      LowerAt(s, i);
      assert s[i] == key[i] == key[1..][i - 1];
    }
    LowerKeeps(s, '\n');
  }

  /** Whatever a line gives is an option that can be written again, and has no newline if the line has none. */
  lemma ReadIsValid(line: string)
    requires ReadOption(line).Some?
    ensures ValidOption(ReadOption(line).value.0, ReadOption(line).value.1)
    ensures OneLine(line) ==> OneLine(ReadOption(line).value.0) && OneLine(ReadOption(line).value.1)
    ensures |ReadOption(line).value.0| <= Find(LStrip(line)[1..], '=') + 1
  {
    hide Strip, Lower, Trimmed, ReadOption;
    var key, value := ReadSides(line);
    KeyIsValid(key);
    StripProperties(value);
  }

  /** Stripping a text that starts with another character takes off the end only. */
  lemma KeyStart(s: string)
    requires s != "" && !IsSpace(s[0])
    ensures Strip(s) != "" && |Strip(s)| <= |s| && Strip(s) == s[..|Strip(s)|]
  {
    var right := RStripParts(s);
    assert LStrip(s) == s;
    assert s[0] == (RStrip(s) + right)[0] && forall i | 0 <= i < |right| :: IsSpace(right[i]);
  }

  /** An option is read back from its line exactly if it is valid. */
  lemma ReadBackIff(key: string, value: string)
    ensures ReadOption(OptionLine(key, value)) == Some((key, value)) <==> ValidOption(key, value)
  {
    if ValidOption(key, value) {
      ValidIsRead(key, value);
    } else if ReadOption(OptionLine(key, value)) == Some((key, value)) {
      ReadIsValid(OptionLine(key, value));
    }
  }

  /** A line in any layout that sets an option: the key in any letter case, and blank space around the key and the value. */
  datatype Layout = Layout(left: string, key: string, before: string, after: string, value: string, right: string)

  predicate SetsOption(l: Layout) {
    && Blank(l.left) && Blank(l.before) && Blank(l.after) && Blank(l.right)
    && l.key != "" && Trimmed(l.key) && l.key[0] != '#' && l.key[0] != ';' && '=' !in l.key[1..] && |l.key + l.before| > 1
    && l.value != "" && Trimmed(l.value)
  }

  function LayoutText(l: Layout): string {
    l.left + (l.key + l.before + "=" + (l.after + l.value + l.right))
  }

  lemma BlankHasNoEquals(s: string)
    requires Blank(s)
    ensures '=' !in s
  {
  }

  /** The text behind the leading blank space, at its first '='. */
  lemma LayoutSides(l: Layout)
    requires SetsOption(l)
    ensures var body := l.key + l.before + "=" + (l.after + l.value + l.right);
            var p := |l.key + l.before| - 1;
            && body[0] == l.key[0] && Find(body[1..], '=') == p && body[..p + 1] == l.key + l.before
            && body[p + 2..] == l.after + l.value + l.right
  {
    BlankHasNoEquals(l.before);
    var rest := l.after + l.value + l.right;
    var body := l.key + l.before + "=" + rest;
    assert body[1..] == (l.key[1..] + l.before) + ['='] + rest;
    FindAfter(l.key[1..] + l.before, '=', rest);
  }

  lemma ValueNotBlank(l: Layout)
    requires SetsOption(l)
    ensures !Blank(l.after + l.value + l.right)
  {
    assert (l.after + l.value + l.right)[|l.after|] == l.value[0];
  }

  lemma LayoutIsRead(l: Layout)
    requires SetsOption(l)
    ensures ReadOption(LayoutText(l)) == Some((Lower(l.key), l.value))
  {
    hide Strip, Lower, Find;
    var body := l.key + l.before + "=" + (l.after + l.value + l.right);
    LayoutSides(l);
    ValueNotBlank(l);
    LStripBlank(l.left, body);
    StripTrimmed(l.key, l.before);
    StripMargins(l.after, l.value, l.right);
  }

  lemma StripParts(s: string) returns (left: string, right: string)
    ensures Blank(left) && Blank(right) && s == left + Strip(s) + right
  {
    left := LStripParts(s);
    right := RStripParts(LStrip(s));
  }

  lemma NoMargin(left: string, rest: string, s: string)
    requires Blank(left) && s == left + rest && s != "" && !IsSpace(s[0])
    ensures left == ""
  {
  }

  lemma KeyWithoutMargin(key: string) returns (before: string)
    requires key != "" && !IsSpace(key[0]) && '=' !in key[1..]
    ensures Blank(before) && key == Strip(key) + before && Strip(key) != "" && Trimmed(Strip(key))
    ensures Strip(key)[0] == key[0] && '=' !in Strip(key)[1..]
  {
    hide Strip;
    var none, right := StripParts(key);
    NoMargin(none, Strip(key) + right, key);
    KeyStart(key);
    StripProperties(key);
    assert forall i | 1 <= i < |Strip(key)| :: Strip(key)[i] == key[1..][i - 1];
    before := right;
  }

  lemma ReadHasLayout(line: string) returns (l: Layout)
    requires ReadOption(line).Some?
    ensures SetsOption(l) && LayoutText(l) == line && ReadOption(line) == Some((Lower(l.key), l.value))
  {
    hide Lower, Strip, LStrip;
    var left := LStripParts(line);
    var body := LStrip(line);
    var p := Find(body[1..], '=');
    var key, value := body[..p + 1], body[p + 2..];
    KeySide(body, p);
    var before := KeyWithoutMargin(key);
    var after, right := StripParts(value);
    l := Layout(left, Strip(key), before, after, Strip(value), right);
    StripProperties(value);
    assert body == key + "=" + value;
  }

  /** Exactly the lines of such a layout set an option, and they set this one. */
  lemma ReadOptionIff(line: string, key: string, value: string)
    ensures ReadOption(line) == Some((key, value)) <==>
              exists l :: SetsOption(l) && LayoutText(l) == line && Lower(l.key) == key && l.value == value
  {
    hide ReadOption, SetsOption, LayoutText;
    if ReadOption(line) == Some((key, value)) { var l := ReadHasLayout(line); }
    forall l | SetsOption(l) && LayoutText(l) == line && Lower(l.key) == key && l.value == value ensures ReadOption(line) == Some((key, value)) {
      LayoutIsRead(l);
    }
  }

  // ---- text and lines ----

  lemma JoinLines(lines: seq<string>)
    requires lines != []
    ensures Text(lines) == if |lines| == 1 then lines[0] else lines[0] + "\n" + Text(lines[1..])
  {
  }

  lemma FirstLine(line: string, rest: string)
    requires OneLine(line)
    ensures Lines(line + "\n" + rest) == [line] + Lines(rest)
  {
    var text := line + "\n" + rest;
    FindAfter(line, '\n', rest);
    assert text == line + ['\n'] + rest;
    assert text[..|line|] == line && text[|line| + 1..] == rest;
  }

  lemma LastLine(line: string)
    requires OneLine(line)
    ensures Lines(line) == [line]
  {
  }

  /** Splitting undoes joining. */
  lemma {:induction false} LinesOfText(lines: seq<string>)
    requires lines != [] && AllOneLine(lines)
    ensures Lines(Text(lines)) == lines
  {
    hide Text, Lines, OneLine;
    JoinLines(lines);
    if |lines| > 1 {
      FirstLine(lines[0], Text(lines[1..]));
      LinesOfText(lines[1..]);
      assert lines == [lines[0]] + lines[1..];
    } else {
      LastLine(lines[0]);
      assert lines == [lines[0]];
    }
  }

  lemma {:induction false} LinesAreOneLine(text: string)
    ensures AllOneLine(Lines(text))
    decreases |text|
  {
    var i := Find(text, '\n');
    if i != -1 { LinesAreOneLine(text[i + 1..]); }
  }

  // ---- what rewriting keeps ----

  predicate Writable(option: (string, string)) {
    ValidOption(option.0, option.1) && OneLine(option.0) && OneLine(option.1)
  }

  predicate AllWritable(conf: Options) {
    forall i | 0 <= i < |conf| :: Writable(conf[i])
  }

  /** The same options, each key once. */
  ghost predicate SameOptions(d: Options, conf: Options) {
    Distinct(d) && forall e :: e in d <==> e in conf
  }

  lemma {:induction false} OptionsConcat(a: seq<string>, b: seq<string>)
    ensures OptionsOf(a + b) == OptionsOf(a) + OptionsOf(b) && NonOptions(a + b) == NonOptions(a) + NonOptions(b)
  {
    hide ReadOption;
    if a == [] {
      assert a + b == b;
    } else {
      assert (a + b)[1..] == a[1..] + b && (a + b)[0] == a[0];
      OptionsConcat(a[1..], b);
      var o: Options := match ReadOption(a[0]) case Some(e) => [e] case None => [];
      var n := if ReadOption(a[0]).Some? then [] else [a[0]];
      assert o + (OptionsOf(a[1..]) + OptionsOf(b)) == (o + OptionsOf(a[1..])) + OptionsOf(b);
      assert n + (NonOptions(a[1..]) + NonOptions(b)) == (n + NonOptions(a[1..])) + NonOptions(b);
    }
  }

  lemma OneLineConcat(key: string, value: string)
    requires OneLine(key) && OneLine(value)
    ensures OneLine(OptionLine(key, value))
  {
  }

  lemma {:induction false} OptionLinesAre(conf: Options)
    requires AllWritable(conf)
    ensures OptionsOf(OptionLines(conf)) == conf && NonOptions(OptionLines(conf)) == [] && AllOneLine(OptionLines(conf))
  {
    hide ReadOption, OptionLine, ValidOption, OneLine;
    if conf != [] {
      var more := OptionLines(conf[1..]);
      assert Writable(conf[0]);
      ValidIsRead(conf[0].0, conf[0].1);
      OneLineConcat(conf[0].0, conf[0].1);
      OptionLinesAre(conf[1..]);
      assert conf == [conf[0]] + conf[1..];
      assert OptionLines(conf)[1..] == more;
    }
  }

  lemma {:induction false} DeleteMembers(d: Options, k: string)
    requires Distinct(d)
    ensures forall e :: e in Delete(d, k) <==> e in d && e.0 != k
  {
    if d != [] {
      assert d == [d[0]] + d[1..];
      if d[0].0 == k {
        forall e | e in d[1..] ensures e.0 != k {
          var i :| 0 <= i < |d[1..]| && d[1..][i] == e;
          assert d[i + 1] == e;
        }
      } else {
        DeleteMembers(d[1..], k);
      }
    }
  }

  lemma WritableMember(d: Options, e: (string, string))
    requires AllWritable(d) && e in d
    ensures Writable(e)
  {
  }

  lemma WritableSubset(d: Options, conf: Options)
    requires AllWritable(conf) && forall e :: e in d ==> e in conf
    ensures AllWritable(d)
  {
    hide Writable;
    forall i | 0 <= i < |d| ensures Writable(d[i]) { assert d[i] in d; }
  }

  lemma LookupIn(d: Options, k: string, v: string)
    requires Distinct(d)
    ensures Lookup(d, k) == Some(v) <==> (k, v) in d
  {
    if (k, v) in d {
      var i :| 0 <= i < |d| && d[i] == (k, v);
      LookupMember(d, i);
    }
    if Lookup(d, k) == Some(v) {
      LookupAbsent(d, k);
      var i :| 0 <= i < |d| && d[i].0 == k;
      LookupMember(d, i);
    }
  }

  lemma ConsDistinct(e: (string, string), d: Options)
    requires Distinct(d) && forall x | x in d :: x.0 != e.0
    ensures Distinct([e] + d)
  {
    var all := [e] + d;
    forall i, j | 0 <= i < j < |all| ensures all[i].0 != all[j].0 {
      assert d[j - 1] in d;
    }
  }

  /** What a line that is rewritten adds. */
  lemma RewrittenOption(conf: Options, key: string, d: Options)
    requires Distinct(conf) && AllWritable(conf) && Lookup(conf, key).Some? && SameOptions(d, Delete(conf, key))
    ensures var v := Lookup(conf, key).value;
            Writable((key, v)) && SameOptions([(key, v)] + d, conf)
  {
    hide Writable, Lookup, Delete, Distinct;
    var v := Lookup(conf, key).value;
    LookupIn(conf, key, v);
    WritableMember(conf, (key, v));
    DeleteMembers(conf, key);
    ConsDistinct((key, v), d);
    forall e ensures e in [(key, v)] + d <==> e in conf {
      if e in conf && e.0 == key {
        LookupIn(conf, key, e.1);
        assert e == (key, e.1);
      }
    }
  }

  /** All other lines are kept, and every option of the configuration is in a line or left over, once. */
  ghost predicate Kept(lines: seq<string>, conf: Options, more: seq<string>, rest: Options) {
    && AllOneLine(more) && NonOptions(more) == NonOptions(lines)
    && AllWritable(rest) && SameOptions(OptionsOf(more) + rest, conf)
  }

  lemma KeptOther(line: string, lines: seq<string>, conf: Options, more: seq<string>, rest: Options)
    requires Kept(lines, conf, more, rest) && ReadOption(line) == None && OneLine(line)
    ensures Kept([line] + lines, conf, [line] + more, rest)
  {
    hide ReadOption, SameOptions, OneLine, AllWritable;
    OptionsConcat([line], more);
    OptionsConcat([line], lines);
    NoOption(line);
    assert [] + OptionsOf(more) == OptionsOf(more);
  }

  lemma KeptDropped(line: string, lines: seq<string>, conf: Options, more: seq<string>, rest: Options)
    requires Kept(lines, conf, more, rest) && ReadOption(line).Some?
    ensures Kept([line] + lines, conf, more, rest)
  {
    hide ReadOption, SameOptions, AllOneLine, AllWritable;
    OptionsConcat([line], lines);
    assert [line][1..] == [] && NonOptions([line]) == [];
    assert [] + NonOptions(lines) == NonOptions(lines);
  }

  lemma KeptRewritten(line: string, lines: seq<string>, conf: Options, key: string, more: seq<string>, rest: Options)
    requires Distinct(conf) && AllWritable(conf) && Lookup(conf, key).Some? && ReadOption(line).Some?
    requires Kept(lines, Delete(conf, key), more, rest)
    ensures Kept([line] + lines, conf, [OptionLine(key, Lookup(conf, key).value)] + more, rest)
  {
    hide ReadOption, OptionLine, Writable, Lookup, Delete, SameOptions, OneLine, Distinct;
    var v := Lookup(conf, key).value;
    RewrittenOption(conf, key, OptionsOf(more) + rest);
    OptionsConcat([OptionLine(key, v)], more);
    OptionsConcat([line], lines);
    OneOption(key, v);
    assert [line][1..] == [] && NonOptions([line]) == [];
    assert [(key, v)] + OptionsOf(more) + rest == [(key, v)] + (OptionsOf(more) + rest);
    assert [] + NonOptions(more) == NonOptions(more) && [] + NonOptions(lines) == NonOptions(lines);
  }

  lemma {:induction false} RewriteKeeps(lines: seq<string>, conf: Options)
    requires AllOneLine(lines) && Distinct(conf) && AllWritable(conf)
    ensures Kept(lines, conf, Rewrite(lines, conf).0, Rewrite(lines, conf).1)
    decreases |lines|
  {
    hide ReadOption, OptionLine, Writable, Lookup, Delete, Distinct, OneLine, Kept;
    if lines == [] {
      NothingKept(conf);
    } else {
      var line, later := lines[0], lines[1..];
      assert lines == [line] + later;
      match ReadOption(line)
      case None =>
        RewriteKeeps(later, conf);
        KeptOther(line, later, conf, Rewrite(later, conf).0, Rewrite(later, conf).1);
      case Some(o) =>
        match Lookup(conf, o.0)
        case None =>
          RewriteKeeps(later, conf);
          KeptDropped(line, later, conf, Rewrite(later, conf).0, Rewrite(later, conf).1);
        case Some(v) =>
          var less := Delete(conf, o.0);
          DistinctDelete(conf, o.0);
          DeleteMembers(conf, o.0);
          WritableSubset(less, conf);
          RewriteKeeps(later, less);
          KeptRewritten(line, later, conf, o.0, Rewrite(later, less).0, Rewrite(later, less).1);
    }
  }

  lemma NothingKept(conf: Options)
    requires Distinct(conf) && AllWritable(conf)
    ensures Kept([], conf, [], conf)
  {
    assert [] + conf == conf;
  }

  lemma NoOption(line: string)
    requires ReadOption(line) == None
    ensures OptionsOf([line]) == [] && NonOptions([line]) == [line]
  {
    assert [line][1..] == [];
  }

  lemma OneOption(key: string, value: string)
    requires Writable((key, value))
    ensures OptionsOf([OptionLine(key, value)]) == [(key, value)] && NonOptions([OptionLine(key, value)]) == []
    ensures OneLine(OptionLine(key, value))
  {
    ValidIsRead(key, value);
    var line := OptionLine(key, value);
    assert [line][1..] == [];
  }

  lemma MiddleDistinct(a: Options, b: Options, c: Options)
    requires Distinct(a + c + b)
    ensures Distinct(a + b + c)
  {
    var was, all := a + c + b, a + b + c;
    forall i, j | 0 <= i < j < |all| ensures all[i].0 != all[j].0 {
      var x := if i < |a| then i else if i < |a| + |b| then i + |c| else i - |b|;
      var y := if j < |a| then j else if j < |a| + |b| then j + |c| else j - |b|;
      assert was[x] == all[i] && was[y] == all[j] && x != y;
    }
  }

  /** Inserting the options that are left over. */
  lemma InsertKeeps(lines: seq<string>, rest: Options, conf: Options)
    requires AllOneLine(lines) && AllWritable(rest) && SameOptions(OptionsOf(lines) + rest, conf)
    ensures var result := Insert(lines, rest);
            AllOneLine(result) && NonOptions(result) == NonOptions(lines) && SameOptions(OptionsOf(result), conf)
  {
    hide ReadOption, Writable, Distinct, OneLine;
    OptionLinesAre(rest);
    if rest == [] {
      assert OptionsOf(lines) + rest == OptionsOf(lines);
    } else if lines == [] {
      assert [] + rest == rest;
    } else {
      var head, last := lines[..|lines| - 1], lines[|lines| - 1..];
      assert lines == head + last;
      OptionsConcat(head, last);
      OptionsConcat(head, OptionLines(rest));
      OptionsConcat(head + OptionLines(rest), last);
      MiddleDistinct(OptionsOf(head), rest, OptionsOf(last));
      assert NonOptions(head) + [] == NonOptions(head);
    }
  }

  lemma NewLinesKeep(text: string, conf: Options)
    requires Distinct(conf) && AllWritable(conf)
    ensures var lines := NewLines(text, conf);
            AllOneLine(lines) && NonOptions(lines) == NonOptions(Lines(text)) && SameOptions(OptionsOf(lines), conf)
  {
    hide AllOneLine, NonOptions, OptionsOf, SameOptions, Rewrite, Insert, Lines, AllWritable, Distinct;
    LinesAreOneLine(text);
    RewriteKeeps(Lines(text), conf);
    var (lines, rest) := Rewrite(Lines(text), conf);
    InsertKeeps(lines, rest, conf);
  }

  // ---- what is parsed ----

  lemma {:induction false} OptionsWritable(lines: seq<string>)
    requires AllOneLine(lines)
    ensures AllWritable(OptionsOf(lines))
  {
    hide ReadOption, ValidOption, OneLine;
    if lines != [] {
      OptionsWritable(lines[1..]);
      if ReadOption(lines[0]).Some? { ReadIsValid(lines[0]); }
    }
  }

  lemma {:induction false} PutWritable(d: Options, e: (string, string))
    requires AllWritable(d) && Writable(e)
    ensures AllWritable(Put(d, e.0, e.1))
  {
    hide Writable;
    if d != [] { PutWritable(d[1..], e); }
  }

  lemma {:induction false} PutAllWritable(d: Options, options: Options)
    requires Distinct(d) && AllWritable(d) && AllWritable(options)
    ensures Distinct(PutAll(d, options)) && AllWritable(PutAll(d, options))
    decreases |options|
  {
    hide Writable;
    if options != [] {
      DistinctPut(d, options[0].0, options[0].1);
      PutWritable(d, options[0]);
      PutAllWritable(Put(d, options[0].0, options[0].1), options[1..]);
    }
  }

  lemma ParseWritable(text: string)
    ensures Distinct(Parse(text)) && AllWritable(Parse(text))
  {
    hide Writable, OptionsOf, Lines, OneLine;
    LinesAreOneLine(text);
    OptionsWritable(Lines(text));
    PutAllWritable([], OptionsOf(Lines(text)));
  }

  lemma {:induction false} PutNew(d: Options, e: (string, string))
    requires forall i | 0 <= i < |d| :: d[i].0 != e.0
    ensures Put(d, e.0, e.1) == d + [e]
  {
    if d != [] {
      assert d[0].0 != e.0 && forall i | 0 <= i < |d[1..]| :: d[1..][i] == d[i + 1];
      PutNew(d[1..], e);
      assert d == [d[0]] + d[1..];
    }
  }

  lemma {:induction false} PutAllDistinct(d: Options, options: Options)
    requires Distinct(d + options)
    ensures PutAll(d, options) == d + options
    decreases |options|
  {
    if options != [] {
      var all := d + options;
      forall i | 0 <= i < |d| ensures d[i].0 != options[0].0 { assert all[i].0 != all[|d|].0; }
      PutNew(d, options[0]);
      assert (d + [options[0]]) + options[1..] == all;
      PutAllDistinct(d + [options[0]], options[1..]);
    } else {
      assert d + options == d;
    }
  }

  lemma SameLookup(d: Options, conf: Options, k: string)
    requires SameOptions(d, conf) && Distinct(conf)
    ensures Lookup(d, k) == Lookup(conf, k)
  {
    hide Distinct, Lookup;
    forall v ensures Lookup(d, k) == Some(v) <==> Lookup(conf, k) == Some(v) {
      LookupIn(d, k, v);
      LookupIn(conf, k, v);
    }
    assert Lookup(d, k).Some? ==> Lookup(conf, k) == Some(Lookup(d, k).value);
    assert Lookup(conf, k).Some? ==> Lookup(d, k) == Some(Lookup(conf, k).value);
  }

  // ---- the main results ----

  /** A configuration that is written is read back; each option is in one line, and all other lines are kept in order. */
  lemma GeneratedIsParsed(text: string, conf: Options, k: string)
    requires Distinct(conf) && AllWritable(conf)
    ensures var result := Generate(text, conf);
            && Lookup(Parse(result), k) == Lookup(conf, k)
            && SameOptions(OptionsOf(Lines(result)), conf)
            && (NonOptions(Lines(result)) == NonOptions(Lines(text)) || result == "")
  {
    hide AllWritable, Distinct, NewLines, AllOneLine, OptionsOf, NonOptions, Lines, Lookup;
    NewLinesKeep(text, conf);
    var lines := NewLines(text, conf);
    if lines != [] {
      LinesOfText(lines);
    } else {
      EmptyText();
    }
    var options := OptionsOf(Lines(Text(lines)));
    assert [] + options == options;
    PutAllDistinct([], options);
    SameLookup(options, conf, k);
  }

  lemma EmptyText()
    ensures Text([]) == "" && OptionsOf(Lines("")) == OptionsOf([])
  {
    NothingParsed();
    assert Lines("") == [""] && ReadOption("") == None && [""][1..] == [];
  }

  lemma EmptyHasNoOptions(lines: seq<string>)
    requires AllOneLine(lines)
    ensures Text(lines) == "" ==> OptionsOf(lines) == []
  {
    if lines != [] && Text(lines) == "" {
      LinesOfText(lines);
      EmptyText();
      assert OptionsOf([]) == [];
    }
  }

  /** Only a result without any line may add an empty one. */
  lemma SomeLines(text: string, conf: Options)
    requires conf != [] && Distinct(conf) && AllWritable(conf)
    ensures Generate(text, conf) != ""
  {
    hide AllWritable, Distinct, Lines, OptionsOf, NewLines, AllOneLine;
    NewLinesKeep(text, conf);
    EmptyHasNoOptions(NewLines(text, conf));
    assert conf[0] in OptionsOf(NewLines(text, conf));
  }

  /**
   Setting one option in any file changes that option and nothing else: parsing gives the old
   configuration with the new value, every option has exactly one line even if it had several, and
   the lines that set no option are the same, in the same order.
   */
  lemma SetChangesOneOption(text: string, key: string, value: string, k: string)
    requires Writable((key, value))
    ensures var result := SetConfig(text, key, value);
            && Lookup(Parse(result), k) == (if k == key then Some(value) else Lookup(Parse(text), k))
            && Distinct(OptionsOf(Lines(result)))
            && NonOptions(Lines(result)) == NonOptions(Lines(text))
  {
    hide AllWritable, Distinct, Writable, Parse, Lines, NonOptions, OptionsOf, Generate, Lookup, Put;
    ParseWritable(text);
    DistinctPut(Parse(text), key, value);
    PutWritable(Parse(text), (key, value));
    var conf := Put(Parse(text), key, value);
    GeneratedIsParsed(text, conf, k);
    LookupPut(Parse(text), key, value, k);
    PutNotEmpty(Parse(text), key, value);
    SomeLines(text, conf);
  }

  lemma PutNotEmpty(d: Options, k: string, v: string)
    ensures Put(d, k, v) != []
  {
  }

  // ---- where the lines stay ----

  /** The line after the option was set. */
  function WithOption(line: string, key: string, value: string): string {
    match ReadOption(line)
    case None => line
    case Some(o) => OptionLine(o.0, if o.0 == key then value else o.1)
  }

  function AllWithOption(lines: seq<string>, key: string, value: string): (r: seq<string>)
    ensures |r| == |lines| && forall i | 0 <= i < |lines| :: r[i] == WithOption(lines[i], key, value)
  {
    seq(|lines|, i requires 0 <= i < |lines| => WithOption(lines[i], key, value))
  }

  lemma TailDistinct(o: (string, string), rest: Options)
    ensures Distinct([o] + rest) ==> Distinct(rest) && forall e | e in rest :: e.0 != o.0
  {
    var all := [o] + rest;
    if Distinct(all) {
      forall i, j | 0 <= i < j < |rest| ensures rest[i].0 != rest[j].0 { assert all[i + 1].0 != all[j + 1].0; }
      forall e | e in rest ensures e.0 != o.0 {
        var i :| 0 <= i < |rest| && rest[i] == e;
        assert all[0].0 != all[i + 1].0;
      }
    }
  }

  lemma OptionsStep(lines: seq<string>)
    requires lines != []
    ensures OptionsOf(lines) == (match ReadOption(lines[0]) case Some(o) => [o] case None => []) + OptionsOf(lines[1..])
    ensures Distinct(OptionsOf(lines)) ==> Distinct(OptionsOf(lines[1..]))
    ensures Distinct(OptionsOf(lines)) && ReadOption(lines[0]).Some? ==>
              forall e | e in OptionsOf(lines[1..]) :: e.0 != ReadOption(lines[0]).value.0
  {
    hide ReadOption;
    var all, rest := OptionsOf(lines), OptionsOf(lines[1..]);
    match ReadOption(lines[0])
    case Some(o) =>
      assert all == [o] + rest;
      TailDistinct(o, rest);
    case None => assert [] + rest == rest;
  }

  /** With a configuration that has all options of the lines, each of them once, every line stays in its place. */
  lemma {:induction false} RewriteInPlace(lines: seq<string>, conf: Options, key: string, value: string)
    requires Distinct(OptionsOf(lines)) && Distinct(conf)
    requires forall e | e in OptionsOf(lines) :: Lookup(conf, e.0) == Some(if e.0 == key then value else e.1)
    ensures Rewrite(lines, conf).0 == AllWithOption(lines, key, value)
    ensures Distinct(Rewrite(lines, conf).1)
    ensures forall k :: Lookup(Rewrite(lines, conf).1, k) == if exists e :: e in OptionsOf(lines) && e.0 == k then None else Lookup(conf, k)
    decreases |lines|
  {
    hide ReadOption, Distinct, Lookup, Delete, OptionLine;
    if lines != [] {
      OptionsStep(lines);
      var rest := lines[1..];
      var later := OptionsOf(rest);
      match ReadOption(lines[0]) {
        case None =>
          assert OptionsOf(lines) == later by { assert [] + later == later; }
          RewriteInPlace(rest, conf, key, value);
        case Some(o) =>
          assert OptionsOf(lines) == [o] + later && o in OptionsOf(lines);
          forall k ensures Lookup(Delete(conf, o.0), k) == if k == o.0 then None else Lookup(conf, k) { LookupDelete(conf, o.0, k); }
          DistinctDelete(conf, o.0);
          forall e | e in later ensures Lookup(Delete(conf, o.0), e.0) == Some(if e.0 == key then value else e.1) { assert e in OptionsOf(lines); }
          RewriteInPlace(rest, Delete(conf, o.0), key, value);
      }
      assert AllWithOption(lines, key, value) == [WithOption(lines[0], key, value)] + AllWithOption(rest, key, value);
    }
  }

  lemma NoMembers(conf: Options)
    requires forall e :: e !in conf
    ensures conf == []
  {
    forall e ensures e !in multiset(conf) { assert e in multiset(conf) <==> e in conf; }
    assert multiset(conf) == multiset{};
    assert |multiset(conf)| == |conf|;
  }

  lemma OneKey(conf: Options, key: string)
    requires Distinct(conf) && forall i | 0 <= i < |conf| :: conf[i].0 == key
    ensures |conf| <= 1
  {
    if conf != [] {
      var rest := conf[1..];
      forall e | e in rest ensures e.0 == key {
        var i :| 0 <= i < |rest| && rest[i] == e;
        assert conf[i + 1] == e;
      }
      assert conf == [conf[0]] + rest;
      TailDistinct(conf[0], rest);
      NoMembers(rest);
    }
  }

  lemma OneSetting(conf: Options, key: string, value: string)
    requires Distinct(conf) && forall k :: Lookup(conf, k) == if k == key then Some(value) else None
    ensures conf == [(key, value)]
  {
    LookupAbsent(conf, key);
    forall i | 0 <= i < |conf| ensures conf[i].0 == key {
      LookupMember(conf, i);
      assert Lookup(conf, conf[i].0).Some?;
    }
    OneKey(conf, key);
    LookupMember(conf, 0);
  }

  lemma NoSettings(conf: Options)
    requires forall k :: Lookup(conf, k) == None
    ensures conf == []
  {
    if conf != [] { assert Lookup(conf, conf[0].0).Some?; }
  }

  predicate HasOption(lines: seq<string>, key: string) {
    exists e :: e in OptionsOf(lines) && e.0 == key
  }

  lemma {:induction false} DistinctLookup(conf: Options, e: (string, string))
    requires Distinct(conf) && e in conf
    ensures Lookup(conf, e.0) == Some(e.1)
  {
    var i :| 0 <= i < |conf| && conf[i] == e;
    LookupMember(conf, i);
  }

  lemma PutForLines(options: Options, key: string, value: string)
    requires Distinct(options)
    ensures var conf := Put(options, key, value);
            && Distinct(conf)
            && (forall e | e in options :: Lookup(conf, e.0) == Some(if e.0 == key then value else e.1))
            && forall k :: Lookup(conf, k) == if k == key then Some(value) else Lookup(options, k)
  {
    DistinctPut(options, key, value);
    forall k ensures Lookup(Put(options, key, value), k) == if k == key then Some(value) else Lookup(options, k) {
      LookupPut(options, key, value, k);
    }
    forall e | e in options ensures Lookup(options, e.0) == Some(e.1) { DistinctLookup(options, e); }
  }

  lemma AbsentIff(options: Options, k: string)
    ensures Lookup(options, k) == None <==> !exists e :: e in options && e.0 == k
  {
    LookupAbsent(options, k);
    if e :| e in options && e.0 == k {
      var i :| 0 <= i < |options| && options[i] == e;
    }
  }

  lemma LeftAfterSetting(lines: seq<string>, key: string, value: string)
    requires Distinct(OptionsOf(lines))
    ensures var (stay, left) := Rewrite(lines, Put(OptionsOf(lines), key, value));
            stay == AllWithOption(lines, key, value) && left == if HasOption(lines, key) then [] else [(key, value)]
  {
    hide Distinct, Lookup, Put, OptionsOf, Rewrite, AllWithOption;
    var options := OptionsOf(lines);
    PutForLines(options, key, value);
    RewriteInPlace(lines, Put(options, key, value), key, value);
    var left := Rewrite(lines, Put(options, key, value)).1;
    forall k ensures Lookup(left, k) == if k == key && !HasOption(lines, key) then Some(value) else None { AbsentIff(options, k); }
    if HasOption(lines, key) { NoSettings(left); } else { OneSetting(left, key, value); }
  }

  /**
   Setting an option in a file that has no option twice: every line stays in its place. Lines that
   set no option are the same; the others are written anew, the one of this option with its new
   value. If there was none, it comes right before the last line.
   */
  lemma SetKeepsPlaces(text: string, key: string, value: string)
    requires Writable((key, value)) && Distinct(OptionsOf(Lines(text)))
    ensures var before, after := Lines(text), Lines(SetConfig(text, key, value));
            var stay := AllWithOption(before, key, value);
            after == if HasOption(before, key) then stay
                     else stay[..|stay| - 1] + [key + " = " + value] + stay[|stay| - 1..]
  {
    hide AllWritable, Distinct, Writable, OptionsOf, NonOptions, Lookup, Put, Rewrite, AllWithOption, HasOption, AllOneLine,
      Lines, Parse, Text, Insert, SameOptions;
    var lines := Lines(text);
    ParseWritable(text);
    ParseOfDistinct(text);
    LeftAfterSetting(lines, key, value);
    PutWritable(Parse(text), (key, value));
    DistinctPut(Parse(text), key, value);
    NewLinesKeep(text, Put(Parse(text), key, value));
    InsertedLines(AllWithOption(lines, key, value), key, value);
    LinesOfText(NewLines(text, Put(Parse(text), key, value)));
  }

  lemma ParseOfDistinct(text: string)
    requires Distinct(OptionsOf(Lines(text)))
    ensures Parse(text) == OptionsOf(Lines(text))
  {
    hide Distinct, OptionsOf, Lines;
    assert [] + OptionsOf(Lines(text)) == OptionsOf(Lines(text));
    PutAllDistinct([], OptionsOf(Lines(text)));
  }

  lemma InsertedLines(stay: seq<string>, key: string, value: string)
    requires stay != []
    ensures Insert(stay, []) == stay
    ensures Insert(stay, [(key, value)]) == stay[..|stay| - 1] + [key + " = " + value] + stay[|stay| - 1..]
  {
    assert [(key, value)][1..] == [];
    assert OptionLines([(key, value)]) == [key + " = " + value] + OptionLines([]);
  }

  /** Setting the option is read back from every file. */
  ghost predicate SetWorks(key: string, value: string) {
    forall text :: Lookup(Parse(SetConfig(text, key, value)), key) == Some(value)
  }

  /** Setting an option works exactly for the options that a line can hold. */
  lemma SetWorksIff(key: string, value: string)
    ensures SetWorks(key, value) <==> Writable((key, value))
  {
    hide Writable, Lookup, Parse, SetConfig;
    if Writable((key, value)) {
      forall text ensures Lookup(Parse(SetConfig(text, key, value)), key) == Some(value) {
        SetChangesOneOption(text, key, value, key);
      }
    } else if SetWorks(key, value) {
      var result := SetConfig("", key, value);
      assert Lookup(Parse(result), key) == Some(value);
      ParseWritable(result);
      LookupIn(Parse(result), key, value);
      WritableMember(Parse(result), (key, value));
    }
  }

  // ---- the cleanup ----

  lemma {:induction false} DeleteAllProperties(conf: Options, keys: seq<string>)
    requires Distinct(conf) && AllWritable(conf)
    ensures var less := DeleteAll(conf, keys);
            Distinct(less) && AllWritable(less) && forall e :: e in less <==> e in conf && e.0 !in keys
    decreases |keys|
  {
    hide Writable, Distinct, Delete;
    if keys != [] {
      assert keys == [keys[0]] + keys[1..];
      DistinctDelete(conf, keys[0]);
      DeleteMembers(conf, keys[0]);
      WritableSubset(Delete(conf, keys[0]), conf);
      DeleteAllProperties(Delete(conf, keys[0]), keys[1..]);
    }
  }

  /** Lines as a rewriting produces them. */
  ghost predicate Canonical(lines: seq<string>) {
    forall i | 0 <= i < |lines| && ReadOption(lines[i]).Some? ::
      lines[i] == OptionLine(ReadOption(lines[i]).value.0, ReadOption(lines[i]).value.1)
  }

  lemma CanonicalConcat(a: seq<string>, b: seq<string>)
    requires Canonical(a) && Canonical(b)
    ensures Canonical(a + b)
  {
    hide ReadOption, OptionLine;
  }

  lemma {:induction false} RewriteIsCanonical(lines: seq<string>, conf: Options)
    requires Distinct(conf) && AllWritable(conf)
    ensures Canonical(Rewrite(lines, conf).0)
    decreases |lines|
  {
    hide OptionLine, ReadOption, Lookup, Delete, Distinct, Writable;
    if lines != [] {
      match ReadOption(lines[0])
      case None => RewriteIsCanonical(lines[1..], conf);
      case Some(o) =>
        match Lookup(conf, o.0)
        case None => RewriteIsCanonical(lines[1..], conf);
        case Some(v) =>
          DistinctDelete(conf, o.0);
          DeleteMembers(conf, o.0);
          WritableSubset(Delete(conf, o.0), conf);
          RewriteIsCanonical(lines[1..], Delete(conf, o.0));
          LookupIn(conf, o.0, v);
          WritableMember(conf, (o.0, v));
          CanonicalOption(o.0, v);
          CanonicalConcat([OptionLine(o.0, v)], Rewrite(lines[1..], Delete(conf, o.0)).0);
    }
  }

  lemma CanonicalOption(key: string, value: string)
    requires Writable((key, value))
    ensures Canonical([OptionLine(key, value)])
  {
    ValidIsRead(key, value);
  }

  lemma {:induction false} OptionLinesCanonical(conf: Options)
    requires AllWritable(conf)
    ensures Canonical(OptionLines(conf))
  {
    hide OptionLine, ReadOption, Writable;
    if conf != [] {
      OptionLinesCanonical(conf[1..]);
      CanonicalOption(conf[0].0, conf[0].1);
      CanonicalConcat([OptionLine(conf[0].0, conf[0].1)], OptionLines(conf[1..]));
    }
  }

  lemma CanonicalParts(lines: seq<string>, n: nat)
    requires Canonical(lines) && n <= |lines|
    ensures Canonical(lines[..n]) && Canonical(lines[n..])
  {
    hide ReadOption, OptionLine;
  }

  lemma NewLinesCanonical(text: string, conf: Options)
    requires Distinct(conf) && AllWritable(conf)
    ensures Canonical(NewLines(text, conf))
  {
    hide ReadOption, OptionLine, Writable, Distinct, Canonical, Lines;
    LinesAreOneLine(text);
    RewriteKeeps(Lines(text), conf);
    RewriteIsCanonical(Lines(text), conf);
    var (lines, rest) := Rewrite(Lines(text), conf);
    OptionLinesCanonical(rest);
    if lines != [] {
      CanonicalParts(lines, |lines| - 1);
      CanonicalConcat(lines[..|lines| - 1], OptionLines(rest));
      CanonicalConcat(lines[..|lines| - 1] + OptionLines(rest), lines[|lines| - 1..]);
    }
  }

  lemma SameTail(e: (string, string), d: Options, conf: Options)
    requires SameOptions([e] + d, conf) && Distinct(conf)
    ensures Lookup(conf, e.0) == Some(e.1) && SameOptions(d, Delete(conf, e.0))
  {
    hide Lookup, Delete;
    var all := [e] + d;
    assert e in all;
    LookupIn(conf, e.0, e.1);
    DeleteMembers(conf, e.0);
    forall i, j | 0 <= i < j < |d| ensures d[i].0 != d[j].0 { assert all[i + 1].0 != all[j + 1].0; }
    forall x ensures x in d <==> x in conf && x.0 != e.0 {
      if x in d {
        var i :| 0 <= i < |d| && d[i] == x;
        assert all[0].0 != all[i + 1].0;
        assert x in all;
      }
      if x in conf && x.0 != e.0 { assert x in all; }
    }
  }

  lemma SomeMember(conf: Options)
    requires conf != []
    ensures exists e :: e in conf
  {
    assert conf[0] in conf;
  }

  /** Rewriting canonical lines with their own options changes nothing. */
  lemma {:induction false} RewriteAgain(lines: seq<string>, conf: Options)
    requires Canonical(lines) && SameOptions(OptionsOf(lines), conf) && Distinct(conf)
    ensures Rewrite(lines, conf) == (lines, [])
    decreases |lines|
  {
    hide ReadOption, OptionLine, Lookup, Delete;
    if lines == [] {
      assert OptionsOf(lines) == [];
      if conf != [] { SomeMember(conf); }
    } else {
      var later := lines[1..];
      assert lines == [lines[0]] + later;
      CanonicalParts(lines, 1);
      match ReadOption(lines[0])
      case None =>
        assert [] + OptionsOf(later) == OptionsOf(later);
        RewriteAgain(later, conf);
      case Some(o) =>
        SameTail(o, OptionsOf(later), conf);
        DistinctDelete(conf, o.0);
        RewriteAgain(later, Delete(conf, o.0));
    }
  }

  lemma ParseOfUpdate(text: string) returns (lines: seq<string>)
    ensures Update(text) == Text(lines) && AllOneLine(lines) && Canonical(lines)
    ensures Distinct(OptionsOf(lines)) && forall e | e in OptionsOf(lines) :: e.0 !in DEPRECATED
  {
    hide Writable, Distinct, NonOptions, OptionsOf, Parse, Canonical, NewLines, DEPRECATED, Lines;
    ParseWritable(text);
    DeleteAllProperties(Parse(text), DEPRECATED);
    var conf := DeleteAll(Parse(text), DEPRECATED);
    NewLinesKeep(text, conf);
    NewLinesCanonical(text, conf);
    lines := NewLines(text, conf);
  }

  lemma UpdateAgain(lines: seq<string>)
    requires lines != [] && AllOneLine(lines) && Canonical(lines)
    requires Distinct(OptionsOf(lines)) && forall e | e in OptionsOf(lines) :: e.0 !in DEPRECATED
    ensures Update(Text(lines)) == Text(lines)
  {
    hide Writable, Distinct, NonOptions, OptionsOf, Canonical, DEPRECATED, OneLine;
    LinesOfText(lines);
    var options := OptionsOf(lines);
    assert [] + options == options;
    PutAllDistinct([], options);
    assert Parse(Text(lines)) == options;
    ParseWritable(Text(lines));
    DeleteAllProperties(options, DEPRECATED);
    RewriteAgain(lines, DeleteAll(options, DEPRECATED));
  }

  /** The cleanup drops the deprecated options, keeps the others, and doing it again changes nothing. */
  lemma UpdateIsIdempotent(text: string, k: string)
    ensures Update(Update(text)) == Update(text)
    ensures Lookup(Parse(Update(text)), k) == if k in DEPRECATED then None else Lookup(Parse(text), k)
  {
    hide Writable, Distinct, NonOptions, OptionsOf, Parse, Canonical, NewLines, DEPRECATED, Lines, Update, Lookup, Text;
    var lines := ParseOfUpdate(text);
    if lines == [] {
      EmptyText();
      EmptyUpdate();
    } else {
      UpdateAgain(lines);
    }
    UpdateDrops(text, k);
  }

  lemma EmptyUpdate()
    ensures Update("") == ""
  {
    NothingParsed();
    DeleteNothing(DEPRECATED);
    assert Lines("") == [""] && ReadOption("") == None && [""][1..] == [];
    var none: seq<string> := [];
    assert [""] + none == [""] && Rewrite(none, []) == (none, []);
    assert Rewrite([""], []) == ([""], []);
  }

  lemma {:induction false} DeleteNothing(keys: seq<string>)
    ensures DeleteAll([], keys) == []
  {
    if keys != [] { DeleteNothing(keys[1..]); }
  }

  lemma UpdateDrops(text: string, k: string)
    ensures Lookup(Parse(Update(text)), k) == if k in DEPRECATED then None else Lookup(Parse(text), k)
  {
    hide Writable, Distinct, OptionsOf, Parse, DEPRECATED, Lookup, Generate;
    ParseWritable(text);
    DeleteAllProperties(Parse(text), DEPRECATED);
    var conf := DeleteAll(Parse(text), DEPRECATED);
    GeneratedIsParsed(text, conf, k);
    LookupDeleted(Parse(text), conf, k);
  }

  lemma LookupDeleted(conf: Options, less: Options, k: string)
    requires Distinct(conf) && Distinct(less) && forall e :: e in less <==> e in conf && e.0 !in DEPRECATED
    ensures Lookup(less, k) == if k in DEPRECATED then None else Lookup(conf, k)
  {
    hide Lookup, DEPRECATED;
    forall v ensures Lookup(less, k) == Some(v) <==> Lookup(conf, k) == Some(v) && k !in DEPRECATED {
      LookupIn(less, k, v);
      LookupIn(conf, k, v);
    }
    assert Lookup(less, k).Some? ==> Lookup(conf, k) == Some(Lookup(less, k).value) && k !in DEPRECATED;
    assert Lookup(conf, k).Some? && k !in DEPRECATED ==> Lookup(less, k) == Some(Lookup(conf, k).value);
  }
}
