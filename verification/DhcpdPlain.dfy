/**
 Texts without quotes and structural characters can always be written and read back.
 */
module DhcpdPlain {
  import opened Strings
  import opened DhcpdModel
  import opened DhcpdParser
  import opened DhcpdPrinter
  import opened DhcpdScan
  import opened DhcpdReload

  predicate PlainChar(c: char) {
    c != '#' && c != ';' && c != '{' && c != '}' && c != '"' && c != '\'' && c != ','
  }

  /** No quotes, no structural characters. */
  predicate Plain(s: string) {
    forall i | 0 <= i < |s| :: PlainChar(s[i])
  }

  lemma EvenBetween(a: string, quoted: bool, b: string)
    requires Plain(a) && Plain(b)
    ensures EvenQuotes(a + Quote(quoted, b))
  {
    CountAbsent(a, '"');
    CountAbsent(a, '\'');
    CountAbsent(b, '"');
    CountAbsent(b, '\'');
    QuoteCount(quoted, b, '"');
    QuoteCount(quoted, b, '\'');
    CountConcat(a, Quote(quoted, b), '"');
    CountConcat(a, Quote(quoted, b), '\'');
  }

  lemma QuoteCount(quoted: bool, b: string, c: char)
    requires Count(b, c) == 0
    ensures Count(Quote(quoted, b), c) == if quoted && c == '"' then 2 else 0
  {
    CountConcat("\"" + b, "\"", c);
    CountConcat("\"", b, c);
    assert Count("\"", c) == if c == '"' then 1 else 0 by { assert "\""[1..] == ""; }
  }

  lemma NoHash(s: string)
    requires '#' !in s
    ensures HashHidden(s)
  {
  }

  lemma PlainStatement(a: string, quoted: bool, b: string)
    requires Plain(a) && Plain(b)
    ensures StatementSafe(a + Quote(quoted, b))
  {
    EvenBetween(a, quoted, b);
    NoHash(a + Quote(quoted, b));
  }

  lemma PlainHead(key: string)
    requires Plain(key)
    ensures Plain(key + " ")
  {
  }

  /** A plain parameter survives being written and read. */
  lemma PlainParameter(key: string, value: Value)
    requires Word(key) && Plain(key) && key != "option"
    requires value.Str? ==> Plain(value.text) && Normalised(value.text) && !IsYes(value.text) && !IsNo(value.text)
    ensures ParameterSafe(key, value)
  {
    hide LooksQuoted, EndsWith, Normalised, IsYes, IsNo, StatementSafe;
    PlainHead(key);
    match value
    case Flag(on) =>
      PlainStatement(key + " ", false, if on then "on" else "off");
    case Str(text) =>
      PlainStatement(key + " ", QuotesParameter(key, text), text);
  }

  /** A plain block header survives being written and read. */
  lemma PlainBlock(settings: seq<string>)
    requires settings != [] && Words(settings) && Plain(Join(settings, SPACE))
    ensures BlockSafe(settings[0], settings)
  {
    var header := Join(settings, SPACE);
    CountAbsent(header, '"');
    CountAbsent(header, '\'');
    NoHash(header);
  }

  /** Balanced quotes, and neither '#' nor ';'. */
  predicate Even(s: string) {
    '#' !in s && ';' !in s && EvenQuotes(s)
  }

  lemma EvenConcat(a: string, b: string)
    requires Even(a) && Even(b)
    ensures Even(a + b)
  {
    CountConcat(a, b, '"');
    CountConcat(a, b, '\'');
  }

  lemma EvenQuote(quoted: bool, s: string)
    requires Plain(s)
    ensures Even(Quote(quoted, s))
  {
    EvenBetween("", quoted, s);
    assert "" + Quote(quoted, s) == Quote(quoted, s);
  }

  lemma {:induction false} EvenTexts(quoted: seq<bool>, values: seq<string>)
    requires |quoted| == |values| && forall i | 0 <= i < |values| :: Plain(values[i])
    ensures Even(Join(QuoteAll(quoted, values), ", "))
  {
    hide Plain, Even, Quote;
    EvenSeparator();
    if values != [] {
      EvenQuote(quoted[0], values[0]);
      EvenTexts(quoted[1..], values[1..]);
      var first, rest := Quote(quoted[0], values[0]), Join(QuoteAll(quoted[1..], values[1..]), ", ");
      EvenConcat(first, ", ");
      EvenConcat(first + ", ", rest);
      assert QuoteAll(quoted, values)[1..] == QuoteAll(quoted[1..], values[1..]);
    }
  }

  lemma EvenSeparator()
    ensures Even("") && Even(", ")
  {
    CountAbsent(", ", '"');
    CountAbsent(", ", '\'');
  }

  /** A plain option survives being written and read. */
  lemma PlainChoice(name: string, values: seq<string>)
    requires Word(name) && Plain(name)
    requires forall i | 0 <= i < |values| :: Plain(values[i]) && Normalised(values[i]) && values[i] != ""
    ensures ChoiceSafe(name, values)
  {
    hide OptionTexts, Normalised, QuotesOption, Join;
    var head, text := "option " + name + " ", Join(OptionTexts(name, values), ", ");
    assert Even(text) by {
      EvenTexts(OptionFlags(name, values), values);
      OptionTextsAre(name, values);
    }
    assert Plain(head);
    EvenBetween("", false, head);
    assert "" + Quote(false, head) == head;
    EvenConcat(head, text);
    assert StatementSafe(ChoiceText(name, values)) by { NoHash(head + text); }
  }

  lemma OptionTextsAre(name: string, values: seq<string>)
    ensures OptionTexts(name, values) == QuoteAll(OptionFlags(name, values), values)
  {
  }
}
