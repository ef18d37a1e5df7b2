/**
 One printed line at a time: which texts survive being printed and read again. The
 conditions below can be checked on a component before it is printed.
 */
module DhcpdScan {
  import opened Wrappers
  import opened Strings
  import opened DhcpdModel
  import opened DhcpdParser
  import opened DhcpdPrinter

  // ---- what a printed statement may hold ----

  /** Any '#' stands inside an open quote. */
  predicate HashHidden(s: string) {
    var i := Find(s, '#');
    i == -1 || !EvenQuotes(s[..i])
  }

  /** The text before the closing semicolon can be read back in one piece. */
  predicate StatementSafe(s: string) {
    ';' !in s && EvenQuotes(s) && HashHidden(s)
  }

  predicate HeaderSafe(s: string) {
    ';' !in s && '}' !in s && '{' !in s && EvenQuotes(s) && HashHidden(s)
  }

  predicate ParameterSafe(key: string, value: Value) {
    && Word(key) && key != "option"
    && StatementSafe(key + " " + ValueText(key, value))
    && (value.Str? ==>
          && Normalised(value.text) && !IsYes(value.text) && !IsNo(value.text)
          && (QuotesParameter(key, value.text) || !Enclosed(value.text)))
  }

  /** An option value that is printed in quotes must not end them; another must not separate or quote. */
  predicate OptionValueSafe(quoted: bool, text: string) {
    && Normalised(text) && text != ""
    && (if quoted then '"' !in text else '"' !in text && '\'' !in text && ',' !in text)
  }

  predicate OptionValuesSafe(quoted: seq<bool>, values: seq<string>) {
    |quoted| == |values| && forall i | 0 <= i < |values| :: OptionValueSafe(quoted[i], values[i])
  }

  function ChoiceText(name: string, values: seq<string>): string {
    "option " + name + " " + Join(OptionTexts(name, values), ", ")
  }

  predicate ChoiceSafe(name: string, values: seq<string>) {
    && Word(name) && StatementSafe(ChoiceText(name, values))
    && OptionValuesSafe(OptionFlags(name, values), values)
  }

  predicate CommentSafe(data: string) {
    '\n' !in data && (data != "" ==> !IsSpace(data[|data| - 1]))
  }

  predicate BlockSafe(blockType: string, settings: seq<string>) {
    && settings != [] && Words(settings) && blockType == settings[0]
    && HeaderSafe(Join(settings, SPACE))
  }

  // ---- token choice ----

  lemma BlankHasNo(w: string, c: char)
    requires Blank(w) && !IsSpace(c)
    ensures c !in w
  {
  }

  lemma QuotesAfterBlank(w: string, s: string)
    requires Blank(w)
    ensures EvenQuotes(w + s) <==> EvenQuotes(s)
  {
    BlankHasNo(w, '"');
    BlankHasNo(w, '\'');
    CountAbsent(w, '"');
    CountAbsent(w, '\'');
    CountConcat(w, s, '"');
    CountConcat(w, s, '\'');
  }

  /** A '#' hidden in the statement is not taken for a comment. */
  lemma HashNotAccepted(w: string, body: string, post: string)
    requires Blank(w) && HashHidden(body) && '#' !in post
    ensures !Accepts(w + body + post, 0, '#')
  {
    BlankHasNo(w, '#');
    var i := Find(body, '#');
    if i == -1 {
      assert '#' !in w + body + post;
    } else {
      var pre, rest := w + body[..i], body[i + 1..] + post;
      SplitAround(w, body, i, post);
      FindAfter(pre, '#', rest);
      assert (pre + ['#'] + rest)[..|pre|] == pre;
      QuotesAfterBlank(w, body[..i]);
    }
  }

  lemma SplitAround(w: string, body: string, i: nat, post: string)
    requires i < |body|
    ensures w + body + post == (w + body[..i]) + [body[i]] + (body[i + 1..] + post)
  {
    assert body == body[..i] + [body[i]] + body[i + 1..];
  }

  /** The fixed order in which the tokens are tried. */
  lemma PickOrder(data: string, minIndex: nat)
    ensures PickFrom(TOKENS, data, minIndex) ==
              if Accepts(data, minIndex, '#') then Some('#')
              else if Accepts(data, minIndex, ';') then Some(';')
              else if Accepts(data, minIndex, '}') then Some('}')
              else if Accepts(data, minIndex, '{') then Some('{')
              else None
  {
    var t1, t2, t3 := [';', '}', '{'], ['}', '{'], ['{'];
    assert TOKENS[1..] == t1 && t1[1..] == t2 && t2[1..] == t3 && t3[1..] == [];
    assert PickFrom(t3, data, minIndex) == if Accepts(data, minIndex, '{') then Some('{') else None;
    assert PickFrom(t2, data, minIndex) == if Accepts(data, minIndex, '}') then Some('}') else PickFrom(t3, data, minIndex);
    assert PickFrom(t1, data, minIndex) == if Accepts(data, minIndex, ';') then Some(';') else PickFrom(t2, data, minIndex);
  }

  lemma AcceptsAt(w: string, body: string, token: char, post: string)
    requires Blank(w) && !IsSpace(token) && token !in body && EvenQuotes(body)
    ensures Find(w + body + [token] + post, token) == |w| + |body|
    ensures Accepts(w + body + [token] + post, 0, token)
  {
    BlankHasNo(w, token);
    FindAfter(w + body, token, post);
    assert (w + body + [token] + post)[..|w| + |body|] == w + body;
    QuotesAfterBlank(w, body);
  }

  lemma RejectsAbsent(data: string, token: char)
    requires token !in data
    ensures !Accepts(data, 0, token)
  {
  }

  lemma PickSemicolon(w: string, body: string)
    requires Blank(w) && StatementSafe(body)
    ensures var data := w + body + ";" + "\n";
            PickFrom(TOKENS, data, 0) == Some(';') && Find(data, ';') == |w| + |body|
  {
    var data := w + body + ";" + "\n";
    assert data == w + body + (";" + "\n");
    HashNotAccepted(w, body, ";" + "\n");
    AcceptsAt(w, body, ';', "\n");
    PickOrder(data, 0);
  }

  lemma PickLbracket(w: string, body: string)
    requires Blank(w) && HeaderSafe(body)
    ensures var data := w + (body + " ") + "{" + "\n";
            PickFrom(TOKENS, data, 0) == Some('{') && Find(data, '{') == |w| + |body| + 1
  {
    var data := w + (body + " ") + "{" + "\n";
    assert data == w + body + (" " + "{" + "\n");
    HashNotAccepted(w, body, " " + "{" + "\n");
    BlankHasNo(w, ';');
    BlankHasNo(w, '}');
    RejectsAbsent(data, ';');
    RejectsAbsent(data, '}');
    CountConcat(body, " ", '"');
    CountConcat(body, " ", '\'');
    AcceptsAt(w, body + " ", '{', "\n");
    PickOrder(data, 0);
  }

  lemma PickRbracket(w: string)
    requires Blank(w)
    ensures var data := w + "}" + "\n";
            PickFrom(TOKENS, data, 0) == Some('}') && Find(data, '}') == |w|
  {
    var data := w + "}" + "\n";
    BlankHasNo(w, '#');
    BlankHasNo(w, ';');
    RejectsAbsent(data, '#');
    RejectsAbsent(data, ';');
    assert data == w + "" + "}" + "\n";
    AcceptsAt(w, "", '}', "\n");
    PickOrder(data, 0);
  }

  lemma PickHash(w: string, data: string)
    requires Blank(w)
    ensures PickFrom(TOKENS, w + "#" + data, 0) == Some('#') && Find(w + "#" + data, '#') == |w|
  {
    assert w + "#" + data == w + "" + "#" + data;
    AcceptsAt(w, "", '#', data);
    PickOrder(w + "#" + data, 0);
  }

  // ---- reading a statement back ----

  lemma NormalisedInQuotes(s: string)
    requires Normalised(s)
    ensures Normalised(InQuotes(s))
  {
    NormalisedAppend(s, '"');
    NormalisedPrepend('"', s + "\"");
    assert InQuotes(s) == "\"" + (s + "\"");
  }

  lemma SplitTwo(w: string, key: string, text: string)
    requires Blank(w) && Word(key)
    ensures Split(w + (key + " " + text)) == [key] + Split(text)
  {
    SplitBlankPrefix(w, key + " " + text);
    assert key + " " + text == key + (" " + text);
    SplitWord(key, " " + text);
    SplitBlankPrefix(" ", text);
  }

  lemma ValueTextNormalised(key: string, value: Value)
    requires value.Str? ==> Normalised(value.text)
    ensures Normalised(ValueText(key, value))
  {
    if value.Flag? {
      var t := ValueText(key, value);
      assert t == t + "";
      SplitWord(t, "");
    } else {
      NormalisedInQuotes(value.text);
    }
  }

  lemma MakeValueText(key: string, value: Value)
    requires value.Str? ==> !IsYes(value.text) && !IsNo(value.text) && (QuotesParameter(key, value.text) || !Enclosed(value.text))
    ensures MakeValue(Unquote(ValueText(key, value))) == value
  {
    if value.Flag? {
      assert Lower("on") == "on" && Lower("off") == "off";
    } else if QuotesParameter(key, value.text) {
      assert InQuotes(value.text)[1..|value.text| + 1] == value.text;
    }
  }

  /** The value a parameter statement is read back with. */
  lemma ReadParameter(w: string, key: string, value: Value)
    requires Blank(w) && ParameterSafe(key, value)
    ensures var words := Split(w + (key + " " + ValueText(key, value)));
            words != [] && words[0] == key && MakeValue(Unquote(Strip(Join(words[1..], SPACE)))) == value
  {
    var text := ValueText(key, value);
    SplitTwo(w, key, text);
    assert ([key] + Split(text))[1..] == Split(text);
    ValueTextNormalised(key, value);
    NormalisedTrimmed(text);
    MakeValueText(key, value);
  }

  // ---- reading option values back ----

  lemma {:induction false} ScanConcat(v: ValueScan, a: string, b: string)
    ensures ScanValues(v, a + b) == ScanValues(ScanValues(v, a), b)
    decreases |a|
  {
    if a == "" {
      assert a + b == b;
    } else {
      assert (a + b)[1..] == a[1..] + b;
      ScanConcat(ScanChar(v, a[0]), a[1..], b);
    }
  }

  lemma {:induction false} ScanPlain(v: ValueScan, s: string)
    requires v.quote == None && '"' !in s && '\'' !in s && ',' !in s
    ensures ScanValues(v, s) == v.(current := v.current + s)
    decreases |s|
  {
    if s != "" {
      var next := ScanChar(v, s[0]);
      ScanPlain(next, s[1..]);
      assert v.current + s == next.current + s[1..];
    } else {
      assert v.current + s == v.current;
    }
  }

  lemma {:induction false} ScanInside(v: ValueScan, q: char, s: string)
    requires q in "\"'" && v.quote == Some(q) && q !in s
    ensures ScanValues(v, s) == v.(current := v.current + s)
    decreases |s|
  {
    if s != "" {
      var next := ScanChar(v, s[0]);
      ScanInside(next, q, s[1..]);
      assert v.current + s == next.current + s[1..];
    } else {
      assert v.current + s == v.current;
    }
  }

  /** One printed option value adds its text to the current characters. */
  lemma ScanOptionValue(v: ValueScan, quoted: bool, text: string)
    requires v.quote == None && OptionValueSafe(quoted, text)
    ensures ScanValues(v, Quote(quoted, text)) == v.(current := v.current + text)
  {
    if quoted {
      var open := v.(quote := Some('"'));
      var inside := open.(current := v.current + text);
      assert InQuotes(text) == "\"" + (text + "\"");
      ScanConcat(v, "\"", text + "\"");
      ScanOne(v, '"');
      ScanConcat(open, text, "\"");
      ScanInside(open, '"', text);
      ScanOne(inside, '"');
    } else {
      ScanPlain(v, text);
    }
  }

  lemma ScanOne(v: ValueScan, c: char)
    ensures ScanValues(v, [c]) == ScanChar(v, c)
  {
    assert [c][1..] == "";
  }

  lemma ScanSeparator(v: ValueScan)
    requires v.quote == None
    ensures ScanValues(v, ", ") == ValueScan(v.values + [Strip(v.current)], " ", None)
  {
    hide ScanChar, Strip;
    assert ", " == [','] + [' '];
    ScanConcat(v, [','], [' ']);
    ScanOne(v, ',');
    ScanOne(ScanChar(v, ','), ' ');
    SeparatorChars(v);
  }

  lemma SeparatorChars(v: ValueScan)
    requires v.quote == None
    ensures ScanChar(ScanChar(v, ','), ' ') == ValueScan(v.values + [Strip(v.current)], " ", None)
  {
    assert ScanChar(v, ',') == ValueScan(v.values + [Strip(v.current)], "", None);
    assert "" + [' '] == " ";
  }

  predicate Margin(s: string) { s == "" || s == " " }

  lemma QuoteAllStep(quoted: seq<bool>, values: seq<string>)
    requires |quoted| == |values| > 1
    ensures Join(QuoteAll(quoted, values), ", ") ==
              Quote(quoted[0], values[0]) + ", " + Join(QuoteAll(quoted[1..], values[1..]), ", ")
  {
    assert QuoteAll(quoted, values)[1..] == QuoteAll(quoted[1..], values[1..]);
  }

  lemma QuoteAllOne(quoted: seq<bool>, values: seq<string>)
    requires |quoted| == |values| == 1
    ensures Join(QuoteAll(quoted, values), ", ") == Quote(quoted[0], values[0])
    ensures values == [values[0]]
  {
    assert QuoteAll(quoted, values) == [Quote(quoted[0], values[0])];
  }

  lemma QuoteAllMore(quoted: seq<bool>, values: seq<string>)
    requires |quoted| == |values| > 1
    ensures Join(QuoteAll(quoted, values), ", ") ==
              Quote(quoted[0], values[0]) + (", " + Join(QuoteAll(quoted[1..], values[1..]), ", "))
  {
    hide Join, QuoteAll, Quote;
    QuoteAllStep(quoted, values);
    ConcatAssociates(Quote(quoted[0], values[0]), ", ", Join(QuoteAll(quoted[1..], values[1..]), ", "));
  }

  lemma ConcatAssociates(a: string, b: string, c: string)
    ensures a + b + c == a + (b + c)
  {
  }

  lemma Reassociate(done: seq<string>, values: seq<string>)
    requires values != []
    ensures done + [values[0]] + values[1..] == done + values
  {
  }

  /** Reading the separator after a value whose characters were all collected. */
  lemma ScanStep(v: ValueScan, printed: string, text: string, rest: string)
    requires v.quote == None
    requires ScanValues(v, printed) == v.(current := v.current + text)
    requires Strip(v.current + text) == text
    ensures ScanValues(v, printed + (", " + rest)) == ScanValues(ValueScan(v.values + [text], " ", None), rest)
  {
    var first := v.(current := v.current + text);
    ScanConcat(v, printed, ", " + rest);
    ScanConcat(first, ", ", rest);
    ScanSeparator(first);
  }

  lemma StripMargin(margin: string, text: string)
    requires Margin(margin) && Normalised(text)
    ensures Strip(margin + text) == text
  {
    NormalisedTrimmed(text);
    StripMargins(margin, text, "");
    assert margin + text + "" == margin + text;
  }

  lemma {:induction false} ScanAll(v: ValueScan, quoted: seq<bool>, values: seq<string>)
    requires v.quote == None && Margin(v.current) && values != [] && OptionValuesSafe(quoted, values)
    ensures ScanEnd(ScanValues(v, Join(QuoteAll(quoted, values), ", "))) == v.values + values
    decreases |values|
  {
    ScanOptionValue(v, quoted[0], values[0]);
    StripMargin(v.current, values[0]);
    if |values| == 1 {
      ScanLast(v, quoted, values);
    } else {
      var next := ValueScan(v.values + [values[0]], " ", None);
      ScanAll(next, quoted[1..], values[1..]);
      QuoteAllMore(quoted, values);
      Reassociate(v.values, values);
      ScanMore(v, Quote(quoted[0], values[0]), values[0], Join(QuoteAll(quoted[1..], values[1..]), ", "), values[1..]);
    }
  }

  lemma EndOf(r: ValueScan, text: string)
    requires text != "" && r.current != "" && Strip(r.current) == text
    ensures ScanEnd(r) == r.values + [text]
  {
  }

  lemma ScanLast(v: ValueScan, quoted: seq<bool>, values: seq<string>)
    requires |quoted| == |values| == 1 && values[0] != ""
    requires ScanValues(v, Quote(quoted[0], values[0])) == v.(current := v.current + values[0])
    requires Strip(v.current + values[0]) == values[0]
    ensures ScanEnd(ScanValues(v, Join(QuoteAll(quoted, values), ", "))) == v.values + values
  {
    var r := v.(current := v.current + values[0]);
    EndOf(r, values[0]);
    QuoteAllOne(quoted, values);
  }

  lemma ScanMore(v: ValueScan, printed: string, first: string, rest: string, tail: seq<string>)
    requires v.quote == None
    requires ScanValues(v, printed) == v.(current := v.current + first)
    requires Strip(v.current + first) == first
    requires ScanEnd(ScanValues(ValueScan(v.values + [first], " ", None), rest)) == v.values + [first] + tail
    ensures ScanEnd(ScanValues(v, printed + (", " + rest))) == v.values + [first] + tail
  {
    ScanStep(v, printed, first, rest);
  }

  lemma QuoteNormalised(quoted: bool, text: string)
    requires Normalised(text)
    ensures Normalised(Quote(quoted, text))
  {
    NormalisedInQuotes(text);
  }

  lemma NormalisedSeparated(a: string, b: string)
    requires Normalised(a) && Normalised(b) && b != ""
    ensures Normalised(a + ", " + b)
  {
    NormalisedAppend(a, ',');
    NormalisedConcat(a + [','], b);
    assert (a + [',']) + SPACE + b == a + ", " + b;
  }

  lemma {:induction false} OptionTextsNormalised(quoted: seq<bool>, values: seq<string>)
    requires values != [] && OptionValuesSafe(quoted, values)
    ensures Normalised(Join(QuoteAll(quoted, values), ", ")) && Join(QuoteAll(quoted, values), ", ") != ""
    decreases |values|
  {
    var text := Quote(quoted[0], values[0]);
    QuoteNormalised(quoted[0], values[0]);
    if |values| > 1 {
      var rest := Join(QuoteAll(quoted[1..], values[1..]), ", ");
      OptionTextsNormalised(quoted[1..], values[1..]);
      QuoteAllStep(quoted, values);
      NormalisedSeparated(text, rest);
    } else {
      assert QuoteAll(quoted, values) == [text];
    }
  }

  lemma ReadValues(quoted: seq<bool>, values: seq<string>)
    requires OptionValuesSafe(quoted, values)
    ensures var text := Join(QuoteAll(quoted, values), ", ");
            Normalised(text) && ScanEnd(ScanValues(SCANSTART, text)) == values
  {
    if values == [] {
      assert Normalised("");
    } else {
      OptionTextsNormalised(quoted, values);
      ScanAll(SCANSTART, quoted, values);
    }
  }

  lemma SplitThree(w: string, first: string, second: string, text: string)
    requires Blank(w) && Word(first) && Word(second)
    ensures Split(w + (first + " " + (second + " " + text))) == [first, second] + Split(text)
  {
    SplitTwo(w, first, second + " " + text);
    assert "" + (second + " " + text) == second + " " + text;
    SplitTwo("", second, text);
  }

  /** The values an option statement is read back with. */
  lemma ReadChoice(w: string, name: string, values: seq<string>)
    requires Blank(w) && ChoiceSafe(name, values)
    ensures var words := Split(w + ChoiceText(name, values));
            |words| >= 2 && words[0] == "option" && words[1] == name
            && ScanEnd(ScanValues(SCANSTART, Strip(Join(words[2..], SPACE)))) == values
  {
    hide Split, Join, ScanValues, ScanEnd, StatementSafe, Strip;
    var text := Join(OptionTexts(name, values), ", ");
    ReadValues(OptionFlags(name, values), values);
    assert ChoiceText(name, values) == "option" + " " + (name + " " + text);
    SplitThree(w, "option", name, text);
    assert (["option", name] + Split(text))[2..] == Split(text);
    NormalisedTrimmed(text);
  }
}
