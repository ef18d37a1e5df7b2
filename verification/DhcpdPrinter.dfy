/**
 The printer of dhcpd.conf files, which is driven by the line numbers of the components,
 and its effect: a block forgets every component that it prints through a line number.
 */
module DhcpdPrinter {
  import opened Strings
  import opened DhcpdModel

  // ---- indentation and quoting ----

  function Tabs(n: nat): string {
    if n == 0 then "" else "\t" + Tabs(n - 1)
  }

  function Depth(s: Store, b: nat): nat
    requires Valid(s) && b < |s|
  {
    if s[b].parent < 0 then 0 else assert b > 0; 1 + Depth(s, s[b].parent)
  }

  function Shifting(s: Store, i: nat): string
    requires Valid(s) && i < |s|
  {
    if s[i].parent < 0 then "" else assert i > 0; Tabs(Depth(s, s[i].parent))
  }

  predicate IsWordChar(c: char) {
    'a' <= c <= 'z' || 'A' <= c <= 'Z' || '0' <= c <= '9' || c == '_'
  }

  predicate AllWordChars(s: string) {
    s != "" && forall i | 0 <= i < |s| :: IsWordChar(s[i])
  }

  /** Two nonempty runs of word characters around a single dot. */
  predicate IsDottedPair(s: string) {
    var i := Find(s, '.');
    i != -1 && AllWordChars(s[..i]) && AllWordChars(s[i + 1..])
  }

  predicate EndsWith(s: string, suffix: string) {
    |s| >= |suffix| && s[|s| - |suffix|..] == suffix
  }

  predicate LooksQuoted(s: string) {
    '\'' in s || '/' in s || '\\' in s || IsDottedPair(s)
  }

  predicate QuotesParameter(key: string, text: string) {
    || key == "filename" || key == "file_path" || key == "ddns-domainname"
    || LooksQuoted(text)
    || EndsWith(key, "-name")
  }

  const QUOTEDOPTIONS: seq<string> := [
    "-name", "-domain", "-identifier", "-search", "merit-dump", "nds-context", "netbios-scope", "nwip-domain",
    "nwip-suboptions", "nis-domain", "nisplus-domain", "root-path", "uap-servers", "user-class",
    "vendor-encapsulated-options", "circuit-id", "remote-id", "fqdn.fqdn", "ddns-rev-domainname"
  ]

  predicate QuotesOption(name: string, text: string) {
    LooksQuoted(text) || exists i | 0 <= i < |QUOTEDOPTIONS| :: EndsWith(name, QUOTEDOPTIONS[i])
  }

  function InQuotes(s: string): string { "\"" + s + "\"" }

  function ValueText(key: string, v: Value): string {
    match v
    case Flag(on) => if on then "on" else "off"
    case Str(text) => if QuotesParameter(key, text) then InQuotes(text) else text
  }

  function Quote(quoted: bool, text: string): string { if quoted then InQuotes(text) else text }

  function OptionFlags(name: string, values: seq<string>): (q: seq<bool>)
    ensures |q| == |values|
  {
    seq(|values|, i requires 0 <= i < |values| => QuotesOption(name, values[i]))
  }

  function QuoteAll(quoted: seq<bool>, values: seq<string>): seq<string>
    requires |quoted| == |values|
  {
    if values == [] then [] else [Quote(quoted[0], values[0])] + QuoteAll(quoted[1..], values[1..])
  }

  function OptionTexts(name: string, values: seq<string>): seq<string> {
    QuoteAll(OptionFlags(name, values), values)
  }

  // ---- which components a block prints, and where ----

  function First(s: Store, b: nat): int
    requires b < |s|
  {
    if s[b].startLine < 1 then 1 else s[b].startLine
  }

  predicate InRange(s: Store, b: nat, line: int)
    requires b < |s|
  {
    First(s, b) <= line <= s[b].endLine
  }

  /** Component `c` is printed by block `b` through its line number. */
  predicate LinePlaced(s: Store, b: nat, c: nat)
    requires IsBlock(s, b) && c < |s|
  {
    InRange(s, b, s[c].startLine) && c in RefsAt(s[b].body.lineRefs, s[c].startLine)
  }

  /** The components of `ids` that are left for the end because no printed line refers to them. */
  function Unplaced(s: Store, b: nat, ids: seq<nat>): (r: seq<nat>)
    requires IsBlock(s, b) && forall k | 0 <= k < |ids| :: ids[k] < |s|
    ensures |r| <= |ids| && forall k | 0 <= k < |r| :: r[k] < |s|
  {
    if ids == [] then []
    else
      (if LinePlaced(s, b, ids[0]) then [] else [ids[0]]) + Unplaced(s, b, ids[1..])
  }

  function Rest(s: Store, b: nat): seq<nat>
    requires Valid(s) && IsBlock(s, b)
  {
    assert ValidBlock(s, b);
    Unplaced(s, b, s[b].body.components)
  }

  /** The groups of components that share a printed line. */
  function LineGroups(s: Store, b: nat, line: int): (g: seq<seq<nat>>)
    requires Valid(s) && IsBlock(s, b)
    ensures forall k | 0 <= k < |g| :: g[k] != [] && ChildrenOf(s, b, g[k])
    decreases s[b].endLine - line
  {
    if line > s[b].endLine then []
    else
      assert ValidBlock(s, b);
      var ids := RefsAt(s[b].body.lineRefs, line);
      (if ids == [] then [] else [ids]) + LineGroups(s, b, line + 1)
  }

  function Singletons(ids: seq<nat>): (g: seq<seq<nat>>)
    ensures |g| == |ids| && forall k | 0 <= k < |g| :: g[k] == [ids[k]]
  {
    if ids == [] then [] else [[ids[0]]] + Singletons(ids[1..])
  }

  lemma {:induction false} UnplacedMember(s: Store, b: nat, ids: seq<nat>, c: nat)
    requires IsBlock(s, b) && (forall k | 0 <= k < |ids| :: ids[k] < |s|) && c < |s|
    ensures c in Unplaced(s, b, ids) <==> c in ids && !LinePlaced(s, b, c)
  {
    if ids != [] {
      assert ids == [ids[0]] + ids[1..];
      UnplacedMember(s, b, ids[1..], c);
    }
  }

  ghost predicate AllAbove(ids: seq<nat>, x: int) {
    forall k | 0 <= k < |ids| :: x < ids[k]
  }

  lemma {:induction false} DropIncreasing(ids: seq<nat>, gone: set<nat>, x: int)
    requires Increasing(ids) && AllAbove(ids, x)
    ensures Increasing(Drop(ids, gone)) && AllAbove(Drop(ids, gone), x)
  {
    if ids != [] {
      assert AllAbove(ids[1..], ids[0]);
      DropIncreasing(ids[1..], gone, ids[0]);
    }
  }

  ghost predicate AllChildren(s: Store, b: nat, ids: seq<nat>) {
    forall k | 0 <= k < |ids| :: b < ids[k] < |s| && s[ids[k]].parent == b
  }

  lemma {:induction false} DropMembers(s: Store, b: nat, ids: seq<nat>, gone: set<nat>)
    requires AllChildren(s, b, ids)
    ensures AllChildren(s, b, Drop(ids, gone))
  {
    if ids != [] { DropMembers(s, b, ids[1..], gone); }
  }

  lemma DropChildren(s: Store, b: nat, ids: seq<nat>, gone: set<nat>)
    requires ChildrenOf(s, b, ids)
    ensures ChildrenOf(s, b, Drop(ids, gone))
  {
    DropIncreasing(ids, gone, -1);
    DropMembers(s, b, ids, gone);
  }

  /** The components that block `b` prints through their line numbers. */
  ghost function PlacedIn(s: Store, b: nat): set<nat>
    requires IsBlock(s, b)
  {
    set c: nat | 0 <= c < |s| && LinePlaced(s, b, c)
  }

  lemma {:induction false} UnplacedIsDrop(s: Store, b: nat, ids: seq<nat>)
    requires IsBlock(s, b) && forall k | 0 <= k < |ids| :: ids[k] < |s|
    ensures Unplaced(s, b, ids) == Drop(ids, PlacedIn(s, b))
  {
    if ids != [] { UnplacedIsDrop(s, b, ids[1..]); }
  }

  lemma RestChildren(s: Store, b: nat)
    requires Valid(s) && IsBlock(s, b)
    ensures ChildrenOf(s, b, Rest(s, b))
  {
    assert ValidBlock(s, b);
    UnplacedIsDrop(s, b, s[b].body.components);
    DropChildren(s, b, s[b].body.components, PlacedIn(s, b));
  }

  lemma SingletonChildren(s: Store, b: nat, ids: seq<nat>)
    requires ChildrenOf(s, b, ids)
    ensures forall k | 0 <= k < |Singletons(ids)| :: Singletons(ids)[k] != [] && ChildrenOf(s, b, Singletons(ids)[k])
  {
  }

  /** Everything a block prints, one inner sequence per line of output. */
  function Plan(s: Store, b: nat): (g: seq<seq<nat>>)
    requires Valid(s) && IsBlock(s, b)
    ensures forall k | 0 <= k < |g| :: g[k] != [] && ChildrenOf(s, b, g[k])
  {
    RestChildren(s, b);
    SingletonChildren(s, b, Rest(s, b));
    LineGroups(s, b, First(s, b)) + Singletons(Rest(s, b))
  }

  // ---- the text ----

  function AsText(s: Store, i: nat): string
    requires Valid(s) && i < |s|
    decreases |s| - i, 2, 0
  {
    match s[i].body
    case Parameter(key, value) => Shifting(s, i) + key + " " + ValueText(key, value) + ";"
    case Choice(name, values) => Shifting(s, i) + "option " + name + " " + Join(OptionTexts(name, values), ", ") + ";"
    case Comment(data) => Shifting(s, i) + "#" + data
    case EmptyLine => Shifting(s, i)
    case Block(_, settings, _, _) =>
      if i == GLOBAL then PlanText(s, i, Plan(s, i))
      else Shifting(s, i) + Join(settings, SPACE) + " {\n" + PlanText(s, i, Plan(s, i)) + Shifting(s, i) + "}"
  }

  function PlanText(s: Store, b: nat, groups: seq<seq<nat>>): string
    requires Valid(s) && b < |s|
    requires forall k | 0 <= k < |groups| :: ChildrenOf(s, b, groups[k])
    decreases |s| - b, 1, |groups|
  {
    if groups == [] then "" else LineText(s, b, groups[0], 0) + "\n" + PlanText(s, b, groups[1..])
  }

  /** The components of one line, of which those after the first print a comment with one space before it. */
  function LineText(s: Store, b: nat, ids: seq<nat>, k: nat): string
    requires Valid(s) && b < |s| && ChildrenOf(s, b, ids) && k <= |ids|
    decreases |s| - b, 0, |ids| - k
  {
    if k == |ids| then "" else RefText(s, b, ids, k) + LineText(s, b, ids, k + 1)
  }

  function RefText(s: Store, b: nat, ids: seq<nat>, k: nat): string
    requires Valid(s) && b < |s| && ChildrenOf(s, b, ids) && k < |ids|
    decreases |s| - b, 0, 0
  {
    var text := AsText(s, ids[k]);
    if k > 0 && s[ids[k]].body.Comment? then " " + LStrip(text) else text
  }

  // ---- which values are printed in quotes ----

  /** Two runs of word characters around a dot. */
  ghost predicate DottedWords(text: string) {
    exists left: string, right: string :: text == left + "." + right && AllWordChars(left) && AllWordChars(right)
  }

  ghost predicate NeedsQuotes(text: string) {
    '\'' in text || '/' in text || '\\' in text || DottedWords(text)
  }

  ghost predicate NamedForQuotes(name: string) {
    exists stem: string, i: nat :: i < |QUOTEDOPTIONS| && name == stem + QUOTEDOPTIONS[i]
  }

  lemma DottedPairIff(text: string)
    ensures IsDottedPair(text) <==> DottedWords(text)
  {
    if IsDottedPair(text) {
      var i := Find(text, '.');
      assert text == text[..i] + "." + text[i + 1..];
    }
    if left: string, right: string :| text == left + "." + right && AllWordChars(left) && AllWordChars(right) {
      assert text == left + ['.'] + right;
      FindAfter(left, '.', right);
      assert text[..|left|] == left && text[|left| + 1..] == right;
    }
  }

  lemma EndsWithIff(name: string, suffix: string)
    ensures EndsWith(name, suffix) <==> exists stem: string :: name == stem + suffix
  {
    if EndsWith(name, suffix) { assert name == name[..|name| - |suffix|] + suffix; }
  }

  lemma QuotesOptionIff(name: string, text: string)
    ensures QuotesOption(name, text) <==> NeedsQuotes(text) || NamedForQuotes(name)
  {
    hide IsDottedPair, EndsWith, DottedWords;
    DottedPairIff(text);
    forall i | 0 <= i < |QUOTEDOPTIONS| ensures EndsWith(name, QUOTEDOPTIONS[i]) <==> exists stem: string :: name == stem + QUOTEDOPTIONS[i] {
      EndsWithIff(name, QUOTEDOPTIONS[i]);
    }
  }

  lemma {:induction false} QuoteAllAt(quoted: seq<bool>, values: seq<string>, k: nat)
    requires |quoted| == |values| && k < |values|
    ensures |QuoteAll(quoted, values)| == |values|
    ensures QuoteAll(quoted, values)[k] == if quoted[k] then "\"" + values[k] + "\"" else values[k]
    decreases |values|
  {
    if |values| > 1 { QuoteAllAt(quoted[1..], values[1..], if k > 0 then k - 1 else 0); }
  }

  /** Exactly the values that need it stand in quotes, and all of them if the name has one of the listed endings. */
  ghost predicate QuotedAsNeeded(name: string, values: seq<string>, texts: seq<string>) {
    && |texts| == |values|
    && forall k | 0 <= k < |values| ::
         texts[k] == if NeedsQuotes(values[k]) || NamedForQuotes(name) then "\"" + values[k] + "\"" else values[k]
  }

  /** The printed text of an option: its values in their order, in quotes as needed. */
  lemma PrintedOption(s: Store, i: nat)
    requires Valid(s) && i < |s| && s[i].body.Choice?
    ensures var Choice(name, values) := s[i].body;
            && AsText(s, i) == Shifting(s, i) + "option " + name + " " + Join(OptionTexts(name, values), ", ") + ";"
            && QuotedAsNeeded(name, values, OptionTexts(name, values))
  {
    hide QuotesOption, NeedsQuotes, NamedForQuotes, Valid, Shifting, Join;
    var Choice(name, values) := s[i].body;
    if values != [] { QuoteAllAt(OptionFlags(name, values), values, 0); }
    forall k | 0 <= k < |values|
      ensures OptionTexts(name, values)[k] == if NeedsQuotes(values[k]) || NamedForQuotes(name) then "\"" + values[k] + "\"" else values[k]
    {
      QuoteAllAt(OptionFlags(name, values), values, k);
      QuotesOptionIff(name, values[k]);
    }
  }

  /** The printed text of a parameter: an on/off word, or its value in quotes exactly if the value or the key asks for them. */
  lemma PrintedParameter(s: Store, i: nat)
    requires Valid(s) && i < |s| && s[i].body.Parameter?
    ensures var Parameter(key, value) := s[i].body;
            && (value == Flag(true) ==> AsText(s, i) == Shifting(s, i) + key + " on;")
            && (value == Flag(false) ==> AsText(s, i) == Shifting(s, i) + key + " off;")
            && (value.Str? ==>
                  var quoted := NeedsQuotes(value.text) || key in ["filename", "file_path", "ddns-domainname"]
                                || exists stem: string :: key == stem + "-name";
                  AsText(s, i) == Shifting(s, i) + key + " " + (if quoted then "\"" + value.text + "\"" else value.text) + ";")
  {
    hide IsDottedPair, DottedWords, EndsWith, Valid, Shifting;
    var Parameter(key, value) := s[i].body;
    if value.Str? {
      DottedPairIff(value.text);
      EndsWithIff(key, "-name");
    } else {
      var text := Shifting(s, i) + key;
      assert text + " " + "on" + ";" == text + " on;" && text + " " + "off" + ";" == text + " off;";
    }
  }

  // ---- printing depends on the pending components only ----

  /** Stores that print alike: they may differ only in components that a line number places. */
  ghost predicate PrintAlike(s: Store, t: Store)
    requires Valid(s) && Valid(t)
  {
    && |s| == |t|
    && forall i | 0 <= i < |s| ::
         && s[i].startLine == t[i].startLine && s[i].endLine == t[i].endLine && s[i].parent == t[i].parent
         && s[i].body.Block? == t[i].body.Block?
         && (!s[i].body.Block? ==> s[i].body == t[i].body)
         && (s[i].body.Block? ==>
               && s[i].body.blockType == t[i].body.blockType && s[i].body.settings == t[i].body.settings
               && s[i].body.lineRefs == t[i].body.lineRefs && Rest(s, i) == Rest(t, i))
  }

  lemma {:induction false} DepthAlike(s: Store, t: Store, b: nat)
    requires Valid(s) && Valid(t) && PrintAlike(s, t) && b < |s|
    ensures Depth(s, b) == Depth(t, b)
  {
    if s[b].parent >= 0 {
      assert b > 0;
      DepthAlike(s, t, s[b].parent);
    }
  }

  lemma {:induction false} GroupsAlike(s: Store, t: Store, b: nat, line: int)
    requires Valid(s) && Valid(t) && PrintAlike(s, t) && IsBlock(s, b)
    ensures LineGroups(s, b, line) == LineGroups(t, b, line)
    decreases s[b].endLine - line
  {
    if line <= s[b].endLine { GroupsAlike(s, t, b, line + 1); }
  }

  lemma {:induction false} TextAlike(s: Store, t: Store, i: nat)
    requires Valid(s) && Valid(t) && PrintAlike(s, t) && i < |s|
    ensures AsText(s, i) == AsText(t, i)
    decreases |s| - i, 2, 0
  {
    hide Valid, PrintAlike, Plan, PlanText, Shifting, ValueText, OptionTexts, Join;
    ShiftingAlike(s, t, i);
    RecordAlike(s, t, i);
    if s[i].body.Block? {
      PlanAlike(s, t, i);
      PlanTextAlike(s, t, i, Plan(s, i));
    }
  }

  lemma ShiftingAlike(s: Store, t: Store, i: nat)
    requires Valid(s) && Valid(t) && PrintAlike(s, t) && i < |s|
    ensures i < |t| && Shifting(s, i) == Shifting(t, i)
  {
    if s[i].parent >= 0 { DepthAlike(s, t, s[i].parent); }
  }

  lemma RecordAlike(s: Store, t: Store, i: nat)
    requires Valid(s) && Valid(t) && PrintAlike(s, t) && i < |s|
    ensures i < |t| && s[i].body.Block? == t[i].body.Block?
    ensures if s[i].body.Block? then t[i].body.settings == s[i].body.settings else t[i].body == s[i].body
  {
  }

  lemma PlanAlike(s: Store, t: Store, b: nat)
    requires Valid(s) && Valid(t) && PrintAlike(s, t) && IsBlock(s, b)
    ensures IsBlock(t, b) && Plan(s, b) == Plan(t, b)
  {
    hide Valid, Rest;
    GroupsAlike(s, t, b, First(s, b));
  }

  lemma {:induction false} PlanTextAlike(s: Store, t: Store, b: nat, groups: seq<seq<nat>>)
    requires Valid(s) && Valid(t) && PrintAlike(s, t) && b < |s|
    requires forall k | 0 <= k < |groups| :: ChildrenOf(s, b, groups[k]) && ChildrenOf(t, b, groups[k])
    ensures PlanText(s, b, groups) == PlanText(t, b, groups)
    decreases |s| - b, 1, |groups|
  {
    if groups != [] {
      LineTextAlike(s, t, b, groups[0], 0);
      PlanTextAlike(s, t, b, groups[1..]);
    }
  }

  lemma {:induction false} LineTextAlike(s: Store, t: Store, b: nat, ids: seq<nat>, k: nat)
    requires Valid(s) && Valid(t) && PrintAlike(s, t) && b < |s|
    requires ChildrenOf(s, b, ids) && ChildrenOf(t, b, ids) && k <= |ids|
    ensures LineText(s, b, ids, k) == LineText(t, b, ids, k)
    decreases |s| - b, 0, |ids| - k
  {
    if k < |ids| {
      TextAlike(s, t, ids[k]);
      LineTextAlike(s, t, b, ids, k + 1);
    }
  }

  // ---- the effect of printing on the store ----

  /** Printing block `b` visits component `i`. */
  predicate Visited(s: Store, b: nat, i: nat)
    requires Valid(s) && b < |s| && i < |s|
    decreases i
  {
    || i == b
    || (&& i > b && s[i].parent >= 0
        && (LinePlaced(s, s[i].parent, i) || i in s[s[i].parent].body.components)
        && Visited(s, b, s[i].parent))
  }

  function Forget(s: Store, b: nat): Component
    requires Valid(s) && b < |s|
  {
    if s[b].body.Block? then s[b].(body := s[b].body.(components := Rest(s, b))) else s[b]
  }

  /** The store after block `b` was printed: every visited block keeps only its unplaced components. */
  function Printed(s: Store, b: nat): (t: Store)
    requires Valid(s) && b < |s|
    ensures |t| == |s|
  {
    seq(|s|, i requires 0 <= i < |s| => if Visited(s, b, i) then Forget(s, i) else s[i])
  }

  lemma {:induction false} UnplacedIdempotent(s: Store, t: Store, b: nat, ids: seq<nat>)
    requires IsBlock(s, b) && IsBlock(t, b) && |s| == |t|
    requires forall k | 0 <= k < |ids| :: ids[k] < |s|
    requires forall c | 0 <= c < |s| :: s[c].startLine == t[c].startLine
    requires s[b].endLine == t[b].endLine && s[b].body.lineRefs == t[b].body.lineRefs
    ensures Unplaced(s, b, ids) == Unplaced(t, b, ids)
    ensures Unplaced(t, b, Unplaced(s, b, ids)) == Unplaced(s, b, ids)
  {
    if ids != [] {
      UnplacedIdempotent(s, t, b, ids[1..]);
      var r := Unplaced(s, b, ids[1..]);
      assert LinePlaced(s, b, ids[0]) <==> LinePlaced(t, b, ids[0]);
      if !LinePlaced(s, b, ids[0]) {
        assert Unplaced(s, b, ids) == [ids[0]] + r;
        assert ([ids[0]] + r)[1..] == r;
      } else {
        assert Unplaced(s, b, ids) == r;
      }
    }
  }

  /** A store in which some blocks forgot some of their placed components. */
  ghost predicate Thinned(s: Store, t: Store)
    requires Valid(s)
  {
    |s| == |t| && forall i | 0 <= i < |s| :: t[i] == s[i] || ThinnedBlock(s, i, t[i])
  }

  ghost predicate ThinnedBlock(s: Store, b: nat, c: Component)
    requires Valid(s) && b < |s|
  {
    && s[b].body.Block? && c.body.Block? && ChildrenOf(s, b, c.body.components)
    && c == s[b].(body := s[b].body.(components := c.body.components))
    && Unplaced(s, b, c.body.components) == Rest(s, b)
  }

  lemma ForgetThins(s: Store, b: nat)
    requires Valid(s) && IsBlock(s, b)
    ensures ThinnedBlock(s, b, Forget(s, b))
  {
    assert ValidBlock(s, b);
    RestChildren(s, b);
    UnplacedIdempotent(s, s, b, s[b].body.components);
  }

  lemma ThinnedValid(s: Store, t: Store)
    requires Valid(s) && Thinned(s, t)
    ensures Valid(t)
  {
    forall i | 0 <= i < |t| && t[i].body.Block? ensures ValidBlock(t, i) {
      assert ValidBlock(s, i);
      assert ChildrenOf(t, i, t[i].body.components);
      forall l | l in t[i].body.lineRefs ensures ChildrenOf(t, i, t[i].body.lineRefs[l]) {
        assert ChildrenOf(s, i, s[i].body.lineRefs[l]);
      }
    }
  }

  lemma ThinnedAlike(s: Store, t: Store)
    requires Valid(s) && Thinned(s, t)
    ensures Valid(t) && PrintAlike(s, t)
  {
    ThinnedValid(s, t);
    forall i | 0 <= i < |s| && s[i].body.Block? ensures Rest(s, i) == Rest(t, i) {
      assert ValidBlock(s, i) && ValidBlock(t, i);
      UnplacedIdempotent(s, t, i, s[i].body.components);
      UnplacedIdempotent(s, t, i, t[i].body.components);
    }
  }

  lemma PrintedThinned(s: Store, b: nat)
    requires Valid(s) && b < |s|
    ensures Thinned(s, Printed(s, b))
  {
    forall i | 0 <= i < |s| && s[i].body.Block? ensures ThinnedBlock(s, i, Forget(s, i)) { ForgetThins(s, i); }
  }

  /** Printing twice gives the same text, although the first time changes every visited block. */
  lemma PrintTwice(s: Store, b: nat)
    requires Valid(s) && b < |s|
    ensures Valid(Printed(s, b)) && AsText(Printed(s, b), b) == AsText(s, b)
    ensures Printed(Printed(s, b), b) == Printed(s, b)
  {
    var t := Printed(s, b);
    PrintedThinned(s, b);
    ThinnedAlike(s, t);
    TextAlike(s, t, b);
    forall i | 0 <= i < |s| ensures Printed(t, b)[i] == t[i] {
      if Visited(t, b, i) && s[i].body.Block? {
        VisitedAlike(s, t, b, i);
        assert Rest(t, i) == Rest(s, i);
      }
    }
  }

  lemma {:induction false} VisitedAlike(s: Store, t: Store, b: nat, i: nat)
    requires Valid(s) && Valid(t) && PrintAlike(s, t) && b < |s| && i < |s|
    ensures Visited(s, b, i) <==> Visited(t, b, i)
    decreases i
  {
    if i > b && s[i].parent >= 0 {
      var p := s[i].parent;
      VisitedAlike(s, t, b, p);
      assert ValidBlock(s, p) && ValidBlock(t, p);
      UnplacedMember(s, p, s[p].body.components, i);
      UnplacedMember(t, p, t[p].body.components, i);
    }
  }

  // ---- the store while a block is being printed ----

  /** The components that block `b` prints through lines before `line`. */
  ghost function PlacedBefore(s: Store, b: nat, line: int): set<nat>
    requires IsBlock(s, b)
  {
    set c: nat | 0 <= c < |s| && LinePlaced(s, b, c) && s[c].startLine < line
  }

  ghost predicate VisitedThrough(s: Store, done: set<nat>, i: nat)
    requires Valid(s) && i < |s|
  {
    exists c: nat :: c in done && c < |s| && Visited(s, c, i)
  }

  /** Block `b` dropped `gone`, and the components in `done` were printed completely. */
  ghost function Partly(s: Store, b: nat, gone: set<nat>, done: set<nat>): (t: Store)
    requires Valid(s) && IsBlock(s, b)
    ensures |t| == |s|
  {
    seq(|s|, i requires 0 <= i < |s| =>
      if i == b then s[b].(body := s[b].body.(components := Drop(s[b].body.components, gone)))
      else if VisitedThrough(s, done, i) then Forget(s, i)
      else s[i])
  }

  ghost predicate OnlyPlaced(s: Store, b: nat, gone: set<nat>)
    requires IsBlock(s, b)
  {
    forall c: nat | c in gone :: c < |s| && LinePlaced(s, b, c)
  }

  lemma {:induction false} DropTwice(ids: seq<nat>, gone: set<nat>, more: set<nat>)
    requires gone <= more
    ensures Drop(Drop(ids, gone), more) == Drop(ids, more)
  {
    if ids != [] {
      DropTwice(ids[1..], gone, more);
      var r := Drop(ids[1..], gone);
      if ids[0] !in gone { assert ([ids[0]] + r)[1..] == r; }
    }
  }

  lemma UnplacedAfterDrop(s: Store, b: nat, ids: seq<nat>, gone: set<nat>)
    requires IsBlock(s, b) && ChildrenOf(s, b, ids) && OnlyPlaced(s, b, gone)
    ensures ChildrenOf(s, b, Drop(ids, gone)) && Unplaced(s, b, Drop(ids, gone)) == Unplaced(s, b, ids)
  {
    DropChildren(s, b, ids, gone);
    UnplacedIsDrop(s, b, ids);
    UnplacedIsDrop(s, b, Drop(ids, gone));
    DropTwice(ids, gone, PlacedIn(s, b));
  }

  lemma PartlyThinned(s: Store, b: nat, gone: set<nat>, done: set<nat>)
    requires Valid(s) && IsBlock(s, b) && OnlyPlaced(s, b, gone)
    ensures Thinned(s, Partly(s, b, gone, done))
  {
    assert ValidBlock(s, b);
    UnplacedAfterDrop(s, b, s[b].body.components, gone);
    forall i | 0 <= i < |s| && s[i].body.Block? ensures ThinnedBlock(s, i, Forget(s, i)) { ForgetThins(s, i); }
  }

  /** Printing one more child of a partly printed block. */
  lemma PrintChild(s: Store, b: nat, gone: set<nat>, done: set<nat>, c: nat)
    requires Valid(s) && IsBlock(s, b) && OnlyPlaced(s, b, gone) && b < c < |s|
    ensures var t := Partly(s, b, gone, done);
            && Valid(t) && PrintAlike(s, t) && AsText(t, c) == AsText(s, c)
            && Printed(t, c) == Partly(s, b, gone, done + {c})
  {
    var t := Partly(s, b, gone, done);
    PartlyThinned(s, b, gone, done);
    ThinnedAlike(s, t);
    TextAlike(s, t, c);
    var u, v := Printed(t, c), Partly(s, b, gone, done + {c});
    forall i | 0 <= i < |s| ensures u[i] == v[i] {
      VisitedAlike(s, t, c, i);
      assert VisitedThrough(s, done + {c}, i) <==> VisitedThrough(s, done, i) || Visited(s, c, i) by {
        if Visited(s, c, i) { assert c in done + {c}; }
      }
    }
  }

  lemma {:induction false} VisitedDown(s: Store, b: nat, c: nat, i: nat)
    requires Valid(s) && b < c < |s| && i < |s| && s[c].parent == b && Visited(s, c, i)
    requires LinePlaced(s, b, c) || c in s[b].body.components
    ensures Visited(s, b, i)
    decreases i
  {
    if i != c { VisitedDown(s, b, c, s[i].parent); }
  }

  /** The child of `b` through which printing reaches a component further down. */
  lemma {:induction false} VisitedBranch(s: Store, b: nat, i: nat) returns (c: nat)
    requires Valid(s) && b < |s| && i < |s| && Visited(s, b, i) && i != b
    ensures b < c < |s| && s[c].parent == b && (LinePlaced(s, b, c) || c in s[b].body.components) && Visited(s, c, i)
    decreases i
  {
    if s[i].parent == b {
      c := i;
    } else {
      c := VisitedBranch(s, b, s[i].parent);
    }
  }

  /** When all placed and all remaining children were printed, the block is printed. */
  lemma AllPrinted(s: Store, b: nat, gone: set<nat>, done: set<nat>)
    requires Valid(s) && IsBlock(s, b) && OnlyPlaced(s, b, gone)
    requires forall c: nat | c < |s| && LinePlaced(s, b, c) :: c in gone
    requires forall c: nat :: c in done <==> c in gone || c in Rest(s, b)
    ensures Partly(s, b, gone, done) == Printed(s, b)
  {
    assert ValidBlock(s, b);
    var ids := s[b].body.components;
    UnplacedIsDrop(s, b, ids);
    assert gone == PlacedIn(s, b);
    forall c: nat | c in done ensures b < c < |s| && s[c].parent == b && (LinePlaced(s, b, c) || c in ids) {
      PrintedChild(s, b, gone, c);
    }
    forall i | 0 <= i < |s| ensures Partly(s, b, gone, done)[i] == Printed(s, b)[i] {
      if i != b {
        if Visited(s, b, i) {
          var c := VisitedBranch(s, b, i);
          UnplacedMember(s, b, ids, c);
          assert c in done;
        } else if VisitedThrough(s, done, i) {
          var c: nat :| c in done && c < |s| && Visited(s, c, i);
          VisitedDown(s, b, c, i);
        }
      }
    }
  }

  lemma PrintedChild(s: Store, b: nat, gone: set<nat>, c: nat)
    requires Valid(s) && IsBlock(s, b) && OnlyPlaced(s, b, gone) && (c in gone || c in Rest(s, b))
    ensures b < c < |s| && s[c].parent == b && (LinePlaced(s, b, c) || c in s[b].body.components)
  {
    assert ValidBlock(s, b);
    RestChildren(s, b);
    if c in gone {
      assert ChildrenOf(s, b, s[b].body.lineRefs[s[c].startLine]);
    } else {
      var k :| 0 <= k < |Rest(s, b)| && Rest(s, b)[k] == c;
      UnplacedMember(s, b, s[b].body.components, c);
    }
  }

  // ---- one line and the rest of a block ----

  lemma PlacedStart(s: Store, b: nat)
    requires Valid(s) && IsBlock(s, b)
    ensures PlacedBefore(s, b, First(s, b)) == {} && Partly(s, b, {}, {}) == s
  {
    DropNothing(s[b].body.components);
    assert forall i | 0 <= i < |s| :: Partly(s, b, {}, {})[i] == s[i];
  }

  lemma PlacedNext(s: Store, b: nat, line: int)
    requires Valid(s) && IsBlock(s, b) && InRange(s, b, line)
    ensures PlacedBefore(s, b, line + 1) == PlacedBefore(s, b, line) + Members(RefsAt(s[b].body.lineRefs, line))
  {
    assert ValidBlock(s, b);
    var ids := RefsAt(s[b].body.lineRefs, line);
    forall c | c in ids ensures 0 <= c < |s| && LinePlaced(s, b, c) && s[c].startLine == line {
      assert ChildrenOf(s, b, ids);
    }
  }

  lemma PlacedEnd(s: Store, b: nat, line: int)
    requires Valid(s) && IsBlock(s, b) && line > s[b].endLine
    ensures PlacedBefore(s, b, line) == PlacedIn(s, b) && PlanText(s, b, LineGroups(s, b, line)) == ""
  {
  }

  /** Taking child `c` out of the components of a partly printed block. */
  lemma DropChild(s: Store, b: nat, gone: set<nat>, done: set<nat>, c: nat)
    requires Valid(s) && IsBlock(s, b)
    ensures var t := Partly(s, b, gone, done);
            Partly(s, b, gone + {c}, done)
              == t[b := t[b].(body := t[b].body.(components := Without(t[b].body.components, c)))]
  {
    assert ValidBlock(s, b);
    DropOneMore(s[b].body.components, gone, c);
  }

  lemma {:induction false} WithoutAbsent(ids: seq<nat>, c: nat)
    requires c !in ids
    ensures Without(ids, c) == ids
  {
    if ids != [] {
      assert ids[0] in ids && ids == [ids[0]] + ids[1..];
      WithoutAbsent(ids[1..], c);
    }
  }

  lemma {:induction false} PlanTextConcat(s: Store, b: nat, xs: seq<seq<nat>>, ys: seq<seq<nat>>)
    requires Valid(s) && b < |s|
    requires forall k | 0 <= k < |xs| :: ChildrenOf(s, b, xs[k])
    requires forall k | 0 <= k < |ys| :: ChildrenOf(s, b, ys[k])
    ensures PlanText(s, b, xs + ys) == PlanText(s, b, xs) + PlanText(s, b, ys)
  {
    if xs == [] {
      assert xs + ys == ys;
    } else {
      assert (xs + ys)[1..] == xs[1..] + ys;
      PlanTextConcat(s, b, xs[1..], ys);
    }
  }

  lemma RefsPlaced(s: Store, b: nat, line: int, k: nat)
    requires Valid(s) && IsBlock(s, b) && InRange(s, b, line) && line in s[b].body.lineRefs
    requires k < |s[b].body.lineRefs[line]|
    ensures b < s[b].body.lineRefs[line][k] < |s|
    ensures OnlyPlaced(s, b, PlacedBefore(s, b, line) + Members(s[b].body.lineRefs[line][..k]))
  {
    assert ValidBlock(s, b);
    var ids := s[b].body.lineRefs[line];
    assert ChildrenOf(s, b, ids);
    forall c: nat | c in Members(ids[..k]) ensures c < |s| && LinePlaced(s, b, c) {
      assert c in ids;
    }
  }

  /** The components that were not printed through a line, each on a line of its own. */
  ghost function RestText(s: Store, b: nat, ids: seq<nat>): string
    requires Valid(s) && b < |s| && ChildrenOf(s, b, ids)
  {
    SingletonChildren(s, b, ids);
    PlanText(s, b, Singletons(ids))
  }

  lemma RestStep(s: Store, b: nat, ids: seq<nat>)
    requires Valid(s) && b < |s| && ChildrenOf(s, b, ids)
    ensures ids == [] ==> RestText(s, b, ids) == ""
    ensures ids != [] ==>
              ChildrenOf(s, b, ids[1..]) && RestText(s, b, ids) == AsText(s, ids[0]) + "\n" + RestText(s, b, ids[1..])
  {
    hide Valid, AsText;
    SingletonChildren(s, b, ids);
    if ids != [] {
      var groups := Singletons(ids);
      assert groups[0] == [ids[0]] && groups[1..] == Singletons(ids[1..]);
      SingleText(s, b, ids[0]);
    }
  }

  lemma SingleText(s: Store, b: nat, c: nat)
    requires Valid(s) && b < |s| && c < |s| && ChildrenOf(s, b, [c])
    ensures LineText(s, b, [c], 0) == AsText(s, c)
  {
    hide Valid, AsText;
    assert LineText(s, b, [c], 1) == "";
    assert LineText(s, b, [c], 0) == RefText(s, b, [c], 0) + "";
  }

  lemma MembersEnds(ids: seq<nat>)
    ensures Members(ids[..0]) == {} && Members(ids[..|ids|]) == Members(ids)
  {
    assert ids[..|ids|] == ids;
  }

  lemma MembersNext(ids: seq<nat>, k: nat)
    requires k < |ids|
    ensures Members(ids[..k + 1]) == Members(ids[..k]) + {ids[k]}
  {
    assert ids[..k + 1] == ids[..k] + [ids[k]];
  }

  lemma LeafPrinted(s: Store, i: nat)
    requires Valid(s) && i < |s| && !s[i].body.Block?
    ensures Printed(s, i) == s
  {
    forall j | 0 <= j < |s| ensures Printed(s, i)[j] == s[j] {
      if Visited(s, i, j) && j != i {
        var c := VisitedBranch(s, i, j);
      }
    }
  }

  /** What printing leaves of the block at hand and of its children. */
  lemma PartlyRecords(s: Store, b: nat, gone: set<nat>, done: set<nat>, c: nat)
    requires Valid(s) && IsBlock(s, b) && c < |s|
    ensures var t := Partly(s, b, gone, done);
            && IsBlock(t, b) && t[b].endLine == s[b].endLine && t[b].startLine == s[b].startLine
            && t[b].body == s[b].body.(components := Drop(s[b].body.components, gone))
            && t[c].body.Comment? == s[c].body.Comment?
  {
  }

  /** Printing one component of a line, and taking it out of the block. */
  lemma RefStep(s: Store, b: nat, line: int, k: nat)
    requires Valid(s) && IsBlock(s, b) && InRange(s, b, line) && line in s[b].body.lineRefs && k < |s[b].body.lineRefs[line]|
    ensures var refs := s[b].body.lineRefs[line];
            var c := refs[k];
            var gone, next := PlacedBefore(s, b, line) + Members(refs[..k]), PlacedBefore(s, b, line) + Members(refs[..k + 1]);
            var t := Partly(s, b, gone, gone);
            && b < c < |s| && IsBlock(t, b) && Valid(t) && AsText(t, c) == AsText(s, c)
            && var u := Printed(t, c);
               && IsBlock(u, b) && u[c].body.Comment? == s[c].body.Comment?
               && Partly(s, b, next, next) == u[b := u[b].(body := u[b].body.(components := Without(u[b].body.components, c)))]
  {
    hide Partly, PlacedBefore, Printed, OnlyPlaced, PrintAlike, Members, AsText, Valid, Without;
    var refs := s[b].body.lineRefs[line];
    var gone := PlacedBefore(s, b, line) + Members(refs[..k]);
    MembersNext(refs, k);
    assert PlacedBefore(s, b, line) + Members(refs[..k + 1]) == gone + {refs[k]};
    RefsPlaced(s, b, line, k);
    PrintChild(s, b, gone, gone, refs[k]);
    PartlyRecords(s, b, gone, gone, refs[k]);
    PartlyRecords(s, b, gone, gone + {refs[k]}, refs[k]);
    DropChild(s, b, gone, gone + {refs[k]}, refs[k]);
  }

  lemma LineTextEnd(s: Store, b: nat, ids: seq<nat>, text: string)
    requires Valid(s) && b < |s| && ChildrenOf(s, b, ids)
    ensures text + LineText(s, b, ids, |ids|) == text
  {
  }

  lemma RefTextStep(s: Store, b: nat, ids: seq<nat>, k: nat, text: string)
    requires Valid(s) && b < |s| && ChildrenOf(s, b, ids) && k < |ids|
    ensures ids[k] < |s|
    ensures text + LineText(s, b, ids, k) ==
              text + (if k > 0 && s[ids[k]].body.Comment? then " " + LStrip(AsText(s, ids[k])) else AsText(s, ids[k]))
              + LineText(s, b, ids, k + 1)
  {
    hide AsText, Valid, LStrip;
  }

  lemma BlockRefs(s: Store, b: nat, line: int)
    requires Valid(s) && IsBlock(s, b) && line in s[b].body.lineRefs
    ensures ChildrenOf(s, b, s[b].body.lineRefs[line])
  {
    assert ValidBlock(s, b);
  }

  /** One line of a block: nothing where no component refers to it. */
  lemma LineStep(s: Store, b: nat, line: int)
    requires Valid(s) && IsBlock(s, b) && line <= s[b].endLine
    ensures RefsAt(s[b].body.lineRefs, line) == [] ==> LineGroups(s, b, line) == LineGroups(s, b, line + 1)
    ensures RefsAt(s[b].body.lineRefs, line) != [] ==>
              && ChildrenOf(s, b, RefsAt(s[b].body.lineRefs, line))
              && PlanText(s, b, LineGroups(s, b, line))
                 == LineText(s, b, RefsAt(s[b].body.lineRefs, line), 0) + "\n" + PlanText(s, b, LineGroups(s, b, line + 1))
  {
    assert ValidBlock(s, b);
    var ids := RefsAt(s[b].body.lineRefs, line);
    if ids != [] {
      var groups := LineGroups(s, b, line);
      assert groups[0] == ids && groups[1..] == LineGroups(s, b, line + 1);
    }
  }

  lemma PlanParts(s: Store, b: nat)
    requires Valid(s) && IsBlock(s, b)
    ensures ChildrenOf(s, b, Rest(s, b))
    ensures PlanText(s, b, Plan(s, b)) == PlanText(s, b, LineGroups(s, b, First(s, b))) + RestText(s, b, Rest(s, b))
  {
    RestChildren(s, b);
    SingletonChildren(s, b, Rest(s, b));
    PlanTextConcat(s, b, LineGroups(s, b, First(s, b)), Singletons(Rest(s, b)));
  }

  lemma AllDone(s: Store, b: nat)
    requires Valid(s) && IsBlock(s, b)
    ensures Partly(s, b, PlacedIn(s, b), PlacedIn(s, b) + Members(Rest(s, b))) == Printed(s, b)
  {
    RestChildren(s, b);
    AllPrinted(s, b, PlacedIn(s, b), PlacedIn(s, b) + Members(Rest(s, b)));
  }

  lemma RestDropped(s: Store, b: nat)
    requires Valid(s) && IsBlock(s, b)
    ensures ChildrenOf(s, b, Rest(s, b)) && Rest(s, b) == Drop(s[b].body.components, PlacedIn(s, b))
    ensures OnlyPlaced(s, b, PlacedIn(s, b))
  {
    assert ValidBlock(s, b);
    RestChildren(s, b);
    UnplacedIsDrop(s, b, s[b].body.components);
  }
}
