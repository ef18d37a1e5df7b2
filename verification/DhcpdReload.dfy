/**
 Reloading an edited file: after any run of additions and deletions, writing the file and
 parsing it again gives the same tree, and every host is found with the same parameters.
 */
module DhcpdReload {
  import opened Wrappers
  import opened Strings
  import opened Dicts
  import opened DhcpdModel
  import opened DhcpdParser
  import opened DhcpdPrinter
  import opened DhcpdTidy
  import opened DhcpdScan
  import opened DhcpdRoundTrip
  import opened DhcpdReparse
  import opened DhcpdHosts
  import opened DhcpdAddHost
  import opened DhcpdDistinct
  import opened DhcpdRewrite

  // ---- looking hosts up in a tree ----

  /** A block as a lookup sees it: its type and its own parameters. */
  datatype Scope = Scope(blockType: string, own: Parameters)

  /** A host and the blocks around it, innermost first. */
  datatype HostEntry = HostEntry(settings: seq<string>, scopes: seq<Scope>)

  function PutKids(kids: seq<Tree>, d: Parameters): Parameters
    decreases |kids|
  {
    if kids == [] then d
    else PutKids(kids[1..], if kids[0].ParameterTree? then Put(d, kids[0].key, kids[0].value) else d)
  }

  ghost function HostsIn(kids: seq<Tree>, scopes: seq<Scope>): seq<HostEntry>
    decreases kids, 0
  {
    if kids == [] then [] else HostsOf(kids[0], scopes) + HostsIn(kids[1..], scopes)
  }

  ghost function HostsOf(t: Tree, scopes: seq<Scope>): seq<HostEntry>
    decreases t, 1
  {
    if !t.BlockTree? then []
    else
      var inner := [Scope(t.blockType, PutKids(t.kids, []))] + scopes;
      (if t.blockType == "host" then [HostEntry(t.settings, inner)] else []) + HostsIn(t.kids, inner)
  }

  function Inherited(scopes: seq<Scope>, inherit: Option<string>): Parameters
    requires scopes != []
    decreases |scopes|
  {
    if inherit != None && inherit.value != "" && scopes[0].blockType != inherit.value && |scopes| > 1 then
      AddMissing(scopes[0].own, Inherited(scopes[1..], inherit))
    else scopes[0].own
  }

  ghost function LookupHost(entries: seq<HostEntry>, hostname: string, inherit: Option<string>): Result<Option<Parameters>, HostError>
    requires forall k | 0 <= k < |entries| :: entries[k].scopes != []
    decreases |entries|
  {
    if entries == [] then Ok(None)
    else if |entries[0].settings| < 2 then Err(MissingSetting)
    else if entries[0].settings[1] == hostname then Ok(Some(Inherited(entries[0].scopes, inherit)))
    else LookupHost(entries[1..], hostname, inherit)
  }

  // ---- the lookup in a store is the lookup in its tree ----

  ghost function ScopesAt(s: Store, b: nat): (r: seq<Scope>)
    requires Valid(s) && IsBlock(s, b)
    ensures r != []
    decreases b
  {
    if s[b].parent < 0 then [Scope("global", OwnParameters(s, b))]
    else
      assert b > 0;
      [Scope(s[b].body.blockType, OwnParameters(s, b))] + ScopesAt(s, s[b].parent)
  }

  lemma {:induction false} ParametersAreInherited(s: Store, b: nat, inherit: Option<string>)
    requires Valid(s) && IsBlock(s, b)
    ensures GetParameters(s, b, inherit) == Inherited(ScopesAt(s, b), inherit)
    decreases b
  {
    hide OwnParameters, AddMissing, ValidBlock;
    if s[b].parent >= 0 {
      assert b > 0;
      ParametersAreInherited(s, s[b].parent, inherit);
      assert ScopesAt(s, b)[1..] == ScopesAt(s, s[b].parent);
    }
  }

  lemma {:induction false} PutKidsIsPut(s: Store, b: nat, ids: seq<nat>, d: Parameters)
    requires Valid(s) && b < |s| && ChildrenOf(s, b, ids)
    ensures PutParameters(s, ids, d) == PutKids(Forest(s, b, ids), d)
    decreases |ids|
  {
    hide Valid, ValidBlock;
    if ids != [] {
      FirstTree(s, b, ids);
      PutKidsIsPut(s, b, ids[1..], if s[ids[0]].body.Parameter? then Put(d, s[ids[0]].body.key, s[ids[0]].body.value) else d);
    }
  }

  ghost function Entries(s: Store, ids: seq<nat>): (r: seq<HostEntry>)
    requires Valid(s) && AllBlocks(s, ids)
    ensures |r| == |ids| && forall k | 0 <= k < |ids| :: r[k] == HostEntry(s[ids[k]].body.settings, ScopesAt(s, ids[k]))
  {
    seq(|ids|, k requires 0 <= k < |ids| => HostEntry(s[ids[k]].body.settings, ScopesAt(s, ids[k])))
  }

  lemma EntriesConcat(s: Store, xs: seq<nat>, ys: seq<nat>)
    requires Valid(s) && AllBlocks(s, xs) && AllBlocks(s, ys)
    ensures AllBlocks(s, xs + ys) && Entries(s, xs + ys) == Entries(s, xs) + Entries(s, ys)
  {
    hide Valid, ScopesAt;
  }

  lemma {:induction false} EntriesIn(s: Store, b: nat, ids: seq<nat>)
    requires Valid(s) && IsBlock(s, b) && ChildrenOf(s, b, ids)
    ensures Entries(s, BlocksIn(s, b, ids, "host", true)) == HostsIn(Forest(s, b, ids), ScopesAt(s, b))
    decreases |s| - b, 0, |ids|
  {
    hide Valid, ScopesAt, Entries, BlocksOf, TreeAt;
    if ids != [] {
      FirstTree(s, b, ids);
      EntriesOf(s, b, ids[0]);
      EntriesIn(s, b, ids[1..]);
      EntriesConcat(s, BlocksOf(s, b, ids[0], "host", true), BlocksIn(s, b, ids[1..], "host", true));
    }
  }

  lemma {:induction false} EntriesOf(s: Store, b: nat, c: nat)
    requires Valid(s) && IsBlock(s, b) && b < c < |s| && s[c].parent == b
    ensures Entries(s, BlocksOf(s, b, c, "host", true)) == HostsOf(TreeAt(s, c), ScopesAt(s, b))
    decreases |s| - c, 2, 0
  {
    hide Valid, Entries;
    if s[c].body.Block? {
      BlockChildren(s, c);
      var ids := s[c].body.components;
      EntriesIn(s, c, ids);
      PutKidsIsPut(s, c, ids, []);
      BlockTreeAt(s, c);
      var me := if s[c].body.blockType == "host" then [c] else [];
      var below := GetBlocks(s, c, "host", true);
      assert BlocksOf(s, b, c, "host", true) == me + below;
      EntriesConcat(s, me, below);
    }
  }

  lemma BlockTreeAt(s: Store, c: nat)
    requires Valid(s) && IsBlock(s, c)
    ensures ChildrenOf(s, c, s[c].body.components)
    ensures TreeAt(s, c) == BlockTree(s[c].body.blockType, s[c].body.settings, Forest(s, c, s[c].body.components))
    ensures GetBlocks(s, c, "host", true) == BlocksIn(s, c, s[c].body.components, "host", true)
    ensures OwnParameters(s, c) == PutParameters(s, s[c].body.components, [])
  {
    BlockChildren(s, c);
  }

  lemma {:induction false} GetHostIsLookup(s: Store, hosts: seq<nat>, hostname: string, inherit: Option<string>)
    requires Valid(s) && AllBlocks(s, hosts)
    ensures GetHost(s, hosts, hostname, inherit) == LookupHost(Entries(s, hosts), hostname, inherit)
    decreases |hosts|
  {
    hide Valid, ScopesAt, GetParameters;
    if hosts != [] {
      var entries := Entries(s, hosts);
      ParametersAreInherited(s, hosts[0], inherit);
      assert entries[1..] == Entries(s, hosts[1..]);
      GetHostIsLookup(s, hosts[1..], hostname, inherit);
    }
  }

  /** What a host lookup finds is determined by the tree. */
  lemma SameTreeSameHosts(s: Store, t: Store, hostname: string, inherit: Option<string>)
    requires Valid(s) && Valid(t) && Contents(s) == Contents(t)
    ensures GetHost(s, Hosts(s), hostname, inherit) == GetHost(t, Hosts(t), hostname, inherit)
  {
    GlobalLookup(s, hostname, inherit);
    GlobalLookup(t, hostname, inherit);
  }

  lemma GlobalLookup(s: Store, hostname: string, inherit: Option<string>)
    requires Valid(s)
    ensures var entries := HostsIn(Contents(s), [Scope("global", PutKids(Contents(s), []))]);
            && (forall k | 0 <= k < |entries| :: entries[k].scopes != [])
            && GetHost(s, Hosts(s), hostname, inherit) == LookupHost(entries, hostname, inherit)
  {
    hide Entries, HostsIn, GetHost, PutParameters, ValidBlock;
    BlockTreeAt(s, GLOBAL);
    var ids := s[GLOBAL].body.components;
    EntriesIn(s, GLOBAL, ids);
    PutKidsIsPut(s, GLOBAL, ids, []);
    GetHostIsLookup(s, Hosts(s), hostname, inherit);
    assert Hosts(s) == BlocksIn(s, GLOBAL, ids, "host", true);
    assert ScopesAt(s, GLOBAL) == [Scope("global", PutKids(Contents(s), []))];
  }

  // ---- contents that can be read back ----

  /** What is printed for this component can be read back. */
  ghost predicate BodySafe(body: Body) {
    match body
    case Parameter(key, value) => ParameterSafe(key, value)
    case Choice(name, values) => ChoiceSafe(name, values)
    case Comment(data) => CommentSafe(data)
    case EmptyLine => true
    case Block(ty, settings, _, _) => BlockSafe(ty, settings)
  }

  ghost predicate AllSafe(s: Store) {
    forall i | 0 < i < |s| :: BodySafe(s[i].body)
  }

  lemma {:induction false} SafeTree(s: Store, i: nat)
    requires Valid(s) && AllSafe(s) && 0 < i < |s|
    ensures Safe(TreeAt(s, i))
    decreases |s| - i, 1, 0
  {
    hide Valid, ParameterSafe, ChoiceSafe, CommentSafe, BlockSafe;
    if s[i].body.Block? {
      BlockTreeAt(s, i);
      SafeForest(s, i, s[i].body.components);
    }
  }

  lemma {:induction false} SafeForest(s: Store, b: nat, ids: seq<nat>)
    requires Valid(s) && AllSafe(s) && b < |s| && ChildrenOf(s, b, ids)
    ensures SafeAll(Forest(s, b, ids))
    decreases |s| - b, 0, |ids|
  {
    hide Valid, TreeAt, Safe, BodySafe;
    if ids != [] {
      FirstTree(s, b, ids);
      SafeTree(s, ids[0]);
      SafeForest(s, b, ids[1..]);
    }
  }

  lemma SafeContents(s: Store)
    requires Valid(s) && AllSafe(s)
    ensures SafeAll(Contents(s))
  {
    BlockChildren(s, GLOBAL);
    SafeForest(s, GLOBAL, s[GLOBAL].body.components);
  }

  ghost predicate EntriesSafe(d: Parameters) {
    forall k | 0 <= k < |d| :: ParameterSafe(d[k].0, Normalise(d[k].1))
  }

  lemma {:induction false} DeleteSafe(d: Parameters, key: string)
    requires EntriesSafe(d)
    ensures EntriesSafe(Delete(d, key))
  {
    hide ParameterSafe, Normalise;
    if d != [] { DeleteSafe(d[1..], key); }
  }

  lemma {:induction false} DropInheritedSafe(block: Parameters, d: Parameters)
    requires EntriesSafe(d)
    ensures EntriesSafe(DropInherited(block, d))
    decreases |block|
  {
    hide EntriesSafe;
    if block != [] {
      DeleteSafe(d, block[0].0);
      DropInheritedSafe(block[1..], if Lookup(d, block[0].0) == Some(block[0].1) then Delete(d, block[0].0) else d);
    }
  }

  lemma {:induction false} NormaliseAllSafe(d: Parameters)
    requires EntriesSafe(d)
    ensures EntriesSafe(NormaliseAll(d))
  {
    hide ParameterSafe, Normalise;
    if d != [] {
      NormaliseAllSafe(d[1..]);
      NormaliseTwice(d[0].1);
    }
  }

  lemma AddSafe(s: Store, b: nat, c: nat)
    requires AllSafe(s) && IsBlock(s, b) && c < |s|
    ensures AllSafe(Add(s, b, c))
  {
    hide ParameterSafe, ChoiceSafe, CommentSafe, BlockSafe;
  }

  lemma RemoveSafe(s: Store, b: nat, c: nat)
    requires AllSafe(s) && IsBlock(s, b) && c < |s|
    ensures AllSafe(Remove(s, b, c))
  {
    hide ParameterSafe, ChoiceSafe, CommentSafe, BlockSafe;
  }

  lemma {:induction false} RemoveAllSafe(s: Store, ids: seq<nat>)
    requires Valid(s) && AllSafe(s) && forall k | 0 <= k < |ids| :: 0 < ids[k] < |s|
    ensures AllSafe(RemoveAll(s, ids))
    decreases |ids|
  {
    hide AllSafe, ValidBlock;
    if ids != [] {
      var p := s[ids[0]].parent;
      RemoveValid(s, p, ids[0]);
      RemoveSafe(s, p, ids[0]);
      RemoveAllSafe(Remove(s, p, ids[0]), ids[1..]);
    }
  }

  lemma {:induction false} AppendParametersSafe(s: Store, b: nat, d: Parameters)
    requires Valid(s) && IsBlock(s, b) && AllSafe(s) && EntriesSafe(d)
    ensures AllSafe(AppendParameters(s, b, d))
    decreases |d|
  {
    hide Valid, ParameterSafe;
    if d != [] {
      var body := Parameter(d[0].0, Normalise(d[0].1));
      AppendSafe(s, b, body);
      AppendValid(s, b, -1, body);
      AppendBlock(s, b, -1, body);
      AppendParametersSafe(Append(s, b, -1, body), b, d[1..]);
    }
  }

  lemma AppendSafe(s: Store, b: nat, body: Body)
    requires IsBlock(s, b) && AllSafe(s) && BodySafe(body)
    ensures AllSafe(Append(s, b, -1, body))
  {
    hide ParameterSafe, ChoiceSafe, CommentSafe, BlockSafe;
    AddSafe(s + [Component(-1, -1, b, body)], b, |s|);
  }

  lemma WithHostSafe(s: Store, parent: nat, hostname: string, own: Parameters)
    requires Valid(s) && IsBlock(s, parent) && AllSafe(s) && EntriesSafe(own) && BlockSafe("host", ["host", hostname])
    ensures AllSafe(Add(WithHost(s, parent, hostname, own), parent, |s|))
  {
    hide Valid, ParameterSafe, BlockSafe, EntriesSafe;
    var host := Component(-1, -1, parent, Block("host", ["host", hostname], [], map[]));
    NewValid(s, host);
    AppendParametersSafe(s + [host], |s|, own);
    HostRecord(s, parent, hostname, own);
    AddSafe(WithHost(s, parent, hostname, own), parent, |s|);
  }

  /** The requested host can be written and read back. */
  ghost predicate RequestSafe(hostname: string, hardware: string, fixed: string, parameters: Parameters) {
    BlockSafe("host", ["host", hostname]) && EntriesSafe(HostParameters(hardware, fixed, parameters))
  }

  lemma OwnSafe(hardware: string, fixed: string, parameters: Parameters, block: Parameters)
    requires EntriesSafe(HostParameters(hardware, fixed, parameters))
    ensures EntriesSafe(HostParameters(hardware, fixed, DropInherited(block, NormaliseAll(parameters))))
  {
    hide ParameterSafe, Normalise;
    var all := HostParameters(hardware, fixed, parameters);
    assert all[2..] == parameters;
    assert EntriesSafe(parameters) by {
      forall k | 0 <= k < |parameters| ensures ParameterSafe(parameters[k].0, Normalise(parameters[k].1)) { assert all[k + 2] == parameters[k]; }
    }
    NormaliseAllSafe(parameters);
    DropInheritedSafe(block, NormaliseAll(parameters));
    assert ParameterSafe(all[0].0, Normalise(all[0].1)) && ParameterSafe(all[1].0, Normalise(all[1].1));
  }

  lemma DeleteHostSafe(s: Store, hostname: string)
    requires Valid(s) && AllSafe(s) && DeleteHost(s, hostname).Ok?
    ensures AllSafe(DeleteHost(s, hostname).value)
  {
    hide Valid, AllSafe, HostsToDelete, RemoveAll, Hosts;
    RemoveAllSafe(s, HostsToDelete(s, Hosts(s), hostname).value);
  }

  lemma AddHostSafe(s: Store, hostname: string, hardware: string, inNetwork: string -> bool, fixed: string, parameters: Parameters)
    requires Valid(s) && AllSafe(s) && RequestSafe(hostname, hardware, fixed, parameters)
    ensures AllSafe(AddHost(s, hostname, hardware, inNetwork, fixed, parameters).0)
  {
    hide Valid, AllSafe, CheckHosts, DeleteHost, ParentFor, WithHost, EntriesSafe, BlockSafe;
    if DeleteHost(s, hostname).Ok? { DeleteHostSafe(s, hostname); }
    forall c, parent, block | Valid(c) && AllSafe(c) && IsBlock(c, parent)
      ensures AllSafe(Add(WithHost(c, parent, hostname, HostParameters(hardware, fixed, DropInherited(block, NormaliseAll(parameters)))), parent, |c|))
    {
      OwnSafe(hardware, fixed, parameters, block);
      WithHostSafe(c, parent, hostname, HostParameters(hardware, fixed, DropInherited(block, NormaliseAll(parameters))));
    }
  }

  // ---- the main result ----

  ghost predicate EditSafe(e: Edit) {
    match e
    case AddEdit(hostname, hardware, _, fixed, parameters) => RequestSafe(hostname, hardware, fixed, parameters)
    case DeleteEdit(_) => true
  }

  /** A file that can be edited, written and read again. */
  ghost predicate Reloadable(s: Store) {
    Neat(true, s) && AllSafe(s)
  }

  lemma ApplyReloadable(s: Store, e: Edit)
    requires Reloadable(s) && EditSafe(e)
    ensures Valid(s) && Reloadable(Apply(s, e))
  {
    hide Valid, Neat, AllSafe, AddHost, DeleteHost, RequestSafe;
    OnePerLineValid(true, s);
    match e
    case AddEdit(hostname, hardware, inNetwork, fixed, parameters) =>
      AddHostTidy(true, s, hostname, hardware, inNetwork, fixed, parameters);
      AddHostSafe(s, hostname, hardware, inNetwork, fixed, parameters);
    case DeleteEdit(name) =>
      if DeleteHost(s, name).Ok? {
        DeleteHostTidy(true, s, name);
        DeleteHostSafe(s, name);
      }
  }

  lemma {:induction false} RunReloadable(s: Store, edits: seq<Edit>)
    requires Reloadable(s) && forall i | 0 <= i < |edits| :: EditSafe(edits[i])
    ensures Valid(s) && Reloadable(Edited(s, edits))
    decreases |edits|
  {
    hide Valid, Neat, AllSafe, Apply, EditSafe;
    OnePerLineValid(true, s);
    if edits != [] {
      ApplyReloadable(s, edits[0]);
      RunReloadable(Apply(s, edits[0]), edits[1..]);
    }
  }

  /** The store after a run of edits. */
  ghost function Edited(s: Store, edits: seq<Edit>): (t: Store)
    requires Reloadable(s) && forall i | 0 <= i < |edits| :: EditSafe(edits[i])
    decreases |edits|
  {
    if edits == [] then s
    else
      ApplyReloadable(s, edits[0]);
      Edited(Apply(s, edits[0]), edits[1..])
  }

  /**
   After any run of additions and deletions, the file that is written parses without error to
   the same tree, prints the same text again, and every host is found with the same parameters.
   */
  lemma EditedFileReloads(s: Store, edits: seq<Edit>, hostname: string, inherit: Option<string>)
    requires Reloadable(s) && forall i | 0 <= i < |edits| :: EditSafe(edits[i])
    ensures var t := Edited(s, edits);
            && OnePerLine(t)
            && var (end, error) := ParseLines(ReadLines(AsText(t, GLOBAL)));
               && error == None && OnePerLine(end.store) && Contents(end.store) == Contents(t)
               && AsText(end.store, GLOBAL) == AsText(t, GLOBAL)
               && GetHost(end.store, Hosts(end.store), hostname, inherit) == GetHost(t, Hosts(t), hostname, inherit)
  {
    hide OnePerLine, AllSafe, Edited, ValidBlock, ParseLines, ReadLines, AsText, Contents, GetHost, Hosts;
    RunReloadable(s, edits);
    var t := Edited(s, edits);
    OnePerLineValid(true, t);
    SafeContents(t);
    RoundTrip(t);
    var u := ParseLines(ReadLines(AsText(t, GLOBAL))).0.store;
    OnePerLineValid(true, u);
    SameTreeSameHosts(t, u, hostname, inherit);
  }

  // ---- printing after any run of edits ----

  lemma ApplyTidy(s: Store, e: Edit)
    requires Tidy(s)
    ensures Tidy(Apply(s, e))
  {
    hide Valid, AddHost, DeleteHost, OnePerLine;
    match e
    case AddEdit(hostname, hardware, inNetwork, fixed, parameters) =>
      AddHostTidy(false, s, hostname, hardware, inNetwork, fixed, parameters);
    case DeleteEdit(name) =>
      if DeleteHost(s, name).Ok? { DeleteHostTidy(false, s, name); }
  }

  /** The store after a run of edits of any parsed file. */
  ghost function After(s: Store, edits: seq<Edit>): (t: Store)
    requires Tidy(s)
    ensures Tidy(t)
    decreases |edits|
  {
    if edits == [] then s
    else
      ApplyTidy(s, edits[0]);
      After(Apply(s, edits[0]), edits[1..])
  }

  /**
   Whatever was parsed and whatever hosts were added and deleted since: every block prints each of
   its components exactly once, in their order, and printing a second time gives the same text,
   although the first time took the components with a line number out of their blocks.
   */
  lemma EditedFilePrintsEverything(lines: seq<string>, edits: seq<Edit>, b: nat)
    ensures Tidy(ParseLines(lines).0.store)
    ensures var t := After(ParseLines(lines).0.store, edits);
            && Valid(t)
            && (IsBlock(t, b) ==>
                  && Flatten(Plan(t, b)) == t[b].body.components
                  && Valid(Printed(t, b)) && AsText(Printed(t, b), b) == AsText(t, b))
  {
    hide ParseLines, Valid, After, Flatten, Plan, AsText, Printed;
    ParseIsTidy(lines);
    var t := After(ParseLines(lines).0.store, edits);
    if IsBlock(t, b) {
      PlanIsComplete(t, b);
      PrintTwice(t, b);
    }
  }
}
