/**
 What a file object still knows after it was printed. Printing takes every component with a line
 number out of its block, so lookups, deletions and the check for duplicates go through the
 components that have none, until the file is parsed again.
 */
module DhcpdPrinted {
  import opened Wrappers
  import opened Strings
  import opened Dicts
  import opened DhcpdModel
  import opened DhcpdParser
  import opened DhcpdPrinter
  import opened DhcpdTidy
  import opened DhcpdScan
  import opened DhcpdRoundTrip
  import opened DhcpdReparse
  import opened DhcpdHosts
  import opened DhcpdLookup
  import opened DhcpdEdits
  import opened DhcpdAddHost
  import opened DhcpdDistinct
  import opened DhcpdRewrite
  import opened DhcpdReload
  import opened DhcpdPlain

  // ---- which components are still listed ----

  /** Neither the component nor any block around it was printed through its line number. */
  predicate Unprinted(s: Store, i: nat)
    requires Valid(s) && i < |s|
    decreases i
  {
    s[i].parent >= 0 ==> assert i > 0; !LinePlaced(s, s[i].parent, i) && Unprinted(s, s[i].parent)
  }

  lemma {:induction false} ListedIsVisited(s: Store, i: nat)
    requires Valid(s) && i < |s| && Listed(s, GLOBAL, i)
    ensures Visited(s, GLOBAL, i)
    decreases i
  {
    if s[i].parent != GLOBAL { ListedIsVisited(s, s[i].parent); }
  }

  lemma PrintedValid(s: Store)
    requires Valid(s)
    ensures Valid(Printed(s, GLOBAL))
  {
    PrintedThinned(s, GLOBAL);
    ThinnedValid(s, Printed(s, GLOBAL));
  }

  /** The store after the file was printed. */
  function AfterPrint(s: Store): (t: Store)
    requires Valid(s)
    ensures Valid(t) && |t| == |s|
  {
    PrintedValid(s);
    Printed(s, GLOBAL)
  }

  /** After a print, exactly the components are listed that were listed and are not below a line number. */
  lemma {:induction false} PrintedListed(s: Store, i: nat)
    requires Valid(s) && i < |s|
    ensures Listed(AfterPrint(s), GLOBAL, i) <==> Listed(s, GLOBAL, i) && Unprinted(s, i)
    decreases i
  {
    var t := AfterPrint(s);
    if i > 0 {
      var p := s[i].parent;
      PrintedListed(s, p);
      assert ValidBlock(s, p);
      UnplacedMember(s, p, s[p].body.components, i);
      if p == GLOBAL {
        assert Unprinted(s, GLOBAL);
      } else if Listed(s, GLOBAL, p) {
        ListedIsVisited(s, p);
      }
    }
  }

  lemma PrintedHosts(s: Store, i: nat)
    requires Valid(s) && i < |s|
    ensures IsHost(AfterPrint(s), i) <==> IsHost(s, i) && Unprinted(s, i)
  {
    PrintedListed(s, i);
  }

  // ---- looking up, deleting and checking after a print ----

  lemma {:induction false} NoneFound(s: Store, hosts: seq<nat>, hostname: string, inherit: Option<string>)
    requires Valid(s) && AllBlocks(s, hosts)
    ensures GetHost(s, hosts, hostname, inherit) == Ok(None) <==>
              forall k | 0 <= k < |hosts| :: |s[hosts[k]].body.settings| >= 2 && s[hosts[k]].body.settings[1] != hostname
    decreases |hosts|
  {
    if hosts != [] {
      NoneFound(s, hosts[1..], hostname, inherit);
      assert forall k | 0 < k < |hosts| :: hosts[k] == hosts[1..][k - 1];
      assert forall k | 0 <= k < |hosts[1..]| :: hosts[1..][k] == hosts[k + 1];
    }
  }

  lemma NotFoundIff(s: Store, hostname: string, inherit: Option<string>)
    requires Valid(s)
    ensures GetHost(s, Hosts(s), hostname, inherit) == Ok(None) <==>
              forall i: nat | IsHost(s, i) :: |s[i].body.settings| >= 2 && s[i].body.settings[1] != hostname
  {
    hide IsHost, Hosts, GetHost, Valid;
    HostsAreHosts(s);
    NoneFound(s, Hosts(s), hostname, inherit);
    forall i: nat | IsHost(s, i) ensures exists k :: 0 <= k < |Hosts(s)| && Hosts(s)[k] == i { HostIndexed(s, i); }
    assert forall k | 0 <= k < |Hosts(s)| :: Hosts(s)[k] in Hosts(s);
  }

  /** The block has a second setting: the name of a host. */
  predicate HasName(s: Store, i: nat)
    requires IsBlock(s, i)
  {
    |s[i].body.settings| >= 2
  }

  lemma PrintedRecord(s: Store, i: nat)
    requires Valid(s) && i < |s|
    ensures var t := AfterPrint(s);
            && t[i].body.Block? == s[i].body.Block? && t[i].parent == s[i].parent
            && (s[i].body.Block? ==> t[i].body.settings == s[i].body.settings && t[i].body.blockType == s[i].body.blockType)
  {
  }

  /** `get_host` finds nothing after a print exactly if all hosts of that name were printed through a line number. */
  lemma PrintedGetHost(s: Store, hostname: string, inherit: Option<string>)
    requires Valid(s)
    ensures var t := AfterPrint(s);
            GetHost(t, Hosts(t), hostname, inherit) == Ok(None) <==>
              forall i: nat | IsHost(s, i) && Unprinted(s, i) :: HasName(s, i) && s[i].body.settings[1] != hostname
  {
    hide AfterPrint, Unprinted, GetHost, Hosts, Listed, Valid;
    var t := AfterPrint(s);
    NotFoundIff(t, hostname, inherit);
    forall i: nat | i < |s|
      ensures IsHost(t, i) <==> IsHost(s, i) && Unprinted(s, i)
      ensures s[i].body.Block? ==> t[i].body.Block? && t[i].body.settings == s[i].body.settings
    {
      PrintedHosts(s, i);
      PrintedRecord(s, i);
    }
  }

  /** `delete_host` removes nothing after a print exactly if no host that was not printed through a line number matches. */
  lemma PrintedDeleteHost(s: Store, hostname: string)
    requires Valid(s)
    ensures var t := AfterPrint(s);
            (DeleteHost(t, hostname).Ok? && Doomed(t, hostname) == {}) <==>
              forall i: nat | IsHost(s, i) && Unprinted(s, i) :: HasName(s, i) && IsBlock(t, i) && HasName(t, i) && !Deletes(t, i, hostname)
  {
    hide AfterPrint, Unprinted, DeleteHost, Listed, OwnParameters, Valid;
    var t := AfterPrint(s);
    DeleteHostDefined(t, hostname);
    forall i: nat | i < |s|
      ensures IsHost(t, i) <==> IsHost(s, i) && Unprinted(s, i)
      ensures s[i].body.Block? ==> t[i].body.Block? && t[i].body.settings == s[i].body.settings
    {
      PrintedHosts(s, i);
      PrintedRecord(s, i);
    }
    if DeleteHost(t, hostname).Ok? && Doomed(t, hostname) == {} {
      forall i: nat | IsHost(s, i) && Unprinted(s, i)
        ensures HasName(s, i) && IsBlock(t, i) && HasName(t, i) && !Deletes(t, i, hostname)
      {
        assert i !in Doomed(t, hostname);
      }
    }
  }

  /**
   The check before adding a host passes after a print, and finds no host of that name, exactly if
   every host that was not printed through a line number has another name and other addresses.
   */
  lemma PrintedCheck(s: Store, hostname: string, hardware: string, fixed: string)
    requires Valid(s)
    ensures var t := AfterPrint(s);
            CheckHosts(t, Hosts(t), hostname, hardware, fixed, false) == Ok(false) <==>
              forall i: nat | IsHost(s, i) && Unprinted(s, i) ::
                IsBlock(t, i) && Clear(t, i, hostname, hardware, fixed) && !Named(t, i, hostname)
  {
    hide AfterPrint, Unprinted, Listed, OwnParameters, Valid, CheckHosts, Hosts, Clear, Named;
    var t := AfterPrint(s);
    var hosts := Hosts(t);
    forall i: nat | i < |s|
      ensures IsHost(t, i) <==> IsHost(s, i) && Unprinted(s, i)
      ensures s[i].body.Block? ==> t[i].body.Block?
    {
      PrintedHosts(s, i);
      PrintedRecord(s, i);
    }
    HostsAreHosts(t);
    CheckedHosts(t, hosts, hostname, hardware, fixed, false);
    if CheckHosts(t, hosts, hostname, hardware, fixed, false).Ok? { CheckedNames(t, hosts, hostname, hardware, fixed, false); }
    forall i: nat | IsHost(t, i) ensures exists k :: 0 <= k < |hosts| && hosts[k] == i { HostIndexed(t, i); }
    assert forall k | 0 <= k < |hosts| :: hosts[k] in hosts;
  }

  // ---- a file that was parsed and printed ----

  /** Every component directly in the global block has a line number that is printed. */
  ghost predicate TopPlaced(s: Store) {
    Valid(s) && forall c: nat | c < |s| && c in s[GLOBAL].body.components :: LinePlaced(s, GLOBAL, c)
  }

  /** While a file is parsed, the end of the global block lies behind every component. */
  ghost predicate GlobalEnd(st: ParseState) {
    ValidState(st) && st.line <= |st.lines| && st.store[GLOBAL].endLine == |st.lines|
  }

  lemma StepGlobalEnd(st: ParseState)
    requires GlobalEnd(st)
    ensures Step(st).More? ==> GlobalEnd(Step(st).next)
    ensures Step(st).Finished? ==> GlobalEnd(Step(st).last)
    ensures Step(st).Failed? ==> ValidState(Step(st).at) && Step(st).at.line <= Step(st).at.store[GLOBAL].endLine
  {
    StepValid(st);
    if Strip(st.data) != "" {
      var token := PickFrom(TOKENS, st.data, st.minIndex);
      if token.Some? { TokenGlobalEnd(st.(minIndex := 0), token.value, Find(st.data, token.value)); }
    }
  }

  lemma TokenGlobalEnd(st: ParseState, token: char, index: nat)
    requires IsBlock(st.store, st.block) && IsBlock(st.store, GLOBAL) && st.store[GLOBAL].parent == NOPARENT
    requires index < |st.data| && st.line <= |st.lines| && st.store[GLOBAL].endLine == |st.lines|
    ensures TakeToken(st, token, index).More? ==>
              var next := TakeToken(st, token, index).next;
              |next.store| > 0 && next.line == st.line && next.lines == st.lines && next.store[GLOBAL].endLine == |st.lines|
    ensures TakeToken(st, token, index).Failed? ==>
              var at := TakeToken(st, token, index).at;
              |at.store| > 0 && at.line <= at.store[GLOBAL].endLine
    ensures !TakeToken(st, token, index).Finished?
  {
    hide Split, Strip, Unquote, Join, ScanValues, ScanEnd, MakeValue;
  }

  lemma {:induction false} RunGlobalEnd(st: ParseState)
    requires GlobalEnd(st)
    ensures Run(st).0.line <= Run(st).0.store[GLOBAL].endLine
    decreases |st.lines| - st.line, |st.data|
  {
    hide Step, Run, Valid;
    StepGlobalEnd(st);
    RunStep(st);
    if Step(st).More? { RunGlobalEnd(Step(st).next); }
  }

  lemma PlacedAtTop(s: Store, line: int)
    requires Valid(s) && Chronological(s, line) && AllReferenced(s) && line <= s[GLOBAL].endLine
    ensures TopPlaced(s)
  {
    BlockChildren(s, GLOBAL);
    forall c: nat | c < |s| && c in s[GLOBAL].body.components ensures LinePlaced(s, GLOBAL, c) {
      assert Referenced(s, GLOBAL);
    }
  }

  lemma ParsedTopPlaced(lines: seq<string>)
    ensures TopPlaced(ParseLines(lines).0.store)
  {
    hide Run, Valid, Chronological, AllReferenced;
    InitialParse(lines);
    RunInvariant(Initial(lines));
    RunGlobalEnd(Initial(lines));
    var end := ParseLines(lines).0;
    PlacedAtTop(end.store, end.line);
  }

  lemma InitialParse(lines: seq<string>)
    ensures ParseInvariant(Initial(lines)) && GlobalEnd(Initial(lines))
  {
    assert Referenced([GlobalBlock(|lines|)], GLOBAL);
  }

  lemma {:induction false} NothingUnprinted(s: Store, i: nat)
    requires TopPlaced(s) && i < |s| && Listed(s, GLOBAL, i)
    ensures !Unprinted(s, i)
    decreases i
  {
    if s[i].parent != GLOBAL { NothingUnprinted(s, s[i].parent); }
  }

  /** No block of any type is found any more. */
  lemma NothingFound(s: Store, ty: string)
    requires TopPlaced(s)
    ensures GetBlocks(AfterPrint(s), GLOBAL, ty, true) == []
  {
    hide AfterPrint, Unprinted, Listed, Valid, TopPlaced;
    assert Valid(s) by { TopPlacedValid(s); }
    var t := AfterPrint(s);
    GlobalIsBlock(t);
    var found := GetBlocks(t, GLOBAL, ty, true);
    if found != [] {
      var i := found[0];
      assert i in found;
      FoundBlocks(t, GLOBAL, ty, i);
      PrintedListed(s, i);
      NothingUnprinted(s, i);
    }
  }

  lemma GlobalIsBlock(s: Store)
    requires Valid(s)
    ensures IsBlock(s, GLOBAL)
  {
  }

  lemma TopPlacedValid(s: Store)
    requires TopPlaced(s)
    ensures Valid(s)
  {
  }

  /**
   Whatever file was parsed: after it was printed, no host is found under any name, deleting does
   nothing, and adding a host finds no conflict, whatever its name and addresses.
   */
  lemma ParsedThenPrinted(lines: seq<string>, hostname: string, inherit: Option<string>, hardware: string, fixed: string)
    ensures var s := ParseLines(lines).0.store;
            && Valid(s)
            && var t := AfterPrint(s);
               && GetHost(t, Hosts(t), hostname, inherit) == Ok(None)
               && DeleteHost(t, hostname) == Ok(t)
               && CheckHosts(t, Hosts(t), hostname, hardware, fixed, false) == Ok(false)
  {
    hide ParseLines, AfterPrint, Valid, TopPlaced;
    var s := ParseLines(lines).0.store;
    ParsedTopPlaced(lines);
    TopPlacedValid(s);
    NothingFound(s, "host");
  }

  // ---- adding to a file that was printed ----

  lemma NothingAtTop(s: Store)
    requires TopPlaced(s)
    ensures AfterPrint(s)[GLOBAL] == s[GLOBAL].(body := s[GLOBAL].body.(components := []))
    ensures Rest(s, GLOBAL) == []
  {
    BlockChildren(s, GLOBAL);
    var ids, rest := s[GLOBAL].body.components, Rest(s, GLOBAL);
    if rest != [] {
      assert rest[0] in rest;
      UnplacedMember(s, GLOBAL, ids, rest[0]);
    }
  }

  lemma ParentIsGlobal(s: Store, inNetwork: string -> bool, parameters: Parameters)
    requires TopPlaced(s)
    ensures var t := AfterPrint(s);
            ParentFor(t, inNetwork, parameters) == Ok(GLOBAL) && IsBlock(t, GLOBAL) && GetParameters(t, GLOBAL, GLOBALTYPE) == []
  {
    hide AfterPrint, Listed, TopPlaced;
    TopPlacedValid(s);
    var t := AfterPrint(s);
    NothingFound(s, "subnet");
    NothingAtTop(s);
    assert ValidBlock(t, GLOBAL);
    assert GetBlocks(t, GLOBAL, "subnet", true) == [];
    assert LastMatch(t, [], inNetwork, GLOBAL) == Ok(GLOBAL);
    assert GetBlocks(t, GLOBAL, "group", false) == [];
    assert BestGroup(t, [], parameters, None, -1) == None;
    assert OwnParameters(t, GLOBAL) == [];
  }

  /** The components a host is written with. */
  function ParameterTrees(own: Parameters): seq<Tree> {
    if own == [] then [] else [ParameterTree(own[0].0, Normalise(own[0].1))] + ParameterTrees(own[1..])
  }

  function HostTree(hostname: string, own: Parameters): Tree {
    BlockTree("host", ["host", hostname], ParameterTrees(own))
  }

  lemma {:induction false} AppendedGrown(s: Store, b: nat, own: Parameters)
    requires Valid(s) && IsBlock(s, b)
    ensures Grown(s, AppendParameters(s, b, own), b, ParameterTrees(own))
    decreases |own|
  {
    hide Valid, Grown, TreeAt;
    if own == [] {
      GrownNothing(s, b);
    } else {
      var body := Parameter(own[0].0, Normalise(own[0].1));
      AppendValid(s, b, -1, body);
      AppendShape(s, b, -1, body);
      var next := Append(s, b, -1, body);
      GrownLeaf(s, b, -1, body);
      LeafTree(next, |s|);
      AppendedGrown(next, b, own[1..]);
      GrownTrans(s, next, AppendParameters(next, b, own[1..]), b, [TreeAt(next, |s|)], ParameterTrees(own[1..]));
    }
  }

  lemma LeafTree(s: Store, i: nat)
    requires Valid(s) && i < |s| && s[i].body.Parameter?
    ensures TreeAt(s, i) == ParameterTree(s[i].body.key, s[i].body.value)
  {
  }

  function NewHost(hostname: string): Component {
    Component(-1, -1, GLOBAL, Block("host", ["host", hostname], [], map[]))
  }

  /** A store with one more host at the top, and nothing checked. */
  function WithTopHost(s: Store, hostname: string, own: Parameters): Store
    requires Valid(s) && IsBlock(s, GLOBAL)
  {
    Add(WithHost(s, GLOBAL, hostname, own), GLOBAL, |s|)
  }

  /** A host that is added to the global block is one more tree at the end. */
  lemma HostAddsTree(s: Store, hostname: string, own: Parameters)
    requires Valid(s) && IsBlock(s, GLOBAL)
    ensures var v := WithTopHost(s, hostname, own);
            Valid(v) && Contents(v) == Contents(s) + [HostTree(hostname, own)]
  {
    hide Valid, TreeAt, ParameterTrees;
    var s1 := s + [NewHost(hostname)];
    NewValid(s, NewHost(hostname));
    AppendedGrown(s1, |s|, own);
    var t := WithHost(s, GLOBAL, hostname, own);
    WithHostEffect(s, GLOBAL, hostname, own);
    var v := Add(t, GLOBAL, |s|);
    assert Valid(v) by { AttachEffect(s, t, GLOBAL); }
    NewHostTree(s, t, v, hostname, own);
    var ids := s[GLOBAL].body.components;
    BlockChildren(s, GLOBAL);
    BlockChildren(v, GLOBAL);
    assert v[GLOBAL].body.components == ids + [|s|];
    ForestConcat(v, GLOBAL, ids, [|s|]);
    ForestFrame(s, v, GLOBAL, GLOBAL, ids);
    FirstTree(v, GLOBAL, [|s|]);
    assert [|s|][1..] == [];
  }

  lemma NewHostTree(s: Store, t: Store, v: Store, hostname: string, own: Parameters)
    requires Valid(s) && Valid(t) && Valid(v) && |s| < |t| == |v| && AgreeAbove(t, v, GLOBAL) && s != []
    requires Valid(s + [NewHost(hostname)]) && Grown(s + [NewHost(hostname)], t, |s|, ParameterTrees(own))
    ensures TreeAt(v, |s|) == HostTree(hostname, own)
  {
    hide Valid, TreeAt, ParameterTrees;
    var ids := t[|s|].body.components;
    BlockChildren(t, |s|);
    assert ids[0..] == ids;
    ForestFrame(t, v, GLOBAL, |s|, ids);
    BlockTreeAt(v, |s|);
  }

  // ---- the text of a file that was printed, and then got one more host ----

  lemma {:induction false} UnplacedConcat(s: Store, b: nat, xs: seq<nat>, ys: seq<nat>)
    requires IsBlock(s, b) && (forall k | 0 <= k < |xs| :: xs[k] < |s|) && (forall k | 0 <= k < |ys| :: ys[k] < |s|)
    ensures Unplaced(s, b, xs + ys) == Unplaced(s, b, xs) + Unplaced(s, b, ys)
    decreases |xs|
  {
    hide LinePlaced;
    if xs == [] {
      assert xs + ys == ys;
    } else {
      assert (xs + ys)[1..] == xs[1..] + ys;
      UnplacedConcat(s, b, xs[1..], ys);
    }
  }

  /** Two blocks with the same lines and references leave the same components for the end. */
  lemma {:induction false} UnplacedSame(s: Store, t: Store, b: nat, ids: seq<nat>)
    requires IsBlock(s, b) && IsBlock(t, b) && |s| <= |t| && forall k | 0 <= k < |ids| :: ids[k] < |s|
    requires forall c: nat | c < |s| :: LinePlaced(s, b, c) <==> LinePlaced(t, b, c)
    ensures Unplaced(s, b, ids) == Unplaced(t, b, ids)
    decreases |ids|
  {
    if ids != [] { UnplacedSame(s, t, b, ids[1..]); }
  }

  lemma {:induction false} AppendedFrame(s: Store, t: Store, b: nat, own: Parameters)
    requires Valid(s) && Valid(t) && IsBlock(s, b) && IsBlock(t, b) && |s| == |t| && s[b] == t[b]
    ensures var u, v := AppendParameters(s, b, own), AppendParameters(t, b, own);
            u[b] == v[b] && forall i | |s| <= i < |u| :: u[i] == v[i]
    decreases |own|
  {
    hide Valid;
    if own != [] {
      var body := Parameter(own[0].0, Normalise(own[0].1));
      AppendValid(s, b, -1, body);
      AppendValid(t, b, -1, body);
      AppendShape(s, b, -1, body);
      AppendedFrame(Append(s, b, -1, body), Append(t, b, -1, body), b, own[1..]);
      KeptBefore(Append(s, b, -1, body), b, own[1..], |s|);
      KeptBefore(Append(t, b, -1, body), b, own[1..], |s|);
    }
  }

  lemma KeptBefore(s: Store, b: nat, own: Parameters, i: nat)
    requires Valid(s) && IsBlock(s, b) && i < |s| && i != b
    ensures AppendParameters(s, b, own)[i] == s[i]
  {
  }

  /** The host is written in the same way, whether or not the file was printed before. */
  lemma AddedThinned(s: Store, hostname: string, own: Parameters)
    requires TopPlaced(s)
    ensures IsBlock(s, GLOBAL) && IsBlock(AfterPrint(s), GLOBAL)
    ensures var v := WithTopHost(s, hostname, own);
            var u := WithTopHost(AfterPrint(s), hostname, own);
            Valid(v) && Thinned(v, u)
  {
    hide Valid, AfterPrint, TopPlaced, Thinned, ThinnedBlock, Unplaced, LinePlaced, AppendParameters;
    TopPlacedValid(s);
    var p := AfterPrint(s);
    NothingAtTop(s);
    GlobalIsBlock(s);
    HostAddsTree(s, hostname, own);
    NewValid(s, NewHost(hostname));
    NewValid(p, NewHost(hostname));
    AppendedFrame(s + [NewHost(hostname)], p + [NewHost(hostname)], |s|, own);
    var v := WithTopHost(s, hostname, own);
    var u := WithTopHost(p, hostname, own);
    HostRecordLine(s, hostname, own);
    HostRecordLine(p, hostname, own);
    var none: seq<nat> := [];
    assert none + [|s|] == [|s|];
    assert OneMore(s, v) by { AddIsOneMore(s, WithHost(s, GLOBAL, hostname, own)); }
    assert u[GLOBAL] == v[GLOBAL].(body := v[GLOBAL].body.(components := [|s|]));
    forall i: nat | i < |v| ensures u[i] == v[i] || ThinnedBlock(v, i, u[i]) {
      if i == GLOBAL {
        ThinnedTop(s, v, u);
      } else if i < |s| {
        ThinnedBelow(s, v, u, i);
      }
    }
    ThinnedFrom(v, u);
  }

  lemma ThinnedFrom(v: Store, u: Store)
    requires Valid(v) && |u| == |v| && forall i: nat | i < |v| :: u[i] == v[i] || ThinnedBlock(v, i, u[i])
    ensures Thinned(v, u)
  {
  }

  lemma HostRecordLine(s: Store, hostname: string, own: Parameters)
    requires Valid(s) && IsBlock(s, GLOBAL)
    ensures var t := WithHost(s, GLOBAL, hostname, own);
            |t| == |s| + 1 + |own| && t[|s|].startLine == -1 && t[|s|].parent == GLOBAL && forall i | 0 <= i < |s| :: t[i] == s[i]
  {
    WithHostEffect(s, GLOBAL, hostname, own);
  }

  ghost predicate OneMore(s: Store, v: Store)
    requires Valid(s) && IsBlock(s, GLOBAL)
  {
    && |s| < |v| && v[|s|].startLine == -1 && v[|s|].parent == GLOBAL
    && (forall i | 0 < i < |s| :: v[i] == s[i])
    && v[GLOBAL] == s[GLOBAL].(body := s[GLOBAL].body.(
         components := s[GLOBAL].body.components + [|s|],
         lineRefs := s[GLOBAL].body.lineRefs[-1 := RefsAt(s[GLOBAL].body.lineRefs, -1) + [|s|]]))
  }

  lemma AddIsOneMore(s: Store, t: Store)
    requires Valid(s) && IsBlock(s, GLOBAL) && |s| < |t| && t[|s|].startLine == -1 && t[|s|].parent == GLOBAL
    requires forall i | 0 <= i < |s| :: t[i] == s[i]
    ensures OneMore(s, Add(t, GLOBAL, |s|))
  {
  }

  lemma PlacedAsBefore(s: Store, v: Store, c: nat)
    requires Valid(s) && IsBlock(s, GLOBAL) && OneMore(s, v) && c < |s|
    ensures LinePlaced(s, GLOBAL, c) <==> LinePlaced(v, GLOBAL, c)
    ensures !LinePlaced(v, GLOBAL, |s|)
  {
  }

  lemma ThinnedTop(s: Store, v: Store, u: Store)
    requires TopPlaced(s) && Valid(v) && IsBlock(s, GLOBAL) && OneMore(s, v)
    requires |u| == |v| && u[GLOBAL] == v[GLOBAL].(body := v[GLOBAL].body.(components := [|s|]))
    ensures ThinnedBlock(v, GLOBAL, u[GLOBAL])
  {
    hide LinePlaced, OneMore;
    var ids := s[GLOBAL].body.components;
    NothingAtTop(s);
    BlockChildren(s, GLOBAL);
    BlockChildren(v, GLOBAL);
    assert v[GLOBAL].body.components == ids + [|s|] && |s| < |v| by { OneMoreTop(s, v); }
    ChildrenSplit(v, GLOBAL, ids, [|s|]);
    forall c: nat | c < |s| ensures LinePlaced(s, GLOBAL, c) <==> LinePlaced(v, GLOBAL, c) { PlacedAsBefore(s, v, c); }
    UnplacedSame(s, v, GLOBAL, ids);
    UnplacedConcat(v, GLOBAL, ids, [|s|]);
    assert Unplaced(v, GLOBAL, ids + [|s|]) == Unplaced(v, GLOBAL, [|s|]);
  }

  lemma OneMoreTop(s: Store, v: Store)
    requires Valid(s) && IsBlock(s, GLOBAL) && OneMore(s, v)
    ensures v[GLOBAL].body.Block? && v[GLOBAL].body.components == s[GLOBAL].body.components + [|s|] && |s| < |v|
  {
  }

  lemma ThinnedBelow(s: Store, v: Store, u: Store, i: nat)
    requires Valid(s) && Valid(v) && IsBlock(s, GLOBAL) && OneMore(s, v) && 0 < i < |s| && |u| == |v| && u[i] == AfterPrint(s)[i]
    ensures u[i] == v[i] || ThinnedBlock(v, i, u[i])
  {
    hide Valid, Unplaced, ThinnedBlock, OneMore;
    PrintedThinned(s, GLOBAL);
    assert v[i] == s[i] by { OneMoreBelow(s, v, i); }
    if u[i] != s[i] {
      assert ThinnedBlock(s, i, u[i]);
      ThinnedKept(s, v, i, u[i]);
    }
  }

  lemma OneMoreBelow(s: Store, v: Store, i: nat)
    requires Valid(s) && IsBlock(s, GLOBAL) && OneMore(s, v) && 0 < i < |s|
    ensures i < |v| && v[i] == s[i]
  {
  }

  lemma SameLines(s: Store, v: Store)
    requires Valid(s) && IsBlock(s, GLOBAL) && OneMore(s, v)
    ensures |s| <= |v| && forall c: nat | c < |s| :: v[c].startLine == s[c].startLine && v[c].parent == s[c].parent
  {
  }

  lemma ThinnedKept(s: Store, v: Store, i: nat, c: Component)
    requires Valid(s) && Valid(v) && IsBlock(s, GLOBAL) && OneMore(s, v) && 0 < i < |s| && ThinnedBlock(s, i, c)
    ensures i < |v| && ThinnedBlock(v, i, c)
  {
    hide Valid, Unplaced, OneMore, LinePlaced;
    OneMoreBelow(s, v, i);
    SameLines(s, v);
    BlockChildren(s, i);
    BlockChildren(v, i);
    forall c: nat | c < |s| ensures LinePlaced(s, i, c) <==> LinePlaced(v, i, c) { SamePlace(s, v, i, c); }
    UnplacedSame(s, v, i, c.body.components);
    UnplacedSame(s, v, i, s[i].body.components);
  }

  lemma SamePlace(s: Store, v: Store, b: nat, c: nat)
    requires IsBlock(s, b) && b < |v| && v[b] == s[b] && c < |s| <= |v| && v[c].startLine == s[c].startLine
    ensures LinePlaced(s, b, c) <==> LinePlaced(v, b, c)
  {
  }

  // ---- the main result ----

  lemma {:induction false} SafeConcat(a: seq<Tree>, b: seq<Tree>)
    requires SafeAll(a) && SafeAll(b)
    ensures SafeAll(a + b)
    decreases |a|
  {
    hide Safe;
    if a == [] {
      assert a + b == b;
    } else {
      assert (a + b)[1..] == a[1..] + b;
      SafeConcat(a[1..], b);
    }
  }

  lemma {:induction false} SafeParameters(own: Parameters)
    requires EntriesSafe(own)
    ensures SafeAll(ParameterTrees(own))
  {
    hide ParameterSafe, Normalise;
    if own != [] {
      assert ParameterSafe(own[0].0, Normalise(own[0].1));
      assert forall k | 0 <= k < |own[1..]| :: own[1..][k] == own[k + 1];
      SafeParameters(own[1..]);
      assert ParameterTrees(own)[1..] == ParameterTrees(own[1..]);
    }
  }

  lemma SafeHost(hostname: string, hardware: string, fixed: string, parameters: Parameters)
    requires RequestSafe(hostname, hardware, fixed, parameters)
    ensures SafeAll([HostTree(hostname, HostParameters(hardware, fixed, NormaliseAll(parameters)))])
  {
    hide EntriesSafe, BlockSafe, ParameterTrees, HostParameters;
    OwnSafe(hardware, fixed, parameters, []);
    assert DropInherited([], NormaliseAll(parameters)) == NormaliseAll(parameters);
    SafeParameters(HostParameters(hardware, fixed, NormaliseAll(parameters)));
    var tree := HostTree(hostname, HostParameters(hardware, fixed, NormaliseAll(parameters)));
    assert [tree][1..] == [];
  }

  lemma AddAfterPrint(s: Store, hostname: string, hardware: string, inNetwork: string -> bool, fixed: string, parameters: Parameters)
    requires TopPlaced(s)
    ensures IsBlock(AfterPrint(s), GLOBAL)
    ensures AddHost(AfterPrint(s), hostname, hardware, inNetwork, fixed, parameters) ==
              (WithTopHost(AfterPrint(s), hostname, HostParameters(hardware, fixed, NormaliseAll(parameters))), None)
  {
    hide AfterPrint, TopPlaced, Valid, WithHost, ParentFor, GetParameters, Hosts;
    TopPlacedValid(s);
    var t := AfterPrint(s);
    NothingFound(s, "host");
    HostsAre(t);
    ParentIsGlobal(s, inNetwork, NormaliseAll(parameters));
  }

  lemma HostsAre(s: Store)
    requires Valid(s)
    ensures IsBlock(s, GLOBAL) && Hosts(s) == GetBlocks(s, GLOBAL, "host", true)
  {
  }

  /**
   Any parsed file that was printed and then gets a host, without being parsed again, by any
   request: nothing is compared with the hosts of the file, and the text that is written is that of
   the file as it was parsed with the new host at the end.
   */
  lemma PrintedFileTakesAnyHost(lines: seq<string>, hostname: string, hardware: string, inNetwork: string -> bool,
      fixed: string, parameters: Parameters)
    ensures var s, own := ParseLines(lines).0.store, HostParameters(hardware, fixed, NormaliseAll(parameters));
            var (u, failed) := AddHost(AfterPrint(s), hostname, hardware, inNetwork, fixed, parameters);
            && failed == None && Valid(u) && Valid(s) && IsBlock(s, GLOBAL)
            && var v := WithTopHost(s, hostname, own);
               && Valid(v) && AsText(u, GLOBAL) == AsText(v, GLOBAL)
               && Contents(v) == Contents(s) + [HostTree(hostname, own)]
  {
    hide ParseLines, AsText, AddHost, WithHost, Contents, TopPlaced, AfterPrint, HostTree, HostParameters;
    var s, own := ParseLines(lines).0.store, HostParameters(hardware, fixed, NormaliseAll(parameters));
    ParsedTopPlaced(lines);
    TopPlacedValid(s);
    GlobalIsBlock(s);
    AddAfterPrint(s, hostname, hardware, inNetwork, fixed, parameters);
    AddedThinned(s, hostname, own);
    var v := WithTopHost(s, hostname, own);
    var u := WithTopHost(AfterPrint(s), hostname, own);
    ThinnedValid(v, u);
    ThinnedAlike(v, u);
    TextAlike(v, u, GLOBAL);
    HostAddsTree(s, hostname, own);
  }

  /** Reading that text gives all hosts of the file and the new one, whatever its name and addresses. */
  lemma TakenHostIsRead(lines: seq<string>, hostname: string, hardware: string, inNetwork: string -> bool,
      fixed: string, parameters: Parameters)
    requires var s := ParseLines(lines).0.store; OnePerLine(s) && SafeAll(Contents(s))
    requires RequestSafe(hostname, hardware, fixed, parameters)
    ensures var s := ParseLines(lines).0.store;
            var (u, failed) := AddHost(AfterPrint(s), hostname, hardware, inNetwork, fixed, parameters);
            && failed == None && Valid(u)
            && var (end, error) := ParseLines(ReadLines(AsText(u, GLOBAL)));
               && error == None
               && Contents(end.store) == Contents(s) + [HostTree(hostname, HostParameters(hardware, fixed, NormaliseAll(parameters)))]
  {
    hide ParseLines, ReadLines, AsText, AddHost, WithHost, Contents, AfterPrint, HostTree, RequestSafe, HostParameters;
    hide OnePerLine, Valid;
    var s, own := ParseLines(lines).0.store, HostParameters(hardware, fixed, NormaliseAll(parameters));
    PrintedFileTakesAnyHost(lines, hostname, hardware, inNetwork, fixed, parameters);
    ParsedTopPlaced(lines);
    TopPlacedValid(s);
    NeatOne(s);
    WithHostTidy(true, s, GLOBAL, hostname, own);
    var v := WithTopHost(s, hostname, own);
    NeatOne(v);
    SafeHost(hostname, hardware, fixed, parameters);
    SafeConcat(Contents(s), [HostTree(hostname, own)]);
    RoundTrip(v);
  }

  lemma NeatOne(s: Store)
    ensures Neat(true, s) <==> OnePerLine(s)
  {
  }

  // ---- a file with one host ----

  lemma FileIsFound(s: Store, hostname: string, hardware: string, fixed: string)
    requires Valid(s) && Contents(s) == [HostTree(hostname, HostParameters(hardware, fixed, []))]
    ensures GetHost(s, Hosts(s), hostname, None) == Ok(Some([(FIXED, MakeValue(fixed)), (HARDWARE, MakeValue("ethernet " + hardware))]))
  {
    hide Valid, GetHost, Hosts, MakeValue;
    var own := HostParameters(hardware, fixed, []);
    var trees := ParameterTrees(own);
    assert own[1..] == [(HARDWARE, Str("ethernet " + hardware))] && own[1..][1..] == [] && FIXED[0] != HARDWARE[0];
    assert ParameterTrees(own[1..]) == [ParameterTree(HARDWARE, MakeValue("ethernet " + hardware))];
    assert trees == [ParameterTree(FIXED, MakeValue(fixed)), ParameterTree(HARDWARE, MakeValue("ethernet " + hardware))];
    TwoParameters(FIXED, MakeValue(fixed), HARDWARE, MakeValue("ethernet " + hardware));
    OneHostTree(hostname, trees, [Scope("global", PutKids(Contents(s), []))]);
    GlobalLookup(s, hostname, None);
  }

  lemma TwoParameters(k: string, v: Value, l: string, w: Value)
    requires k != l
    ensures PutKids([ParameterTree(k, v), ParameterTree(l, w)], []) == [(k, v), (l, w)]
  {
    var kids := [ParameterTree(k, v), ParameterTree(l, w)];
    assert kids[1..] == [ParameterTree(l, w)] && kids[1..][1..] == [] && [(k, v)][1..] == [];
    assert Put([(k, v)], l, w) == [(k, v), (l, w)];
    assert PutKids(kids, []) == PutKids(kids[1..], [(k, v)]) == PutKids(kids[1..][1..], [(k, v), (l, w)]);
  }

  lemma OneHostTree(hostname: string, kids: seq<Tree>, scopes: seq<Scope>)
    requires |kids| == 2 && kids[0].ParameterTree? && kids[1].ParameterTree?
    ensures HostsIn([BlockTree("host", ["host", hostname], kids)], scopes) ==
              [HostEntry(["host", hostname], [Scope("host", PutKids(kids, []))] + scopes)]
  {
    hide PutKids;
    var t := BlockTree("host", ["host", hostname], kids);
    assert [t][1..] == [] && kids == [kids[0], kids[1]] && kids[1..][1..] == [];
    var inner := [Scope("host", PutKids(kids, []))] + scopes;
    assert HostsOf(kids[0], inner) == [] && HostsOf(kids[1], inner) == [] && kids[1..][0] == kids[1];
    assert HostsIn(kids[1..][1..], inner) == [] && HostsIn(kids[1..], inner) == [];
    assert HostsIn(kids, inner) == [];
    var entry := [HostEntry(["host", hostname], inner)];
    assert HostsOf(t, scopes) == entry + [] && entry + [] == entry;
  }

  /** The lines of a file that holds just this host. */
  function OneHostFile(hostname: string, hardware: string, fixed: string): seq<string> {
    Terminated(RenderAll([HostTree(hostname, HostParameters(hardware, fixed, []))], 0))
  }

  /**
   A file with one host, which may be any that can be written, is parsed and printed. Before, the
   host is found; afterwards it is not, and adding it again succeeds: the file is then written
   with the host twice.
   */
  lemma WrittenTwice(hostname: string, hardware: string, fixed: string, inNetwork: string -> bool)
    requires RequestSafe(hostname, hardware, fixed, [])
    ensures var (parsed, failed) := ParseLines(OneHostFile(hostname, hardware, fixed));
            var s := parsed.store;
            && failed == None
            && GetHost(s, Hosts(s), hostname, None) ==
                 Ok(Some([(FIXED, MakeValue(fixed)), (HARDWARE, MakeValue("ethernet " + hardware))]))
            && GetHost(AfterPrint(s), Hosts(AfterPrint(s)), hostname, None) == Ok(None)
            && var (u, refused) := AddHost(AfterPrint(s), hostname, hardware, inNetwork, fixed, []);
               var host := HostTree(hostname, HostParameters(hardware, fixed, []));
               refused == None && Valid(u) && Contents(ParseLines(ReadLines(AsText(u, GLOBAL))).0.store) == [host, host]
  {
    hide ParseLines, ReadLines, AsText, AddHost, Contents, AfterPrint, HostTree, Terminated, GetHost, Hosts, RequestSafe, HostParameters,
      OnePerLine, MakeValue;
    SafeHost(hostname, hardware, fixed, []);
    assert NormaliseAll([]) == [];
    ParseOfPrinted([HostTree(hostname, HostParameters(hardware, fixed, []))]);
    var lines := OneHostFile(hostname, hardware, fixed);
    var s := ParseLines(lines).0.store;
    FileIsFound(s, hostname, hardware, fixed);
    ParsedThenPrinted(lines, hostname, None, hardware, fixed);
    TakenHostIsRead(lines, hostname, hardware, inNetwork, fixed, []);
  }

  lemma NormalisedWord(w: string)
    requires Word(w)
    ensures Normalised(w)
  {
    hide Split;
    assert Join([w], SPACE) == w && w + "" == w;
    SplitJoin([w], "");
  }

  const ETHERNET := "ethernet"

  lemma {:induction false} LowerLength(s: string)
    ensures |Lower(s)| == |s|
  {
    if s != "" { LowerLength(s[1..]); }
  }

  lemma EthernetSafe(hardware: string)
    requires Word(hardware) && Plain(hardware)
    ensures ParameterSafe(HARDWARE, Normalise(Str("ethernet " + hardware)))
  {
    hide ParameterSafe, Normalised, Lower;
    var text := ETHERNET + SPACE + hardware;
    assert "ethernet " == ETHERNET + SPACE;
    NormalisedWord(ETHERNET);
    NormalisedWord(hardware);
    NormalisedConcat(ETHERNET, hardware);
    LowerLength(text);
    PlainParameter(HARDWARE, Str(text));
  }

  lemma LetterSafe()
    ensures ParameterSafe(FIXED, Normalise(Str("c"))) && BlockSafe("host", ["host", "a"])
  {
    hide ParameterSafe, BlockSafe;
    assert Lower("c") == "c";
    PlainParameter(FIXED, Str("c"));
    assert Join(["host", "a"], SPACE) == "host a";
    PlainBlock(["host", "a"]);
  }

  /** There is such a file. */
  lemma SomeHostCanBeWritten()
    ensures RequestSafe("a", "b", "c", [])
  {
    hide ParameterSafe, BlockSafe, Normalise;
    LetterSafe();
    EthernetSafe("b");
  }
}
