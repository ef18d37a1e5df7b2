/**
 Edited files can be written and read again: adding and deleting hosts keeps a store in the
 shape in which the round trip holds.
 */
module DhcpdRewrite {
  import opened Wrappers
  import opened Strings
  import opened Dicts
  import opened DhcpdModel
  import opened DhcpdParser
  import opened DhcpdPrinter
  import opened DhcpdTidy
  import opened DhcpdHosts

  /** A tidy store, and with one component per line if `single`. */
  ghost predicate Neat(single: bool, s: Store) {
    Tidy(s) && (single ==> OnePerLine(s))
  }

  /** Block `b` is in the shape in which every component is printed on a line of its own, in order. */
  ghost predicate TidyBlock(single: bool, s: Store, b: nat)
    requires Valid(s) && IsBlock(s, b)
  {
    Referenced(s, b) && Ordered(s, b) && (single ==> Separate(s, b))
  }

  lemma TidyBlocks(single: bool, s: Store)
    requires Valid(s)
    ensures Neat(single, s) <==> forall b | 0 <= b < |s| && s[b].body.Block? :: TidyBlock(single, s, b)
  {
    hide Valid, Referenced, Ordered, Separate;
  }

  lemma TidyBlockFrame(single: bool, s: Store, t: Store, b: nat)
    requires Valid(s) && Valid(t) && SameSkeleton(s, t) && IsBlock(s, b)
    requires t[b] == s[b] && TidyBlock(single, s, b)
    ensures TidyBlock(single, t, b)
  {
    hide Valid;
    ReferencedKept(s, t, b);
    BlockChildren(s, b);
  }

  // ---- deleting ----

  lemma ReferencedFrom(s: Store, b: nat)
    requires Valid(s) && IsBlock(s, b)
    requires forall l, c: nat :: c in RefsAt(s[b].body.lineRefs, l) <==> c in s[b].body.components && c < |s| && s[c].startLine == l
    ensures Referenced(s, b)
  {
    hide Valid;
    BlockChildren(s, b);
    forall l, c | l in s[b].body.lineRefs && c in s[b].body.lineRefs[l] ensures c in s[b].body.components {
      assert c in RefsAt(s[b].body.lineRefs, l);
    }
  }

  /** The order of the components depends on which they are and on their lines only. */
  lemma OrderedSubset(single: bool, s: Store, t: Store, b: nat)
    requires Valid(s) && Valid(t) && SameSkeleton(s, t) && IsBlock(s, b) && IsBlock(t, b) && s[b].endLine == t[b].endLine
    requires forall c :: c in t[b].body.components ==> c in s[b].body.components
    requires Ordered(s, b) && (single ==> Separate(s, b))
    ensures Ordered(t, b) && (single ==> Separate(t, b))
  {
    hide Valid;
    BlockChildren(s, b);
    BlockChildren(t, b);
  }

  lemma RefsAfterRemove(s: Store, b: nat, c: nat, l: int, x: nat)
    requires Valid(s) && IsBlock(s, b) && c < |s| && Referenced(s, b)
    ensures x in RefsAt(Remove(s, b, c)[b].body.lineRefs, l) <==> x in RefsAt(s[b].body.lineRefs, l) && x != c
  {
    hide Valid, Referenced, Without;
    LineIds(s, b, l);
    WithoutMembers(RefsAt(s[b].body.lineRefs, l), c);
  }

  lemma RemovedTidyBlock(single: bool, s: Store, b: nat, c: nat)
    requires Valid(s) && IsBlock(s, b) && c < |s| && TidyBlock(single, s, b) && Valid(Remove(s, b, c))
    ensures TidyBlock(single, Remove(s, b, c), b)
  {
    hide Valid, Referenced, Ordered, Separate, Without, RefsAt;
    var t := Remove(s, b, c);
    BlockChildren(s, b);
    WithoutMembers(s[b].body.components, c);
    OrderedSubset(single, s, t, b);
    forall l, x: nat
      ensures x in RefsAt(t[b].body.lineRefs, l) <==> x in t[b].body.components && x < |t| && t[x].startLine == l
    {
      RefsAfterRemove(s, b, c, l, x);
      LineIds(s, b, l);
    }
    ReferencedFrom(t, b);
  }

  lemma RemoveTidy(single: bool, s: Store, b: nat, c: nat)
    requires Neat(single, s) && IsBlock(s, b) && c < |s|
    ensures Valid(Remove(s, b, c)) && Neat(single, Remove(s, b, c)) && |Remove(s, b, c)| == |s|
  {
    hide Valid, TidyBlock, Neat, Without;
    OnePerLineValid(single, s);
    RemoveValid(s, b, c);
    var t := Remove(s, b, c);
    TidyBlocks(single, s);
    TidyBlocks(single, t);
    forall i | 0 <= i < |t| && t[i].body.Block? ensures TidyBlock(single, t, i) {
      if i == b { RemovedTidyBlock(single, s, b, c); } else { TidyBlockFrame(single, s, t, i); }
    }
  }

  lemma OnePerLineValid(single: bool, s: Store)
    requires Neat(single, s)
    ensures Valid(s)
  {
  }

  lemma {:induction false} RemoveAllTidy(single: bool, s: Store, ids: seq<nat>)
    requires Neat(single, s) && forall k | 0 <= k < |ids| :: 0 < ids[k] < |s|
    ensures Neat(single, RemoveAll(s, ids))
    decreases |ids|
  {
    hide Neat, Remove;
    OnePerLineValid(single, s);
    if ids != [] {
      RemoveTidy(single, s, s[ids[0]].parent, ids[0]);
      RemoveAllTidy(single, Remove(s, s[ids[0]].parent, ids[0]), ids[1..]);
    }
  }

  /** Deleting a host keeps one component per line. */
  lemma DeleteHostTidy(single: bool, s: Store, hostname: string)
    requires Neat(single, s) && DeleteHost(s, hostname).Ok?
    ensures Neat(single, DeleteHost(s, hostname).value)
  {
    hide Neat, HostsToDelete, RemoveAll, Hosts;
    OnePerLineValid(single, s);
    RemoveAllTidy(single, s, HostsToDelete(s, Hosts(s), hostname).value);
  }

  // ---- adding ----

  lemma NewTidy(single: bool, s: Store, comp: Component)
    requires Neat(single, s) && IsBlock(s, comp.parent)
    requires comp.body.Block? ==> comp.body.components == [] && comp.body.lineRefs == map[]
    ensures Valid(s + [comp]) && Neat(single, s + [comp])
  {
    hide Valid, TidyBlock, Neat;
    var t := s + [comp];
    OnePerLineValid(single, s);
    NewValid(s, comp);
    TidyBlocks(single, s);
    TidyBlocks(single, t);
    forall i | 0 <= i < |t| && t[i].body.Block? ensures TidyBlock(single, t, i) {
      if i < |s| { TidyBlockFrame(single, s, t, i); } else { EmptyTidy(single, t, i); }
    }
  }

  lemma EmptyTidy(single: bool, s: Store, b: nat)
    requires Valid(s) && IsBlock(s, b) && s[b].body.components == [] && s[b].body.lineRefs == map[]
    ensures TidyBlock(single, s, b)
  {
  }

  /** A component outside the printed lines. */
  lemma OrderedAfterAdd(single: bool, s: Store, b: nat, c: nat)
    requires Valid(s) && IsBlock(s, b) && b < c < |s| && s[c].startLine < 1 && Ordered(s, b) && (single ==> Separate(s, b))
    requires Valid(Add(s, b, c)) && NewestIn(s, b, c)
    ensures Ordered(Add(s, b, c), b) && (single ==> Separate(Add(s, b, c), b))
  {
    hide Valid;
    var t := Add(s, b, c);
    BlockChildren(s, b);
    BlockChildren(t, b);
    assert t[b].body.components == s[b].body.components + [c];
    assert forall x | x in t[b].body.components :: x == c || (x in s[b].body.components && x < c);
  }

  lemma AddedTidyBlock(single: bool, s: Store, b: nat, c: nat)
    requires Valid(s) && IsBlock(s, b) && b < c < |s| && s[c].startLine < 1 && TidyBlock(single, s, b)
    requires Valid(Add(s, b, c)) && NewestIn(s, b, c)
    ensures TidyBlock(single, Add(s, b, c), b)
  {
    hide Valid, Referenced, Ordered, Separate, NewestIn;
    var t := Add(s, b, c);
    OrderedAfterAdd(single, s, b, c);
    assert t[b].body.components == s[b].body.components + [c];
    forall l, x: nat
      ensures x in RefsAt(t[b].body.lineRefs, l) <==> x in t[b].body.components && x < |t| && t[x].startLine == l
    {
      LineIds(s, b, l);
    }
    ReferencedFrom(t, b);
  }

  lemma AddTidy(single: bool, s: Store, b: nat, c: nat)
    requires Neat(single, s) && IsBlock(s, b) && b < c < |s| && s[c].parent == b && s[c].startLine < 1
    requires NewestIn(s, b, c)
    ensures Valid(Add(s, b, c)) && Neat(single, Add(s, b, c))
  {
    hide Valid, TidyBlock, Neat, NewestIn;
    OnePerLineValid(single, s);
    AddValid(s, b, c);
    var t := Add(s, b, c);
    TidyBlocks(single, s);
    TidyBlocks(single, t);
    forall i | 0 <= i < |t| && t[i].body.Block? ensures TidyBlock(single, t, i) {
      if i == b { AddedTidyBlock(single, s, b, c); } else { TidyBlockFrame(single, s, t, i); }
    }
  }

  lemma AllBefore(s: Store, b: nat, t: Store, c: nat)
    requires Valid(s) && IsBlock(s, b) && |s| <= c && b < |t| && t[b] == s[b]
    ensures IsBlock(t, b) && NewestIn(t, b, c)
  {
    assert ValidBlock(s, b);
    forall l | l in s[b].body.lineRefs ensures forall k | 0 <= k < |s[b].body.lineRefs[l]| :: s[b].body.lineRefs[l][k] < c {
      assert ChildrenOf(s, b, s[b].body.lineRefs[l]);
    }
  }

  lemma AppendTidy(single: bool, s: Store, b: nat, line: int, body: Body)
    requires Neat(single, s) && IsBlock(s, b) && line < 1
    requires body.Block? ==> body.components == [] && body.lineRefs == map[]
    ensures Valid(Append(s, b, line, body)) && Neat(single, Append(s, b, line, body))
  {
    hide Valid, Neat, NewestIn;
    OnePerLineValid(single, s);
    var comp := Component(line, line, b, body);
    NewTidy(single, s, comp);
    AllBefore(s, b, s + [comp], |s|);
    AddTidy(single, s + [comp], b, |s|);
  }

  lemma {:induction false} AppendParametersTidy(single: bool, s: Store, b: nat, parameters: Parameters)
    requires Valid(s) && Neat(single, s) && IsBlock(s, b)
    ensures Neat(single, AppendParameters(s, b, parameters))
    decreases |parameters|
  {
    hide Valid, Neat;
    if parameters != [] {
      var body := Parameter(parameters[0].0, Normalise(parameters[0].1));
      AppendTidy(single, s, b, -1, body);
      AppendBlock(s, b, -1, body);
      AppendParametersTidy(single, Append(s, b, -1, body), b, parameters[1..]);
    }
  }

  lemma AppendBlock(s: Store, b: nat, line: int, body: Body)
    requires IsBlock(s, b)
    ensures IsBlock(Append(s, b, line, body), b)
  {
  }

  lemma WithHostTidy(single: bool, s: Store, parent: nat, hostname: string, parameters: Parameters)
    requires Neat(single, s) && IsBlock(s, parent)
    ensures Valid(s)
    ensures var t := Add(WithHost(s, parent, hostname, parameters), parent, |s|); Valid(t) && Neat(single, t)
  {
    hide Valid, Neat, AppendParameters, NewestIn;
    OnePerLineValid(single, s);
    var host := Component(-1, -1, parent, Block("host", ["host", hostname], [], map[]));
    NewTidy(single, s, host);
    AppendParametersTidy(single, s + [host], |s|, parameters);
    var t := WithHost(s, parent, hostname, parameters);
    HostRecord(s, parent, hostname, parameters);
    AllBefore(s, parent, t, |s|);
    AddTidy(single, t, parent, |s|);
  }

  lemma HostRecord(s: Store, parent: nat, hostname: string, parameters: Parameters)
    requires Valid(s) && IsBlock(s, parent)
    ensures var t := WithHost(s, parent, hostname, parameters);
            |s| < |t| && t[|s|].parent == parent && t[|s|].startLine == -1 && t[parent] == s[parent]
  {
    hide Valid;
    var host := Component(-1, -1, parent, Block("host", ["host", hostname], [], map[]));
    NewValid(s, host);
    AppendedRecord(s + [host], |s|, parameters);
  }

  lemma {:induction false} AppendedRecord(s: Store, b: nat, parameters: Parameters)
    requires Valid(s) && IsBlock(s, b)
    ensures var t := AppendParameters(s, b, parameters); t[b].parent == s[b].parent && t[b].startLine == s[b].startLine
    decreases |parameters|
  {
    hide Valid;
    if parameters != [] {
      var body := Parameter(parameters[0].0, Normalise(parameters[0].1));
      AppendValid(s, b, -1, body);
      AppendedRecord(Append(s, b, -1, body), b, parameters[1..]);
    }
  }

  /** Adding a host keeps one component per line, whether or not it ends with an error. */
  lemma AddHostTidy(single: bool, s: Store, hostname: string, hardware: string, inNetwork: string -> bool, fixed: string, parameters: Parameters)
    requires Neat(single, s)
    ensures Valid(s) && Neat(single, AddHost(s, hostname, hardware, inNetwork, fixed, parameters).0)
  {
    hide Valid, Neat, CheckHosts, DeleteHost, ParentFor, WithHost;
    OnePerLineValid(single, s);
    if DeleteHost(s, hostname).Ok? { DeleteHostTidy(single, s, hostname); }
    forall c, parent, own | Neat(single, c) && IsBlock(c, parent)
      ensures Valid(c) && Neat(single, Add(WithHost(c, parent, hostname, own), parent, |c|))
    {
      WithHostTidy(single, c, parent, hostname, own);
    }
  }
}
