/**
 What the edits of a file do to its components: which hosts a deletion takes away and what it
 leaves of every record, and what a new host block is and changes.
 */
module DhcpdEdits {
  import opened Wrappers
  import opened Strings
  import opened Dicts
  import opened DhcpdModel
  import opened DhcpdParser
  import opened DhcpdHosts
  import opened DhcpdLookup

  // ---- the hosts of a file ----

  /** Block `i` is one of the hosts of the file. */
  ghost predicate IsHost(s: Store, i: nat)
    requires Valid(s)
  {
    i < |s| && HasType(s, i, "host") && Listed(s, GLOBAL, i)
  }

  lemma HostsAreHosts(s: Store)
    requires Valid(s)
    ensures forall i: nat :: i in Hosts(s) <==> IsHost(s, i)
    ensures NoRepeats(Hosts(s))
  {
    forall i: nat ensures i in Hosts(s) <==> IsHost(s, i) {
      if i < |s| {
        FoundBlocks(s, GLOBAL, "host", i);
      }
    }
    FoundOnce(s, GLOBAL, "host");
  }

  /** Every host has a name, in lower case. */
  ghost predicate WellNamed(s: Store) {
    Valid(s) && forall i: nat | IsHost(s, i) :: |s[i].body.settings| >= 2 && Lower(s[i].body.settings[1]) == s[i].body.settings[1]
  }

  ghost predicate SameAddress(s: Store, i: nat, j: nat, key: string)
    requires Valid(s) && IsBlock(s, i) && IsBlock(s, j)
  {
    var v, w := Lookup(OwnParameters(s, i), key), Lookup(OwnParameters(s, j), key);
    v.Some? && w.Some? && Lower(ValueString(v.value)) == Lower(ValueString(w.value))
  }

  /** The two hosts have different names, fixed addresses and hardware addresses. */
  ghost predicate Differs(s: Store, i: nat, j: nat)
    requires Valid(s) && IsBlock(s, i) && IsBlock(s, j) && |s[i].body.settings| >= 2 && |s[j].body.settings| >= 2
  {
    s[i].body.settings[1] != s[j].body.settings[1] && !SameAddress(s, i, j, FIXED) && !SameAddress(s, i, j, HARDWARE)
  }

  ghost predicate DistinctHosts(s: Store)
    requires WellNamed(s)
  {
    forall i: nat, j: nat | IsHost(s, i) && IsHost(s, j) && i != j :: Differs(s, i, j)
  }

  // ---- deleting ----

  /** Neither the component nor any block around it was removed. */
  predicate Survives(s: Store, ids: seq<nat>, i: nat)
    requires Valid(s) && i < |s|
    decreases i
  {
    i !in ids && (s[i].parent >= 0 ==> assert i > 0; Survives(s, ids, s[i].parent))
  }

  lemma ChildRemove(s: Store, c: nat, i: nat)
    requires Valid(s) && 0 < c < |s| && 0 < i < |s|
    ensures IsBlock(s, s[i].parent)
    ensures var t := Remove(s, s[c].parent, c);
            Valid(t) && t[i].parent == s[i].parent
            && (i in t[s[i].parent].body.components <==> i in s[s[i].parent].body.components && i != c)
  {
    var p := s[c].parent;
    RemoveValid(s, p, c);
    assert ValidBlock(s, p) && ValidBlock(s, s[i].parent);
    WithoutMembers(s[p].body.components, c);
  }

  lemma {:induction false} SurvivesRemove(s: Store, c: nat, i: nat)
    requires Valid(s) && 0 < c < |s| && i < |s|
    ensures Valid(Remove(s, s[c].parent, c))
    ensures Listed(Remove(s, s[c].parent, c), GLOBAL, i) <==> Listed(s, GLOBAL, i) && Survives(s, [c], i)
    decreases i
  {
    RemoveValid(s, s[c].parent, c);
    if i > 0 {
      ChildRemove(s, c, i);
      if s[i].parent > 0 {
        SurvivesRemove(s, c, s[i].parent);
      } else {
        assert Survives(s, [c], 0);
      }
    }
  }

  lemma {:induction false} SurvivesSplit(s: Store, t: Store, c: nat, ids: seq<nat>, i: nat)
    requires Valid(s) && Valid(t) && |s| == |t| && i < |s| && forall k | 0 <= k < |s| :: t[k].parent == s[k].parent
    ensures Survives(s, [c] + ids, i) <==> Survives(s, [c], i) && Survives(t, ids, i)
    decreases i
  {
    if s[i].parent >= 0 { SurvivesSplit(s, t, c, ids, s[i].parent); }
  }

  ghost predicate Removable(s: Store, ids: seq<nat>) {
    AllBlocks(s, ids) && forall k | 0 <= k < |ids| :: ids[k] > 0
  }

  /** Removing blocks keeps exactly the survivors, and no block's own parameters change. */
  lemma {:induction false} RemoveAllEffect(s: Store, ids: seq<nat>)
    requires Valid(s) && Removable(s, ids)
    ensures SameParameters(s, RemoveAll(s, ids))
    ensures forall i | 0 <= i < |s| :: Listed(RemoveAll(s, ids), GLOBAL, i) <==> Listed(s, GLOBAL, i) && Survives(s, ids, i)
    decreases |ids|
  {
    hide Valid, Survives, Listed, SameParameters, Remove;
    if ids == [] {
      SameAsItself(s);
      forall i | 0 <= i < |s| ensures Survives(s, [], i) { SurvivesNone(s, i); }
    } else {
      RemoveOneEffect(s, ids);
      var t := Remove(s, s[ids[0]].parent, ids[0]);
      RemoveAllEffect(t, ids[1..]);
      SameTrans(s, t, RemoveAll(t, ids[1..]));
    }
  }

  lemma SameAsItself(s: Store)
    requires Valid(s)
    ensures SameParameters(s, s)
  {
  }

  /** Removing the first block: what the others leave of the rest is what all of them leave. */
  lemma RemoveOneEffect(s: Store, ids: seq<nat>)
    requires Valid(s) && Removable(s, ids) && ids != []
    ensures 0 < ids[0] < |s| && IsBlock(s, s[ids[0]].parent)
    ensures var t := Remove(s, s[ids[0]].parent, ids[0]);
            && Valid(t) && |t| == |s| && Removable(t, ids[1..]) && SameParameters(s, t)
            && forall i | 0 <= i < |s| :: Listed(t, GLOBAL, i) && Survives(t, ids[1..], i) <==> Listed(s, GLOBAL, i) && Survives(s, ids, i)
  {
    hide Valid, Survives, Listed, OwnParameters;
    var c := ids[0];
    RemovableRest(s, ids);
    var t := Remove(s, s[c].parent, c);
    assert SameParameters(s, t) by { RemoveSame(s, s[c].parent, c); }
    assert ids == [c] + ids[1..];
    forall i | 0 <= i < |s| ensures Listed(t, GLOBAL, i) && Survives(t, ids[1..], i) <==> Listed(s, GLOBAL, i) && Survives(s, ids, i) {
      SurvivesRemove(s, c, i);
      SurvivesSplit(s, t, c, ids[1..], i);
    }
  }

  lemma {:induction false} SurvivesNone(s: Store, i: nat)
    requires Valid(s) && i < |s|
    ensures Survives(s, [], i)
    decreases i
  {
    if s[i].parent >= 0 { SurvivesNone(s, s[i].parent); }
  }

  lemma {:induction false} DeletedHosts(s: Store, hosts: seq<nat>, hostname: string)
    requires Valid(s) && Removable(s, hosts)
    ensures HostsToDelete(s, hosts, hostname).Ok? <==> forall k | 0 <= k < |hosts| :: |s[hosts[k]].body.settings| >= 2
    ensures HostsToDelete(s, hosts, hostname).Ok? ==>
              forall i: nat :: i in HostsToDelete(s, hosts, hostname).value <==>
                i in hosts && IsBlock(s, i) && |s[i].body.settings| >= 2 && Deletes(s, i, hostname)
  {
    if hosts != [] {
      assert hosts == [hosts[0]] + hosts[1..];
      DeletedHosts(s, hosts[1..], hostname);
      assert forall k | 0 < k < |hosts| :: hosts[k] == hosts[1..][k - 1];
    }
  }

  lemma SameHosts(s: Store, t: Store)
    requires SameParameters(s, t)
    ensures forall i: nat, j: nat | IsBlock(s, i) && IsBlock(s, j) && |s[i].body.settings| >= 2 && |s[j].body.settings| >= 2 ::
              Differs(t, i, j) <==> Differs(s, i, j)
  {
  }

  lemma HostIndexed(s: Store, i: nat)
    requires Valid(s) && IsHost(s, i)
    ensures exists k :: 0 <= k < |Hosts(s)| && Hosts(s)[k] == i
  {
    HostsAreHosts(s);
  }

  /** `delete_host` works unless some host block in the file has no name. */
  lemma DeleteHostDefined(s: Store, hostname: string)
    requires Valid(s)
    ensures DeleteHost(s, hostname).Ok? <==> forall i: nat | IsHost(s, i) :: |s[i].body.settings| >= 2
  {
    HostsAreHosts(s);
    var hosts := Hosts(s);
    DeletedHosts(s, hosts, hostname);
    assert forall k | 0 <= k < |hosts| :: hosts[k] in hosts;
    forall i: nat | IsHost(s, i) ensures exists k :: 0 <= k < |hosts| && hosts[k] == i { HostIndexed(s, i); }
  }

  // ---- what else is left ----

  /** The component without references to those that are gone. */
  function Cut(c: Component, gone: set<nat>): Component {
    if c.body.Block? then
      c.(body := c.body.(components := Drop(c.body.components, gone),
                         lineRefs := map l | l in c.body.lineRefs :: Drop(c.body.lineRefs[l], gone)))
    else c
  }

  lemma {:induction false} DropBoth(ids: seq<nat>, a: set<nat>, b: set<nat>)
    ensures Drop(Drop(ids, a), b) == Drop(ids, a + b)
  {
    if ids != [] {
      DropBoth(ids[1..], a, b);
      var r := Drop(ids[1..], a);
      if ids[0] !in a { assert ([ids[0]] + r)[1..] == r; }
    }
  }

  lemma CutBoth(c: Component, a: set<nat>, b: set<nat>)
    ensures Cut(Cut(c, a), b) == Cut(c, a + b)
  {
    if c.body.Block? {
      DropBoth(c.body.components, a, b);
      forall l | l in c.body.lineRefs ensures Drop(Drop(c.body.lineRefs[l], a), b) == Drop(c.body.lineRefs[l], a + b) {
        DropBoth(c.body.lineRefs[l], a, b);
      }
      assert Cut(Cut(c, a), b).body.lineRefs == Cut(c, a + b).body.lineRefs;
    }
  }

  lemma CutNothing(c: Component)
    ensures Cut(c, {}) == c
  {
    if c.body.Block? {
      DropNothing(c.body.components);
      forall l | l in c.body.lineRefs ensures Drop(c.body.lineRefs[l], {}) == c.body.lineRefs[l] {
        DropNothing(c.body.lineRefs[l]);
      }
      assert Cut(c, {}).body.lineRefs == c.body.lineRefs;
    }
  }

  lemma DropOne(ids: seq<nat>, c: nat)
    requires Increasing(ids)
    ensures Drop(ids, {c}) == Without(ids, c)
    ensures c !in ids ==> Drop(ids, {c}) == ids
  {
    DropOneMore(ids, {}, c);
    DropNothing(ids);
    assert {} + {c} == {c};
    if c !in ids { DropNone(ids, {}, c); }
  }

  /** Two blocks that differ in their children only, and there agree up to the one that is gone. */
  lemma SameCut(s: Store, t: Store, b: nat, c: nat)
    requires b < |s| && b < |t| && IsBlock(s, b) && IsBlock(t, b)
    requires t[b] == s[b].(body := s[b].body.(components := t[b].body.components, lineRefs := t[b].body.lineRefs))
    requires t[b].body.components == Drop(s[b].body.components, {c}) && t[b].body.lineRefs.Keys == s[b].body.lineRefs.Keys
    requires forall l | l in s[b].body.lineRefs :: t[b].body.lineRefs[l] == Drop(s[b].body.lineRefs[l], {c})
    ensures t[b] == Cut(s[b], {c})
  {
    var refs := Cut(s[b], {c}).body.lineRefs;
    assert refs.Keys == t[b].body.lineRefs.Keys;
    forall l | l in refs ensures t[b].body.lineRefs[l] == refs[l] { assert l in s[b].body.lineRefs; }
    assert t[b].body.lineRefs == refs;
  }

  lemma RefsOf(s: Store, b: nat, l: int)
    requires Valid(s) && IsBlock(s, b) && l in s[b].body.lineRefs
    ensures ChildrenOf(s, b, s[b].body.lineRefs[l]) && forall c | c in s[b].body.lineRefs[l] :: c < |s| && s[c].startLine == l
  {
    assert ValidBlock(s, b);
  }

  lemma KidsOf(s: Store, b: nat)
    requires Valid(s) && IsBlock(s, b)
    ensures ChildrenOf(s, b, s[b].body.components)
  {
    assert ValidBlock(s, b);
  }

  lemma NotAmong(s: Store, b: nat, ids: seq<nat>, c: nat)
    requires ChildrenOf(s, b, ids) && c < |s| && s[c].parent != b
    ensures c !in ids
  {
  }

  /** A child is listed in its parent only, and there under its own line only. */
  lemma RemoveBlockIsCut(s: Store, c: nat, i: nat)
    requires Valid(s) && 0 < c < |s| && i < |s|
    ensures Remove(s, s[c].parent, c)[i] == Cut(s[i], {c})
  {
    hide Valid, Drop, Without, Cut, ChildrenOf;
    ParentBlock(s, c);
    if s[i].body.Block? {
      var t := Remove(s, s[c].parent, c);
      KidsOf(s, i);
      ChildrenIncreasing(s, i, s[i].body.components);
      DropOne(s[i].body.components, c);
      if s[c].parent != i { NotAmong(s, i, s[i].body.components, c); }
      forall l | l in s[i].body.lineRefs ensures Drop(s[i].body.lineRefs[l], {c}) == t[i].body.lineRefs[l] {
        RefsOf(s, i, l);
        ChildrenIncreasing(s, i, s[i].body.lineRefs[l]);
        DropOne(s[i].body.lineRefs[l], c);
        if s[c].parent != i { NotAmong(s, i, s[i].body.lineRefs[l], c); }
      }
      SameCut(s, t, i, c);
    } else {
      LeafIsNotCut(s[i], {c});
    }
  }

  lemma ParentBlock(s: Store, c: nat)
    requires Valid(s) && 0 < c < |s|
    ensures IsBlock(s, s[c].parent)
  {
  }

  lemma ChildrenIncreasing(s: Store, b: nat, ids: seq<nat>)
    requires ChildrenOf(s, b, ids)
    ensures Increasing(ids)
  {
  }

  lemma LeafIsNotCut(c: Component, gone: set<nat>)
    requires !c.body.Block?
    ensures Cut(c, gone) == c
  {
  }

  lemma {:induction false} RemoveAllIsCut(s: Store, ids: seq<nat>, i: nat)
    requires Valid(s) && Removable(s, ids) && i < |s|
    ensures RemoveAll(s, ids)[i] == Cut(s[i], Members(ids))
    decreases |ids|
  {
    hide Cut, Valid, SameParameters;
    if ids == [] {
      CutNothing(s[i]);
      assert Members(ids) == {};
    } else {
      var c := ids[0];
      RemovableRest(s, ids);
      var t := Remove(s, s[c].parent, c);
      RemoveAllIsCut(t, ids[1..], i);
      RemoveBlockIsCut(s, c, i);
      CutBoth(s[i], {c}, Members(ids[1..]));
      assert ids == [c] + ids[1..];
      assert Members(ids) == {c} + Members(ids[1..]);
    }
  }

  lemma RemovableRest(s: Store, ids: seq<nat>)
    requires Valid(s) && Removable(s, ids) && ids != []
    ensures 0 < ids[0] < |s| && IsBlock(s, s[ids[0]].parent)
    ensures var t := Remove(s, s[ids[0]].parent, ids[0]); Valid(t) && |t| == |s| && Removable(t, ids[1..])
  {
    RemoveSame(s, s[ids[0]].parent, ids[0]);
  }

  /** The hosts with the name, or with the name as their fixed address. */
  ghost function Doomed(s: Store, hostname: string): (gone: set<nat>)
    requires Valid(s)
  {
    set i: nat | 0 <= i < |s| && IsHost(s, i) && |s[i].body.settings| >= 2 && Deletes(s, i, hostname)
  }

  /** The host, or a host block around it, has the name or the fixed address to delete. */
  ghost predicate LostWith(s: Store, hostname: string, i: nat)
    requires Valid(s) && i < |s|
  {
    exists j: nat :: IsHost(s, j) && |s[j].body.settings| >= 2 && Deletes(s, j, hostname) && (j == i || Listed(s, j, i))
  }

  /** The removed block that keeps a listed component from surviving. */
  lemma {:induction false} Obstacle(s: Store, ids: seq<nat>, i: nat) returns (j: nat)
    requires Valid(s) && i < |s| && Listed(s, GLOBAL, i) && GLOBAL !in ids && !Survives(s, ids, i)
    ensures j in ids && j < |s| && (j == i || Listed(s, j, i))
    decreases i
  {
    if i in ids {
      j := i;
    } else {
      if s[i].parent == GLOBAL { assert Survives(s, ids, GLOBAL); }
      j := Obstacle(s, ids, s[i].parent);
    }
  }

  lemma {:induction false} LostDoesNotSurvive(s: Store, ids: seq<nat>, j: nat, i: nat)
    requires Valid(s) && j < |s| && i < |s| && j in ids && (j == i || Listed(s, j, i))
    ensures !Survives(s, ids, i)
    decreases i
  {
    if i != j && s[i].parent != j { LostDoesNotSurvive(s, ids, j, s[i].parent); }
  }

  lemma DeletedIds(s: Store, hostname: string)
    requires Valid(s) && DeleteHost(s, hostname).Ok?
    ensures var r := HostsToDelete(s, Hosts(s), hostname);
            && r.Ok? && Removable(s, r.value) && GLOBAL !in r.value && DeleteHost(s, hostname).value == RemoveAll(s, r.value)
            && Members(r.value) == Doomed(s, hostname) && (forall i: nat :: i in r.value <==> i in Doomed(s, hostname))
  {
    HostsAreHosts(s);
    DeletedHosts(s, Hosts(s), hostname);
  }

  /**
   `delete_host`: a host disappears exactly if it, or a host around it, has the name or the fixed
   address. Beyond that, every component is what it was: blocks lose the deleted hosts from their
   two lists of children and keep all others, in order.
   */
  lemma DeleteHostEffect(s: Store, hostname: string)
    requires Valid(s) && DeleteHost(s, hostname).Ok?
    ensures var t := DeleteHost(s, hostname).value;
            && SameParameters(s, t)
            && (forall i: nat :: IsHost(t, i) <==> IsHost(s, i) && !LostWith(s, hostname, i))
            && (forall i: nat | IsHost(s, i) && !LostWith(s, hostname, i) :: |s[i].body.settings| >= 2 && !Deletes(s, i, hostname))
            && (forall i | 0 <= i < |s| :: t[i] == Cut(s[i], Doomed(s, hostname)))
  {
    hide Cut, Doomed, HostsToDelete, RemoveAll, IsHost, Valid, Survives, LostWith;
    DeletedIds(s, hostname);
    var ids := HostsToDelete(s, Hosts(s), hostname).value;
    RemoveAllEffect(s, ids);
    DeleteHostDefined(s, hostname);
    var t := RemoveAll(s, ids);
    forall i: nat | i < |s|
      ensures t[i] == Cut(s[i], Doomed(s, hostname))
      ensures IsHost(t, i) <==> IsHost(s, i) && !LostWith(s, hostname, i)
      ensures IsHost(s, i) && !LostWith(s, hostname, i) ==>
                IsBlock(s, i) && |s[i].body.settings| >= 2 && !Deletes(s, i, hostname)
    {
      RemoveAllIsCut(s, ids, i);
      HostAfterRemoval(s, ids, i);
      if IsHost(s, i) {
        HostIsBlock(s, i);
        SurvivorIff(s, ids, hostname, i);
      }
    }
    forall i: nat | IsHost(t, i) || IsHost(s, i) ensures i < |s| && IsBlock(s, i) { HostInStore(s, t, i); }
  }

  lemma HostIsBlock(s: Store, i: nat)
    requires Valid(s) && IsHost(s, i)
    ensures IsBlock(s, i)
  {
  }

  lemma HostInStore(s: Store, t: Store, i: nat)
    requires SameParameters(s, t) && |t| == |s| && (IsHost(t, i) || IsHost(s, i))
    ensures i < |s| && IsBlock(s, i)
  {
  }

  lemma HostAfterRemoval(s: Store, ids: seq<nat>, i: nat)
    requires Valid(s) && Removable(s, ids) && i < |s|
    ensures IsHost(RemoveAll(s, ids), i) <==> IsHost(s, i) && Survives(s, ids, i)
  {
    RemoveAllEffect(s, ids);
  }

  lemma SurvivorIff(s: Store, ids: seq<nat>, hostname: string, i: nat)
    requires Valid(s) && IsHost(s, i) && |s[i].body.settings| >= 2 && GLOBAL !in ids
    requires forall j: nat :: j in ids <==> j in Doomed(s, hostname)
    ensures Survives(s, ids, i) <==> !LostWith(s, hostname, i)
    ensures Survives(s, ids, i) ==> !Deletes(s, i, hostname)
  {
    if Survives(s, ids, i) {
      assert i !in ids;
      if j: nat :| IsHost(s, j) && |s[j].body.settings| >= 2 && Deletes(s, j, hostname) && (j == i || Listed(s, j, i)) {
        assert j in ids;
        LostDoesNotSurvive(s, ids, j, i);
      }
    } else {
      var j := Obstacle(s, ids, i);
      assert j in Doomed(s, hostname);
    }
  }

  // ---- the new host block ----

  /** What a block owns after these parameters were added to it in turn. */
  function PutNormalised(d: Parameters, parameters: Parameters): Parameters
    decreases |parameters|
  {
    if parameters == [] then d
    else PutNormalised(Put(d, parameters[0].0, Normalise(parameters[0].1)), parameters[1..])
  }

  lemma {:induction false} LookupPutNormalised(d: Parameters, parameters: Parameters, k: string)
    requires Distinct(parameters)
    ensures Lookup(PutNormalised(d, parameters), k) ==
              match Lookup(parameters, k) case Some(v) => Some(Normalise(v)) case None => Lookup(d, k)
    decreases |parameters|
  {
    if parameters != [] {
      var e := Put(d, parameters[0].0, Normalise(parameters[0].1));
      LookupPutNormalised(e, parameters[1..], k);
      LookupPut(d, parameters[0].0, Normalise(parameters[0].1), k);
      LookupAbsent(parameters[1..], parameters[0].0);
      assert forall i | 0 < i < |parameters| :: parameters[i] == parameters[1..][i - 1];
    }
  }

  /** Adding a parameter changes what the block itself owns, and no other block. */
  lemma AppendParameterEffect(s: Store, b: nat, key: string, value: Value)
    requires Valid(s) && IsBlock(s, b)
    ensures var t := Append(s, b, -1, Parameter(key, value));
            && Valid(t) && |t| == |s| + 1 && IsBlock(t, b) && OwnParameters(t, b) == Put(OwnParameters(s, b), key, value)
            && t[|s|].body == Parameter(key, value) && t[|s|].startLine == -1 && t[b] == s[b].(body := t[b].body)
            && t[b].body.blockType == s[b].body.blockType && t[b].body.settings == s[b].body.settings
  {
    var t := Append(s, b, -1, Parameter(key, value));
    AppendValid(s, b, -1, Parameter(key, value));
    assert ValidBlock(s, b) && ValidBlock(t, b);
    var ids := s[b].body.components;
    PutFrame(s, t, ids, []);
    assert t[b].body.components == ids + [|s|];
    PutConcat(t, ids, [|s|], []);
    assert PutParameters(t, [|s|], OwnParameters(s, b)) == Put(OwnParameters(s, b), key, value) by {
      assert [|s|][1..] == [];
    }
  }

  lemma {:induction false} AppendParametersOwn(s: Store, b: nat, parameters: Parameters)
    requires Valid(s) && IsBlock(s, b)
    ensures var t := AppendParameters(s, b, parameters);
            && OwnParameters(t, b) == PutNormalised(OwnParameters(s, b), parameters)
            && t[b].startLine == s[b].startLine && t[b].parent == s[b].parent && t[b].endLine == s[b].endLine
            && t[b].body.blockType == s[b].body.blockType && t[b].body.settings == s[b].body.settings
            && (forall i | |s| <= i < |t| :: t[i].body.Parameter? && t[i].startLine == -1)
    decreases |parameters|
  {
    hide Valid, OwnParameters, Append, Normalise;
    if parameters != [] {
      var next := Append(s, b, -1, Parameter(parameters[0].0, Normalise(parameters[0].1)));
      AppendParameterEffect(s, b, parameters[0].0, Normalise(parameters[0].1));
      AppendParametersOwn(next, b, parameters[1..]);
      assert AppendParameters(s, b, parameters) == AppendParameters(next, b, parameters[1..]);
      assert AppendParameters(next, b, parameters[1..])[|s|] == next[|s|];
    }
  }

  /** The detached host block: its parameters, its place and nothing else changed. */
  lemma WithHostEffect(s: Store, p: nat, hostname: string, parameters: Parameters)
    requires Valid(s) && IsBlock(s, p)
    ensures var t := WithHost(s, p, hostname, parameters);
            && OwnParameters(t, |s|) == PutNormalised([], parameters)
            && t[|s|].parent == p && t[|s|].startLine == -1 && t[|s|].endLine == -1
            && t[|s|].body.blockType == "host" && t[|s|].body.settings == ["host", hostname]
            && (forall i | |s| < i < |t| :: t[i].body.Parameter? && t[i].startLine == -1)
            && SameParameters(s, t)
  {
    var host := Component(-1, -1, p, Block("host", ["host", hostname], [], map[]));
    NewValid(s, host);
    var s1 := s + [host];
    assert OwnParameters(s1, |s|) == [];
    AppendParametersOwn(s1, |s|, parameters);
    var t := WithHost(s, p, hostname, parameters);
    forall i | 0 <= i < |s| && s[i].body.Block? ensures OwnParameters(t, i) == OwnParameters(s, i) {
      OwnFrame(s, t, i);
    }
  }

  /** Listing the new host: everything else stays as it was. */
  lemma AttachEffect(s: Store, t: Store, p: nat)
    requires SameParameters(s, t) && IsBlock(s, p) && |s| < |t| && IsBlock(t, |s|) && t[|s|].parent == p
    requires forall i | 0 <= i < |s| :: t[i] == s[i]
    requires forall i | |s| < i < |t| :: !t[i].body.Block?
    ensures var u := Add(t, p, |s|);
            && Valid(u) && SameParameters(t, u)
            && (forall i: nat | i < |s| :: IsHost(u, i) <==> IsHost(s, i))
            && (p == GLOBAL || Listed(s, GLOBAL, p) ==> Listed(u, GLOBAL, |s|))
            && (forall i: nat :: IsHost(u, i) ==> i <= |s|)
  {
    assert ValidBlock(s, p);
    AddSame(t, p, |s|);
    var u := Add(t, p, |s|);
    forall i: nat | i < |s| ensures Listed(u, GLOBAL, i) <==> Listed(s, GLOBAL, i) { ListedBefore(s, u, p, i); }
  }

  lemma {:induction false} ListedBefore(s: Store, u: Store, p: nat, i: nat)
    requires Valid(s) && Valid(u) && IsBlock(s, p) && i < |s| < |u|
    requires forall k | 0 <= k < |s| && k != p :: u[k] == s[k]
    requires u[p].parent == s[p].parent && IsBlock(u, p) && u[p].body.components == s[p].body.components + [|s|]
    ensures Listed(u, GLOBAL, i) <==> Listed(s, GLOBAL, i)
    decreases i
  {
    if i > 0 { ListedBefore(s, u, p, s[i].parent); }
  }
}
