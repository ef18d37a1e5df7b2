/**
 The guarantees of `add_host`.
 */
module DhcpdAddHost {
  import opened Wrappers
  import opened Strings
  import opened Dicts
  import opened DhcpdModel
  import opened DhcpdParser
  import opened DhcpdHosts
  import opened DhcpdLookup
  import opened DhcpdEdits

  // ---- the check before adding ----

  ghost predicate Clear(s: Store, h: nat, hostname: string, hardware: string, fixed: string)
    requires Valid(s) && IsBlock(s, h)
  {
    && |s[h].body.settings| >= 2
    && (Lower(s[h].body.settings[1]) == hostname
        || (!Uses(OwnParameters(s, h), FIXED, fixed) && !Uses(OwnParameters(s, h), HARDWARE, "ethernet " + hardware)))
  }

  ghost predicate Named(s: Store, h: nat, hostname: string)
    requires IsBlock(s, h)
  {
    |s[h].body.settings| >= 2 && Lower(s[h].body.settings[1]) == hostname
  }

  lemma {:induction false} CheckedHosts(s: Store, hosts: seq<nat>, hostname: string, hardware: string, fixed: string, existing: bool)
    requires Valid(s) && AllBlocks(s, hosts)
    ensures CheckHosts(s, hosts, hostname, hardware, fixed, existing).Ok? <==>
              forall k | 0 <= k < |hosts| :: Clear(s, hosts[k], hostname, hardware, fixed)
    decreases |hosts|
  {
    if hosts != [] {
      CheckedHosts(s, hosts[1..], hostname, hardware, fixed, existing || Named(s, hosts[0], hostname));
      assert forall k | 0 < k < |hosts| :: hosts[k] == hosts[1..][k - 1];
      assert forall k | 0 <= k < |hosts[1..]| :: hosts[1..][k] == hosts[k + 1];
    }
  }

  lemma {:induction false} CheckedNames(s: Store, hosts: seq<nat>, hostname: string, hardware: string, fixed: string, existing: bool)
    requires Valid(s) && AllBlocks(s, hosts)
    requires CheckHosts(s, hosts, hostname, hardware, fixed, existing).Ok?
    ensures CheckHosts(s, hosts, hostname, hardware, fixed, existing).value <==>
              existing || exists k :: 0 <= k < |hosts| && Named(s, hosts[k], hostname)
    decreases |hosts|
  {
    if hosts != [] {
      CheckedNames(s, hosts[1..], hostname, hardware, fixed, existing || Named(s, hosts[0], hostname));
      assert forall k | 0 < k < |hosts| :: hosts[k] == hosts[1..][k - 1];
      assert forall k | 0 <= k < |hosts[1..]| :: hosts[1..][k] == hosts[k + 1];
    }
  }

  // ---- the parent block ----

  lemma {:induction false} FoundChildren(s: Store, b: nat, ids: seq<nat>, ty: string, i: nat)
    requires Valid(s) && IsBlock(s, b) && ChildrenOf(s, b, ids)
    ensures i in BlocksIn(s, b, ids, ty, false) <==> i in ids && HasType(s, i, ty)
    decreases |ids|
  {
    if ids != [] {
      assert ids == [ids[0]] + ids[1..];
      FoundChildren(s, b, ids[1..], ty, i);
    }
  }

  ghost predicate Matches(s: Store, n: nat, inNetwork: string -> bool)
    requires IsBlock(s, n)
  {
    |s[n].body.settings| >= 4 && inNetwork(s[n].body.settings[1] + "/" + s[n].body.settings[3])
  }

  /** The last matching subnet in document order, or the default when none matches. */
  ghost predicate IsLastMatch(s: Store, subnets: seq<nat>, inNetwork: string -> bool, default: nat, net: nat)
    requires AllBlocks(s, subnets)
  {
    || (net == default && forall k | 0 <= k < |subnets| :: !Matches(s, subnets[k], inNetwork))
    || (exists k :: 0 <= k < |subnets| && net == subnets[k] && Matches(s, subnets[k], inNetwork)
                    && forall j | k < j < |subnets| :: !Matches(s, subnets[j], inNetwork))
  }

  lemma {:induction false} LastMatchIsLast(s: Store, subnets: seq<nat>, inNetwork: string -> bool, found: nat)
    requires Valid(s) && IsBlock(s, found) && AllBlocks(s, subnets)
    requires LastMatch(s, subnets, inNetwork, found).Ok?
    ensures IsLastMatch(s, subnets, inNetwork, found, LastMatch(s, subnets, inNetwork, found).value)
    decreases |subnets|
  {
    if subnets != [] {
      var here := Matches(s, subnets[0], inNetwork);
      var net := LastMatch(s, subnets, inNetwork, found).value;
      var start := if here then subnets[0] else found;
      LastMatchIsLast(s, subnets[1..], inNetwork, start);
      assert forall k | 0 < k < |subnets| :: subnets[k] == subnets[1..][k - 1];
      if net == start && forall k | 0 <= k < |subnets[1..]| :: !Matches(s, subnets[1..][k], inNetwork) {
        forall j | 0 < j < |subnets| ensures !Matches(s, subnets[j], inNetwork) { assert !Matches(s, subnets[1..][j - 1], inNetwork); }
      } else {
        var k :| 0 <= k < |subnets[1..]| && net == subnets[1..][k] && Matches(s, subnets[1..][k], inNetwork)
                 && forall j | k < j < |subnets[1..]| :: !Matches(s, subnets[1..][j], inNetwork);
        forall j | k + 1 < j < |subnets| ensures !Matches(s, subnets[j], inNetwork) { assert !Matches(s, subnets[1..][j - 1], inNetwork); }
        assert net == subnets[k + 1];
      }
    }
  }

  /** The first group with the highest score, if that is at least zero; otherwise none. */
  ghost predicate IsBestGroup(s: Store, groups: seq<nat>, parameters: Parameters, best: Option<nat>)
    requires Valid(s) && AllBlocks(s, groups)
  {
    match best
    case None => forall k | 0 <= k < |groups| :: GroupScore(s, groups[k], parameters) < 0
    case Some(g) =>
      exists k :: 0 <= k < |groups| && groups[k] == g && GroupScore(s, g, parameters) >= 0
                  && (forall j | 0 <= j < |groups| :: GroupScore(s, groups[j], parameters) <= GroupScore(s, g, parameters))
                  && (forall j | 0 <= j < k :: GroupScore(s, groups[j], parameters) < GroupScore(s, g, parameters))
  }

  /** The running choice over a prefix of the groups. */
  ghost predicate BestSoFar(s: Store, groups: seq<nat>, n: nat, parameters: Parameters, best: Option<nat>, score: int)
    requires Valid(s) && AllBlocks(s, groups) && n <= |groups|
  {
    && (forall j | 0 <= j < n :: GroupScore(s, groups[j], parameters) <= score)
    && (best.None? ==> score == -1)
    && (best.Some? ==>
          && score >= 0
          && exists k :: 0 <= k < n && groups[k] == best.value && GroupScore(s, groups[k], parameters) == score
                         && forall j | 0 <= j < k :: GroupScore(s, groups[j], parameters) < score)
  }

  lemma {:induction false} BestGroupIsBest(s: Store, groups: seq<nat>, n: nat, parameters: Parameters, best: Option<nat>, score: int)
    requires Valid(s) && AllBlocks(s, groups) && n <= |groups| && BestSoFar(s, groups, n, parameters, best, score)
    requires best.Some? ==> IsBlock(s, best.value)
    ensures IsBestGroup(s, groups, parameters, BestGroup(s, groups[n..], parameters, best, score))
    decreases |groups| - n
  {
    hide Valid, GroupScore, BestSoFar, IsBestGroup;
    if n < |groups| {
      var rest := groups[n..];
      assert rest[0] == groups[n] && rest[1..] == groups[n + 1..];
      var here := GroupScore(s, groups[n], parameters);
      BestNext(s, groups, n, parameters, best, score);
      if here > score {
        BestGroupIsBest(s, groups, n + 1, parameters, Some(groups[n]), here);
      } else {
        BestGroupIsBest(s, groups, n + 1, parameters, best, score);
      }
    } else {
      BestAtEnd(s, groups, parameters, best, score);
    }
  }

  lemma BestNext(s: Store, groups: seq<nat>, n: nat, parameters: Parameters, best: Option<nat>, score: int)
    requires Valid(s) && AllBlocks(s, groups) && n < |groups| && BestSoFar(s, groups, n, parameters, best, score)
    ensures var here := GroupScore(s, groups[n], parameters);
            if here > score then BestSoFar(s, groups, n + 1, parameters, Some(groups[n]), here)
            else BestSoFar(s, groups, n + 1, parameters, best, score)
  {
    hide Valid, GroupScore;
  }

  lemma BestAtEnd(s: Store, groups: seq<nat>, parameters: Parameters, best: Option<nat>, score: int)
    requires Valid(s) && AllBlocks(s, groups) && BestSoFar(s, groups, |groups|, parameters, best, score)
    ensures IsBestGroup(s, groups, parameters, best)
  {
    hide Valid, GroupScore;
  }

  predicate HasKey(d: Parameters, k: string) {
    Lookup(d, k).Some?
  }

  /** The keys of the block that were requested with the same value, or with another one. */
  ghost function Agreeing(block: Parameters, parameters: Parameters): set<string> {
    set i | 0 <= i < |block| && Lookup(parameters, block[i].0) == Some(block[i].1) :: block[i].0
  }

  ghost function Differing(block: Parameters, parameters: Parameters): set<string> {
    set i | 0 <= i < |block| && HasKey(parameters, block[i].0) && Lookup(parameters, block[i].0) != Some(block[i].1) :: block[i].0
  }

  lemma KeysSplit(block: Parameters, parameters: Parameters)
    requires block != [] && Distinct(block)
    ensures var k, same, other := block[0].0, Agreeing(block[1..], parameters), Differing(block[1..], parameters);
            && k !in same && k !in other && Distinct(block[1..])
            && Agreeing(block, parameters) == (if Lookup(parameters, k) == Some(block[0].1) then {k} + same else same)
            && Differing(block, parameters) ==
                 (if HasKey(parameters, k) && Lookup(parameters, k) != Some(block[0].1) then {k} + other else other)
  {
    var rest := block[1..];
    forall i | 0 < i < |block| ensures block[i] == rest[i - 1] { }
    forall i | 0 <= i < |rest| ensures rest[i] == block[i + 1] && rest[i].0 != block[0].0 { }
    forall x ensures x in Agreeing(block, parameters) <==>
        x in Agreeing(rest, parameters) || (x == block[0].0 && Lookup(parameters, x) == Some(block[0].1)) { }
    forall x ensures x in Differing(block, parameters) <==>
        x in Differing(rest, parameters) || (x == block[0].0 && HasKey(parameters, x) && Lookup(parameters, x) != Some(block[0].1)) { }
  }

  /** The score of a group: how many of its parameters agree with the requested ones, less those that differ. */
  lemma {:induction false} ScoreCounts(block: Parameters, parameters: Parameters)
    requires Distinct(block)
    ensures Score(block, parameters) == |Agreeing(block, parameters)| - |Differing(block, parameters)|
    decreases |block|
  {
    hide Agreeing, Differing, Distinct;
    if block != [] {
      KeysSplit(block, parameters);
      ScoreCounts(block[1..], parameters);
    } else {
      NoKeys(parameters);
    }
  }

  lemma NoKeys(parameters: Parameters)
    ensures Agreeing([], parameters) == {} && Differing([], parameters) == {}
  {
  }

  /** The same for the inherited parameters of any group. */
  lemma GroupScoreCounts(s: Store, g: nat, parameters: Parameters)
    requires Valid(s) && IsBlock(s, g)
    ensures var own := GetParameters(s, g, GLOBALTYPE);
            GroupScore(s, g, parameters) == |Agreeing(own, parameters)| - |Differing(own, parameters)|
  {
    DistinctParameters(s, g, GLOBALTYPE);
    ScoreCounts(GetParameters(s, g, GLOBALTYPE), parameters);
  }

  /** The block `add_host` chooses within a subnet, stated without its loops. */
  ghost predicate ChosenIn(s: Store, inNetwork: string -> bool, parameters: Parameters, net: nat, parent: nat)
    requires Valid(s)
  {
    && IsBlock(s, net)
    && IsLastMatch(s, GetBlocks(s, GLOBAL, "subnet", true), inNetwork, GLOBAL, net)
    && var groups := GetBlocks(s, net, "group", false);
       || (parent == net && IsBestGroup(s, groups, parameters, None))
       || IsBestGroup(s, groups, parameters, Some(parent))
  }

  ghost predicate ChosenParent(s: Store, inNetwork: string -> bool, parameters: Parameters, parent: nat)
    requires Valid(s)
  {
    exists net: nat :: ChosenIn(s, inNetwork, parameters, net, parent)
  }

  lemma ParentIsChosen(s: Store, inNetwork: string -> bool, parameters: Parameters)
    requires Valid(s) && ParentFor(s, inNetwork, parameters).Ok?
    ensures ChosenParent(s, inNetwork, parameters, ParentFor(s, inNetwork, parameters).value)
  {
    var subnets := GetBlocks(s, GLOBAL, "subnet", true);
    var net := LastMatch(s, subnets, inNetwork, GLOBAL).value;
    LastMatchIsLast(s, subnets, inNetwork, GLOBAL);
    var groups := GetBlocks(s, net, "group", false);
    BestGroupIsBest(s, groups, 0, parameters, None, -1);
    assert groups[0..] == groups;
    assert ChosenIn(s, inNetwork, parameters, net, ParentFor(s, inNetwork, parameters).value);
  }

  ghost predicate Reachable(s: Store, b: nat)
    requires Valid(s)
  {
    b < |s| && (b == GLOBAL || Listed(s, GLOBAL, b))
  }

  /** The chosen parent is part of the file. */
  lemma ParentIsReachable(s: Store, inNetwork: string -> bool, parameters: Parameters)
    requires Valid(s) && ParentFor(s, inNetwork, parameters).Ok?
    ensures Reachable(s, ParentFor(s, inNetwork, parameters).value)
  {
    var parent := ParentFor(s, inNetwork, parameters).value;
    ParentIsChosen(s, inNetwork, parameters);
    var net: nat :| ChosenIn(s, inNetwork, parameters, net, parent);
    SubnetIsReachable(s, inNetwork, net);
    if parent != net { GroupIsReachable(s, net, parent); }
  }

  lemma SubnetIsReachable(s: Store, inNetwork: string -> bool, net: nat)
    requires Valid(s) && IsLastMatch(s, GetBlocks(s, GLOBAL, "subnet", true), inNetwork, GLOBAL, net)
    ensures Reachable(s, net)
  {
    if net != GLOBAL { FoundBlocks(s, GLOBAL, "subnet", net); }
  }

  lemma GroupIsReachable(s: Store, net: nat, group: nat)
    requires Valid(s) && Reachable(s, net) && IsBlock(s, net) && group in GetBlocks(s, net, "group", false)
    ensures Reachable(s, group)
  {
    assert ValidBlock(s, net);
    FoundChildren(s, net, s[net].body.components, "group", group);
  }

  // ---- the parameters of the new host ----

  lemma {:induction false} DistinctAddMissing(d: Parameters, more: Parameters)
    requires Distinct(d)
    ensures Distinct(AddMissing(d, more))
    decreases |more|
  {
    if more != [] {
      DistinctPut(d, more[0].0, more[0].1);
      DistinctAddMissing(if Lookup(d, more[0].0) == None then Put(d, more[0].0, more[0].1) else d, more[1..]);
    }
  }

  lemma {:induction false} DistinctPutParameters(s: Store, ids: seq<nat>, d: Parameters)
    requires (forall k | 0 <= k < |ids| :: ids[k] < |s|) && Distinct(d)
    ensures Distinct(PutParameters(s, ids, d))
    decreases |ids|
  {
    if ids != [] {
      if s[ids[0]].body.Parameter? { DistinctPut(d, s[ids[0]].body.key, s[ids[0]].body.value); }
      DistinctPutParameters(s, ids[1..], if s[ids[0]].body.Parameter? then Put(d, s[ids[0]].body.key, s[ids[0]].body.value) else d);
    }
  }

  lemma {:induction false} DistinctParameters(s: Store, b: nat, inherit: Option<string>)
    requires Valid(s) && IsBlock(s, b)
    ensures Distinct(GetParameters(s, b, inherit))
    decreases b
  {
    assert ValidBlock(s, b);
    DistinctPutParameters(s, s[b].body.components, []);
    if s[b].parent >= 0 {
      assert b > 0;
      DistinctParameters(s, s[b].parent, inherit);
      DistinctAddMissing(OwnParameters(s, b), GetParameters(s, s[b].parent, inherit));
    }
  }

  /** A parameter is dropped exactly when the parent provides the same value. */
  lemma {:induction false} LookupDropInherited(block: Parameters, parameters: Parameters, k: string)
    requires Distinct(block) && Distinct(parameters)
    ensures Distinct(DropInherited(block, parameters))
    ensures Lookup(DropInherited(block, parameters), k) ==
              if Lookup(block, k) == Lookup(parameters, k) then None else Lookup(parameters, k)
    decreases |block|
  {
    if block != [] {
      var dropped := Lookup(parameters, block[0].0) == Some(block[0].1);
      DistinctDelete(parameters, block[0].0);
      LookupDelete(parameters, block[0].0, k);
      LookupDropInherited(block[1..], if dropped then Delete(parameters, block[0].0) else parameters, k);
      LookupAbsent(block[1..], block[0].0);
      assert forall i | 0 < i < |block| :: block[i] == block[1..][i - 1];
    }
  }

  lemma {:induction false} LookupNormaliseAll(d: Parameters, k: string)
    ensures Lookup(NormaliseAll(d), k) == match Lookup(d, k) case None => None case Some(v) => Some(Normalise(v))
  {
    if d != [] { LookupNormaliseAll(d[1..], k); }
  }

  lemma {:induction false} NormaliseAllKeys(d: Parameters)
    ensures forall i | 0 <= i < |d| :: NormaliseAll(d)[i].0 == d[i].0
  {
    if d != [] { NormaliseAllKeys(d[1..]); }
  }

  lemma NormaliseTwice(v: Value)
    ensures Normalise(Normalise(v)) == Normalise(v)
  {
  }

  /** The requested parameters do not set the addresses, which `add_host` takes separately. */
  ghost predicate Requestable(parameters: Parameters) {
    Distinct(parameters) && Lookup(parameters, FIXED) == None && Lookup(parameters, HARDWARE) == None
  }

  /** The addresses `add_host` takes as arguments. */
  function Address(hardware: string, fixed: string, k: string): Option<Value> {
    if k == FIXED then Some(MakeValue(fixed)) else if k == HARDWARE then Some(MakeValue("ethernet " + hardware)) else None
  }

  /** The host's own parameters: the addresses come first, so that what is requested counts. */
  lemma HostParametersLookup(hardware: string, fixed: string, own: Parameters, k: string)
    requires Distinct(own)
    ensures Lookup(PutNormalised([], HostParameters(hardware, fixed, own)), k) ==
              match Lookup(own, k) case Some(v) => Some(Normalise(v)) case None => Address(hardware, fixed, k)
  {
    hide MakeValue, Distinct;
    var all, ethernet := HostParameters(hardware, fixed, own), Str("ethernet " + hardware);
    assert all[1..] == [(HARDWARE, ethernet)] + own && all[1..][1..] == own;
    assert FIXED[0] == 'f' && HARDWARE[0] == 'h';
    var one := Put([], FIXED, MakeValue(fixed));
    var two := Put(one, HARDWARE, Normalise(ethernet));
    assert PutNormalised([], all) == PutNormalised(one, all[1..]);
    assert PutNormalised(one, all[1..]) == PutNormalised(two, own);
    LookupPutNormalised(two, own, k);
    LookupPut([], FIXED, MakeValue(fixed), k);
    LookupPut(one, HARDWARE, Normalise(ethernet), k);
  }

  // ---- what inserting the host does ----

  /** The state after a successful insertion, in terms of the state before. */
  ghost predicate Inserted(s: Store, t: Store, parent: nat, hostname: string, own: Parameters) {
    && SameParameters(s, t) && |s| < |t| && IsBlock(s, parent) && IsBlock(t, |s|)
    && t[|s|].parent == parent && t[|s|].body.blockType == "host" && t[|s|].body.settings == ["host", hostname]
    && OwnParameters(t, |s|) == PutNormalised([], own)
    && IsHost(t, |s|)
    && (forall i: nat | i < |s| :: IsHost(t, i) <==> IsHost(s, i))
    && (forall i: nat :: IsHost(t, i) ==> i <= |s|)
  }

  lemma InsertIsInserted(s: Store, parent: nat, hostname: string, own: Parameters)
    requires Valid(s) && IsBlock(s, parent) && Reachable(s, parent)
    ensures Inserted(s, Add(WithHost(s, parent, hostname, own), parent, |s|), parent, hostname, own)
  {
    var t := WithHost(s, parent, hostname, own);
    WithHostEffect(s, parent, hostname, own);
    AttachEffect(s, t, parent);
    var u := Add(t, parent, |s|);
    SameTrans(s, t, u);
    assert IsHost(u, |s|);
  }

  lemma InsertHostEffect(s: Store, hostname: string, hardware: string, inNetwork: string -> bool, fixed: string, parameters: Parameters)
    requires Valid(s) && InsertHost(s, hostname, hardware, inNetwork, fixed, parameters).1 == None
    ensures var parent := ParentFor(s, inNetwork, parameters).value;
            && ParentFor(s, inNetwork, parameters).Ok?
            && Inserted(s, InsertHost(s, hostname, hardware, inNetwork, fixed, parameters).0, parent, hostname,
                 HostParameters(hardware, fixed, DropInherited(GetParameters(s, parent, GLOBALTYPE), parameters)))
  {
    var parent := ParentFor(s, inNetwork, parameters).value;
    ParentIsReachable(s, inNetwork, parameters);
    InsertIsInserted(s, parent, hostname, HostParameters(hardware, fixed, DropInherited(GetParameters(s, parent, GLOBALTYPE), parameters)));
  }

  /** The own parameters of the new host. */
  lemma NewHostOwns(s: Store, parent: nat, hardware: string, fixed: string, parameters: Parameters, k: string)
    requires Valid(s) && IsBlock(s, parent) && Distinct(parameters)
    ensures var inherited := GetParameters(s, parent, GLOBALTYPE);
            var own := HostParameters(hardware, fixed, DropInherited(inherited, parameters));
            Lookup(PutNormalised([], own), k) ==
              if Lookup(inherited, k) == Lookup(parameters, k) then Address(hardware, fixed, k)
              else match Lookup(parameters, k) case None => Address(hardware, fixed, k) case Some(v) => Some(Normalise(v))
  {
    hide Address, PutNormalised, HostParameters;
    var inherited := GetParameters(s, parent, GLOBALTYPE);
    DistinctParameters(s, parent, GLOBALTYPE);
    LookupDropInherited(inherited, parameters, k);
    HostParametersLookup(hardware, fixed, DropInherited(inherited, parameters), k);
  }
}
