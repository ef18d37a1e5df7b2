/**
 When `add_host` succeeds and with which error it fails, in terms of the blocks of the file.
 */
module DhcpdOutcome {
  import opened Wrappers
  import opened Strings
  import opened Dicts
  import opened DhcpdModel
  import opened DhcpdParser
  import opened DhcpdHosts
  import opened DhcpdLookup
  import opened DhcpdEdits
  import opened DhcpdAddHost
  import opened DhcpdDistinct

  ghost predicate AllNamed(s: Store)
    requires Valid(s)
  {
    forall i: nat | IsHost(s, i) :: |s[i].body.settings| >= 2
  }

  /** Some host block has the name, in any letter case. */
  ghost predicate Exists(s: Store, hostname: string)
    requires Valid(s)
  {
    exists i: nat :: IsHost(s, i) && Named(s, i, hostname)
  }

  /** A host of another name that has one of the addresses. */
  ghost predicate Conflicts(s: Store, i: nat, hostname: string, hardware: string, fixed: string)
    requires Valid(s)
  {
    && IsHost(s, i) && |s[i].body.settings| >= 2 && Lower(s[i].body.settings[1]) != hostname
    && (HasSetting(s, i, FIXED, fixed) || HasSetting(s, i, HARDWARE, "ethernet " + hardware))
  }

  ghost predicate HasSetting(s: Store, i: nat, key: string, text: string)
    requires Valid(s) && IsBlock(s, i)
  {
    var setting := Lookup(OwnParameters(s, i), key);
    setting.Some? &&
      match setting.value
      case Str(t) => Lower(t) == text
      case Flag(on) => (if on then "true" else "false") == text
  }

  ghost predicate NoConflict(s: Store, hostname: string, hardware: string, fixed: string)
    requires Valid(s)
  {
    forall i: nat :: !Conflicts(s, i, hostname, hardware, fixed)
  }

  /** A subnet that is still part of the file when an existing host of that name was deleted. */
  ghost predicate SubnetLeft(s: Store, hostname: string, i: nat)
    requires Valid(s)
  {
    i < |s| && HasType(s, i, "subnet") && Listed(s, GLOBAL, i) && (Exists(s, hostname) ==> !LostWith(s, hostname, i))
  }

  ghost predicate SubnetsDeclared(s: Store, hostname: string)
    requires Valid(s)
  {
    forall i: nat | SubnetLeft(s, hostname, i) :: |s[i].body.settings| >= 4
  }

  // ---- the check ----

  lemma UsesIff(s: Store, i: nat, key: string, text: string)
    requires Valid(s) && IsBlock(s, i)
    ensures Uses(OwnParameters(s, i), key, text) <==> HasSetting(s, i, key, text)
  {
    hide Valid, OwnParameters, Lower;
    LowerFlags();
  }

  lemma LowerFlags()
    ensures Lower("True") == "true" && Lower("False") == "false"
  {
    assert Lower("e") == "e" && Lower("ue") == "ue" && Lower("rue") == "rue";
    assert Lower("se") == "se" && Lower("lse") == "lse" && Lower("alse") == "alse";
  }

  lemma ClearIff(s: Store, i: nat, hostname: string, hardware: string, fixed: string)
    requires Valid(s) && IsHost(s, i)
    ensures Clear(s, i, hostname, hardware, fixed) <==> |s[i].body.settings| >= 2 && !Conflicts(s, i, hostname, hardware, fixed)
  {
    hide Valid, OwnParameters, Lower, Uses, HasSetting;
    UsesIff(s, i, FIXED, fixed);
    UsesIff(s, i, HARDWARE, "ethernet " + hardware);
  }

  lemma {:induction false} CheckedError(s: Store, hosts: seq<nat>, hostname: string, hardware: string, fixed: string, existing: bool)
    requires Valid(s) && AllBlocks(s, hosts) && CheckHosts(s, hosts, hostname, hardware, fixed, existing).Err?
    ensures exists k :: 0 <= k < |hosts| && !Clear(s, hosts[k], hostname, hardware, fixed)
              && (CheckHosts(s, hosts, hostname, hardware, fixed, existing).error == AddressInUse <==> |s[hosts[k]].body.settings| >= 2)
    decreases |hosts|
  {
    hide Valid, OwnParameters, Uses;
    if Clear(s, hosts[0], hostname, hardware, fixed) {
      CheckedError(s, hosts[1..], hostname, hardware, fixed, existing || Named(s, hosts[0], hostname));
      assert forall k | 0 <= k < |hosts[1..]| :: hosts[1..][k] == hosts[k + 1];
    }
  }

  /** The check of the hosts passes exactly if all of them are named and none conflicts. */
  lemma CheckIff(s: Store, hostname: string, hardware: string, fixed: string)
    requires Valid(s)
    ensures var check := CheckHosts(s, Hosts(s), hostname, hardware, fixed, false);
            && (check.Ok? <==> AllNamed(s) && NoConflict(s, hostname, hardware, fixed))
            && (check.Ok? ==> (check.value <==> Exists(s, hostname)))
            && (check.Err? && check.error == AddressInUse ==> !NoConflict(s, hostname, hardware, fixed))
            && (check.Err? && check.error == MissingSetting ==> !AllNamed(s))
  {
    hide Valid, CheckHosts, Hosts, IsHost, Named, Clear, Conflicts;
    var hosts := Hosts(s);
    HostsAreHosts(s);
    CheckedHosts(s, hosts, hostname, hardware, fixed, false);
    var check := CheckHosts(s, hosts, hostname, hardware, fixed, false);
    forall i: nat | IsHost(s, i)
      ensures IsBlock(s, i) && (Clear(s, i, hostname, hardware, fixed) <==> |s[i].body.settings| >= 2 && !Conflicts(s, i, hostname, hardware, fixed))
    {
      HostIsBlock(s, i);
      ClearIff(s, i, hostname, hardware, fixed);
      HostIndexed(s, i);
    }
    forall i: nat | Conflicts(s, i, hostname, hardware, fixed) ensures IsHost(s, i) { ConflictIsHost(s, i, hostname, hardware, fixed); }
    forall k | 0 <= k < |hosts| ensures IsHost(s, hosts[k]) { assert hosts[k] in hosts; }
    if check.Ok? {
      NamedIsExisting(s, hostname, hardware, fixed);
      forall i: nat | IsHost(s, i) ensures Clear(s, i, hostname, hardware, fixed) { HostIndexed(s, i); }
    } else {
      CheckedError(s, hosts, hostname, hardware, fixed, false);
    }
  }

  lemma ConflictIsHost(s: Store, i: nat, hostname: string, hardware: string, fixed: string)
    requires Valid(s) && Conflicts(s, i, hostname, hardware, fixed)
    ensures IsHost(s, i)
  {
  }

  // ---- the subnets ----

  lemma {:induction false} LastMatchDefined(s: Store, subnets: seq<nat>, inNetwork: string -> bool, found: nat)
    requires Valid(s) && IsBlock(s, found) && AllBlocks(s, subnets)
    ensures LastMatch(s, subnets, inNetwork, found).Ok? <==> forall k | 0 <= k < |subnets| :: |s[subnets[k]].body.settings| >= 4
    ensures LastMatch(s, subnets, inNetwork, found).Err? ==> LastMatch(s, subnets, inNetwork, found).error == MissingSetting
    decreases |subnets|
  {
    hide Valid;
    if subnets != [] && |s[subnets[0]].body.settings| >= 4 {
      var settings := s[subnets[0]].body.settings;
      LastMatchDefined(s, subnets[1..], inNetwork, if inNetwork(settings[1] + "/" + settings[3]) then subnets[0] else found);
      assert forall k | 0 <= k < |subnets[1..]| :: subnets[1..][k] == subnets[k + 1];
      assert forall k | 0 < k < |subnets| :: subnets[k] == subnets[1..][k - 1];
    }
  }

  /** A parent is found exactly if every subnet of the file has its four settings. */
  lemma ParentDefined(c: Store, inNetwork: string -> bool, parameters: Parameters)
    requires Valid(c)
    ensures ParentFor(c, inNetwork, parameters).Ok? <==>
              forall i: nat | i < |c| && HasType(c, i, "subnet") && Listed(c, GLOBAL, i) :: |c[i].body.settings| >= 4
    ensures ParentFor(c, inNetwork, parameters).Err? ==> ParentFor(c, inNetwork, parameters).error == MissingSetting
  {
    hide Listed, GetBlocks, BestGroup, LastMatch;
    var subnets := GetBlocks(c, GLOBAL, "subnet", true);
    LastMatchDefined(c, subnets, inNetwork, GLOBAL);
    forall i: nat | i < |c| ensures i in subnets <==> HasType(c, i, "subnet") && Listed(c, GLOBAL, i) { FoundBlocks(c, GLOBAL, "subnet", i); }
    forall k | 0 <= k < |subnets| ensures HasType(c, subnets[k], "subnet") && Listed(c, GLOBAL, subnets[k]) { assert subnets[k] in subnets; }
    forall i: nat | i in subnets ensures exists k :: 0 <= k < |subnets| && subnets[k] == i { }
  }

  lemma ListedAfterDelete(s: Store, hostname: string, i: nat)
    requires Valid(s) && DeleteHost(s, hostname).Ok? && i < |s| && Listed(s, GLOBAL, i)
    ensures |DeleteHost(s, hostname).value| == |s|
    ensures Listed(DeleteHost(s, hostname).value, GLOBAL, i) <==> !LostWith(s, hostname, i)
  {
    hide Listed, Survives, HostsToDelete, RemoveAll, Hosts;
    DeletedIds(s, hostname);
    var ids := HostsToDelete(s, Hosts(s), hostname).value;
    RemoveAllEffect(s, ids);
    if Survives(s, ids, i) {
      if j: nat :| IsHost(s, j) && |s[j].body.settings| >= 2 && Deletes(s, j, hostname) && (j == i || Listed(s, j, i)) {
        assert j in Doomed(s, hostname);
        LostDoesNotSurvive(s, ids, j, i);
      }
    } else {
      var j := Obstacle(s, ids, i);
      assert j in Doomed(s, hostname);
    }
  }

  lemma ListedWasListed(s: Store, hostname: string, i: nat)
    requires Valid(s) && DeleteHost(s, hostname).Ok? && i < |s| && Listed(DeleteHost(s, hostname).value, GLOBAL, i)
    ensures Listed(s, GLOBAL, i)
  {
    hide Listed, Survives, HostsToDelete, RemoveAll, Hosts;
    DeletedIds(s, hostname);
    RemoveAllEffect(s, HostsToDelete(s, Hosts(s), hostname).value);
  }

  /** The subnets among which `add_host` chooses. */
  lemma SubnetsOfBase(s: Store, hostname: string, i: nat)
    requires Valid(s) && AllNamed(s)
    ensures var c := BaseFor(s, hostname);
            && |c| == |s| && SameParameters(s, c)
            && (i < |c| && HasType(c, i, "subnet") && Listed(c, GLOBAL, i) <==> SubnetLeft(s, hostname, i))
  {
    hide Listed, DeleteHost, LostWith, Cut, IsHost;
    DeleteHostDefined(s, hostname);
    if Exists(s, hostname) {
      DeleteHostEffect(s, hostname);
      if i < |s| && Listed(s, GLOBAL, i) { ListedAfterDelete(s, hostname, i); }
      if i < |s| && Listed(BaseFor(s, hostname), GLOBAL, i) { ListedWasListed(s, hostname, i); }
    } else {
      SameAsItself(s);
    }
  }

  // ---- the outcome ----

  /** After a passed check, the outcome is that of the search for a parent block. */
  lemma AfterCheck(s: Store, hostname: string, hardware: string, inNetwork: string -> bool, fixed: string, parameters: Parameters)
    requires Valid(s) && AllNamed(s) && NoConflict(s, hostname, hardware, fixed)
    ensures AddHost(s, hostname, hardware, inNetwork, fixed, parameters) ==
              InsertHost(BaseFor(s, hostname), hostname, hardware, inNetwork, fixed, NormaliseAll(parameters))
  {
    hide Valid, CheckHosts, DeleteHost, InsertHost, IsHost, Named, Conflicts;
    CheckIff(s, hostname, hardware, fixed);
    DeleteHostDefined(s, hostname);
  }

  /**
   `add_host` succeeds exactly if every host block has a name, no host of another name has one of
   the addresses, and every subnet that is left has its four settings. Whether a host of that
   name exists does not matter. A host of another name is the only cause of "address in use", and
   a failed check leaves the file as it was; where a subnet lacks its settings, an existing host
   is deleted all the same.
   */
  lemma AddHostOutcome(s: Store, hostname: string, hardware: string, inNetwork: string -> bool, fixed: string, parameters: Parameters)
    requires Valid(s)
    ensures var (t, error) := AddHost(s, hostname, hardware, inNetwork, fixed, parameters);
            && (error == None <==> AllNamed(s) && NoConflict(s, hostname, hardware, fixed) && SubnetsDeclared(s, hostname))
            && (error == Some(AddressInUse) ==> !NoConflict(s, hostname, hardware, fixed))
            && (AllNamed(s) ==> (error == Some(AddressInUse) <==> !NoConflict(s, hostname, hardware, fixed)))
            && (!AllNamed(s) || !NoConflict(s, hostname, hardware, fixed) ==> t == s)
            && (error.Some? && AllNamed(s) && NoConflict(s, hostname, hardware, fixed) ==> t == BaseFor(s, hostname))
  {
    hide Valid, CheckHosts, DeleteHost, ParentFor, IsHost, Conflicts, NoConflict, SubnetLeft, Listed, WithHost, GetParameters, BaseFor;
    CheckIff(s, hostname, hardware, fixed);
    if AllNamed(s) && NoConflict(s, hostname, hardware, fixed) {
      AfterCheck(s, hostname, hardware, inNetwork, fixed, parameters);
      ParentIff(s, hostname, inNetwork, NormaliseAll(parameters));
    }
  }

  lemma ParentIff(s: Store, hostname: string, inNetwork: string -> bool, parameters: Parameters)
    requires Valid(s) && AllNamed(s)
    ensures ParentFor(BaseFor(s, hostname), inNetwork, parameters).Ok? <==> SubnetsDeclared(s, hostname)
    ensures ParentFor(BaseFor(s, hostname), inNetwork, parameters).Err? ==>
              ParentFor(BaseFor(s, hostname), inNetwork, parameters).error == MissingSetting
  {
    hide Valid, ParentFor, IsHost, SubnetLeft, Listed, BaseFor;
    var c := BaseFor(s, hostname);
    ParentDefined(c, inNetwork, parameters);
    forall i: nat
      ensures i < |c| && HasType(c, i, "subnet") && Listed(c, GLOBAL, i) <==> SubnetLeft(s, hostname, i)
      ensures SubnetLeft(s, hostname, i) ==> i < |c| == |s| && IsBlock(s, i) && c[i].body.Block? && c[i].body.settings == s[i].body.settings
    {
      SubnetsOfBase(s, hostname, i);
      if SubnetLeft(s, hostname, i) { LeftIsBlock(s, hostname, i); }
    }
  }

  lemma LeftIsBlock(s: Store, hostname: string, i: nat)
    requires Valid(s) && SubnetLeft(s, hostname, i)
    ensures IsBlock(s, i)
  {
  }

  /** A host that exists is replaced, if the new addresses conflict with no other host. */
  lemma ExistingIsReplaced(s: Store, hostname: string, hardware: string, inNetwork: string -> bool, fixed: string,
      parameters: Parameters, i: nat)
    requires Valid(s) && Lowered(hostname, hardware, fixed) && IsHost(s, i) && |s[i].body.settings| >= 2 && s[i].body.settings[1] == hostname
    requires AllNamed(s) && NoConflict(s, hostname, hardware, fixed) && SubnetsDeclared(s, hostname)
    ensures var (t, error) := AddHost(s, hostname, hardware, inNetwork, fixed, parameters);
            && error == None && Valid(t) && !IsHost(t, i) && IsHost(t, |s|)
            && forall j: nat | IsHost(t, j) :: |t[j].body.settings| >= 2 && (t[j].body.settings[1] == hostname <==> j == |s|)
  {
    hide Valid, IsHost, AddHost, InsertHost, ParentFor, HostParameters, GetParameters, BaseFor, Conflicts, NoConflict, SubnetsDeclared,
      DropInherited;
    AddHostOutcome(s, hostname, hardware, inNetwork, fixed, parameters);
    AddHostClears(s, hostname, hardware, inNetwork, fixed, parameters);
    var c := BaseFor(s, hostname);
    InsertHostEffect(c, hostname, hardware, inNetwork, fixed, NormaliseAll(parameters));
    var t := AddHost(s, hostname, hardware, inNetwork, fixed, parameters).0;
    HostIsBlock(s, i);
    if IsHost(c, i) { HostIsBlock(c, i); }
    forall j: nat | IsHost(t, j) ensures IsBlock(t, j) && |t[j].body.settings| >= 2 && (t[j].body.settings[1] == hostname <==> j == |s|) {
      HostIsBlock(t, j);
      assert j == |s| ==> t[j].body.settings == ["host", hostname];
      if j != |s| {
        assert j < |s| && IsHost(c, j);
        HostIsBlock(c, j);
        assert c[j].body.settings == t[j].body.settings;
      }
    }
  }

  // ---- what is deleted, and what is found ----

  /** The host has just this name, or just this text as its fixed address. */
  ghost predicate AskedFor(s: Store, i: nat, hostname: string)
    requires Valid(s)
  {
    && IsHost(s, i) && |s[i].body.settings| >= 2
    && (s[i].body.settings[1] == hostname || Lookup(OwnParameters(s, i), FIXED) == Some(Str(hostname)))
  }

  /** `delete_host` works if all hosts have a name; then just those are gone that have the name or the fixed address, and those inside them. */
  lemma DeleteHostOutcome(s: Store, hostname: string)
    requires Valid(s)
    ensures DeleteHost(s, hostname).Ok? <==> AllNamed(s)
    ensures DeleteHost(s, hostname).Ok? ==>
              forall i: nat :: IsHost(DeleteHost(s, hostname).value, i) <==>
                IsHost(s, i) && !exists j: nat :: AskedFor(s, j, hostname) && (j == i || Listed(s, j, i))
  {
    hide DeleteHost, Cut, Doomed, Listed, OwnParameters;
    DeleteHostDefined(s, hostname);
    if DeleteHost(s, hostname).Ok? {
      DeleteHostEffect(s, hostname);
      forall i: nat | IsHost(s, i) ensures LostWith(s, hostname, i) <==> exists j: nat :: AskedFor(s, j, hostname) && (j == i || Listed(s, j, i)) {
        if j: nat :| AskedFor(s, j, hostname) && (j == i || Listed(s, j, i)) { assert Deletes(s, j, hostname); }
        if LostWith(s, hostname, i) {
          var j: nat :| IsHost(s, j) && |s[j].body.settings| >= 2 && Deletes(s, j, hostname) && (j == i || Listed(s, j, i));
          assert AskedFor(s, j, hostname);
        }
      }
    }
  }

  /** The host with this index is the first of those with just this name, in the order of the file. */
  ghost predicate FirstNamed(s: Store, hosts: seq<nat>, k: nat, hostname: string)
    requires AllBlocks(s, hosts) && k < |hosts|
  {
    && |s[hosts[k]].body.settings| >= 2 && s[hosts[k]].body.settings[1] == hostname
    && forall j | 0 <= j < k :: |s[hosts[j]].body.settings| >= 2 && s[hosts[j]].body.settings[1] != hostname
  }

  lemma {:induction false} GetHostScan(s: Store, hosts: seq<nat>, hostname: string, inherit: Option<string>)
    requires Valid(s) && AllBlocks(s, hosts)
    ensures forall k: nat | k < |hosts| && FirstNamed(s, hosts, k, hostname) ::
              GetHost(s, hosts, hostname, inherit) == Ok(Some(GetParameters(s, hosts[k], inherit)))
    ensures (forall k: nat | k < |hosts| :: |s[hosts[k]].body.settings| >= 2 && s[hosts[k]].body.settings[1] != hostname) ==>
              GetHost(s, hosts, hostname, inherit) == Ok(None)
    decreases |hosts|
  {
    hide Valid, GetParameters;
    if hosts != [] {
      var rest := hosts[1..];
      forall k | 0 < k < |hosts| ensures hosts[k] == rest[k - 1] { }
      GetHostScan(s, rest, hostname, inherit);
      forall k: nat | k < |hosts| && FirstNamed(s, hosts, k, hostname)
        ensures GetHost(s, hosts, hostname, inherit) == Ok(Some(GetParameters(s, hosts[k], inherit)))
      {
        if k > 0 {
          forall j | 0 <= j < k - 1 ensures |s[rest[j]].body.settings| >= 2 && s[rest[j]].body.settings[1] != hostname {
            assert rest[j] == hosts[j + 1];
          }
          assert FirstNamed(s, rest, k - 1, hostname);
        }
      }
    }
  }

  /** `get_host` gives the parameters of the first host with just this name, and nothing exactly if all hosts have another one. */
  lemma GetHostOutcome(s: Store, hostname: string, inherit: Option<string>)
    requires Valid(s) && AllNamed(s)
    ensures var found := GetHost(s, Hosts(s), hostname, inherit);
            && found.Ok?
            && (found.value == None <==> forall i: nat | IsHost(s, i) :: s[i].body.settings[1] != hostname)
            && (found.value.Some? ==>
                  exists k: nat :: k < |Hosts(s)| && FirstNamed(s, Hosts(s), k, hostname)
                    && found.value.value == GetParameters(s, Hosts(s)[k], inherit))
  {
    hide Valid, Hosts, GetHost, GetParameters, IsHost;
    var hosts := Hosts(s);
    HostsAreHosts(s);
    forall k: nat | k < |hosts| ensures IsHost(s, hosts[k]) { assert hosts[k] in hosts; }
    forall i: nat | IsHost(s, i) ensures i in hosts && IsBlock(s, i) { HostIsBlock(s, i); }
    GetHostScan(s, hosts, hostname, inherit);
    if i: nat :| IsHost(s, i) && s[i].body.settings[1] == hostname {
      HostIndexed(s, i);
      var n: nat :| n < |hosts| && hosts[n] == i;
      var k := FirstOf(s, hosts, n, hostname);
    }
  }

  lemma {:induction false} FirstOf(s: Store, hosts: seq<nat>, n: nat, hostname: string) returns (k: nat)
    requires AllBlocks(s, hosts) && (forall j | 0 <= j < |hosts| :: |s[hosts[j]].body.settings| >= 2)
    requires n < |hosts| && s[hosts[n]].body.settings[1] == hostname
    ensures k < |hosts| && FirstNamed(s, hosts, k, hostname)
  {
    if j :| 0 <= j < n && s[hosts[j]].body.settings[1] == hostname {
      k := FirstOf(s, hosts, j, hostname);
    } else {
      k := n;
    }
  }
}
