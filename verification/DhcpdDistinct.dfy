/**
 The main results about `add_host` and `delete_host`: what the added host means, what happens
 to the others, and exactly when names and addresses stay distinct.
 */
module DhcpdDistinct {
  import opened Wrappers
  import opened Strings
  import opened Dicts
  import opened DhcpdModel
  import opened DhcpdParser
  import opened DhcpdHosts
  import opened DhcpdLookup
  import opened DhcpdEdits
  import opened DhcpdAddHost

  /** The arguments of `add_host` after the type conversions, which lower-case them. */
  predicate Lowered(hostname: string, hardware: string, fixed: string) {
    Lower(hostname) == hostname && Lower(hardware) == hardware && Lower(fixed) == fixed
  }

  /** The store in which the new host is inserted, after a host of that name was deleted. */
  ghost predicate ClearedFor(s: Store, c: Store, hostname: string, hardware: string, fixed: string) {
    && SameParameters(s, c) && |c| == |s|
    && (forall i: nat :: IsHost(c, i) ==> IsHost(s, i) && |s[i].body.settings| >= 2)
    && (forall i: nat | IsHost(c, i) :: c[i].body.settings[1] != hostname && Clear(s, i, hostname, hardware, fixed))
    && (forall i: nat | IsHost(s, i) && !IsHost(c, i) :: LostWith(s, hostname, i))
  }

  /** The store in which `add_host` inserts: if a host has that name in any letter case, those with just that name are deleted first. */
  ghost function BaseFor(s: Store, hostname: string): (c: Store)
    requires Valid(s)
    ensures Valid(c)
  {
    if (exists i: nat :: IsHost(s, i) && Named(s, i, hostname)) && DeleteHost(s, hostname).Ok? then DeleteHost(s, hostname).value else s
  }

  lemma NamedIsExisting(s: Store, hostname: string, hardware: string, fixed: string)
    requires Valid(s) && CheckHosts(s, Hosts(s), hostname, hardware, fixed, false).Ok?
    ensures CheckHosts(s, Hosts(s), hostname, hardware, fixed, false).value <==> exists i: nat :: IsHost(s, i) && Named(s, i, hostname)
    ensures forall i: nat | IsHost(s, i) :: Clear(s, i, hostname, hardware, fixed)
  {
    hide Valid, CheckHosts, Hosts, IsHost, Named, Clear;
    var hosts := Hosts(s);
    HostsAreHosts(s);
    CheckedHosts(s, hosts, hostname, hardware, fixed, false);
    CheckedNames(s, hosts, hostname, hardware, fixed, false);
    forall i: nat | IsHost(s, i) ensures Clear(s, i, hostname, hardware, fixed) { HostIndexed(s, i); }
    if i: nat :| IsHost(s, i) && Named(s, i, hostname) { HostIndexed(s, i); }
    if k :| 0 <= k < |hosts| && Named(s, hosts[k], hostname) { assert hosts[k] in hosts; }
  }

  lemma AddHostClears(s: Store, hostname: string, hardware: string, inNetwork: string -> bool, fixed: string, parameters: Parameters)
    requires Valid(s) && Lowered(hostname, hardware, fixed)
    requires AddHost(s, hostname, hardware, inNetwork, fixed, parameters).1 == None
    ensures ClearedFor(s, BaseFor(s, hostname), hostname, hardware, fixed)
    ensures AddHost(s, hostname, hardware, inNetwork, fixed, parameters) ==
              InsertHost(BaseFor(s, hostname), hostname, hardware, inNetwork, fixed, NormaliseAll(parameters))
  {
    hide Valid, CheckHosts, DeleteHost, InsertHost, Cut;
    NamedIsExisting(s, hostname, hardware, fixed);
    if CheckHosts(s, Hosts(s), hostname, hardware, fixed, false).value {
      DeleteHostEffect(s, hostname);
      ClearedByDelete(s, hostname, hardware, fixed);
    } else {
      ClearedAlready(s, hostname, hardware, fixed);
    }
  }

  lemma ClearedByDelete(s: Store, hostname: string, hardware: string, fixed: string)
    requires Valid(s) && DeleteHost(s, hostname).Ok?
    requires forall i: nat | IsHost(s, i) :: Clear(s, i, hostname, hardware, fixed)
    ensures ClearedFor(s, DeleteHost(s, hostname).value, hostname, hardware, fixed)
  {
    hide Clear, OwnParameters, DeleteHost, Cut;
    DeleteHostEffect(s, hostname);
    DeleteHostDefined(s, hostname);
  }

  lemma ClearedAlready(s: Store, hostname: string, hardware: string, fixed: string)
    requires Valid(s) && Lower(hostname) == hostname
    requires forall i: nat | IsHost(s, i) :: Clear(s, i, hostname, hardware, fixed) && !Named(s, i, hostname)
    ensures ClearedFor(s, s, hostname, hardware, fixed)
  {
  }

  // ---- meaning ----

  /**
   The value a lookup of the new host gives for a key: the requested one, else the address that
   `add_host` was given, else the inherited one. A requested `fixed-address` or `hardware` that the
   parent already provides is dropped, and the argument is found instead.
   */
  function Meant(inherited: Parameters, hardware: string, fixed: string, parameters: Parameters, k: string): Option<Value> {
    var address := Address(hardware, fixed, k);
    match Lookup(parameters, k)
    case Some(v) => if address.Some? && Lookup(inherited, k) == Some(Normalise(v)) then address else Some(Normalise(v))
    case None => if address.Some? then address else Lookup(inherited, k)
  }

  lemma {:induction false} OnlyHostNamed(s: Store, hosts: seq<nat>, h: nat, hostname: string, inherit: Option<string>)
    requires Valid(s) && AllBlocks(s, hosts) && h in hosts && IsBlock(s, h)
    requires forall k | 0 <= k < |hosts| :: |s[hosts[k]].body.settings| >= 2
    requires forall k | 0 <= k < |hosts| :: s[hosts[k]].body.settings[1] == hostname <==> hosts[k] == h
    ensures GetHost(s, hosts, hostname, inherit) == Ok(Some(GetParameters(s, h, inherit)))
    decreases |hosts|
  {
    if hosts[0] != h {
      assert hosts == [hosts[0]] + hosts[1..];
      assert forall k | 0 <= k < |hosts[1..]| :: hosts[1..][k] == hosts[k + 1];
      OnlyHostNamed(s, hosts[1..], h, hostname, inherit);
    }
  }

  lemma NormaliseAllDistinct(parameters: Parameters)
    requires Distinct(parameters)
    ensures Distinct(NormaliseAll(parameters))
  {
    NormaliseAllKeys(parameters);
  }

  lemma NewHostMeans(c: Store, t: Store, parent: nat, hostname: string, hardware: string, fixed: string, parameters: Parameters, k: string)
    requires Valid(c) && IsBlock(c, parent) && Distinct(parameters)
    requires Inserted(c, t, parent, hostname,
               HostParameters(hardware, fixed, DropInherited(GetParameters(c, parent, GLOBALTYPE), NormaliseAll(parameters))))
    ensures Lookup(GetParameters(t, |c|, GLOBALTYPE), k) == Meant(GetParameters(c, parent, GLOBALTYPE), hardware, fixed, parameters, k)
  {
    hide Distinct, Valid, OwnParameters, GetParameters, Address, HostParameters, IsHost;
    NormaliseAllDistinct(parameters);
    LookupNormaliseAll(parameters, k);
    NewHostOwns(c, parent, hardware, fixed, NormaliseAll(parameters), k);
    NearestSetting(t, |c|, "global", k);
    SameInherited(c, t, parent, GLOBALTYPE);
    if Lookup(parameters, k).Some? { NormaliseTwice(Lookup(parameters, k).value); }
  }

  /**
   After `add_host`, looking the host up with inheritance gives the requested value for every
   requested parameter and the nearest surrounding block's value otherwise, although parameters
   that the chosen parent already provides were left out. The parent is the chosen one.
   */
  lemma AddHostMeans(s: Store, hostname: string, hardware: string, inNetwork: string -> bool, fixed: string, parameters: Parameters)
    requires Valid(s) && Lowered(hostname, hardware, fixed) && Distinct(parameters)
    requires AddHost(s, hostname, hardware, inNetwork, fixed, parameters).1 == None
    ensures var t := AddHost(s, hostname, hardware, inNetwork, fixed, parameters).0;
            && Valid(t)
            && var c := BaseFor(s, hostname);
               exists parent: nat ::
                 && IsBlock(c, parent) && ChosenParent(c, inNetwork, NormaliseAll(parameters), parent)
                 && MeansRequested(t, c, parent, hostname, hardware, fixed, parameters)
  {
    hide Valid, AddHost, InsertHost, CheckHosts, ParentFor, GetHost, GetParameters, Meant;
    AddHostClears(s, hostname, hardware, inNetwork, fixed, parameters);
    var c := BaseFor(s, hostname);
    var wanted := NormaliseAll(parameters);
    InsertHostEffect(c, hostname, hardware, inNetwork, fixed, wanted);
    ParentIsChosen(c, inNetwork, wanted);
    var parent := ParentFor(c, inNetwork, wanted).value;
    var t := AddHost(s, hostname, hardware, inNetwork, fixed, parameters).0;
    HostsAreHosts(t);
    var hosts := Hosts(t);
    forall k | 0 <= k < |hosts|
      ensures |t[hosts[k]].body.settings| >= 2
      ensures t[hosts[k]].body.settings[1] == hostname <==> hosts[k] == |c|
    {
      assert hosts[k] in hosts;
    }
    OnlyHostNamed(t, hosts, |c|, hostname, GLOBALTYPE);
    forall k ensures Lookup(GetParameters(t, |c|, GLOBALTYPE), k) == Meant(GetParameters(c, parent, GLOBALTYPE), hardware, fixed, parameters, k) {
      NewHostMeans(c, t, parent, hostname, hardware, fixed, parameters, k);
    }
    assert MeansRequested(t, c, parent, hostname, hardware, fixed, parameters);
  }

  ghost predicate MeansRequested(t: Store, c: Store, parent: nat, hostname: string, hardware: string, fixed: string, parameters: Parameters)
    requires Valid(t) && Valid(c) && IsBlock(c, parent)
  {
    var found := GetHost(t, Hosts(t), hostname, GLOBALTYPE);
    && found.Ok? && found.value.Some?
    && forall k :: Lookup(found.value.value, k) == Meant(GetParameters(c, parent, GLOBALTYPE), hardware, fixed, parameters, k)
  }

  /** No other host's parameters change, and a host only disappears with the name or fixed address of the new one. */
  lemma AddHostKeepsOthers(s: Store, hostname: string, hardware: string, inNetwork: string -> bool, fixed: string, parameters: Parameters)
    requires Valid(s) && Lowered(hostname, hardware, fixed)
    requires AddHost(s, hostname, hardware, inNetwork, fixed, parameters).1 == None
    ensures var t := AddHost(s, hostname, hardware, inNetwork, fixed, parameters).0;
            && SameParameters(s, t)
            && (forall i: nat, inherit | IsBlock(s, i) :: GetParameters(t, i, inherit) == GetParameters(s, i, inherit))
            && (forall i: nat :: IsHost(t, i) ==> IsHost(s, i) || i == |s|)
            && (forall i: nat | IsHost(s, i) && !IsHost(t, i) :: LostWith(s, hostname, i))
  {
    AddHostClears(s, hostname, hardware, inNetwork, fixed, parameters);
    var c := BaseFor(s, hostname);
    InsertHostEffect(c, hostname, hardware, inNetwork, fixed, NormaliseAll(parameters));
    var t := AddHost(s, hostname, hardware, inNetwork, fixed, parameters).0;
    SameTrans(s, c, t);
    forall i: nat, inherit | IsBlock(s, i) ensures GetParameters(t, i, inherit) == GetParameters(s, i, inherit) {
      SameInherited(s, t, i, inherit);
    }
  }

  // ---- distinct names and addresses ----

  lemma {:induction false} LowerConcat(a: string, b: string)
    ensures Lower(a + b) == Lower(a) + Lower(b)
  {
    if a == "" {
      assert a + b == b;
    } else {
      assert (a + b)[1..] == a[1..] + b;
      LowerConcat(a[1..], b);
    }
  }

  /** The words that a fixed address must not be: they are stored as a boolean that no longer spells them. */
  predicate SwitchWord(s: string) {
    s == "yes" || s == "on" || s == "no" || s == "off"
  }

  /** A lower-case text is found again under its own spelling, unless it is a switch word. */
  lemma StoredSpelling(text: string)
    requires Lower(text) == text
    ensures Lower(ValueString(MakeValue(text))) == text <==> !SwitchWord(text)
  {
    assert Lower("True") == "true" && Lower("False") == "false";
  }

  lemma LowerEthernet()
    ensures Lower("ethernet ") == "ethernet "
  {
  }

  lemma NoSwitchWord(hardware: string)
    ensures !SwitchWord("ethernet " + hardware)
  {
    assert |"ethernet " + hardware| >= 9;
  }

  lemma HardwareSpelling(hardware: string)
    requires Lower(hardware) == hardware
    ensures Lower(ValueString(MakeValue("ethernet " + hardware))) == "ethernet " + hardware
  {
    hide Lower, MakeValue, SwitchWord, ValueString;
    LowerEthernet();
    LowerConcat("ethernet ", hardware);
    NoSwitchWord(hardware);
    StoredSpelling("ethernet " + hardware);
  }

  lemma NewHostDiffers(s: Store, c: Store, t: Store, parent: nat, i: nat, hostname: string, hardware: string, fixed: string, parameters: Parameters)
    requires ClearedFor(s, c, hostname, hardware, fixed) && Lowered(hostname, hardware, fixed) && !SwitchWord(fixed)
    requires IsBlock(c, parent) && Requestable(parameters)
    requires Inserted(c, t, parent, hostname,
               HostParameters(hardware, fixed, DropInherited(GetParameters(c, parent, GLOBALTYPE), NormaliseAll(parameters))))
    requires WellNamed(s) && i < |c| && IsHost(t, i)
    ensures |t[i].body.settings| >= 2 && Differs(t, i, |c|)
  {
    NormaliseAllKeys(parameters);
    LookupNormaliseAll(parameters, FIXED);
    LookupNormaliseAll(parameters, HARDWARE);
    NewHostOwns(c, parent, hardware, fixed, NormaliseAll(parameters), FIXED);
    NewHostOwns(c, parent, hardware, fixed, NormaliseAll(parameters), HARDWARE);
    StoredSpelling(fixed);
    HardwareSpelling(hardware);
    assert OwnParameters(t, i) == OwnParameters(s, i);
  }

  lemma OneMoreHost(s: Store, t: Store, hostname: string)
    requires WellNamed(s) && DistinctHosts(s) && SameParameters(s, t) && |s| < |t| && Lower(hostname) == hostname
    requires IsBlock(t, |s|) && t[|s|].body.settings == ["host", hostname]
    requires forall i: nat :: IsHost(t, i) ==> i == |s| || IsHost(s, i)
    requires forall i: nat | i < |s| && IsHost(t, i) :: Differs(t, i, |s|)
    ensures WellNamed(t) && DistinctHosts(t)
  {
    SameHosts(s, t);
    forall i: nat, j: nat | IsHost(t, i) && IsHost(t, j) && i != j ensures Differs(t, i, j) {
      if i == |s| {
        assert Differs(t, j, i);
      } else if j != |s| {
        assert Differs(s, i, j);
      }
    }
  }

  /** Adding a host keeps names and addresses distinct when the fixed address is not a switch word. */
  lemma AddHostKeepsDistinct(s: Store, hostname: string, hardware: string, inNetwork: string -> bool, fixed: string, parameters: Parameters)
    requires WellNamed(s) && DistinctHosts(s) && Lowered(hostname, hardware, fixed) && Requestable(parameters)
    requires !SwitchWord(fixed)
    requires AddHost(s, hostname, hardware, inNetwork, fixed, parameters).1 == None
    ensures WellNamed(AddHost(s, hostname, hardware, inNetwork, fixed, parameters).0)
    ensures DistinctHosts(AddHost(s, hostname, hardware, inNetwork, fixed, parameters).0)
  {
    AddHostClears(s, hostname, hardware, inNetwork, fixed, parameters);
    var c := BaseFor(s, hostname);
    InsertHostEffect(c, hostname, hardware, inNetwork, fixed, NormaliseAll(parameters));
    var parent := ParentFor(c, inNetwork, NormaliseAll(parameters)).value;
    var t := AddHost(s, hostname, hardware, inNetwork, fixed, parameters).0;
    SameTrans(s, c, t);
    forall i: nat | i < |c| && IsHost(t, i) ensures Differs(t, i, |c|) {
      NewHostDiffers(s, c, t, parent, i, hostname, hardware, fixed, parameters);
    }
    OneMoreHost(s, t, hostname);
  }

  /** Deleting a host keeps names and addresses distinct. */
  lemma DeleteHostKeepsDistinct(s: Store, hostname: string)
    requires WellNamed(s) && DistinctHosts(s)
    ensures DeleteHost(s, hostname).Ok?
    ensures WellNamed(DeleteHost(s, hostname).value) && DistinctHosts(DeleteHost(s, hostname).value)
  {
    DeleteHostDefined(s, hostname);
    DeleteHostEffect(s, hostname);
    SameHosts(s, DeleteHost(s, hostname).value);
  }

  // ---- runs of edits ----

  datatype Edit =
    | AddEdit(hostname: string, hardware: string, inNetwork: string -> bool, fixed: string, parameters: Parameters)
    | DeleteEdit(name: string)

  ghost predicate Admissible(e: Edit) {
    match e
    case AddEdit(hostname, hardware, _, fixed, parameters) =>
      Lowered(hostname, hardware, fixed) && Requestable(parameters) && !SwitchWord(fixed)
    case DeleteEdit(_) => true
  }

  /** One call on the parsed file; a call that raises an error leaves what it had changed by then. */
  function Apply(s: Store, e: Edit): Store
    requires Valid(s)
  {
    match e
    case AddEdit(hostname, hardware, inNetwork, fixed, parameters) =>
      AddHost(s, hostname, hardware, inNetwork, fixed, parameters).0
    case DeleteEdit(name) =>
      match DeleteHost(s, name) case Ok(t) => t case Err(_) => s
  }

  lemma ApplyKeepsDistinct(s: Store, e: Edit)
    requires WellNamed(s) && DistinctHosts(s) && Admissible(e)
    ensures WellNamed(Apply(s, e)) && DistinctHosts(Apply(s, e))
  {
    match e
    case DeleteEdit(name) => DeleteHostKeepsDistinct(s, name);
    case AddEdit(hostname, hardware, inNetwork, fixed, parameters) =>
      if AddHost(s, hostname, hardware, inNetwork, fixed, parameters).1 == None {
        AddHostKeepsDistinct(s, hostname, hardware, inNetwork, fixed, parameters);
      } else {
        DeleteHostKeepsDistinct(s, hostname);
      }
  }

  ghost function ApplyAll(s: Store, edits: seq<Edit>): Store
    requires WellNamed(s) && DistinctHosts(s) && forall i | 0 <= i < |edits| :: Admissible(edits[i])
    decreases |edits|
  {
    if edits == [] then s
    else
      ApplyKeepsDistinct(s, edits[0]);
      ApplyAll(Apply(s, edits[0]), edits[1..])
  }

  /** Over every run of additions and deletions, names and addresses stay pairwise distinct in the whole tree. */
  lemma {:induction false} RunKeepsDistinct(s: Store, edits: seq<Edit>)
    requires WellNamed(s) && DistinctHosts(s) && forall i | 0 <= i < |edits| :: Admissible(edits[i])
    ensures WellNamed(ApplyAll(s, edits)) && DistinctHosts(ApplyAll(s, edits))
    decreases |edits|
  {
    if edits != [] {
      ApplyKeepsDistinct(s, edits[0]);
      RunKeepsDistinct(Apply(s, edits[0]), edits[1..]);
    }
  }

  // ---- exactly which fixed addresses are safe ----

  ghost predicate AddSucceeds(s: Store, hostname: string, hardware: string, inNetwork: string -> bool, fixed: string, parameters: Parameters) {
    && WellNamed(s) && DistinctHosts(s) && Lowered(hostname, hardware, fixed) && Requestable(parameters)
    && AddHost(s, hostname, hardware, inNetwork, fixed, parameters).1 == None
  }

  ghost predicate KeepsDistinct(s: Store) {
    WellNamed(s) && DistinctHosts(s)
  }

  /** Whatever the file and the other arguments, adding a host with this fixed address keeps the addresses distinct. */
  ghost predicate SafeAddress(fixed: string) {
    forall s, hostname, hardware, inNetwork, parameters | AddSucceeds(s, hostname, hardware, inNetwork, fixed, parameters) ::
      KeepsDistinct(AddHost(s, hostname, hardware, inNetwork, fixed, parameters).0)
  }

  /** Only hosts, and all of them directly in the global block. */
  ghost predicate OnlyHosts(s: Store) {
    Valid(s) && forall i | 0 < i < |s| && s[i].body.Block? :: s[i].body.blockType == "host"
  }

  lemma NoParentToChoose(s: Store, inNetwork: string -> bool, parameters: Parameters)
    requires OnlyHosts(s)
    ensures ParentFor(s, inNetwork, parameters) == Ok(GLOBAL)
  {
    var subnets, groups := GetBlocks(s, GLOBAL, "subnet", true), GetBlocks(s, GLOBAL, "group", false);
    assert subnets == [] by {
      if subnets != [] {
        assert subnets[0] in subnets;
        FoundBlocks(s, GLOBAL, "subnet", subnets[0]);
      }
    }
    assert groups == [] by {
      if groups != [] {
        assert groups[0] in groups;
        assert ValidBlock(s, GLOBAL);
        FoundChildren(s, GLOBAL, s[GLOBAL].body.components, "group", groups[0]);
      }
    }
  }

  lemma CheckPasses(s: Store, hostname: string, hardware: string, fixed: string)
    requires WellNamed(s)
    requires forall i: nat | IsHost(s, i) :: Clear(s, i, hostname, hardware, fixed) && !Named(s, i, hostname)
    ensures CheckHosts(s, Hosts(s), hostname, hardware, fixed, false) == Ok(false)
  {
    hide Valid, CheckHosts, Hosts;
    var hosts := Hosts(s);
    HostsAreHosts(s);
    assert forall k | 0 <= k < |hosts| :: hosts[k] in hosts;
    CheckedHosts(s, hosts, hostname, hardware, fixed, false);
    CheckedNames(s, hosts, hostname, hardware, fixed, false);
  }

  lemma InsertIntoHosts(s: Store, hostname: string, hardware: string, inNetwork: string -> bool, fixed: string)
    requires OnlyHosts(s)
    ensures InsertHost(s, hostname, hardware, inNetwork, fixed, []) ==
              (Add(WithHost(s, GLOBAL, hostname, HostParameters(hardware, fixed, [])), GLOBAL, |s|), None)
  {
    hide Valid, ParentFor, WithHost, GetParameters;
    NoParentToChoose(s, inNetwork, []);
    DropNothing(GetParameters(s, GLOBAL, GLOBALTYPE));
  }

  lemma StillOnlyHosts(s: Store, hostname: string, own: Parameters)
    requires OnlyHosts(s)
    ensures OnlyHosts(Add(WithHost(s, GLOBAL, hostname, own), GLOBAL, |s|))
  {
    hide WithHost, Listed, OwnParameters, ValidBlock;
    InsertIsInserted(s, GLOBAL, hostname, own);
    WithHostEffect(s, GLOBAL, hostname, own);
  }

  /** Adding a first or second host to a file of hosts, when the check passes. */
  lemma AddToHosts(s: Store, hostname: string, hardware: string, inNetwork: string -> bool, fixed: string)
    requires WellNamed(s) && OnlyHosts(s)
    requires forall i: nat | IsHost(s, i) :: Clear(s, i, hostname, hardware, fixed) && !Named(s, i, hostname)
    ensures var (t, error) := AddHost(s, hostname, hardware, inNetwork, fixed, []);
            && error == None && Inserted(s, t, GLOBAL, hostname, HostParameters(hardware, fixed, [])) && OnlyHosts(t)
  {
    hide CheckHosts, InsertHost, WithHost, Inserted, Clear, Named, WellNamed, ValidBlock, Hosts;
    CheckPasses(s, hostname, hardware, fixed);
    InsertIntoHosts(s, hostname, hardware, inNetwork, fixed);
    InsertIsInserted(s, GLOBAL, hostname, HostParameters(hardware, fixed, []));
    StillOnlyHosts(s, hostname, HostParameters(hardware, fixed, []));
  }

  lemma {:induction false} DropNothing(block: Parameters)
    ensures DropInherited(block, []) == []
  {
    if block != [] { DropNothing(block[1..]); }
  }

  lemma SwitchWordLower(s: string)
    requires SwitchWord(s)
    ensures Lower(s) == s
  {
    assert Lower("yes") == "yes";
    assert Lower("on") == "on";
    assert Lower("no") == "no";
    assert Lower("off") == "off";
  }

  lemma OneLetter(c: char)
    requires LowerChar(c) == c
    ensures Lower([c]) == [c]
  {
    assert Lower([c][1..]) == "";
  }

  /** A file whose only host has this name and these addresses. */
  ghost predicate OneHost(s: Store, name: string, hardware: string, fixed: string) {
    && KeepsDistinct(s) && OnlyHosts(s) && IsBlock(s, 1) && s[1].body.settings == ["host", name]
    && (forall i: nat :: IsHost(s, i) <==> i == 1)
    && Lookup(OwnParameters(s, 1), FIXED) == Some(MakeValue(fixed))
    && Lookup(OwnParameters(s, 1), HARDWARE) == Some(MakeValue("ethernet " + hardware))
  }

  lemma NoHosts()
    ensures var s := [GlobalBlock(0)]; OnlyHosts(s) && forall i: nat :: !IsHost(s, i)
  {
  }

  lemma FirstHost(name: string, hardware: string, inNetwork: string -> bool, fixed: string) returns (t: Store)
    requires Lowered(name, hardware, fixed)
    ensures OneHost(t, name, hardware, fixed)
  {
    var s := [GlobalBlock(0)];
    NoHosts();
    AddToHosts(s, name, hardware, inNetwork, fixed);
    t := AddHost(s, name, hardware, inNetwork, fixed, []).0;
    StoredAddresses(s, t, name, hardware, fixed);
  }

  lemma SecondHost(t: Store, name: string, other: string, hardware: string, more: string, inNetwork: string -> bool, fixed: string)
    requires OneHost(t, name, hardware, fixed) && SwitchWord(fixed)
    requires Lowered(name, hardware, fixed) && Lowered(other, more, fixed) && name != other && "ethernet " + hardware != "ethernet " + more
    ensures AddSucceeds(t, other, more, inNetwork, fixed, [])
    ensures !KeepsDistinct(AddHost(t, other, more, inNetwork, fixed, []).0)
  {
    StoredSpelling(fixed);
    HardwareSpelling(hardware);
    AddToHosts(t, other, more, inNetwork, fixed);
    var u := AddHost(t, other, more, inNetwork, fixed, []).0;
    StoredAddresses(t, u, other, more, fixed);
    SharedAddress(t, u);
  }

  lemma SharedAddress(t: Store, u: Store)
    requires SameParameters(t, u) && 1 < |t| < |u| && IsHost(t, 1) && IsHost(u, 1) && IsHost(u, |t|)
    requires Lookup(OwnParameters(t, 1), FIXED).Some?
    requires Lookup(OwnParameters(u, |t|), FIXED) == Lookup(OwnParameters(t, 1), FIXED)
    ensures !KeepsDistinct(u)
  {
    assert OwnParameters(u, 1) == OwnParameters(t, 1);
    assert SameAddress(u, 1, |t|, FIXED);
    assert KeepsDistinct(u) ==> Differs(u, 1, |t|);
  }

  lemma UnsafeWith(name: string, other: string, fixed: string)
    requires SwitchWord(fixed) && Lowered(name, name, fixed) && Lowered(other, other, fixed)
    requires name != other && "ethernet " + name != "ethernet " + other
    ensures !SafeAddress(fixed)
  {
    hide OneHost, KeepsDistinct, Lower, Valid, AddHost;
    var inNetwork := (net: string) => false;
    var t := FirstHost(name, name, inNetwork, fixed);
    SecondHost(t, name, other, name, other, inNetwork, fixed);
  }

  /** Two hosts can get the same switch word as fixed address. */
  lemma SwitchWordIsUnsafe(fixed: string)
    requires SwitchWord(fixed)
    ensures !SafeAddress(fixed)
  {
    SwitchWordLower(fixed);
    OneLetter('a');
    OneLetter('b');
    assert ("ethernet " + "a")[9] != ("ethernet " + "b")[9];
    UnsafeWith("a", "b", fixed);
  }

  lemma StoredAddresses(s: Store, t: Store, hostname: string, hardware: string, fixed: string)
    requires Inserted(s, t, GLOBAL, hostname, HostParameters(hardware, fixed, []))
    ensures Lookup(OwnParameters(t, |s|), FIXED) == Some(MakeValue(fixed))
    ensures Lookup(OwnParameters(t, |s|), HARDWARE) == Some(MakeValue("ethernet " + hardware))
  {
    HostParametersLookup(hardware, fixed, [], FIXED);
    HostParametersLookup(hardware, fixed, [], HARDWARE);
    LookupPutNormalised([], HostParameters(hardware, fixed, []), FIXED);
    LookupPutNormalised([], HostParameters(hardware, fixed, []), HARDWARE);
  }

  /** The check for duplicates is reliable exactly for fixed addresses that are not switch words. */
  lemma SafeAddresses(fixed: string)
    requires Lower(fixed) == fixed
    ensures SafeAddress(fixed) <==> !SwitchWord(fixed)
  {
    if SwitchWord(fixed) {
      SwitchWordIsUnsafe(fixed);
    } else {
      forall s, hostname, hardware, inNetwork, parameters | AddSucceeds(s, hostname, hardware, inNetwork, fixed, parameters)
        ensures KeepsDistinct(AddHost(s, hostname, hardware, inNetwork, fixed, parameters).0)
      {
        AddHostKeepsDistinct(s, hostname, hardware, inNetwork, fixed, parameters);
      }
    }
  }
}
