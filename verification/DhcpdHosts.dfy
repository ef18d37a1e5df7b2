/**
 Looking up, adding and deleting hosts in a dhcpd.conf component store.
 */
module DhcpdHosts {
  import opened Wrappers
  import opened Strings
  import opened Dicts
  import opened DhcpdModel
  import opened DhcpdParser

  const ANY := ""

  type Parameters = Dict<Value>

  predicate AllBlocks(s: Store, ids: seq<nat>) {
    forall k {:trigger ids[k]} | 0 <= k < |ids| :: IsBlock(s, ids[k])
  }

  // ---- reading ----

  /** `get_blocks`: matching blocks in document order, optionally at every depth. */
  function GetBlocks(s: Store, b: nat, ty: string, recursive: bool): (r: seq<nat>)
    requires Valid(s) && IsBlock(s, b)
    ensures AllBlocks(s, r) && forall k | 0 <= k < |r| :: b < r[k]
    decreases |s| - b, 1, 0
  {
    assert ValidBlock(s, b);
    BlocksIn(s, b, s[b].body.components, ty, recursive)
  }

  function BlocksIn(s: Store, b: nat, ids: seq<nat>, ty: string, recursive: bool): (r: seq<nat>)
    requires Valid(s) && IsBlock(s, b) && ChildrenOf(s, b, ids)
    ensures AllBlocks(s, r) && forall k | 0 <= k < |r| :: b < r[k]
    decreases |s| - b, 0, |ids|
  {
    if ids == [] then [] else BlocksOf(s, b, ids[0], ty, recursive) + BlocksIn(s, b, ids[1..], ty, recursive)
  }

  function BlocksOf(s: Store, b: nat, c: nat, ty: string, recursive: bool): (r: seq<nat>)
    requires Valid(s) && IsBlock(s, b) && b < c < |s|
    ensures AllBlocks(s, r) && forall k | 0 <= k < |r| :: b < r[k]
    decreases |s| - c, 2, 0
  {
    if !s[c].body.Block? then []
    else
      (if ty == ANY || s[c].body.blockType == ty then [c] else [])
      + (if recursive then GetBlocks(s, c, ty, recursive) else [])
  }

  function Hosts(s: Store): (r: seq<nat>)
    requires Valid(s)
    ensures AllBlocks(s, r) && forall k | 0 <= k < |r| :: r[k] > 0
  {
    GetBlocks(s, GLOBAL, "host", true)
  }

  function PutParameters(s: Store, ids: seq<nat>, d: Parameters): Parameters
    requires forall k | 0 <= k < |ids| :: ids[k] < |s|
  {
    if ids == [] then d
    else
      PutParameters(s, ids[1..],
        if s[ids[0]].body.Parameter? then Put(d, s[ids[0]].body.key, s[ids[0]].body.value) else d)
  }

  /** The parameters set in the block itself; the last setting of a key counts. */
  function OwnParameters(s: Store, b: nat): Parameters
    requires Valid(s) && IsBlock(s, b)
  {
    assert ValidBlock(s, b);
    PutParameters(s, s[b].body.components, [])
  }

  /** Every entry of `more` whose key `d` lacks is added. */
  function AddMissing(d: Parameters, more: Parameters): Parameters
    decreases |more|
  {
    if more == [] then d
    else AddMissing(if Lookup(d, more[0].0) == None then Put(d, more[0].0, more[0].1) else d, more[1..])
  }

  /** `get_parameters_hash`: own parameters, then those of the ancestors up to the block type `inherit`. */
  function GetParameters(s: Store, b: nat, inherit: Option<string>): Parameters
    requires Valid(s) && IsBlock(s, b)
    decreases b
  {
    var own := OwnParameters(s, b);
    if inherit != None && inherit.value != "" && s[b].body.blockType != inherit.value && s[b].parent >= 0 then
      assert b > 0;
      AddMissing(own, GetParameters(s, s[b].parent, inherit))
    else own
  }

  /** `str(value)` */
  function ValueString(v: Value): string {
    match v case Flag(on) => (if on then "True" else "False") case Str(t) => t
  }

  // ---- checking and deleting ----

  datatype HostError = MissingSetting | AddressInUse

  const FIXED := "fixed-address"
  const HARDWARE := "hardware"

  predicate Uses(d: Parameters, key: string, lowered: string) {
    Lookup(d, key).Some? && Lower(ValueString(Lookup(d, key).value)) == lowered
  }

  /** The check of every host in the file before one is added: whether the name exists already, or an error. */
  function CheckHosts(s: Store, hosts: seq<nat>, hostname: string, hardware: string, fixed: string, existing: bool)
    : Result<bool, HostError>
    requires Valid(s) && AllBlocks(s, hosts)
  {
    if hosts == [] then Ok(existing)
    else if |s[hosts[0]].body.settings| < 2 then Err(MissingSetting)
    else if Lower(s[hosts[0]].body.settings[1]) == hostname then
      CheckHosts(s, hosts[1..], hostname, hardware, fixed, true)
    else if Uses(OwnParameters(s, hosts[0]), FIXED, fixed) || Uses(OwnParameters(s, hosts[0]), HARDWARE, "ethernet " + hardware) then
      Err(AddressInUse)
    else CheckHosts(s, hosts[1..], hostname, hardware, fixed, existing)
  }

  /** A host block that `delete_host` removes: it has the name, or its fixed address is the name. */
  predicate Deletes(s: Store, h: nat, hostname: string)
    requires Valid(s) && IsBlock(s, h) && |s[h].body.settings| >= 2
  {
    s[h].body.settings[1] == hostname || Lookup(OwnParameters(s, h), FIXED) == Some(Str(hostname))
  }

  function HostsToDelete(s: Store, hosts: seq<nat>, hostname: string): (r: Result<seq<nat>, HostError>)
    requires Valid(s) && AllBlocks(s, hosts) && forall k | 0 <= k < |hosts| :: hosts[k] > 0
    ensures r.Ok? ==> AllBlocks(s, r.value) && forall k | 0 <= k < |r.value| :: r.value[k] > 0
  {
    if hosts == [] then Ok([])
    else if |s[hosts[0]].body.settings| < 2 then Err(MissingSetting)
    else
      match HostsToDelete(s, hosts[1..], hostname)
      case Err(e) => Err(e)
      case Ok(rest) => Ok((if Deletes(s, hosts[0], hostname) then [hosts[0]] else []) + rest)
  }

  function RemoveAll(s: Store, ids: seq<nat>): (t: Store)
    requires Valid(s) && forall k | 0 <= k < |ids| :: 0 < ids[k] < |s|
    ensures Valid(t) && |t| == |s|
    decreases |ids|
  {
    if ids == [] then s
    else
      RemoveValid(s, s[ids[0]].parent, ids[0]);
      RemoveAll(Remove(s, s[ids[0]].parent, ids[0]), ids[1..])
  }

  function DeleteHost(s: Store, hostname: string): (r: Result<Store, HostError>)
    requires Valid(s)
    ensures r.Ok? ==> Valid(r.value) && |r.value| == |s|
  {
    match HostsToDelete(s, Hosts(s), hostname)
    case Err(e) => Err(e)
    case Ok(ids) => Ok(RemoveAll(s, ids))
  }

  // ---- choosing the parent block ----

  function LastMatch(s: Store, subnets: seq<nat>, inNetwork: string -> bool, found: nat): (r: Result<nat, HostError>)
    requires Valid(s) && IsBlock(s, found) && AllBlocks(s, subnets)
    ensures r.Ok? ==> IsBlock(s, r.value)
  {
    if subnets == [] then Ok(found)
    else
      var settings := s[subnets[0]].body.settings;
      if |settings| < 4 then Err(MissingSetting)
      else LastMatch(s, subnets[1..], inNetwork,
             if inNetwork(settings[1] + "/" + settings[3]) then subnets[0] else found)
  }

  /** Matching parameters minus differing ones. */
  function Score(block: Parameters, parameters: Parameters): int {
    if block == [] then 0
    else
      (match Lookup(parameters, block[0].0)
       case None => 0
       case Some(v) => if v == block[0].1 then 1 else -1)
      + Score(block[1..], parameters)
  }

  const GLOBALTYPE: Option<string> := Some("global")

  function GroupScore(s: Store, g: nat, parameters: Parameters): int
    requires Valid(s) && IsBlock(s, g)
  {
    Score(GetParameters(s, g, GLOBALTYPE), parameters)
  }

  function BestGroup(s: Store, groups: seq<nat>, parameters: Parameters, best: Option<nat>, bestScore: int): (r: Option<nat>)
    requires Valid(s) && AllBlocks(s, groups)
    requires best.Some? ==> IsBlock(s, best.value)
    ensures r.Some? ==> IsBlock(s, r.value)
  {
    if groups == [] then best
    else
      var score := GroupScore(s, groups[0], parameters);
      if score > bestScore then BestGroup(s, groups[1..], parameters, Some(groups[0]), score)
      else BestGroup(s, groups[1..], parameters, best, bestScore)
  }

  function ParentFor(s: Store, inNetwork: string -> bool, parameters: Parameters): (r: Result<nat, HostError>)
    requires Valid(s)
    ensures r.Ok? ==> IsBlock(s, r.value)
  {
    match LastMatch(s, GetBlocks(s, GLOBAL, "subnet", true), inNetwork, GLOBAL)
    case Err(e) => Err(e)
    case Ok(net) =>
      match BestGroup(s, GetBlocks(s, net, "group", false), parameters, None, -1)
      case None => Ok(net)
      case Some(g) => Ok(g)
  }

  // ---- adding ----

  function Normalise(v: Value): Value {
    match v case Flag(_) => v case Str(t) => MakeValue(t)
  }

  function NormaliseAll(d: Parameters): (r: Parameters)
    ensures |r| == |d|
  {
    if d == [] then [] else [(d[0].0, Normalise(d[0].1))] + NormaliseAll(d[1..])
  }

  /** Parameters that the parent already provides with the same value are dropped. */
  function DropInherited(block: Parameters, parameters: Parameters): Parameters {
    if block == [] then parameters
    else
      DropInherited(block[1..],
        if Lookup(parameters, block[0].0) == Some(block[0].1) then Delete(parameters, block[0].0) else parameters)
  }

  function AppendParameters(s: Store, b: nat, parameters: Parameters): (t: Store)
    requires Valid(s) && IsBlock(s, b)
    ensures Valid(t) && IsBlock(t, b) && |t| == |s| + |parameters| && forall i | 0 <= i < |s| && i != b :: t[i] == s[i]
    decreases |parameters|
  {
    if parameters == [] then s
    else
      var body := Parameter(parameters[0].0, Normalise(parameters[0].1));
      AppendValid(s, b, -1, body);
      AppendParameters(Append(s, b, -1, body), b, parameters[1..])
  }

  function HostParameters(hardware: string, fixed: string, parameters: Parameters): Parameters {
    [(FIXED, Str(fixed)), (HARDWARE, Str("ethernet " + hardware))] + parameters
  }

  /** The new host block with its parameters, not yet listed in its parent. */
  function WithHost(s: Store, parent: nat, hostname: string, parameters: Parameters): (t: Store)
    requires Valid(s) && IsBlock(s, parent)
    ensures Valid(t) && IsBlock(t, |s|) && |t| == |s| + 1 + |parameters| && forall i | 0 <= i < |s| :: t[i] == s[i]
  {
    var host := Component(-1, -1, parent, Block("host", ["host", hostname], [], map[]));
    NewValid(s, host);
    AppendParameters(s + [host], |s|, parameters)
  }

  /** The outcome of `add_host`: the store it leaves behind and the error it ends with, if any. */
  function AddHost(s: Store, hostname: string, hardware: string, inNetwork: string -> bool, fixed: string, parameters: Parameters)
    : (r: (Store, Option<HostError>))
    requires Valid(s)
  {
    match CheckHosts(s, Hosts(s), hostname, hardware, fixed, false)
    case Err(e) => (s, Some(e))
    case Ok(existing) =>
      match (if existing then DeleteHost(s, hostname) else Ok(s))
      case Err(e) => (s, Some(e))
      case Ok(cleared) => InsertHost(cleared, hostname, hardware, inNetwork, fixed, NormaliseAll(parameters))
  }

  function InsertHost(s: Store, hostname: string, hardware: string, inNetwork: string -> bool, fixed: string, parameters: Parameters)
    : (r: (Store, Option<HostError>))
    requires Valid(s)
  {
    match ParentFor(s, inNetwork, parameters)
    case Err(e) => (s, Some(e))
    case Ok(parent) =>
      var own := DropInherited(GetParameters(s, parent, GLOBALTYPE), parameters);
      var t := WithHost(s, parent, hostname, HostParameters(hardware, fixed, own));
      (Add(t, parent, |s|), None)
  }

  /** `get_host` */
  function GetHost(s: Store, hosts: seq<nat>, hostname: string, inherit: Option<string>): Result<Option<Parameters>, HostError>
    requires Valid(s) && AllBlocks(s, hosts)
  {
    if hosts == [] then Ok(None)
    else if |s[hosts[0]].body.settings| < 2 then Err(MissingSetting)
    else if s[hosts[0]].body.settings[1] == hostname then Ok(Some(GetParameters(s, hosts[0], inherit)))
    else GetHost(s, hosts[1..], hostname, inherit)
  }
}
