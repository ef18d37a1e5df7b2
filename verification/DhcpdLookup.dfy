/**
 Which blocks are reachable, and what adding or removing a block does to the parameters
 that other blocks own or inherit.
 */
module DhcpdLookup {
  import opened Wrappers
  import opened Strings
  import opened Dicts
  import opened DhcpdModel
  import opened DhcpdParser
  import opened DhcpdHosts

  // ---- parameters ----

  lemma {:induction false} LookupAddMissing(d: Parameters, more: Parameters, k: string)
    ensures Lookup(AddMissing(d, more), k) == if Lookup(d, k).Some? then Lookup(d, k) else Lookup(more, k)
    decreases |more|
  {
    if more != [] {
      LookupPut(d, more[0].0, more[0].1, k);
      LookupAddMissing(if Lookup(d, more[0].0) == None then Put(d, more[0].0, more[0].1) else d, more[1..], k);
    }
  }

  /** The component sets the parameter. */
  predicate Sets(s: Store, c: nat, k: string)
    requires c < |s|
  {
    s[c].body.Parameter? && s[c].body.key == k
  }

  lemma {:induction false} UnsetPut(s: Store, ids: seq<nat>, d: Parameters, k: string)
    requires forall i | 0 <= i < |ids| :: ids[i] < |s| && !Sets(s, ids[i], k)
    ensures Lookup(PutParameters(s, ids, d), k) == Lookup(d, k)
    decreases |ids|
  {
    if ids != [] {
      var first := s[ids[0]].body;
      assert !Sets(s, ids[0], k);
      if first.Parameter? {
        LookupPut(d, first.key, first.value, k);
        UnsetPut(s, ids[1..], Put(d, first.key, first.value), k);
      } else {
        UnsetPut(s, ids[1..], d, k);
      }
    }
  }

  /** Of the components that set a parameter the last one counts. */
  lemma {:induction false} LastPut(s: Store, ids: seq<nat>, d: Parameters, k: string, i: nat)
    requires forall j | 0 <= j < |ids| :: ids[j] < |s|
    requires i < |ids| && Sets(s, ids[i], k) && (forall j | i < j < |ids| :: !Sets(s, ids[j], k))
    ensures Lookup(PutParameters(s, ids, d), k) == Some(s[ids[i]].body.value)
    decreases |ids|
  {
    var rest := ids[1..];
    var first := s[ids[0]].body;
    var next := if first.Parameter? then Put(d, first.key, first.value) else d;
    if i == 0 {
      LookupPut(d, first.key, first.value, k);
      UnsetPut(s, rest, next, k);
    } else {
      LastPut(s, rest, next, k, i - 1);
    }
  }

  /** The parameters of a block are those its components set, each with the value of the last one that sets it. */
  lemma OwnIsLast(s: Store, b: nat, k: string)
    requires Valid(s) && IsBlock(s, b)
    ensures var ids := s[b].body.components;
            && (forall i | 0 <= i < |ids| :: ids[i] < |s|)
            && ((forall i | 0 <= i < |ids| :: !Sets(s, ids[i], k)) ==> Lookup(OwnParameters(s, b), k) == None)
            && forall i | 0 <= i < |ids| && Sets(s, ids[i], k) && (forall j | i < j < |ids| :: !Sets(s, ids[j], k)) ::
                 Lookup(OwnParameters(s, b), k) == Some(s[ids[i]].body.value)
  {
    hide PutParameters;
    BlockIds(s, b);
    var ids := s[b].body.components;
    if forall i | 0 <= i < |ids| :: !Sets(s, ids[i], k) {
      UnsetPut(s, ids, [], k);
    }
    forall i | 0 <= i < |ids| && Sets(s, ids[i], k) && (forall j | i < j < |ids| :: !Sets(s, ids[j], k))
      ensures Lookup(OwnParameters(s, b), k) == Some(s[ids[i]].body.value)
    {
      LastPut(s, ids, [], k, i);
    }
  }

  lemma BlockIds(s: Store, b: nat)
    requires Valid(s) && IsBlock(s, b)
    ensures forall i | 0 <= i < |s[b].body.components| :: s[b].body.components[i] < |s|
    ensures OwnParameters(s, b) == PutParameters(s, s[b].body.components, [])
  {
    assert ValidBlock(s, b);
  }

  /** The nearest setting counts: the block's own, else what its parent inherits. */
  lemma NearestSetting(s: Store, b: nat, inherit: string, k: string)
    requires Valid(s) && IsBlock(s, b) && inherit != ""
    ensures Lookup(GetParameters(s, b, Some(inherit)), k) ==
              if Lookup(OwnParameters(s, b), k).Some? then Lookup(OwnParameters(s, b), k)
              else if s[b].body.blockType != inherit && b != GLOBAL then Lookup(GetParameters(s, s[b].parent, Some(inherit)), k)
              else None
  {
    if s[b].body.blockType != inherit && s[b].parent >= 0 {
      assert b > 0;
      LookupAddMissing(OwnParameters(s, b), GetParameters(s, s[b].parent, Some(inherit)), k);
    }
  }

  /** Every block of `s` still owns the same parameters in `t`, and has the same place. */
  ghost predicate SameParameters(s: Store, t: Store) {
    && Valid(s) && Valid(t) && |s| <= |t|
    && forall i | 0 <= i < |s| ::
         && t[i].parent == s[i].parent && t[i].body.Block? == s[i].body.Block?
         && (s[i].body.Block? ==>
               && t[i].body.blockType == s[i].body.blockType && t[i].body.settings == s[i].body.settings
               && OwnParameters(t, i) == OwnParameters(s, i))
  }

  lemma {:induction false} SameInherited(s: Store, t: Store, b: nat, inherit: Option<string>)
    requires SameParameters(s, t) && IsBlock(s, b)
    ensures GetParameters(t, b, inherit) == GetParameters(s, b, inherit)
    decreases b
  {
    if s[b].parent >= 0 {
      assert b > 0;
      SameInherited(s, t, s[b].parent, inherit);
    }
  }

  lemma SameTrans(s: Store, t: Store, u: Store)
    requires SameParameters(s, t) && SameParameters(t, u)
    ensures SameParameters(s, u)
  {
  }

  /** The parameters among the components are the same ones. */
  ghost predicate SameSettings(s: Store, t: Store, ids: seq<nat>) {
    && (forall k | 0 <= k < |ids| :: ids[k] < |s| && ids[k] < |t|)
    && (forall k | 0 <= k < |ids| :: s[ids[k]].body.Parameter? || t[ids[k]].body.Parameter? ==> s[ids[k]].body == t[ids[k]].body)
  }

  lemma {:induction false} PutFrame(s: Store, t: Store, ids: seq<nat>, d: Parameters)
    requires SameSettings(s, t, ids)
    ensures PutParameters(s, ids, d) == PutParameters(t, ids, d)
    decreases |ids|
  {
    if ids != [] {
      PutFrame(s, t, ids[1..], if s[ids[0]].body.Parameter? then Put(d, s[ids[0]].body.key, s[ids[0]].body.value) else d);
    }
  }

  lemma {:induction false} PutConcat(s: Store, xs: seq<nat>, ys: seq<nat>, d: Parameters)
    requires forall k | 0 <= k < |xs + ys| :: (xs + ys)[k] < |s|
    ensures forall k | 0 <= k < |xs| :: xs[k] < |s|
    ensures forall k | 0 <= k < |ys| :: ys[k] < |s|
    ensures PutParameters(s, xs + ys, d) == PutParameters(s, ys, PutParameters(s, xs, d))
    decreases |xs|
  {
    forall k | 0 <= k < |xs| ensures xs[k] < |s| { assert (xs + ys)[k] < |s|; }
    forall k | 0 <= k < |ys| ensures ys[k] < |s| { assert (xs + ys)[|xs| + k] < |s|; }
    if xs == [] {
      assert xs + ys == ys;
    } else {
      assert (xs + ys)[1..] == xs[1..] + ys;
      PutConcat(s, xs[1..], ys, if s[xs[0]].body.Parameter? then Put(d, s[xs[0]].body.key, s[xs[0]].body.value) else d);
    }
  }

  lemma {:induction false} PutWithout(s: Store, ids: seq<nat>, c: nat, d: Parameters)
    requires (forall k | 0 <= k < |ids| :: ids[k] < |s|) && c < |s| && s[c].body.Block?
    ensures forall k | 0 <= k < |Without(ids, c)| :: Without(ids, c)[k] < |s|
    ensures PutParameters(s, Without(ids, c), d) == PutParameters(s, ids, d)
    decreases |ids|
  {
    if ids != [] && ids[0] != c {
      PutWithout(s, ids[1..], c, if s[ids[0]].body.Parameter? then Put(d, s[ids[0]].body.key, s[ids[0]].body.value) else d);
      assert Without(ids, c)[1..] == Without(ids[1..], c);
    }
  }

  lemma OwnFrame(s: Store, t: Store, b: nat)
    requires Valid(s) && Valid(t) && IsBlock(s, b) && IsBlock(t, b)
    requires s[b].body.components == t[b].body.components && |s| <= |t|
    requires forall i | 0 <= i < |s| && !s[i].body.Block? :: t[i].body == s[i].body
    requires forall i | 0 <= i < |s| && s[i].body.Block? :: t[i].body.Block?
    ensures OwnParameters(s, b) == OwnParameters(t, b)
  {
    assert ValidBlock(s, b);
    PutFrame(s, t, s[b].body.components, []);
  }

  /** Listing one more block changes no block's own parameters. */
  lemma AddSame(s: Store, b: nat, c: nat)
    requires Valid(s) && IsBlock(s, b) && b < c && IsBlock(s, c) && s[c].parent == b && NewestIn(s, b, c)
    ensures Valid(Add(s, b, c)) && SameParameters(s, Add(s, b, c))
  {
    AddValid(s, b, c);
    var t := Add(s, b, c);
    forall i | 0 <= i < |s| && s[i].body.Block? ensures OwnParameters(t, i) == OwnParameters(s, i) {
      assert ValidBlock(s, i) && ValidBlock(t, i);
      PutFrame(s, t, s[i].body.components, []);
      if i == b {
        PutFrame(s, t, t[b].body.components, []);
        PutConcat(t, s[b].body.components, [c], []);
      }
    }
  }

  /** Removing a block changes no block's own parameters. */
  lemma RemoveSame(s: Store, b: nat, c: nat)
    requires Valid(s) && IsBlock(s, b) && IsBlock(s, c)
    ensures Valid(Remove(s, b, c)) && SameParameters(s, Remove(s, b, c))
  {
    RemoveValid(s, b, c);
    var t := Remove(s, b, c);
    forall i | 0 <= i < |s| && s[i].body.Block? ensures OwnParameters(t, i) == OwnParameters(s, i) {
      assert ValidBlock(s, i) && ValidBlock(t, i);
      PutFrame(s, t, s[i].body.components, []);
      if i == b {
        PutWithout(s, s[b].body.components, c, []);
        PutFrame(s, t, t[b].body.components, []);
      }
    }
  }

  // ---- reachable blocks ----

  /** Component `i` is listed below block `b`, possibly through listed blocks in between. */
  predicate Listed(s: Store, b: nat, i: nat)
    requires Valid(s) && b < |s| && i < |s|
    decreases i
  {
    && i > b && s[i].parent >= 0
    && i in s[s[i].parent].body.components
    && (s[i].parent == b || Listed(s, b, s[i].parent))
  }

  /** The child of `b` through which a listed component is reached. */
  function Branch(s: Store, b: nat, i: nat): (c: nat)
    requires Valid(s) && IsBlock(s, b) && i < |s| && Listed(s, b, i)
    ensures c < |s| && c in s[b].body.components && b < c && (i == c || Listed(s, c, i))
    decreases i
  {
    if s[i].parent == b then i
    else
      var c := Branch(s, b, s[i].parent);
      c
  }

  lemma {:induction false} BranchUnique(s: Store, b: nat, c: nat, i: nat)
    requires Valid(s) && IsBlock(s, b) && i < |s| && c in s[b].body.components
    requires c < |s| && (i == c || Listed(s, c, i))
    ensures Listed(s, b, i) && Branch(s, b, i) == c
    decreases i
  {
    assert ValidBlock(s, b);
    if i != c {
      if s[i].parent != c { BranchUnique(s, b, c, s[i].parent); }
    }
  }

  predicate HasType(s: Store, i: nat, ty: string) {
    IsBlock(s, i) && (ty == ANY || s[i].body.blockType == ty)
  }

  /** The recursive search finds exactly the listed blocks of the type. */
  lemma {:induction false} FoundBlocks(s: Store, b: nat, ty: string, i: nat)
    requires Valid(s) && IsBlock(s, b) && i < |s|
    ensures i in GetBlocks(s, b, ty, true) <==> HasType(s, i, ty) && Listed(s, b, i)
    decreases |s| - b, 1, 0
  {
    assert ValidBlock(s, b);
    FoundIn(s, b, s[b].body.components, ty, i);
    if Listed(s, b, i) { BranchUnique(s, b, Branch(s, b, i), i); }
  }

  lemma {:induction false} ListedBelowBlock(s: Store, b: nat, i: nat)
    requires Valid(s) && b < |s| && i < |s| && Listed(s, b, i)
    ensures IsBlock(s, b)
    decreases i
  {
    if s[i].parent != b { ListedBelowBlock(s, b, s[i].parent); }
  }

  lemma {:induction false} FoundOf(s: Store, b: nat, c: nat, ty: string, i: nat)
    requires Valid(s) && IsBlock(s, b) && b < c < |s| && i < |s|
    ensures i in BlocksOf(s, b, c, ty, true) <==> HasType(s, i, ty) && (i == c || Listed(s, c, i))
    decreases |s| - c, 2, 0
  {
    if IsBlock(s, c) {
      FoundBlocks(s, c, ty, i);
    } else if Listed(s, c, i) {
      ListedBelowBlock(s, c, i);
    }
  }

  lemma {:induction false} FoundIn(s: Store, b: nat, ids: seq<nat>, ty: string, i: nat)
    requires Valid(s) && IsBlock(s, b) && ChildrenOf(s, b, ids) && i < |s|
    requires forall c | c in ids :: c in s[b].body.components
    ensures i in BlocksIn(s, b, ids, ty, true) <==> HasType(s, i, ty) && Listed(s, b, i) && Branch(s, b, i) in ids
    decreases |s| - b, 0, |ids|
  {
    if ids != [] {
      var c := ids[0];
      assert ids == [c] + ids[1..];
      FoundIn(s, b, ids[1..], ty, i);
      FoundOf(s, b, c, ty, i);
      if i == c || Listed(s, c, i) { BranchUnique(s, b, c, i); }
    }
  }

  ghost predicate NoRepeats(ids: seq<nat>) {
    forall j, k | 0 <= j < k < |ids| :: ids[j] != ids[k]
  }

  /** No block is found twice. */
  lemma {:induction false} FoundOnce(s: Store, b: nat, ty: string)
    requires Valid(s) && IsBlock(s, b)
    ensures NoRepeats(GetBlocks(s, b, ty, true))
    decreases |s| - b, 1, 0
  {
    assert ValidBlock(s, b);
    FoundOnceIn(s, b, s[b].body.components, ty);
  }

  lemma {:induction false} FoundOnceIn(s: Store, b: nat, ids: seq<nat>, ty: string)
    requires Valid(s) && IsBlock(s, b) && ChildrenOf(s, b, ids)
    requires forall c | c in ids :: c in s[b].body.components
    ensures NoRepeats(BlocksIn(s, b, ids, ty, true))
    decreases |s| - b, 0, |ids|
  {
    hide Valid, BlocksOf;
    if ids != [] {
      var c := ids[0];
      assert ids == [c] + ids[1..];
      FoundOnceIn(s, b, ids[1..], ty);
      var first, rest := BlocksOf(s, b, c, ty, true), BlocksIn(s, b, ids[1..], ty, true);
      FoundOnceOf(s, b, c, ty);
      forall k | 0 <= k < |first| ensures first[k] !in rest { FoundApart(s, b, ids, ty, first[k]); }
      NoRepeatsConcat(first, rest);
    }
  }

  lemma FoundOnceOf(s: Store, b: nat, c: nat, ty: string)
    requires Valid(s) && IsBlock(s, b) && b < c < |s|
    ensures NoRepeats(BlocksOf(s, b, c, ty, true))
    decreases |s| - c, 2, 0
  {
    hide Valid;
    if IsBlock(s, c) {
      FoundOnce(s, c, ty);
      forall k | 0 <= k < |GetBlocks(s, c, ty, true)| ensures GetBlocks(s, c, ty, true)[k] != c { }
    }
  }

  /** What is found below the first child is not found below the others. */
  lemma FoundApart(s: Store, b: nat, ids: seq<nat>, ty: string, x: nat)
    requires Valid(s) && IsBlock(s, b) && ids != [] && ChildrenOf(s, b, ids)
    requires forall c | c in ids :: c in s[b].body.components
    requires x in BlocksOf(s, b, ids[0], ty, true)
    ensures x !in BlocksIn(s, b, ids[1..], ty, true)
  {
    hide Valid, BlocksOf, BlocksIn, Listed;
    var c := ids[0];
    assert ids == [c] + ids[1..];
    assert x < |s| by { FoundInStore(s, BlocksOf(s, b, c, ty, true), x); }
    FoundOf(s, b, c, ty, x);
    FoundIn(s, b, ids[1..], ty, x);
    BranchUnique(s, b, c, x);
  }

  lemma FoundInStore(s: Store, ids: seq<nat>, x: nat)
    requires AllBlocks(s, ids) && x in ids
    ensures x < |s|
  {
  }

  lemma NoRepeatsConcat(xs: seq<nat>, ys: seq<nat>)
    requires NoRepeats(xs) && NoRepeats(ys) && forall k | 0 <= k < |xs| :: xs[k] !in ys
    ensures NoRepeats(xs + ys)
  {
    forall j, k | 0 <= j < k < |xs + ys| ensures (xs + ys)[j] != (xs + ys)[k] {
      if j < |xs| <= k { assert ys[k - |xs|] in ys; }
    }
  }
}
