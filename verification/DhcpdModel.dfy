/**
 The component tree of a dhcpd.conf file.

 Components are records in a store and are referred to by their index, which stands for
 object identity. A block refers to its children twice, in `components` and in `lineRefs`,
 and every component refers to its parent block, as in the original object graph. Children
 are created after their parent, so an index is always greater than that of the parent.
 */
module DhcpdModel {
  import opened Strings

  datatype Value = Flag(on: bool) | Str(text: string)

  datatype Body =
    | Parameter(key: string, value: Value)
    | Choice(name: string, values: seq<string>)
    | Comment(data: string)
    | EmptyLine
    | Block(blockType: string, settings: seq<string>, components: seq<nat>, lineRefs: map<int, seq<nat>>)

  datatype Component = Component(startLine: int, endLine: int, parent: int, body: Body)

  type Store = seq<Component>

  const GLOBAL: nat := 0
  const NOPARENT := -1

  // ---- well-formed stores ----

  predicate Increasing(ids: seq<nat>) {
    forall j, k | 0 <= j < k < |ids| :: ids[j] < ids[k]
  }

  predicate ChildrenOf(s: Store, b: nat, ids: seq<nat>) {
    && Increasing(ids)
    && forall k | 0 <= k < |ids| :: b < ids[k] < |s| && s[ids[k]].parent == b
  }

  predicate IsBlock(s: Store, b: int) {
    0 <= b < |s| && s[b].body.Block?
  }

  predicate ValidBlock(s: Store, b: nat)
    requires IsBlock(s, b)
  {
    && ChildrenOf(s, b, s[b].body.components)
    && forall l | l in s[b].body.lineRefs ::
         && ChildrenOf(s, b, s[b].body.lineRefs[l])
         && forall c | c in s[b].body.lineRefs[l] :: s[c].startLine == l
  }

  predicate Valid(s: Store) {
    && IsBlock(s, GLOBAL) && s[GLOBAL].parent == NOPARENT
    && (forall i | 0 < i < |s| :: 0 <= s[i].parent < i && IsBlock(s, s[i].parent))
    && (forall b | 0 <= b < |s| && s[b].body.Block? :: ValidBlock(s, b))
  }

  // ---- creating, adding and removing components ----

  function GlobalBlock(lineCount: nat): Component {
    Component(1, lineCount, NOPARENT, Block("global", [], [], map[]))
  }

  function RefsAt(refs: map<int, seq<nat>>, line: int): seq<nat> {
    if line in refs then refs[line] else []
  }

  /** `DHCPDConfBlock.add_component` */
  function Add(s: Store, b: nat, c: nat): Store
    requires IsBlock(s, b) && c < |s|
  {
    var line := s[c].startLine;
    var refs := s[b].body.lineRefs;
    s[b := s[b].(body := s[b].body.(components := s[b].body.components + [c],
                                    lineRefs := refs[line := RefsAt(refs, line) + [c]]))]
  }

  /** A new component that is added to its parent block at once. */
  function Append(s: Store, b: nat, line: int, body: Body): Store
    requires IsBlock(s, b)
  {
    Add(s + [Component(line, line, b, body)], b, |s|)
  }

  /** `list.remove` for a list that holds the element at most once. */
  function Without(ids: seq<nat>, c: nat): seq<nat> {
    if ids == [] then [] else if ids[0] == c then ids[1..] else [ids[0]] + Without(ids[1..], c)
  }

  /** `DHCPDConfBlock.remove_component` */
  function Remove(s: Store, b: nat, c: nat): Store
    requires IsBlock(s, b) && c < |s|
  {
    var line := s[c].startLine;
    var refs := s[b].body.lineRefs;
    s[b := s[b].(body := s[b].body.(components := Without(s[b].body.components, c),
                                    lineRefs := if line in refs then refs[line := Without(refs[line], c)] else refs))]
  }

  lemma ChildrenSnoc(s: Store, t: Store, b: nat, ids: seq<nat>, c: nat)
    requires ChildrenOf(s, b, ids) && b < c < |t| && t[c].parent == b
    requires |s| == |t| && forall i | 0 <= i < |s| :: t[i].parent == s[i].parent
    requires ids == [] || ids[|ids| - 1] < c
    ensures ChildrenOf(t, b, ids + [c])
  {
  }

  /** Every child already recorded in block `b` was created before `c`. */
  predicate NewestIn(s: Store, b: nat, c: nat)
    requires IsBlock(s, b)
  {
    && (forall k | 0 <= k < |s[b].body.components| :: s[b].body.components[k] < c)
    && (forall l | l in s[b].body.lineRefs :: forall k | 0 <= k < |s[b].body.lineRefs[l]| :: s[b].body.lineRefs[l][k] < c)
  }

  /** Later records may be new, and bodies may differ; parents and lines are the same. */
  predicate SameSkeleton(s: Store, t: Store) {
    |s| <= |t| && forall i | 0 <= i < |s| :: t[i].parent == s[i].parent && t[i].startLine == s[i].startLine
  }

  lemma ValidBlockFrame(s: Store, t: Store, b: nat)
    requires SameSkeleton(s, t) && IsBlock(s, b) && t[b].body == s[b].body && ValidBlock(s, b)
    ensures ValidBlock(t, b)
  {
    forall l | l in t[b].body.lineRefs ensures ChildrenOf(t, b, t[b].body.lineRefs[l]) {
      assert ChildrenOf(s, b, s[b].body.lineRefs[l]);
    }
  }

  lemma AddedBlock(s: Store, b: nat, c: nat)
    requires IsBlock(s, b) && ValidBlock(s, b) && b < c < |s| && s[c].parent == b && NewestIn(s, b, c)
    ensures ValidBlock(Add(s, b, c), b)
  {
    var t := Add(s, b, c);
    ChildrenSnoc(s, t, b, s[b].body.components, c);
    forall l | l in t[b].body.lineRefs
      ensures ChildrenOf(t, b, t[b].body.lineRefs[l])
      ensures forall x | x in t[b].body.lineRefs[l] :: t[x].startLine == l
    {
      if l in s[b].body.lineRefs { assert ChildrenOf(s, b, s[b].body.lineRefs[l]); }
      if l == s[c].startLine { ChildrenSnoc(s, t, b, RefsAt(s[b].body.lineRefs, l), c); }
    }
  }

  lemma AddValid(s: Store, b: nat, c: nat)
    requires Valid(s) && IsBlock(s, b) && b < c < |s| && s[c].parent == b
    requires NewestIn(s, b, c)
    ensures Valid(Add(s, b, c))
  {
    hide ValidBlock, NewestIn;
    var t := Add(s, b, c);
    forall i | 0 <= i < |t| && t[i].body.Block? ensures ValidBlock(t, i) {
      if i == b { AddedBlock(s, b, c); } else { ValidBlockFrame(s, t, i); }
    }
  }

  lemma NewValid(s: Store, comp: Component)
    requires Valid(s) && IsBlock(s, comp.parent)
    requires comp.body.Block? ==> comp.body.components == [] && comp.body.lineRefs == map[]
    ensures Valid(s + [comp])
  {
    var t := s + [comp];
    forall i | 0 <= i < |t| && t[i].body.Block? ensures ValidBlock(t, i) {
      if i < |s| { ValidBlockFrame(s, t, i); }
    }
  }

  lemma AppendValid(s: Store, b: nat, line: int, body: Body)
    requires Valid(s) && IsBlock(s, b)
    requires body.Block? ==> body.components == [] && body.lineRefs == map[]
    ensures Valid(Append(s, b, line, body))
  {
    var t := s + [Component(line, line, b, body)];
    NewValid(s, t[|s|]);
    assert ValidBlock(s, b);
    AddValid(t, b, |s|);
  }

  /** Removal keeps the order, and drops exactly one element. */
  lemma {:induction false} WithoutMembers(ids: seq<nat>, c: nat)
    requires Increasing(ids)
    ensures Increasing(Without(ids, c))
    ensures forall x :: x in Without(ids, c) <==> x in ids && x != c
  {
    if ids != [] {
      assert ids == [ids[0]] + ids[1..];
      if ids[0] == c {
        assert forall k | 0 <= k < |ids[1..]| :: ids[0] < ids[1..][k];
      } else {
        WithoutMembers(ids[1..], c);
        var w := Without(ids[1..], c);
        forall k | 0 <= k < |w| ensures ids[0] < w[k] { assert w[k] in ids[1..]; }
      }
    }
  }

  // ---- leaving components out ----

  /** The elements of `ids` outside `gone`, in order. */
  function Drop(ids: seq<nat>, gone: set<nat>): seq<nat> {
    if ids == [] then [] else if ids[0] in gone then Drop(ids[1..], gone) else [ids[0]] + Drop(ids[1..], gone)
  }

  ghost function Members(ids: seq<nat>): set<nat> {
    set c | c in ids
  }

  lemma {:induction false} DropOneMore(ids: seq<nat>, gone: set<nat>, c: nat)
    requires Increasing(ids)
    ensures Drop(ids, gone + {c}) == Without(Drop(ids, gone), c)
  {
    if ids != [] {
      DropOneMore(ids[1..], gone, c);
      var r := Drop(ids[1..], gone);
      if ids[0] !in gone {
        assert Drop(ids, gone) == [ids[0]] + r && ([ids[0]] + r)[1..] == r;
        if ids[0] == c {
          assert c !in ids[1..];
          DropNone(ids[1..], gone, c);
        }
      }
    }
  }

  lemma {:induction false} DropNone(ids: seq<nat>, gone: set<nat>, c: nat)
    requires c !in ids
    ensures Drop(ids, gone + {c}) == Drop(ids, gone)
  {
    if ids != [] {
      assert c != ids[0] && c !in ids[1..];
      DropNone(ids[1..], gone, c);
    }
  }

  lemma {:induction false} DropNothing(ids: seq<nat>)
    ensures Drop(ids, {}) == ids
  {
    if ids != [] { DropNothing(ids[1..]); }
  }

  lemma ChildrenWithout(s: Store, t: Store, b: nat, ids: seq<nat>, c: nat)
    requires ChildrenOf(s, b, ids)
    requires |s| == |t| && forall i | 0 <= i < |s| :: t[i].parent == s[i].parent
    ensures ChildrenOf(t, b, Without(ids, c))
    ensures forall x :: x in Without(ids, c) <==> x in ids && x != c
  {
    WithoutMembers(ids, c);
    var w := Without(ids, c);
    forall k | 0 <= k < |w| ensures b < w[k] < |s| && s[w[k]].parent == b { assert w[k] in ids; }
  }

  lemma RemovedBlock(s: Store, b: nat, c: nat)
    requires IsBlock(s, b) && ValidBlock(s, b) && c < |s|
    ensures ValidBlock(Remove(s, b, c), b)
  {
    var t := Remove(s, b, c);
    ChildrenWithout(s, t, b, s[b].body.components, c);
    forall l | l in t[b].body.lineRefs
      ensures ChildrenOf(t, b, t[b].body.lineRefs[l])
      ensures forall x | x in t[b].body.lineRefs[l] :: t[x].startLine == l
    {
      assert ChildrenOf(s, b, s[b].body.lineRefs[l]);
      ChildrenWithout(s, t, b, s[b].body.lineRefs[l], c);
    }
  }

  lemma RemoveValid(s: Store, b: nat, c: nat)
    requires Valid(s) && IsBlock(s, b) && c < |s|
    ensures Valid(Remove(s, b, c))
  {
    hide ValidBlock, Without;
    var t := Remove(s, b, c);
    forall i | 0 <= i < |t| && t[i].body.Block? ensures ValidBlock(t, i) {
      if i == b { RemovedBlock(s, b, c); } else { ValidBlockFrame(s, t, i); }
    }
  }

  // ---- the tree a store represents ----

  datatype Tree =
    | ParameterTree(key: string, value: Value)
    | ChoiceTree(name: string, values: seq<string>)
    | CommentTree(data: string)
    | EmptyTree
    | BlockTree(blockType: string, settings: seq<string>, kids: seq<Tree>)

  ghost function TreeAt(s: Store, i: nat): Tree
    requires Valid(s) && i < |s|
    decreases |s| - i, 1, 0
  {
    match s[i].body
    case Parameter(k, v) => ParameterTree(k, v)
    case Choice(k, vs) => ChoiceTree(k, vs)
    case Comment(d) => CommentTree(d)
    case EmptyLine => EmptyTree
    case Block(ty, st, cs, _) =>
      assert ValidBlock(s, i);
      BlockTree(ty, st, Forest(s, i, cs))
  }

  ghost function Forest(s: Store, b: nat, ids: seq<nat>): (f: seq<Tree>)
    requires Valid(s) && b < |s| && ChildrenOf(s, b, ids)
    ensures |f| == |ids|
    decreases |s| - b, 0, |ids|
  {
    if ids == [] then [] else [TreeAt(s, ids[0])] + Forest(s, b, ids[1..])
  }

  /** The trees directly in the global block. */
  ghost function Contents(s: Store): seq<Tree>
    requires Valid(s)
  {
    assert ValidBlock(s, GLOBAL);
    Forest(s, GLOBAL, s[GLOBAL].body.components)
  }

  lemma ChildrenSplit(s: Store, b: nat, xs: seq<nat>, ys: seq<nat>)
    requires ChildrenOf(s, b, xs + ys)
    ensures ChildrenOf(s, b, xs) && ChildrenOf(s, b, ys)
  {
    forall j, k | 0 <= j < k < |xs| ensures xs[j] < xs[k] { assert (xs + ys)[j] < (xs + ys)[k]; }
    forall j, k | 0 <= j < k < |ys| ensures ys[j] < ys[k] { assert (xs + ys)[|xs| + j] < (xs + ys)[|xs| + k]; }
    forall k | 0 <= k < |xs| ensures b < xs[k] < |s| && s[xs[k]].parent == b { assert (xs + ys)[k] == xs[k]; }
    forall k | 0 <= k < |ys| ensures b < ys[k] < |s| && s[ys[k]].parent == b { assert (xs + ys)[|xs| + k] == ys[k]; }
  }

  lemma {:induction false} ForestConcat(s: Store, b: nat, xs: seq<nat>, ys: seq<nat>)
    requires Valid(s) && b < |s| && ChildrenOf(s, b, xs + ys)
    ensures ChildrenOf(s, b, xs) && ChildrenOf(s, b, ys)
    ensures Forest(s, b, xs + ys) == Forest(s, b, xs) + Forest(s, b, ys)
  {
    hide Valid, TreeAt, ChildrenOf;
    ChildrenSplit(s, b, xs, ys);
    if xs == [] {
      assert xs + ys == ys;
    } else {
      var all := xs + ys;
      assert all[1..] == xs[1..] + ys && all == [xs[0]] + all[1..] && xs == [xs[0]] + xs[1..];
      ChildrenSplit(s, b, [xs[0]], all[1..]);
      ChildrenSplit(s, b, [xs[0]], xs[1..]);
      ForestConcat(s, b, xs[1..], ys);
      FirstTree(s, b, all);
      FirstTree(s, b, xs);
    }
  }

  lemma FirstTree(s: Store, b: nat, ids: seq<nat>)
    requires Valid(s) && b < |s| && ChildrenOf(s, b, ids) && ids != []
    ensures ids[0] < |s| && ChildrenOf(s, b, ids[1..])
    ensures Forest(s, b, ids) == [TreeAt(s, ids[0])] + Forest(s, b, ids[1..])
  {
    hide Valid, TreeAt;
  }

  /** The records strictly above index `b` are the same in both stores. */
  predicate AgreeAbove(s: Store, t: Store, b: nat) {
    |s| <= |t| && forall i | b < i < |s| :: t[i] == s[i]
  }

  lemma {:induction false} TreeFrame(s: Store, t: Store, b: nat, i: nat)
    requires Valid(s) && Valid(t) && AgreeAbove(s, t, b) && b < i < |s|
    ensures TreeAt(s, i) == TreeAt(t, i)
    decreases |s| - i, 1, 0
  {
    if s[i].body.Block? {
      assert ValidBlock(s, i) && ValidBlock(t, i);
      ForestFrame(s, t, b, i, s[i].body.components);
    }
  }

  lemma {:induction false} ForestFrame(s: Store, t: Store, b: nat, p: nat, ids: seq<nat>)
    requires Valid(s) && Valid(t) && AgreeAbove(s, t, b) && b <= p < |s|
    requires ChildrenOf(s, p, ids)
    ensures ChildrenOf(t, p, ids) && Forest(s, p, ids) == Forest(t, p, ids)
    decreases |s| - p, 0, |ids|
  {
    if ids != [] {
      TreeFrame(s, t, b, ids[0]);
      ForestFrame(s, t, b, p, ids[1..]);
    }
  }
}
