/** The forest shown for a run's log (web/src/lib/run-log.ts, `buildTree`). */
module RunTree {
  import opened Prelude
  import opened Forest
  import opened RunEvents
  import opened LiveNodes

  /** A wrapped log node whose children are pushed as the log is scanned. */
  class TreeNode {
    const node: LiveNode
    var children: seq<TreeNode>

    constructor (node: LiveNode)
      ensures this.node == node && children == []
    {
      this.node := node;
      children := [];
    }
  }

  /*** Specification: positions instead of objects ***/

  function LiveIds(nodes: seq<LiveNode>): (ids: seq<string>)
    ensures |ids| == |nodes| && forall i | 0 <= i < |nodes| :: ids[i] == nodes[i].id
  {
    seq(|nodes|, i requires 0 <= i < |nodes| => nodes[i].id)
  }

  /** Where a node hangs: an absent, empty or unknown parent id makes it a root, a repeated one means its last node. */
  function ParentAt(nodes: seq<LiveNode>, i: nat): (p: Option<nat>)
    requires i < |nodes|
    ensures p.Some? ==> p.value < |nodes|
  {
    var parent := nodes[i].parent;
    if parent.None? || parent.value == "" then None else LastPosition(LiveIds(nodes), parent.value)
  }

  /** Exactly which node that is. */
  lemma ParentIsLastNamed(nodes: seq<LiveNode>, i: nat, p: nat)
    requires i < |nodes| && p < |nodes|
    ensures ParentAt(nodes, i) == Some(p)
       <==> nodes[i].parent == Some(nodes[p].id) && nodes[p].id != ""
            && forall q | p < q < |nodes| :: nodes[q].id != nodes[p].id
  {
    var parent := nodes[i].parent;
    if parent.Some? {
      var at := LastPosition(LiveIds(nodes), parent.value);
      assert LiveIds(nodes)[p] == nodes[p].id;
    }
  }

  function Parents(nodes: seq<LiveNode>): (links: Links)
    ensures |links| == |nodes| && forall i | 0 <= i < |nodes| :: links[i] == ParentAt(nodes, i)
  {
    seq(|nodes|, i requires 0 <= i < |nodes| => ParentAt(nodes, i))
  }

  /** The objects at the given positions. */
  ghost function At(wrapped: seq<TreeNode>, positions: seq<nat>): (objs: seq<TreeNode>)
    requires forall a | 0 <= a < |positions| :: positions[a] < |wrapped|
    ensures |objs| == |positions| && forall a | 0 <= a < |positions| :: objs[a] == wrapped[positions[a]]
  {
    seq(|positions|, a requires 0 <= a < |positions| => wrapped[positions[a]])
  }

  /** `wrapped` holds one object per log node; each object's children, and the roots, are in log order. */
  ghost predicate IsForestOf(nodes: seq<LiveNode>, wrapped: seq<TreeNode>, roots: seq<TreeNode>, k: nat)
    requires k <= |nodes|
    reads wrapped
  {
    && |wrapped| == |nodes|
    && (forall i, j | 0 <= i < j < |wrapped| :: wrapped[i] != wrapped[j])
    && (forall i | 0 <= i < |wrapped| :: wrapped[i].node == nodes[i])
    && (forall i: nat {:trigger wrapped[i].children} | i < |wrapped| ::
          wrapped[i].children == At(wrapped, Kids(Parents(nodes), Some(i), k)))
    && roots == At(wrapped, Kids(Parents(nodes), None, k))
  }

  lemma KidsStep(links: Links, wrapped: seq<TreeNode>, p: Option<nat>, k: nat)
    requires k < |links| == |wrapped|
    ensures At(wrapped, Kids(links, p, k + 1))
         == At(wrapped, Kids(links, p, k)) + if links[k] == p then [wrapped[k]] else []
  {
    var a, b := Kids(links, p, k), Kids(links, p, k + 1);
    assert b == a + if links[k] == p then [k] else [];
  }

  lemma KidsSteps(links: Links, wrapped: seq<TreeNode>, k: nat)
    requires k < |links| == |wrapped|
    ensures forall i: nat | i < |wrapped| ::
              At(wrapped, Kids(links, Some(i), k + 1))
                == At(wrapped, Kids(links, Some(i), k)) + if links[k] == Some(i) then [wrapped[k]] else []
    ensures At(wrapped, Kids(links, None, k + 1))
         == At(wrapped, Kids(links, None, k)) + if links[k] == None then [wrapped[k]] else []
  {
    forall i: nat | i < |wrapped|
      ensures At(wrapped, Kids(links, Some(i), k + 1))
           == At(wrapped, Kids(links, Some(i), k)) + if links[k] == Some(i) then [wrapped[k]] else []
    {
      KidsStep(links, wrapped, Some(i), k);
    }
    KidsStep(links, wrapped, None, k);
  }

  method Wrap(nodes: seq<LiveNode>) returns (wrapped: seq<TreeNode>)
    ensures |wrapped| == |nodes| && fresh(wrapped)
    ensures forall i | 0 <= i < |nodes| :: wrapped[i].node == nodes[i] && wrapped[i].children == []
    ensures forall i, j | 0 <= i < j < |wrapped| :: wrapped[i] != wrapped[j]
  {
    wrapped := [];
    for i := 0 to |nodes|
      invariant |wrapped| == i && fresh(wrapped)
      invariant forall a | 0 <= a < i :: wrapped[a].node == nodes[a] && wrapped[a].children == []
      invariant forall a, b | 0 <= a < b < i :: wrapped[a] != wrapped[b]
    {
      var n := new TreeNode(nodes[i]);
      wrapped := wrapped + [n];
    }
  }

  method Index(nodes: seq<LiveNode>, wrapped: seq<TreeNode>) returns (byId: map<string, TreeNode>)
    requires |wrapped| == |nodes| && forall i | 0 <= i < |nodes| :: wrapped[i].node == nodes[i]
    ensures forall id :: id in byId <==> LastPosition(LiveIds(nodes), id).Some?
    ensures forall id | id in byId :: byId[id] == wrapped[LastPosition(LiveIds(nodes), id).value]
  {
    byId := map[];
    ghost var ids := LiveIds(nodes);
    for i := 0 to |nodes|
      invariant forall id :: id in byId <==> LastPosition(ids[..i], id).Some?
      invariant forall id | id in byId :: byId[id] == wrapped[LastPosition(ids[..i], id).value]
    {
      assert ids[..i + 1][..i] == ids[..i];
      byId := byId[wrapped[i].node.id := wrapped[i]];
    }
    assert ids[..|nodes|] == ids;
  }

  method PushTo(parent: TreeNode, ghost wrapped: seq<TreeNode>, ghost p: nat, n: TreeNode)
    requires p < |wrapped| && parent == wrapped[p]
    requires forall i, j | 0 <= i < j < |wrapped| :: wrapped[i] != wrapped[j]
    modifies parent
    ensures forall i: nat {:trigger wrapped[i].children} | i < |wrapped| ::
              wrapped[i].children == old(wrapped[i].children) + if i == p then [n] else []
  {
    parent.children := parent.children + [n];
  }

  /** Hangs node `k` under its parent, or makes it a root. */
  method Link(nodes: seq<LiveNode>, wrapped: seq<TreeNode>, byId: map<string, TreeNode>, roots: seq<TreeNode>, k: nat)
    returns (next: seq<TreeNode>)
    requires k < |nodes| && IsForestOf(nodes, wrapped, roots, k)
    requires forall id :: id in byId <==> LastPosition(LiveIds(nodes), id).Some?
    requires forall id | id in byId :: byId[id] == wrapped[LastPosition(LiveIds(nodes), id).value]
    modifies wrapped
    ensures IsForestOf(nodes, wrapped, next, k + 1)
  {
    var n := wrapped[k];
    var pid := n.node.parent;
    KidsSteps(Parents(nodes), wrapped, k);
    if pid.Some? && pid.value != "" && pid.value in byId {
      ghost var p := LastPosition(LiveIds(nodes), pid.value).value;
      assert ParentAt(nodes, k) == Some(p);
      PushTo(byId[pid.value], wrapped, p, n);
      next := roots;
    } else {
      assert ParentAt(nodes, k) == None;
      next := roots + [n];
    }
  }

  /*** The objects ***/

  ghost predicate Closed(wrapped: seq<TreeNode>)
    reads wrapped
  {
    forall w | w in wrapped :: forall c | c in w.children :: c in wrapped
  }

  /** The children of one of the wrapped objects. */
  ghost function ChildrenOf(wrapped: seq<TreeNode>, o: TreeNode): seq<TreeNode>
    reads wrapped
  {
    if o in wrapped then o.children else []
  }

  /** All objects at or below `objs`, depth first, down to `depth` levels. */
  ghost function FlattenTree(wrapped: seq<TreeNode>, objs: seq<TreeNode>, depth: nat): seq<TreeNode>
    reads wrapped
    decreases depth, |objs|
  {
    if objs == [] || depth == 0 then []
    else
      [objs[0]] + FlattenTree(wrapped, ChildrenOf(wrapped, objs[0]), depth - 1) + FlattenTree(wrapped, objs[1..], depth)
  }

  lemma AtInWrapped(wrapped: seq<TreeNode>, positions: seq<nat>)
    requires forall a | 0 <= a < |positions| :: positions[a] < |wrapped|
    ensures forall o | o in At(wrapped, positions) :: o in wrapped
  {
  }

  lemma ForestIsClosed(nodes: seq<LiveNode>, wrapped: seq<TreeNode>, roots: seq<TreeNode>)
    requires IsForestOf(nodes, wrapped, roots, |nodes|)
    ensures Closed(wrapped) && forall r | r in roots :: r in wrapped
  {
    forall w | w in wrapped ensures forall c | c in w.children :: c in wrapped {
      var i: nat :| i < |wrapped| && wrapped[i] == w;
      AtInWrapped(wrapped, Kids(Parents(nodes), Some(i), |nodes|));
    }
    AtInWrapped(wrapped, Kids(Parents(nodes), None, |nodes|));
  }

  lemma AtThree(wrapped: seq<TreeNode>, x: nat, a: seq<nat>, b: seq<nat>)
    requires x < |wrapped| && Positions(a, |wrapped|) && Positions(b, |wrapped|)
    ensures Positions([x] + a + b, |wrapped|)
    ensures At(wrapped, [x] + a + b) == [wrapped[x]] + At(wrapped, a) + At(wrapped, b)
  {
  }

  /** The first `n` objects hold the children their positions have. */
  ghost predicate Linked(links: Links, wrapped: seq<TreeNode>, n: nat)
    requires n <= |wrapped| == |links|
    reads wrapped
  {
    n == 0
    || (Linked(links, wrapped, n - 1) && wrapped[n - 1].children == At(wrapped, Kids(links, Some(n - 1), |links|)))
  }

  lemma {:induction false} ForestIsLinked(nodes: seq<LiveNode>, wrapped: seq<TreeNode>, roots: seq<TreeNode>, n: nat)
    requires IsForestOf(nodes, wrapped, roots, |nodes|) && n <= |nodes|
    ensures Linked(Parents(nodes), wrapped, n)
  {
    if n > 0 {
      ForestIsLinked(nodes, wrapped, roots, n - 1);
    }
  }

  lemma {:induction false} ChildrenAre(links: Links, wrapped: seq<TreeNode>, n: nat, x: nat)
    requires x < n <= |wrapped| == |links| && Linked(links, wrapped, n)
    ensures ChildrenOf(wrapped, wrapped[x]) == At(wrapped, Kids(links, Some(x), |links|))
  {
    if x < n - 1 {
      ChildrenAre(links, wrapped, n - 1, x);
    }
  }

  /** The objects met from a level's objects are those at the positions met from the level. */
  ghost predicate Mirrors(links: Links, wrapped: seq<TreeNode>, level: seq<nat>, depth: nat)
    requires |wrapped| == |links| && Positions(level, |links|)
    reads wrapped
  {
    FlattenTree(wrapped, At(wrapped, level), depth) == At(wrapped, Flatten(links, level, depth))
  }

  /** Flattening objects is flattening their positions. */
  lemma {:induction false} TreeFlattens(links: Links, wrapped: seq<TreeNode>, level: seq<nat>, depth: nat)
    requires |wrapped| == |links| && Linked(links, wrapped, |links|) && Positions(level, |links|)
    ensures Mirrors(links, wrapped, level, depth)
    decreases depth, |level|
  {
    if level != [] && depth > 0 {
      TreeFlattens(links, wrapped, Kids(links, Some(level[0]), |links|), depth - 1);
      TreeFlattens(links, wrapped, level[1..], depth);
      LevelFlattens(links, wrapped, level, depth);
    } else {
      NothingFlattens(links, wrapped, level, depth);
    }
  }

  lemma LevelFlattens(links: Links, wrapped: seq<TreeNode>, level: seq<nat>, depth: nat)
    requires |wrapped| == |links| && Linked(links, wrapped, |links|)
    requires Positions(level, |links|) && level != [] && depth > 0
    requires Mirrors(links, wrapped, Kids(links, Some(level[0]), |links|), depth - 1)
    requires Mirrors(links, wrapped, level[1..], depth)
    ensures Mirrors(links, wrapped, level, depth)
  {
    var kids, rest := Kids(links, Some(level[0]), |links|), level[1..];
    ChildrenAre(links, wrapped, |links|, level[0]);
    TreeStep(wrapped, level, kids, Flatten(links, kids, depth - 1), Flatten(links, rest, depth), depth);
  }

  lemma NothingFlattens(links: Links, wrapped: seq<TreeNode>, level: seq<nat>, depth: nat)
    requires |wrapped| == |links| && Positions(level, |links|) && (level == [] || depth == 0)
    ensures Mirrors(links, wrapped, level, depth)
  {
  }

  lemma TreeStep(wrapped: seq<TreeNode>, level: seq<nat>, kids: seq<nat>, a: seq<nat>, b: seq<nat>, depth: nat)
    requires level != [] && depth > 0
    requires Positions(level, |wrapped|) && Positions(kids, |wrapped|) && Positions(a, |wrapped|)
    requires Positions(b, |wrapped|)
    requires ChildrenOf(wrapped, wrapped[level[0]]) == At(wrapped, kids)
    requires FlattenTree(wrapped, At(wrapped, kids), depth - 1) == At(wrapped, a)
    requires FlattenTree(wrapped, At(wrapped, level[1..]), depth) == At(wrapped, b)
    ensures Positions([level[0]] + a + b, |wrapped|)
    ensures FlattenTree(wrapped, At(wrapped, level), depth) == At(wrapped, [level[0]] + a + b)
  {
    var objs := At(wrapped, level);
    assert objs[0] == wrapped[level[0]] && objs[1..] == At(wrapped, level[1..]);
    AtThree(wrapped, level[0], a, b);
  }

  lemma ForestFlattens(nodes: seq<LiveNode>, wrapped: seq<TreeNode>, roots: seq<TreeNode>)
    requires IsForestOf(nodes, wrapped, roots, |nodes|)
    ensures forall depth: nat | |nodes| <= depth ::
              FlattenTree(wrapped, roots, depth) == At(wrapped, FlattenForest(Parents(nodes)))
  {
    var links := Parents(nodes);
    ForestIsLinked(nodes, wrapped, roots, |nodes|);
    RootsAreLevel(links);
    forall depth: nat | |nodes| <= depth
      ensures FlattenTree(wrapped, roots, depth) == At(wrapped, FlattenForest(Parents(nodes)))
    {
      TreeFlattens(links, wrapped, Roots(links), depth);
      DeepEnough(links, Roots(links), 0, |nodes|, depth);
    }
  }

  /**
    The loops of `buildTree`: one object per log node, each child list and the roots in log order; walking the tree
    from the roots meets only those objects, exactly those of the flattened forest, in that order.
   */
  method BuildTree(nodes: seq<LiveNode>) returns (roots: seq<TreeNode>, ghost wrapped: seq<TreeNode>)
    ensures IsForestOf(nodes, wrapped, roots, |nodes|)
    ensures fresh(wrapped)
    ensures Closed(wrapped) && forall r | r in roots :: r in wrapped
    ensures forall depth: nat | |nodes| <= depth ::
              FlattenTree(wrapped, roots, depth) == At(wrapped, FlattenForest(Parents(nodes)))
  {
    var objs := Wrap(nodes);
    var byId := Index(nodes, objs);
    roots := [];
    for k := 0 to |nodes|
      invariant fresh(objs) && IsForestOf(nodes, objs, roots, k)
    {
      roots := Link(nodes, objs, byId, roots, k);
    }
    wrapped := objs;
    ForestIsClosed(nodes, wrapped, roots);
    ForestFlattens(nodes, wrapped, roots);
  }

  /*** Logs of the translator ***/

  lemma {:induction false} LiveCarriesNodes(fs: seq<Frame>)
    ensures |Live(fs)| == |Nodes(fs)|
    ensures forall i | 0 <= i < |Live(fs)| ::
      Live(fs)[i].id == Nodes(fs)[i].id && Live(fs)[i].parent == Nodes(fs)[i].parent
  {
    if fs != [] {
      LiveCarriesNodes(fs[..|fs| - 1]);
    }
  }

  lemma WellFormedParents(fs: seq<Frame>, i: nat)
    requires WellFormedLog(fs) && i < |Live(fs)|
    ensures var p := ParentAt(Live(fs), i);
            if Live(fs)[i].parent.None? || Live(fs)[i].parent.value == "" then p.None?
            else p.Some? && p.value < i && Live(fs)[p.value].id == Live(fs)[i].parent.value
  {
    LiveCarriesNodes(fs);
    var parent := Nodes(fs)[i].parent;
    if parent.Some? && parent.value != "" {
      var j :| 0 <= j < i && Nodes(fs)[j].id == parent.value;
      assert Live(fs)[j].id == parent.value;
      var k := LastPosition(LiveIds(Live(fs)), parent.value).value;
      assert Nodes(fs)[k].id == Nodes(fs)[j].id;
    }
  }

  /**
    No node is lost: for every run, the forest built from the live log holds each node exactly once, each under
    the parent its frame announced.
   */
  lemma NoNodeLost(es: seq<Event>)
    requires FreshTools(es)
    ensures var nodes := Live(FramesAfter(es));
            HoldsEachOnce(Parents(nodes))
            && forall i: nat | i < |nodes| && nodes[i].parent.Some? && nodes[i].parent.value != "" ::
                 ParentAt(nodes, i).Some? && nodes[ParentAt(nodes, i).value].id == nodes[i].parent.value
  {
    LogIsWellFormed(es);
    var nodes := Live(FramesAfter(es));
    forall i: nat | i < |nodes|
      ensures ParentAt(nodes, i).Some? ==> ParentAt(nodes, i).value < i
      ensures nodes[i].parent.Some? && nodes[i].parent.value != "" ==>
        ParentAt(nodes, i).Some? && nodes[ParentAt(nodes, i).value].id == nodes[i].parent.value
    {
      WellFormedParents(FramesAfter(es), i);
    }
    OrderedForestIsComplete(Parents(nodes));
  }

  /** An instance of the loss: a node that names itself as its parent is its own ancestor, and the forest is empty. */
  lemma SelfParentIsLost(n: LiveNode)
    requires n.parent == Some(n.id) && n.id != ""
    ensures OwnAncestor(Parents([n]), 0) && FlattenForest(Parents([n])) == []
  {
    assert LastPosition(LiveIds([n]), n.id) == Some(0);
    ParentIsUpOne(Parents([n]), 0);
    assert Kids(Parents([n]), None, 0) == [];
  }

  /** Order alone loses nothing: a child listed before its parent is found and kept under it. */
  lemma ChildFirstIsKept(child: LiveNode, parent: LiveNode)
    requires child.parent == Some(parent.id) && parent.parent.None? && parent.id != "" && child.id != parent.id
    ensures var links := Parents([child, parent]); !ParentsBefore(links) && FlattenForest(links) == [1, 0]
  {
    var nodes := [child, parent];
    assert LastPosition(LiveIds(nodes), parent.id) == Some(1);
    assert ParentAt(nodes, 0) == Some(1) && ParentAt(nodes, 1) == None;
    TwoKids(Parents(nodes), None);
    TwoKids(Parents(nodes), Some(1));
    TwoKids(Parents(nodes), Some(0));
    FlattenTwo(Parents(nodes));
  }
}
