/** Forests given by parent links: which positions a walk from the roots meets. */
module Forest {
  import opened Prelude

  /** For each position the position of its parent; a root has none. */
  type Links = links: seq<Option<nat>> | forall i | 0 <= i < |links| && links[i].Some? :: links[i].value < |links|

  /** The positions below `k` that hang under `p`, in log order. */
  function Kids(links: Links, p: Option<nat>, k: nat): (kids: seq<nat>)
    requires k <= |links|
    ensures forall a | 0 <= a < |kids| :: kids[a] < k
  {
    if k == 0 then []
    else
      var before := Kids(links, p, k - 1);
      if links[k - 1] == p then before + [k - 1] else before
  }

  predicate Ordered(s: seq<nat>) {
    forall a, b | 0 <= a < b < |s| :: s[a] < s[b]
  }

  /** Children are listed in log order. */
  lemma {:induction false} KidsInOrder(links: Links, p: Option<nat>, k: nat)
    requires k <= |links|
    ensures Ordered(Kids(links, p, k))
  {
    if k > 0 {
      KidsInOrder(links, p, k - 1);
      var before, kids := Kids(links, p, k - 1), Kids(links, p, k);
      forall a, b | 0 <= a < b < |kids| ensures kids[a] < kids[b] {
        assert a < |before| ==> before[a] == kids[a];
      }
    }
  }

  /** Exactly the positions that hang under `p` are listed. */
  lemma {:induction false} KidsAreAll(links: Links, p: Option<nat>, k: nat, i: nat)
    requires i < k <= |links|
    ensures i in Kids(links, p, k) <==> links[i] == p
  {
    var before, all := Kids(links, p, k - 1), Kids(links, p, k);
    assert all == before + if links[k - 1] == p then [k - 1] else [];
    if i < k - 1 {
      KidsAreAll(links, p, k - 1, i);
    } else {
      assert i !in before;
    }
  }

  /*** Depth ***/

  /** The chain of parents of `i` ends at a root after exactly `d` steps. */
  predicate AtDepth(links: Links, i: nat, d: nat)
    requires i < |links|
    decreases d
  {
    match links[i]
    case None => d == 0
    case Some(p) => d > 0 && AtDepth(links, p, d - 1)
  }

  /** The ancestor `n` steps above `i`, if the chain of parents is that long. */
  function Up(links: Links, i: nat, n: nat): (a: Option<nat>)
    requires i < |links|
    ensures a.Some? ==> a.value < |links|
    decreases n
  {
    if n == 0 then Some(i)
    else match links[i]
      case None => None
      case Some(p) => Up(links, p, n - 1)
  }

  ghost predicate Grounded(links: Links, i: nat)
    requires i < |links|
  {
    exists d: nat :: AtDepth(links, i, d)
  }

  ghost predicate OwnAncestor(links: Links, i: nat)
    requires i < |links|
  {
    exists n: nat | n > 0 :: Up(links, i, n) == Some(i)
  }

  lemma {:induction false} UpAdd(links: Links, i: nat, m: nat, n: nat)
    requires i < |links|
    ensures Up(links, i, m + n) == if Up(links, i, m).None? then None else Up(links, Up(links, i, m).value, n)
    decreases m
  {
    if m > 0 && links[i].Some? {
      UpAdd(links, links[i].value, m - 1, n);
    }
  }

  lemma {:induction false} DepthUp(links: Links, i: nat, d: nat, n: nat)
    requires i < |links| && AtDepth(links, i, d)
    ensures n <= d ==> Up(links, i, n).Some? && AtDepth(links, Up(links, i, n).value, d - n)
    ensures n > d ==> Up(links, i, n).None?
    decreases n
  {
    if n > 0 && links[i].Some? {
      DepthUp(links, links[i].value, d - 1, n - 1);
    }
  }

  lemma {:induction false} DepthUnique(links: Links, i: nat, d: nat, e: nat)
    requires i < |links| && AtDepth(links, i, d) && AtDepth(links, i, e)
    ensures d == e
    decreases d
  {
    if d > 0 {
      DepthUnique(links, links[i].value, d - 1, e - 1);
    }
  }

  lemma {:induction false} EndsGrounded(links: Links, i: nat, n: nat)
    requires i < |links| && Up(links, i, n).None?
    ensures Grounded(links, i)
    decreases n
  {
    match links[i]
    case None => assert AtDepth(links, i, 0);
    case Some(p) =>
      EndsGrounded(links, p, n - 1);
      var d: nat :| AtDepth(links, p, d);
      assert AtDepth(links, i, d + 1);
  }

  /** More numbers than values: two of them are equal. */
  lemma {:induction false} Pigeonhole(s: seq<nat>, n: nat) returns (a: nat, b: nat)
    requires |s| > n && forall k | 0 <= k < |s| :: s[k] < n
    ensures a < b < |s| && s[a] == s[b]
    decreases n
  {
    var last := |s| - 1;
    var v := s[last];
    if v in s[..last] {
      a :| 0 <= a < last && s[..last][a] == v;
      b := last;
    } else {
      var t := seq(last, k requires 0 <= k < last => if s[k] == n - 1 then v else s[k]);
      forall k | 0 <= k < last ensures t[k] < n - 1 {
        assert s[..last][k] == s[k];
      }
      a, b := Pigeonhole(t, n - 1);
      assert s[..last][a] == s[a] && s[..last][b] == s[b];
    }
  }

  /** A chain longer than the list meets some node twice. */
  lemma ChainRepeats(links: Links, i: nat) returns (a: nat, b: nat)
    requires i < |links| && forall n: nat | n <= |links| :: Up(links, i, n).Some?
    ensures a < b <= |links| && Up(links, i, a) == Up(links, i, b)
  {
    var s := seq(|links| + 1, n requires 0 <= n <= |links| => Up(links, i, n).value);
    a, b := Pigeonhole(s, |links|);
    assert s[a] == Up(links, i, a).value && s[b] == Up(links, i, b).value;
  }

  lemma DepthBound(links: Links, i: nat, d: nat)
    requires i < |links| && AtDepth(links, i, d)
    ensures d < |links|
  {
    if d >= |links| {
      forall n: nat | n <= |links| ensures Up(links, i, n).Some? {
        DepthUp(links, i, d, n);
      }
      var a, b := ChainRepeats(links, i);
      DepthUp(links, i, d, a);
      DepthUp(links, i, d, b);
      OnlyDepth(links, Up(links, i, a).value, d - a);
    }
  }

  /** A node's chain never ends exactly when it runs into a node that is its own ancestor. */
  lemma GroundedUnlessCyclic(links: Links, i: nat)
    requires i < |links|
    ensures !Grounded(links, i) <==> exists n: nat :: Up(links, i, n).Some? && OwnAncestor(links, Up(links, i, n).value)
  {
    if !Grounded(links, i) {
      forall n: nat | n <= |links| ensures Up(links, i, n).Some? {
        if Up(links, i, n).None? {
          EndsGrounded(links, i, n);
        }
      }
      var a, b := ChainRepeats(links, i);
      var x := Up(links, i, a).value;
      UpAdd(links, i, a, b - a);
      assert Up(links, x, b - a) == Some(x);
      assert OwnAncestor(links, x);
    } else {
      var d: nat :| AtDepth(links, i, d);
      forall n: nat | Up(links, i, n).Some? ensures !OwnAncestor(links, Up(links, i, n).value) {
        DepthUp(links, i, d, n);
        GroundedIsNotOwnAncestor(links, Up(links, i, n).value, d - n);
      }
    }
  }

  lemma GroundedIsNotOwnAncestor(links: Links, i: nat, d: nat)
    requires i < |links| && AtDepth(links, i, d)
    ensures !OwnAncestor(links, i)
  {
    OnlyDepth(links, i, d);
    forall n: nat | n > 0 ensures Up(links, i, n) != Some(i) {
      DepthUp(links, i, d, n);
    }
  }

  lemma OnlyDepth(links: Links, i: nat, d: nat)
    requires i < |links| && AtDepth(links, i, d)
    ensures forall e: nat | AtDepth(links, i, e) :: e == d
  {
    forall e: nat | AtDepth(links, i, e) ensures e == d {
      DepthUnique(links, i, d, e);
    }
  }

  /*** Flattening the forest ***/

  predicate Positions(s: seq<nat>, n: nat) {
    forall a | 0 <= a < |s| :: s[a] < n
  }

  /** All positions at or below `level`, depth first, down to `depth` levels. */
  function Flatten(links: Links, level: seq<nat>, depth: nat): (all: seq<nat>)
    requires Positions(level, |links|)
    ensures Positions(all, |links|)
    decreases depth, |level|
  {
    if level == [] || depth == 0 then []
    else
      [level[0]] + Flatten(links, Kids(links, Some(level[0]), |links|), depth - 1) + Flatten(links, level[1..], depth)
  }

  function Roots(links: Links): (roots: seq<nat>)
    ensures Positions(roots, |links|)
  {
    Kids(links, None, |links|)
  }

  /** The whole forest, depth first; no node lies deeper than there are nodes. */
  function FlattenForest(links: Links): seq<nat> {
    Flatten(links, Roots(links), |links|)
  }

  predicate NoRepeats(s: seq<nat>) {
    s == [] || (s[0] !in s[1..] && NoRepeats(s[1..]))
  }

  lemma {:induction false} OrderedNoRepeats(s: seq<nat>)
    requires Ordered(s)
    ensures NoRepeats(s)
  {
    if s != [] {
      OrderedNoRepeats(s[1..]);
    }
  }

  /** Some nodes `d` steps below the roots, each once. */
  predicate Level(links: Links, level: seq<nat>, d: nat) {
    Positions(level, |links|) && NoRepeats(level) && forall a | 0 <= a < |level| :: AtDepth(links, level[a], d)
  }

  lemma KidsAreLevel(links: Links, x: nat, d: nat)
    requires x < |links| && AtDepth(links, x, d)
    ensures Level(links, Kids(links, Some(x), |links|), d + 1)
  {
    var kids := Kids(links, Some(x), |links|);
    KidsInOrder(links, Some(x), |links|);
    OrderedNoRepeats(kids);
    forall a | 0 <= a < |kids| ensures AtDepth(links, kids[a], d + 1) {
      KidsAreAll(links, Some(x), |links|, kids[a]);
    }
  }

  lemma RootsAreLevel(links: Links)
    ensures Level(links, Roots(links), 0)
  {
    var roots := Roots(links);
    KidsInOrder(links, None, |links|);
    OrderedNoRepeats(roots);
    forall a | 0 <= a < |roots| ensures AtDepth(links, roots[a], 0) {
      KidsAreAll(links, None, |links|, roots[a]);
    }
  }

  lemma RestIsLevel(links: Links, level: seq<nat>, d: nat)
    requires Level(links, level, d) && level != []
    ensures Level(links, level[1..], d)
  {
  }

  /** The ancestor of `j` on the level `d` steps below the roots is among `level`; `e` is the depth of `j`. */
  predicate Hit(links: Links, level: seq<nat>, d: nat, j: nat, e: nat)
    requires j < |links|
  {
    e >= d && Up(links, j, e - d).Some? && Up(links, j, e - d).value in level
  }

  function One(b: bool): nat {
    if b then 1 else 0
  }

  lemma HitSplits(links: Links, level: seq<nat>, rest: seq<nat>, d: nat, j: nat, e: nat)
    requires Level(links, level, d) && level != [] && rest == level[1..] && j < |links| && AtDepth(links, j, e)
    ensures One(Hit(links, level, d, j, e))
         == One(level[0] == j) + One(Hit(links, Kids(links, Some(level[0]), |links|), d + 1, j, e))
            + One(Hit(links, rest, d, j, e))
  {
    var x := level[0];
    assert level == [x] + rest;
    if x == j {
      DepthUnique(links, j, d, e);
    }
    if e > d {
      HitBelow(links, x, d, j, e);
    }
  }

  /** The ancestor one level down is a child of `x` exactly when the ancestor on this level is `x`. */
  lemma HitBelow(links: Links, x: nat, d: nat, j: nat, e: nat)
    requires x < |links| && AtDepth(links, x, d) && j < |links| && AtDepth(links, j, e) && e > d
    ensures Up(links, j, e - d).Some?
    ensures Hit(links, Kids(links, Some(x), |links|), d + 1, j, e) <==> Up(links, j, e - d) == Some(x)
  {
    var m: nat := e - d - 1;
    DepthUp(links, j, e, m);
    DepthUp(links, j, e, m + 1);
    KidIsBelow(links, x, j, m);
  }

  lemma KidIsBelow(links: Links, x: nat, j: nat, m: nat)
    requires x < |links| && j < |links| && Up(links, j, m).Some?
    ensures Up(links, j, m).value in Kids(links, Some(x), |links|) <==> Up(links, j, m + 1) == Some(x)
  {
    UpNext(links, j, m);
    KidsAreAll(links, Some(x), |links|, Up(links, j, m).value);
  }

  lemma UpNext(links: Links, j: nat, m: nat)
    requires j < |links| && Up(links, j, m).Some?
    ensures Up(links, j, m + 1) == links[Up(links, j, m).value]
  {
    UpAdd(links, j, m, 1);
    ParentIsUpOne(links, Up(links, j, m).value);
  }

  lemma ParentIsUpOne(links: Links, i: nat)
    requires i < |links|
    ensures Up(links, i, 1) == links[i]
  {
    if links[i].Some? {
      assert Up(links, links[i].value, 0) == links[i];
    }
  }

  /** How often `j` is listed. */
  function Count(s: seq<nat>, j: nat): nat {
    if s == [] then 0 else One(s[0] == j) + Count(s[1..], j)
  }

  lemma {:induction false} CountConcat(a: seq<nat>, b: seq<nat>, j: nat)
    ensures Count(a + b, j) == Count(a, j) + Count(b, j)
  {
    if a == [] {
      assert a + b == b;
    } else {
      assert (a + b)[1..] == a[1..] + b;
      CountConcat(a[1..], b, j);
    }
  }

  lemma {:induction false} CountNone(s: seq<nat>, j: nat)
    ensures Count(s, j) == 0 <==> j !in s
  {
    if s != [] {
      CountNone(s[1..], j);
      assert s == [s[0]] + s[1..];
    }
  }

  lemma CountThree(x: nat, a: seq<nat>, b: seq<nat>, j: nat)
    ensures Count([x] + a + b, j) == One(x == j) + Count(a, j) + Count(b, j)
  {
    CountConcat([x] + a, b, j);
    CountConcat([x], a, j);
    assert [x][1..] == [];
  }

  /** How often flattening meets `j`. */
  function Times(links: Links, level: seq<nat>, depth: nat, j: nat): nat
    requires Positions(level, |links|)
    decreases depth, |level|
  {
    if level == [] || depth == 0 then 0
    else
      One(level[0] == j) + Times(links, Kids(links, Some(level[0]), |links|), depth - 1, j)
      + Times(links, level[1..], depth, j)
  }

  lemma {:induction false} FlattenTimes(links: Links, level: seq<nat>, depth: nat, j: nat)
    requires Positions(level, |links|)
    ensures Count(Flatten(links, level, depth), j) == Times(links, level, depth, j)
    decreases depth, |level|
  {
    if level != [] && depth > 0 {
      var kids, rest := Kids(links, Some(level[0]), |links|), level[1..];
      FlattenTimes(links, kids, depth - 1, j);
      FlattenTimes(links, rest, depth, j);
      CountThree(level[0], Flatten(links, kids, depth - 1), Flatten(links, rest, depth), j);
    }
  }

  /** A level flattened deep enough meets `j` once if it holds the ancestor of `j` at that depth, else not at all. */
  lemma {:induction false} FlattenCounts(links: Links, level: seq<nat>, d: nat, depth: nat, j: nat, e: nat)
    requires Level(links, level, d) && j < |links| && AtDepth(links, j, e) && e < d + depth
    ensures Times(links, level, depth, j) == One(Hit(links, level, d, j, e))
    decreases depth, |level|
  {
    if level != [] && depth > 0 {
      KidsAreLevel(links, level[0], d);
      RestIsLevel(links, level, d);
      FlattenCounts(links, Kids(links, Some(level[0]), |links|), d + 1, depth - 1, j, e);
      FlattenCounts(links, level[1..], d, depth, j, e);
      HitSplits(links, level, level[1..], d, j, e);
    }
  }

  lemma {:induction false} FlattenIsGrounded(links: Links, level: seq<nat>, d: nat, depth: nat, j: nat)
    requires Level(links, level, d) && j < |links| && j in Flatten(links, level, depth)
    ensures Grounded(links, j)
    decreases depth, |level|
  {
    FlattenSplits(links, level, depth, j);
    var x, rest := level[0], level[1..];
    var kids := Kids(links, Some(x), |links|);
    if j in Flatten(links, kids, depth - 1) {
      KidsAreLevel(links, x, d);
      FlattenIsGrounded(links, kids, d + 1, depth - 1, j);
    } else if j in Flatten(links, rest, depth) {
      RestIsLevel(links, level, d);
      FlattenIsGrounded(links, rest, d, depth, j);
    }
  }

  lemma FlattenSplits(links: Links, level: seq<nat>, depth: nat, j: nat)
    requires Positions(level, |links|) && j in Flatten(links, level, depth)
    ensures level != [] && depth > 0
    ensures j == level[0] || j in Flatten(links, Kids(links, Some(level[0]), |links|), depth - 1)
            || j in Flatten(links, level[1..], depth)
  {
  }

  /** The flattened forest lists a node once if its chain of parents ends at a root, and not at all otherwise. */
  lemma ForestHoldsGroundedNodes(links: Links, j: nat)
    requires j < |links|
    ensures Count(FlattenForest(links), j) == One(Grounded(links, j))
  {
    RootsAreLevel(links);
    CountNone(FlattenForest(links), j);
    if Grounded(links, j) {
      var e: nat :| AtDepth(links, j, e);
      DepthBound(links, j, e);
      FlattenTimes(links, Roots(links), |links|, j);
      FlattenCounts(links, Roots(links), 0, |links|, j, e);
      DepthUp(links, j, e, e);
      KidsAreAll(links, None, |links|, Up(links, j, e).value);
    } else if j in FlattenForest(links) {
      FlattenIsGrounded(links, Roots(links), 0, |links|, j);
    }
  }

  /** Going deeper than there are nodes finds nothing more. */
  lemma {:induction false} DeepEnough(links: Links, level: seq<nat>, d: nat, depth: nat, more: nat)
    requires Level(links, level, d) && |links| <= d + depth && depth <= more
    ensures Flatten(links, level, more) == Flatten(links, level, depth)
    decreases depth, |level|
  {
    if level != [] {
      DepthBound(links, level[0], d);
      KidsAreLevel(links, level[0], d);
      RestIsLevel(links, level, d);
      DeepEnough(links, Kids(links, Some(level[0]), |links|), d + 1, depth - 1, more - 1);
      DeepEnough(links, level[1..], d, depth, more);
    }
  }

  /** The flattened forest lists every position exactly once and nothing else. */
  ghost predicate HoldsEachOnce(links: Links) {
    (forall j: nat | j < |links| :: Count(FlattenForest(links), j) == 1)
    && forall j | j in FlattenForest(links) :: j < |links|
  }

  /**
    For all parent links, whatever the order of the list: the forest holds each node exactly once if and only if no
    node is its own ancestor.
   */
  lemma ForestHoldsEveryNodeOnce(links: Links)
    ensures HoldsEachOnce(links) <==> forall i: nat | i < |links| :: !OwnAncestor(links, i)
  {
    forall j: nat | j < |links|
      ensures Count(FlattenForest(links), j) == 1 <==> Grounded(links, j)
      ensures OwnAncestor(links, j) ==> !Grounded(links, j)
      ensures !Grounded(links, j) ==> exists i: nat | i < |links| :: OwnAncestor(links, i)
    {
      ForestHoldsGroundedNodes(links, j);
      GroundedUnlessCyclic(links, j);
      if Grounded(links, j) {
        var d: nat :| AtDepth(links, j, d);
        GroundedIsNotOwnAncestor(links, j, d);
      }
    }
  }

  /** Parents come before children, as in every log the translator emits. */
  ghost predicate ParentsBefore(links: Links) {
    forall i | 0 <= i < |links| && links[i].Some? :: links[i].value < i
  }

  lemma {:induction false} AncestorsComeFirst(links: Links, i: nat, n: nat)
    requires ParentsBefore(links) && i < |links| && n > 0 && Up(links, i, n).Some?
    ensures Up(links, i, n).value < i
    decreases n
  {
    var p := links[i].value;
    if n > 1 {
      AncestorsComeFirst(links, p, n - 1);
    }
  }

  lemma OrderedForestIsComplete(links: Links)
    requires ParentsBefore(links)
    ensures HoldsEachOnce(links)
  {
    forall i: nat | i < |links| ensures !OwnAncestor(links, i) {
      forall n: nat | n > 0 ensures Up(links, i, n) != Some(i) {
        if Up(links, i, n).Some? {
          AncestorsComeFirst(links, i, n);
        }
      }
    }
    ForestHoldsEveryNodeOnce(links);
  }

  lemma TwoKids(links: Links, p: Option<nat>)
    requires |links| == 2
    ensures Kids(links, p, 2)
         == (if links[0] == p then [0] else []) + if links[1] == p then [1] else []
  {
    assert Kids(links, p, 0) == [];
    assert Kids(links, p, 1) == if links[0] == p then [0] else [];
  }

  lemma FlattenTwo(links: Links)
    requires |links| == 2
    requires Kids(links, None, 2) == [1] && Kids(links, Some(1), 2) == [0] && Kids(links, Some(0), 2) == []
    ensures FlattenForest(links) == [1, 0]
  {
    OneTree(links, 1, 2);
    OneTree(links, 0, 1);
  }

  lemma OneTree(links: Links, x: nat, depth: nat)
    requires x < |links| && depth > 0
    ensures Flatten(links, [x], depth) == [x] + Flatten(links, Kids(links, Some(x), |links|), depth - 1)
  {
    var level: seq<nat> := [x];
    assert level[1..] == [];
  }

}
