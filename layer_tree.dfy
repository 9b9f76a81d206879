// The layer-collection tree of a view layer, its breadth-first traversal
// (iter_layer_collections), the lookup of the nodes that show one collection
// (layer_collections_for_collection), and the effect of setting their
// exclude flag (set_collection_render_enabled).
module LayerTree {
  import opened SceneData

  /** Node p has a child equal to k. */
  ghost predicate HasParent(tree: seq<LayerNode>, k: nat) {
    exists p, a :: 0 <= p < |tree| && 0 <= a < |tree[p].children| && tree[p].children[a] == k
  }

  /**
   * The arena is a tree rooted at node 0: every child index names a node
   * stored after its parent, no node is the child of two parents (or twice
   * the child of one), and every node but the root is somebody's child.
   */
  ghost predicate TreeWf(tree: seq<LayerNode>) {
    && |tree| > 0
    && (forall p :: 0 <= p < |tree| ==> ChildrenAfter(tree, p))
    && (forall p :: 0 <= p < |tree| ==> OnlyParent(tree, p))
    && (forall k :: 0 < k < |tree| ==> HasParent(tree, k))
  }

  /** Every child of node p is a node stored after p. */
  ghost predicate ChildrenAfter(tree: seq<LayerNode>, p: nat)
    requires p < |tree|
  {
    forall a :: 0 <= a < |tree[p].children| ==> p < tree[p].children[a] < |tree|
  }

  /** No child of node p appears anywhere else among the children of the tree. */
  ghost predicate OnlyParent(tree: seq<LayerNode>, p: nat)
    requires p < |tree|
  {
    forall a, q, b ::
      (0 <= a < |tree[p].children| && 0 <= q < |tree| && 0 <= b < |tree[q].children| &&
       tree[p].children[a] == tree[q].children[b]) ==> p == q && a == b
  }

  /** Two arenas whose nodes show the same collections and have the same children. */
  ghost predicate SameShape(tree: seq<LayerNode>, tree': seq<LayerNode>) {
    && |tree'| == |tree|
    && forall k :: 0 <= k < |tree| ==> tree'[k].collection == tree[k].collection && tree'[k].children == tree[k].children
  }

  /** Changing nothing but exclude flags keeps the arena a tree. */
  lemma SameShapeWf(tree: seq<LayerNode>, tree': seq<LayerNode>)
    requires TreeWf(tree) && SameShape(tree, tree')
    ensures TreeWf(tree')
  {
    forall p | 0 <= p < |tree'| ensures ChildrenAfter(tree', p) && OnlyParent(tree', p) {
      assert ChildrenAfter(tree, p) && OnlyParent(tree, p);
    }
    forall k | 0 < k < |tree'| ensures HasParent(tree', k) {
      assert HasParent(tree, k);
      var p, a :| 0 <= p < |tree| && 0 <= a < |tree[p].children| && tree[p].children[a] == k;
      assert tree'[p].children[a] == k;
    }
  }

  /** The children of the nodes of s, node after node: what a queue receives while s is drained from it. */
  function ChildrenOf(tree: seq<LayerNode>, s: seq<nat>): seq<nat>
    requires IndicesBelow(s, |tree|)
  {
    if s == [] then [] else ChildrenOf(tree, s[..|s| - 1]) + tree[s[|s| - 1]].children
  }

  /** x is a child of some node of s. */
  ghost predicate ParentIn(tree: seq<LayerNode>, s: seq<nat>, x: nat)
    requires IndicesBelow(s, |tree|)
  {
    exists j, a :: 0 <= j < |s| && 0 <= a < |tree[s[j]].children| && tree[s[j]].children[a] == x
  }

  /** Every child of a node of s occurs among ChildrenOf(s). */
  lemma {:induction false} ChildrenOfContains(tree: seq<LayerNode>, s: seq<nat>, j: nat, a: nat)
    requires IndicesBelow(s, |tree|) && j < |s| && a < |tree[s[j]].children|
    ensures tree[s[j]].children[a] in ChildrenOf(tree, s)
  {
    var init := s[..|s| - 1];
    if j < |s| - 1 {
      ChildrenOfContains(tree, init, j, a);
    } else {
      assert tree[s[j]].children[a] in tree[s[|s| - 1]].children;
    }
  }

  /**
   * For nodes s without repetitions, ChildrenOf(s) has no repetitions, never
   * holds the root, stays in the arena, and holds only children of nodes of s.
   */
  lemma {:induction false} ChildrenOfDistinct(tree: seq<LayerNode>, s: seq<nat>)
    requires TreeWf(tree) && IndicesBelow(s, |tree|) && Distinct(s)
    ensures Distinct(ChildrenOf(tree, s))
    ensures forall x :: x in ChildrenOf(tree, s) ==> 0 < x < |tree| && ParentIn(tree, s, x)
  {
    if s != [] {
      var init, y := s[..|s| - 1], s[|s| - 1];
      ChildrenOfDistinct(tree, init);
      var front, kids := ChildrenOf(tree, init), tree[y].children;
      var r := front + kids;
      assert ChildrenOf(tree, s) == r;
      forall x | x in front ensures ParentIn(tree, s, x) {
        var j, a :| 0 <= j < |init| && 0 <= a < |tree[init[j]].children| && tree[init[j]].children[a] == x;
        assert s[j] == init[j];
      }
      forall x | x in kids ensures 0 < x < |tree| && ParentIn(tree, s, x) {
        var a :| 0 <= a < |kids| && kids[a] == x;
        assert ChildrenAfter(tree, y);
        assert s[|s| - 1] == y;
      }
      assert OnlyParent(tree, y);
      forall i, j | 0 <= i < j < |r| ensures r[i] != r[j] {
        if i >= |front| {
          assert kids[i - |front|] == r[i] && kids[j - |front|] == r[j];
        } else if j >= |front| {
          var x := r[i];
          assert x == front[i] && x in front;
          var m, a :| 0 <= m < |init| && 0 <= a < |tree[init[m]].children| && tree[init[m]].children[a] == x;
          assert s[m] != s[|s| - 1];
          assert init[m] != y;
          assert r[j] == tree[y].children[j - |front|];
        }
      }
    }
  }

  /** Sequences without repetitions drawn from the set T are no longer than T. */
  lemma {:induction false} DistinctWithin(s: seq<nat>, T: set<nat>)
    requires Distinct(s) && forall i :: 0 <= i < |s| ==> s[i] in T
    ensures |s| <= |T|
  {
    if s != [] {
      var rest := s[1..];
      assert forall i :: 0 <= i < |rest| ==> rest[i] in T - {s[0]} by {
        forall i | 0 <= i < |rest| ensures rest[i] in T - {s[0]} {
          assert rest[i] == s[i + 1];
        }
      }
      DistinctWithin(rest, T - {s[0]});
    }
  }

  function NodeSet(n: nat): set<nat> {
    set k | k in Range(n)
  }

  lemma {:induction false} NodeSetSize(n: nat)
    ensures |NodeSet(n)| == n
    ensures forall k :: k in NodeSet(n) <==> 0 <= k < n
  {
    RangeIncreasing(n);
    if n > 0 {
      NodeSetSize(n - 1);
      assert NodeSet(n) == NodeSet(n - 1) + {n - 1};
    }
  }

  /** A traversal without repetitions visits at most every node. */
  lemma DistinctIndicesBound(tree: seq<LayerNode>, s: seq<nat>)
    requires IndicesBelow(s, |tree|) && Distinct(s)
    ensures |s| <= |tree|
  {
    NodeSetSize(|tree|);
    DistinctWithin(s, NodeSet(|tree|));
  }

  /**
   * `order` is the breadth-first order of the tree: the root, then the
   * children of each visited node in the order the nodes were visited.
   */
  ghost predicate IsBreadthFirst(tree: seq<LayerNode>, order: seq<nat>) {
    IndicesBelow(order, |tree|) && order == [0] + ChildrenOf(tree, order)
  }

  /** In a breadth-first order, a node is reached once its parent is. */
  lemma {:induction false} NodeReached(tree: seq<LayerNode>, order: seq<nat>, k: nat)
    requires TreeWf(tree) && IsBreadthFirst(tree, order) && k < |tree|
    ensures k in order
    decreases k
  {
    if k == 0 {
      assert order[0] == 0;
    } else {
      assert HasParent(tree, k);
      var p, a :| 0 <= p < |tree| && 0 <= a < |tree[p].children| && tree[p].children[a] == k;
      assert ChildrenAfter(tree, p);
      NodeReached(tree, order, p);
      var j :| 0 <= j < |order| && order[j] == p;
      ChildrenOfContains(tree, order, j, a);
      assert k in order[1..];
    }
  }

  /** The root followed by the children of distinct nodes repeats no node and stays in the arena. */
  lemma RootThenChildren(tree: seq<LayerNode>, order: seq<nat>)
    requires TreeWf(tree) && IndicesBelow(order, |tree|) && Distinct(order)
    ensures Distinct([0] + ChildrenOf(tree, order))
    ensures IndicesBelow([0] + ChildrenOf(tree, order), |tree|)
  {
    ChildrenOfDistinct(tree, order);
    var kids := ChildrenOf(tree, order);
    var all := [0] + kids;
    forall i | 0 <= i < |all| ensures all[i] < |tree| && (i > 0 ==> all[i] > 0) {
      if i > 0 {
        assert all[i] == kids[i - 1] && all[i] in kids;
      }
    }
    forall i, j | 0 <= i < j < |all| ensures all[i] != all[j] {
      assert all[j] == kids[j - 1];
      if i > 0 {
        assert all[i] == kids[i - 1];
      }
    }
  }

  /** The queue invariant of iter_layer_collections: what has been yielded and what is queued. */
  ghost predicate QueueInv(tree: seq<LayerNode>, visited: seq<nat>, queue: seq<nat>) {
    && IndicesBelow(visited + queue, |tree|) && IndicesBelow(visited, |tree|)
    && Distinct(visited + queue)
    && visited + queue == [0] + ChildrenOf(tree, visited)
  }

  /** Yielding the head of the queue and queueing its children keeps the invariant, and leaves fewer nodes to visit. */
  lemma BfsStep(tree: seq<LayerNode>, visited: seq<nat>, queue: seq<nat>)
    requires TreeWf(tree) && QueueInv(tree, visited, queue) && queue != []
    ensures queue[0] < |tree|
    ensures QueueInv(tree, visited + [queue[0]], queue[1..] + tree[queue[0]].children)
    ensures |visited| < |tree|
  {
    var seen, lc := visited + queue, queue[0];
    assert lc == seen[|visited|];
    var order := visited + [lc];
    var queue' := queue[1..] + tree[lc].children;
    assert order + queue[1..] == seen;
    assert order == seen[..|order|];
    assert Distinct(order) && IndicesBelow(order, |tree|) by {
      forall i | 0 <= i < |order| ensures order[i] == seen[i] { }
    }
    DistinctIndicesBound(tree, order);
    assert order[..|order| - 1] == visited;
    assert ChildrenOf(tree, order) == ChildrenOf(tree, visited) + tree[lc].children;
    assert order + queue' == seen + tree[lc].children;
    RootThenChildren(tree, order);
    assert order + queue' == [0] + ChildrenOf(tree, order);
  }

  /**
   * iter_layer_collections: drain a queue that starts with the root, yielding
   * each node as it leaves the queue and appending its children. The yielded
   * nodes are in breadth-first order, and every node is yielded exactly once.
   */
  method IterLayerCollections(tree: seq<LayerNode>) returns (order: seq<nat>)
    requires TreeWf(tree)
    ensures IsBreadthFirst(tree, order)
    ensures order[0] == 0
    ensures Distinct(order)
    ensures forall k :: k in order <==> 0 <= k < |tree|
  {
    order := [];
    var queue := [0];
    while queue != []
      invariant QueueInv(tree, order, queue)
      decreases |tree| - |order|
    {
      BfsStep(tree, order, queue);
      var lc := queue[0];
      queue := queue[1..];
      order := order + [lc];
      queue := queue + tree[lc].children;
    }
    assert order == order + queue;
    forall k | 0 <= k < |tree| ensures k in order {
      NodeReached(tree, order, k);
    }
  }

  function OfCollection(tree: seq<LayerNode>, c: nat): nat -> bool {
    (k: nat) => k < |tree| && tree[k].collection == c
  }

  /**
   * layer_collections_for_collection: the nodes of the view layer's tree that
   * show collection c, each once, in breadth-first order.
   */
  method LayerCollectionsForCollection(tree: seq<LayerNode>, c: nat) returns (lcs: seq<nat>)
    requires TreeWf(tree)
    ensures exists order :: IsBreadthFirst(tree, order) && lcs == Filter(order, OfCollection(tree, c))
    ensures Distinct(lcs)
    ensures forall k :: k in lcs <==> 0 <= k < |tree| && tree[k].collection == c
  {
    var order := IterLayerCollections(tree);
    lcs := Filter(order, OfCollection(tree, c));
    FilterDistinct(order, OfCollection(tree, c));
  }

  /**
   * The tree after set_collection_render_enabled(collection c, enabled): every
   * node that shows c gets exclude = not enabled, every other node is as before.
   */
  function WithExclude(tree: seq<LayerNode>, c: nat, exclude: bool): (tree': seq<LayerNode>)
    ensures SameShape(tree, tree')
  {
    seq(|tree|, k requires 0 <= k < |tree| =>
      if tree[k].collection == c then tree[k].(exclude := exclude) else tree[k])
  }
}
