/**
 The component topology walk of the knowledge-graph retriever: a depth-bounded depth-first
 search whose visited set and result dictionary are shared by every level of the recursion.
 */
module Topology {
  import opened Basics

  type Graph = map<string, seq<string>>

  /** `COMPONENT_TOPOLOGY.get(node, [])` */
  function Deps(g: Graph, node: string): seq<string> {
    if node in g then g[node] else []
  }

  function Fuel(depth: int, current: int): nat {
    if current > depth then 0 else depth - current + 1
  }

  /** The visited set after walking from node at hop count `current`. */
  ghost function Walk(g: Graph, depth: int, node: string, current: int, visited: set<string>): set<string>
    decreases Fuel(depth, current), 0
  {
    if current > depth || node in visited then visited
    else WalkAll(g, depth, Deps(g, node), |Deps(g, node)|, current + 1, visited + {node})
  }

  /** The visited set after walking from the first n of the given nodes, one after the other. */
  ghost function WalkAll(g: Graph, depth: int, nodes: seq<string>, n: nat, current: int, visited: set<string>)
    : set<string>
    requires n <= |nodes|
    decreases Fuel(depth, current), n
  {
    if n == 0 then visited
    else Walk(g, depth, nodes[n - 1], current, WalkAll(g, depth, nodes, n - 1, current, visited))
  }

  class TopologyWalk {
    const graph: Graph
    const depth: int
    var visited: set<string>
    var topology: map<string, seq<string>>

    constructor (graph: Graph, depth: int)
      ensures this.graph == graph && this.depth == depth
      ensures visited == {} && topology == map[]
    {
      this.graph, this.depth := graph, depth;
      visited, topology := {}, map[];
    }

    /** Every visited node is a key of the result, with its own dependency list. */
    ghost predicate Valid()
      reads this
    {
      topology == map v | v in visited :: Deps(graph, v)
    }

    method Traverse(node: string, current: int)
      requires Valid()
      modifies this
      ensures Valid()
      ensures visited == Walk(graph, depth, node, current, old(visited))
      decreases Fuel(depth, current)
    {
      if current > depth || node in visited { return; }
      visited := visited + {node};
      var deps := Deps(graph, node);
      topology := topology[node := deps];
      ghost var before := visited;
      for i := 0 to |deps|
        invariant Valid()
        invariant visited == WalkAll(graph, depth, deps, i, current + 1, before)
      {
        Traverse(deps[i], current + 1);
      }
    }
  }

  /** What the caller gets back. */
  ghost function Topo(g: Graph, component: string, depth: int): set<string> {
    Walk(g, depth, component, 0, {})
  }

  method GetComponentTopology(g: Graph, component: string, depth: int) returns (topology: map<string, seq<string>>)
    ensures topology.Keys == Topo(g, component, depth)
    ensures forall v :: v in topology ==> topology[v] == if v in g then g[v] else []
  {
    var walk := new TopologyWalk(g, depth);
    walk.Traverse(component, 0);
    topology := walk.topology;
  }

  // ---------------------------------------------------------------- reference semantics

  /** The nodes at most n hops from start. */
  ghost function Within(g: Graph, start: string, n: nat): set<string> {
    if n == 0 then {start}
    else
      var near := Within(g, start, n - 1);
      near + Next(g, near)
  }

  /** One hop along the dependency lists. */
  ghost function Next(g: Graph, nodes: set<string>): set<string> { set v, w | v in nodes && v in g && w in g[v] :: w }

  ghost predicate Reachable(g: Graph, start: string, node: string) {
    exists n: nat :: node in Within(g, start, n)
  }

  ghost predicate Closed(g: Graph, nodes: set<string>) {
    forall v, w :: v in nodes && w in Deps(g, v) ==> w in nodes
  }

  ghost predicate IsReachableSet(g: Graph, start: string, nodes: set<string>) {
    forall v :: v in nodes <==> Reachable(g, start, v)
  }

  lemma {:induction false} WithinMonotone(g: Graph, start: string, m: nat, n: nat)
    requires m <= n
    ensures Within(g, start, m) <= Within(g, start, n)
    decreases n - m
  {
    if m < n { WithinMonotone(g, start, m + 1, n); }
  }

  lemma ReachableSetClosed(g: Graph, start: string, nodes: set<string>)
    requires IsReachableSet(g, start, nodes)
    ensures start in nodes && Closed(g, nodes)
  {
    assert start in Within(g, start, 0);
    assert Reachable(g, start, start);
    forall v, w | v in nodes && w in Deps(g, v) ensures w in nodes {
      assert Reachable(g, start, v);
      var n: nat :| v in Within(g, start, n);
      assert w in Within(g, start, n + 1);
    }
  }

  lemma NextClosed(g: Graph, near: set<string>, nodes: set<string>)
    requires near <= nodes && Closed(g, nodes)
    ensures Next(g, near) <= nodes
  {
    forall w | w in Next(g, near) ensures w in nodes {
      var v :| v in near && v in g && w in g[v];
      assert w in Deps(g, v);
    }
  }

  lemma {:induction false} WithinClosed(g: Graph, start: string, n: nat, nodes: set<string>)
    requires start in nodes && Closed(g, nodes)
    ensures Within(g, start, n) <= nodes
  {
    if n > 0 {
      WithinClosed(g, start, n - 1, nodes);
      NextClosed(g, Within(g, start, n - 1), nodes);
    }
  }

  // ---------------------------------------------------------------- soundness

  lemma {:induction false} WalkSound(g: Graph, start: string, depth: nat, node: string, current: nat, visited: set<string>)
    requires visited <= Within(g, start, depth)
    requires current <= depth ==> node in Within(g, start, current)
    ensures visited <= Walk(g, depth, node, current, visited) <= Within(g, start, depth)
    decreases Fuel(depth, current), 0
  {
    if current <= depth && node !in visited {
      WithinMonotone(g, start, current, depth);
      forall w | w in Deps(g, node) ensures w in Within(g, start, current + 1) {}
      WalkAllSound(g, start, depth, Deps(g, node), |Deps(g, node)|, current + 1, visited + {node});
    }
  }

  lemma {:induction false} WalkAllSound(g: Graph, start: string, depth: nat, nodes: seq<string>, n: nat, current: nat,
                     visited: set<string>)
    requires n <= |nodes|
    requires visited <= Within(g, start, depth)
    requires forall w :: w in nodes ==> w in Within(g, start, current)
    ensures visited <= WalkAll(g, depth, nodes, n, current, visited) <= Within(g, start, depth)
    decreases Fuel(depth, current), n
  {
    if n > 0 {
      WalkAllSound(g, start, depth, nodes, n - 1, current, visited);
      WalkSound(g, start, depth, nodes[n - 1], current, WalkAll(g, depth, nodes, n - 1, current, visited));
    }
  }

  /** Every key the walk returns is at most `depth` hops away; a negative depth returns nothing. */
  lemma TopologySound(g: Graph, component: string, depth: int)
    ensures depth < 0 ==> Topo(g, component, depth) == {}
    ensures depth >= 0 ==> component in Topo(g, component, depth)
    ensures depth >= 0 ==> Topo(g, component, depth) <= Within(g, component, depth)
  {
    if depth >= 0 {
      assert component in Within(g, component, 0);
      WalkSound(g, component, depth, component, 0, {});
      WalkGrows(g, depth, component, 0, {});
    }
  }

  lemma {:induction false} WalkGrows(g: Graph, depth: int, node: string, current: int, visited: set<string>)
    ensures visited <= Walk(g, depth, node, current, visited)
    ensures current <= depth ==> node in Walk(g, depth, node, current, visited)
    decreases Fuel(depth, current), 0
  {
    if current <= depth && node !in visited {
      WalkAllGrows(g, depth, Deps(g, node), |Deps(g, node)|, current + 1, visited + {node});
    }
  }

  lemma {:induction false} WalkAllGrows(g: Graph, depth: int, nodes: seq<string>, n: nat, current: int, visited: set<string>)
    requires n <= |nodes|
    ensures visited <= WalkAll(g, depth, nodes, n, current, visited)
    ensures current <= depth ==> forall i :: 0 <= i < n ==> nodes[i] in WalkAll(g, depth, nodes, n, current, visited)
    decreases Fuel(depth, current), n
  {
    if n > 0 {
      WalkAllGrows(g, depth, nodes, n - 1, current, visited);
      WalkGrows(g, depth, nodes[n - 1], current, WalkAll(g, depth, nodes, n - 1, current, visited));
    }
  }

  // ---------------------------------------------------------------- completeness

  /**
   While at least `current` nodes are already visited, the depth cut only ever meets nodes that
   are visited anyway: the hops of a live path are distinct, and there are at most depth + 1 nodes.
   So everything the walk adds has all its dependencies in the result.
   */
  lemma {:induction false} WalkClosed(g: Graph, depth: nat, node: string, current: nat, visited: set<string>, nodes: set<string>)
    requires Closed(g, nodes) && |nodes| <= depth + 1
    requires visited <= nodes && node in nodes && current <= |visited|
    ensures visited + {node} <= Walk(g, depth, node, current, visited) <= nodes
    ensures forall v, w :: v in Walk(g, depth, node, current, visited) && v !in visited && w in Deps(g, v)
                           ==> w in Walk(g, depth, node, current, visited)
    decreases Fuel(depth, current), 0
  {
    SubsetSize(visited, nodes);
    if current <= depth && node !in visited {
      assert |visited + {node}| == |visited| + 1;
      WalkAllClosed(g, depth, Deps(g, node), |Deps(g, node)|, current + 1, visited + {node}, nodes);
      WalkAllGrows(g, depth, Deps(g, node), |Deps(g, node)|, current + 1, visited + {node});
    }
  }

  lemma {:induction false} WalkAllClosed(g: Graph, depth: nat, todo: seq<string>, n: nat, current: nat, visited: set<string>,
                      nodes: set<string>)
    requires n <= |todo|
    requires Closed(g, nodes) && |nodes| <= depth + 1
    requires visited <= nodes && (forall w :: w in todo ==> w in nodes) && current <= |visited|
    ensures visited <= WalkAll(g, depth, todo, n, current, visited) <= nodes
    ensures forall i :: 0 <= i < n ==> todo[i] in WalkAll(g, depth, todo, n, current, visited)
    ensures forall v, w :: v in WalkAll(g, depth, todo, n, current, visited) && v !in visited && w in Deps(g, v)
                           ==> w in WalkAll(g, depth, todo, n, current, visited)
    decreases Fuel(depth, current), n
  {
    if n > 0 {
      WalkAllClosed(g, depth, todo, n - 1, current, visited, nodes);
      var mid := WalkAll(g, depth, todo, n - 1, current, visited);
      SubsetSize(visited, mid);
      WalkClosed(g, depth, todo[n - 1], current, mid, nodes);
    }
  }

  /** At depth (number of reachable nodes - 1) or more, the keys are exactly the reachable nodes. */
  lemma TopologyComplete(g: Graph, component: string, depth: nat, reachable: set<string>)
    requires IsReachableSet(g, component, reachable)
    requires |reachable| <= depth + 1
    ensures Topo(g, component, depth) == reachable
  {
    ReachableSetClosed(g, component, reachable);
    WalkClosed(g, depth, component, 0, {}, reachable);
    var keys := Topo(g, component, depth);
    forall v | v in reachable ensures v in keys {
      assert Reachable(g, component, v);
      var n: nat :| v in Within(g, component, n);
      WithinClosed(g, component, n, keys);
    }
  }

  /** Every node the dictionary mentions, and the start. */
  ghost function Nodes(g: Graph, start: string): set<string> {
    g.Keys + {start} + (set v, w | v in g && w in g[v] :: w)
  }

  /** The caller's reading: with depth at least the number of nodes, less one, nothing reachable is missed. */
  lemma TopologyExactAtNodeCount(g: Graph, component: string, depth: nat)
    requires |Nodes(g, component)| <= depth + 1
    ensures forall v :: v in Topo(g, component, depth) <==> Reachable(g, component, v)
  {
    var all := Nodes(g, component);
    var reachable := set v | v in all && Reachable(g, component, v);
    forall v | Reachable(g, component, v) ensures v in all {
      var n: nat :| v in Within(g, component, n);
      WithinClosed(g, component, n, all);
    }
    SubsetSize(reachable, all);
    TopologyComplete(g, component, depth, reachable);
  }

  // ---------------------------------------------------------------- exactly when the bound is met

  /** On every graph with n reachable nodes the walk finds all nodes within `depth` hops. */
  ghost predicate DepthComplete(n: nat, depth: nat) {
    forall g: Graph, start: string, nodes: set<string> ::
      IsReachableSet(g, start, nodes) && |nodes| == n
      ==> Topo(g, start, depth) == Within(g, start, depth)
  }

  lemma {:induction false} DepthOneWalkAll(g: Graph, nodes: seq<string>, n: nat, visited: set<string>)
    requires n <= |nodes|
    ensures WalkAll(g, 1, nodes, n, 2, visited) == visited
  {
    if n > 0 { DepthOneWalkAll(g, nodes, n - 1, visited); }
  }

  lemma DepthAtMostOneIsComplete(g: Graph, start: string, depth: nat)
    requires depth <= 1
    ensures Topo(g, start, depth) == Within(g, start, depth)
  {
    TopologySound(g, start, depth);
    if depth == 1 {
      WalkAllGrows(g, 1, Deps(g, start), |Deps(g, start)|, 1, {} + {start});
      assert Within(g, start, 0) == {start};
      forall w | w in Within(g, start, 1) ensures w in Topo(g, start, 1) {
        assert w == start || w in Deps(g, start);
      }
    } else {
      assert Within(g, start, 0) == {start};
    }
  }

  /** The i-th node of a chain. */
  ghost function Name(i: nat): string { seq(i, _ => 'n') }

  ghost function Names(n: nat): set<string> {
    if n == 0 then {} else Names(n - 1) + {Name(n - 1)}
  }

  lemma {:induction false} NamesSize(n: nat)
    ensures |Names(n)| == n
    ensures forall s :: s in Names(n) <==> |s| < n && s == Name(|s|)
  {
    if n > 0 {
      NamesSize(n - 1);
      assert |Name(n - 1)| == n - 1;
      assert Name(n - 1) !in Names(n - 1);
    }
  }

  /** A chain of n nodes with one shortcut, listed second, from its head to node d. */
  ghost function ShortcutDeps(i: nat, n: nat, d: nat): seq<string> {
    if i + 1 >= n then []
    else if i == 0 then [Name(1), Name(d)]
    else [Name(i + 1)]
  }

  ghost function Shortcut(n: nat, d: nat): Graph {
    map s | s in Names(n) :: ShortcutDeps(|s|, n, d)
  }

  lemma ShortcutAt(n: nat, d: nat, i: nat)
    requires i < n
    ensures Deps(Shortcut(n, d), Name(i)) == ShortcutDeps(i, n, d)
  {
    NamesSize(n);
    assert |Name(i)| == i;
  }

  /** Walking down the chain arrives at node d with no hops left. */
  lemma {:induction false} ShortcutWalk(n: nat, d: nat, i: nat)
    requires 2 <= d <= n - 2 && 1 <= i <= d
    ensures Walk(Shortcut(n, d), d, Name(i), i, Names(i)) == Names(d + 1)
    decreases d - i
  {
    var g := Shortcut(n, d);
    NamesSize(i);
    ShortcutAt(n, d, i);
    assert |Name(i)| == i;
    var deps := Deps(g, Name(i));
    assert deps == [Name(i + 1)];
    assert WalkAll(g, d, deps, 0, i + 1, Names(i + 1)) == Names(i + 1);
    assert WalkAll(g, d, deps, 1, i + 1, Names(i + 1)) == Walk(g, d, Name(i + 1), i + 1, Names(i + 1));
    if i < d { ShortcutWalk(n, d, i + 1); }
  }

  lemma ShortcutMisses(n: nat, d: nat)
    requires 2 <= d <= n - 2
    ensures Topo(Shortcut(n, d), Name(0), d) == Names(d + 1)
    ensures Name(d + 1) in Within(Shortcut(n, d), Name(0), d)
    ensures Name(d + 1) !in Names(d + 1)
  {
    var g := Shortcut(n, d);
    NamesSize(d + 1);
    assert |Name(d + 1)| == d + 1 && |Name(d)| == d;
    ShortcutAt(n, d, 0);
    ShortcutAt(n, d, d);
    ShortcutWalk(n, d, 1);
    var deps := Deps(g, Name(0));
    assert Names(1) == Names(0) + {Name(0)} == {Name(0)};
    assert WalkAll(g, d, deps, 0, 1, Names(1)) == Names(1);
    assert WalkAll(g, d, deps, 1, 1, Names(1)) == Names(d + 1);
    assert WalkAll(g, d, deps, 2, 1, Names(1)) == Names(d + 1);
    assert Name(0) in Within(g, Name(0), 0);
    assert Name(d) in deps;
    assert Name(d) in Within(g, Name(0), 1);
    assert Name(d + 1) in Deps(g, Name(d));
    assert Name(d + 1) in Within(g, Name(0), 2);
    WithinMonotone(g, Name(0), 2, d);
  }

  lemma {:induction false} ShortcutReach(n: nat, d: nat, i: nat)
    requires 2 <= d <= n - 2 && i < n
    ensures Name(i) in Within(Shortcut(n, d), Name(0), i)
  {
    if i > 0 {
      ShortcutReach(n, d, i - 1);
      ShortcutAt(n, d, i - 1);
      assert Name(i) in Deps(Shortcut(n, d), Name(i - 1));
    }
  }

  lemma ShortcutReachableSet(n: nat, d: nat)
    requires 2 <= d <= n - 2
    ensures IsReachableSet(Shortcut(n, d), Name(0), Names(n))
  {
    var g := Shortcut(n, d);
    NamesSize(n);
    forall v | v in Names(n) ensures Reachable(g, Name(0), v) {
      ShortcutReach(n, d, |v|);
    }
    assert |Name(0)| == 0;
    forall v, w | v in Names(n) && w in Deps(g, v) ensures w in Names(n) {
      ShortcutAt(n, d, |v|);
      assert forall i: nat :: |Name(i)| == i;
    }
    forall v | Reachable(g, Name(0), v) ensures v in Names(n) {
      var m: nat :| v in Within(g, Name(0), m);
      WithinClosed(g, Name(0), m, Names(n));
    }
  }

  /**
   The depth bound means "all nodes within depth hops" on every graph with n reachable nodes
   exactly when depth is 0 or 1, or at least n - 1. In between, a node first met at the end of
   a long path is marked visited there and never expanded.
   */
  lemma DepthCompleteExactly(n: nat, depth: nat)
    ensures DepthComplete(n, depth) <==> depth <= 1 || n <= depth + 1
  {
    if depth <= 1 || n <= depth + 1 {
      forall g: Graph, start: string, nodes: set<string> | IsReachableSet(g, start, nodes) && |nodes| == n
        ensures Topo(g, start, depth) == Within(g, start, depth)
      {
        if depth <= 1 {
          DepthAtMostOneIsComplete(g, start, depth);
        } else {
          TopologyComplete(g, start, depth, nodes);
          TopologySound(g, start, depth);
          ReachableSetClosed(g, start, nodes);
          WithinClosed(g, start, depth, nodes);
        }
      }
    } else {
      ShortcutReachableSet(n, depth);
      NamesSize(n);
      ShortcutMisses(n, depth);
      assert Topo(Shortcut(n, depth), Name(0), depth) != Within(Shortcut(n, depth), Name(0), depth);
    }
  }
}
