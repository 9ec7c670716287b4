/** The task dependency graph: the cycle search that guards every graph write
    (`_dependency_cycle` in src/panopticon/taskservice/service.py). */
module DependencyGraph {
  import opened Models

  type Graph = map<Id, seq<Id>>

  function Successors(g: Graph, v: Id): seq<Id> {
    if v in g then g[v] else []
  }

  ghost predicate Edge(g: Graph, u: Id, v: Id) {
    v in Successors(g, u)
  }

  /** Consecutive elements are edges. The empty sequence and singletons are trails. */
  ghost predicate IsTrail(g: Graph, p: seq<Id>) {
    forall i {:trigger Follows(g, p, i)} :: 0 <= i < |p| - 1 ==> Follows(g, p, i)
  }

  ghost predicate Follows(g: Graph, p: seq<Id>, i: int)
    requires 0 <= i < |p| - 1
  {
    Edge(g, p[i], p[i + 1])
  }

  ghost predicate IsWalk(g: Graph, p: seq<Id>, u: Id, v: Id) {
    p != [] && p[0] == u && p[|p| - 1] == v && IsTrail(g, p)
  }

  ghost predicate Reaches(g: Graph, u: Id, v: Id) {
    exists p :: IsWalk(g, p, u, v)
  }

  /** A closed walk with at least one edge. */
  ghost predicate IsCycle(g: Graph, c: seq<Id>) {
    |c| >= 2 && c[0] == c[|c| - 1] && IsTrail(g, c)
  }

  /** A cycle that visits no node twice before it closes. */
  ghost predicate IsSimpleCycle(g: Graph, c: seq<Id>) {
    IsCycle(g, c) && Distinct(c[..|c| - 1])
  }

  ghost predicate Acyclic(g: Graph) {
    forall c :: !IsCycle(g, c)
  }

  ghost predicate CycleReachable(g: Graph, start: Id) {
    exists c :: IsCycle(g, c) && Reaches(g, start, c[0])
  }

  ghost predicate Closed(g: Graph, s: set<Id>) {
    forall v, w {:trigger Edge(g, v, w)} :: v in s && Edge(g, v, w) ==> w in s
  }

  ghost predicate CycleFree(g: Graph, s: set<Id>) {
    forall c :: IsCycle(g, c) ==> c[0] !in s
  }

  /** A walk that enters a successor-closed set never leaves it. */
  lemma {:induction false} ClosedSetTraps(g: Graph, s: set<Id>, p: seq<Id>, i: nat)
    requires Closed(g, s) && IsTrail(g, p) && i < |p| && p[0] in s
    ensures p[i] in s
  {
    if i == 0 {
    } else {
      ClosedSetTraps(g, s, p, i - 1);
      assert Follows(g, p, i - 1);
    }
  }

  lemma TrailSlice(g: Graph, p: seq<Id>, i: nat, j: nat)
    requires IsTrail(g, p) && i <= j <= |p|
    ensures IsTrail(g, p[i..j])
  {
    var s := p[i..j];
    forall k | 0 <= k < |s| - 1
      ensures Follows(g, s, k)
    {
      assert Follows(g, p, i + k);
    }
  }

  lemma WalkFollowedByEdge(g: Graph, p: seq<Id>, v: Id)
    requires IsTrail(g, p) && (p != [] ==> Edge(g, p[|p| - 1], v))
    ensures IsTrail(g, p + [v])
  {
    forall i | 0 <= i < |p + [v]| - 1
      ensures Follows(g, p + [v], i)
    {
      if i < |p| - 1 {
        assert Follows(g, p, i);
      }
    }
  }

  /** Meeting a node again while it is still on the path closes a simple cycle. */
  lemma CloseCycle(g: Graph, path: seq<Id>, k: nat, v: Id)
    requires IsTrail(g, path) && Distinct(path)
    requires k < |path| && path[k] == v && Edge(g, path[|path| - 1], v)
    ensures IsSimpleCycle(g, path[k..] + [v]) && Reaches(g, path[0], v)
  {
    var c := path[k..] + [v];
    WalkFollowedByEdge(g, path, v);
    TrailSlice(g, path + [v], k, |path| + 1);
    assert c == (path + [v])[k..|path| + 1];
    assert c[..|c| - 1] == path[k..];
    TrailSlice(g, path, 0, k + 1);
    assert IsWalk(g, path[..k + 1], path[0], v);
  }

  /** A node may join a closed cycle-free set once all its successors are inside. */
  lemma CycleFreeExtends(g: Graph, s: set<Id>, v: Id)
    requires Closed(g, s) && CycleFree(g, s)
    requires v !in s && SuccessorsIn(g, v, s)
    ensures Closed(g, s + {v}) && CycleFree(g, s + {v})
  {
    forall c | IsCycle(g, c)
      ensures c[0] !in s + {v}
    {
      if c[0] == v {
        assert Follows(g, c, 0);
        TrailSlice(g, c, 1, |c|);
        assert c[1..] == c[1..|c|];
        ClosedSetTraps(g, s, c[1..], |c| - 2);
      }
    }
  }

  lemma ClosedCycleFreeIsSafe(g: Graph, s: set<Id>, start: Id)
    requires Closed(g, s) && CycleFree(g, s) && start in s
    ensures !CycleReachable(g, start)
  {
    forall c | IsCycle(g, c) && Reaches(g, start, c[0])
      ensures false
    {
      var p :| IsWalk(g, p, start, c[0]);
      ClosedSetTraps(g, s, p, |p| - 1);
    }
  }

  ghost predicate SuccessorsIn(g: Graph, v: Id, s: set<Id>) {
    forall i :: 0 <= i < |Successors(g, v)| ==> Successors(g, v)[i] in s
  }

  /** `id` is a successor of the path's last node, or the start of the search. */
  ghost predicate MayFollow(g: Graph, start: Id, path: seq<Id>, id: Id) {
    if path == [] then id == start else Edge(g, path[|path| - 1], id)
  }

  lemma NextMayFollow(g: Graph, start: Id, universe: set<Id>, path: seq<Id>, id: Id, i: nat)
    requires Closed(g, universe) && id in universe && path != [] && path[|path| - 1] == id && i < |Successors(g, id)|
    ensures Successors(g, id)[i] in universe && MayFollow(g, start, path, Successors(g, id)[i])
  {
    assert Edge(g, id, Successors(g, id)[i]);
  }

  /** Pushing a new node and popping it restores the path and the positions. */
  lemma PushPop(path: seq<Id>, positions: map<Id, nat>, id: Id)
    requires id !in positions
    ensures (path + [id])[..|path + [id]| - 1] == path && positions[id := |path|] - {id} == positions
  {
  }

  /** The search's mutable state: the current path, each node's position on it, and the finished
      nodes. `universe` is only a termination measure. */
  class CycleSearch {
    const graph: Graph
    ghost const start: Id
    ghost const universe: set<Id>
    var path: seq<Id>
    var positions: map<Id, nat>
    var visited: set<Id>

    constructor (graph: Graph, ghost start: Id)
      ensures this.graph == graph && this.start == start && Valid() && start in universe
      ensures path == [] && visited == {}
    {
      this.graph, this.start := graph, start;
      universe := {start} + graph.Keys + (set u, v | u in graph && v in graph[u] :: v);
      path, positions, visited := [], map[], {};
    }

    ghost predicate Valid()
      reads this
    {
      && Closed(graph, universe)
      && (forall i :: 0 <= i < |path| ==> path[i] in positions && positions[path[i]] == i)
      && (forall v :: v in positions ==> positions[v] < |path| && path[positions[v]] == v)
      && IsTrail(graph, path) && (path != [] ==> path[0] == start)
      && positions.Keys !! visited
      && positions.Keys + visited <= universe
      && Closed(graph, visited)
      && CycleFree(graph, visited)
    }

    method Visit(id: Id) returns (cycle: Option<seq<Id>>)
      requires Valid() && id in universe && MayFollow(graph, start, path, id)
      modifies this
      ensures cycle.None? ==>
                && Valid() && path == old(path) && positions == old(positions)
                && id in visited && old(visited) <= visited
      ensures cycle.Some? ==>
                IsSimpleCycle(graph, cycle.value) && Reaches(graph, start, cycle.value[0])
      decreases universe - positions.Keys - visited, 1
    {
      if id in positions {
        CloseCycle(graph, path, positions[id], id);
        return Some(path[positions[id]..] + [id]);
      }
      if id in visited {
        return None;
      }
      cycle := Explore(id);
    }

    /** The rest of a visit, of a node that is neither on the path nor finished: push it, visit its
        successors, pop it. */
    method Explore(id: Id) returns (cycle: Option<seq<Id>>)
      requires Valid() && id in universe && MayFollow(graph, start, path, id) && id !in positions && id !in visited
      modifies this
      ensures cycle.None? ==>
                && Valid() && path == old(path) && positions == old(positions)
                && id in visited && old(visited) <= visited
      ensures cycle.Some? ==>
                IsSimpleCycle(graph, cycle.value) && Reaches(graph, start, cycle.value[0])
      decreases universe - positions.Keys - visited, 0
    {
      assert id in universe - positions.Keys - visited;
      Enter(id);
      var deps := Successors(graph, id);
      var i := 0;
      while i < |deps|
        invariant 0 <= i <= |deps|
        invariant Valid() && path == old(path) + [id] && positions == old(positions)[id := |old(path)|]
        invariant old(visited) <= visited
        invariant forall j :: 0 <= j < i ==> deps[j] in visited
      {
        NextMayFollow(graph, start, universe, path, id, i);
        cycle := Visit(deps[i]);
        if cycle.Some? {
          return;
        }
        i := i + 1;
      }
      PushPop(old(path), old(positions), id);
      Leave(id);
      return None;
    }

    /** Push `id` onto the current path. */
    method Enter(id: Id)
      requires Valid() && id in universe && id !in positions && id !in visited && MayFollow(graph, start, path, id)
      modifies this
      ensures Valid() && path == old(path) + [id] && visited == old(visited)
      ensures positions == old(positions)[id := |old(path)|]
    {
      WalkFollowedByEdge(graph, path, id);
      positions := positions[id := |path|];
      path := path + [id];
    }

    /** Pop `id`, whose successors are all finished, and mark it finished. */
    method Leave(id: Id)
      requires Valid() && path != [] && path[|path| - 1] == id
      requires SuccessorsIn(graph, id, visited)
      modifies this
      ensures Valid() && path == old(path[..|path| - 1]) && positions == old(positions) - {id}
      ensures visited == old(visited) + {id}
    {
      CycleFreeExtends(graph, visited, id);
      TrailSlice(graph, path, 0, |path| - 1);
      path := path[..|path| - 1];
      positions := positions - {id};
      visited := visited + {id};
    }
  }

  /** The search is exact: it answers `None` precisely when no cycle can be reached from `start`,
      and otherwise shows a real, simple cycle that can be reached. */
  method DependencyCycle(graph: Graph, start: Id) returns (cycle: Option<seq<Id>>)
    ensures cycle.Some? <==> CycleReachable(graph, start)
    ensures cycle.Some? ==> IsSimpleCycle(graph, cycle.value) && Reaches(graph, start, cycle.value[0])
  {
    var search := new CycleSearch(graph, start);
    cycle := search.Visit(start);
    if cycle.None? {
      ClosedCycleFreeIsSafe(graph, search.visited, start);
    }
  }
}
