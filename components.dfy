/** Connected components of the adjacency matrix built for the lack of cohesion
    metric: the recursive depth-first search that marks a `visited` array and
    the loop that counts how many searches it starts. */
module ConnectedComponents {
  import opened Dicts

  /** The matrix is square and `visited` has one mark per row. */
  ghost predicate Square(edges: array2<bool>, visited: array<bool>)
    reads edges, visited
  {
    edges.Length0 == edges.Length1 == visited.Length
  }

  /** A walk along set entries of the matrix: `edges[p[k], p[k + 1]]` for each step. */
  ghost predicate IsPath(edges: array2<bool>, p: seq<int>)
    reads edges
  {
    && |p| >= 1
    && (forall k :: 0 <= k < |p| ==> 0 <= p[k] < edges.Length0 && p[k] < edges.Length1)
    && (forall k :: 0 <= k < |p| - 1 ==> edges[p[k], p[k + 1]])
  }

  /** Vertex `j` can be reached from vertex `u`, in no steps when they are equal. */
  ghost predicate Reach(edges: array2<bool>, u: int, j: int)
    reads edges
  {
    exists p :: IsPath(edges, p) && p[0] == u && p[|p| - 1] == j
  }

  /** The vertices not marked yet. */
  ghost function Unvisited(visited: array<bool>): set<int>
    reads visited
  {
    set j | 0 <= j < visited.Length && !visited[j]
  }

  /** Every vertex a marked vertex points to is marked. */
  ghost predicate Closed(edges: array2<bool>, visited: array<bool>)
    reads edges, visited
    requires Square(edges, visited)
  {
    forall j, k :: 0 <= j < visited.Length && 0 <= k < visited.Length && visited[j] && edges[j, k] ==> visited[k]
  }

  /** A vertex that no lower-numbered vertex reaches: the vertex at which the
      counting loop starts a new search. */
  ghost predicate IsLeader(edges: array2<bool>, u: int)
    reads edges
  {
    forall w :: 0 <= w < u ==> !Reach(edges, w, u)
  }

  ghost function LeadersBelow(edges: array2<bool>, m: int): set<int>
    reads edges
  {
    set u | 0 <= u < m && IsLeader(edges, u)
  }

  ghost function Leaders(edges: array2<bool>): set<int>
    reads edges
  {
    LeadersBelow(edges, edges.Length0)
  }

  lemma ReachSelf(edges: array2<bool>, u: int)
    requires 0 <= u < edges.Length0 && u < edges.Length1
    ensures Reach(edges, u, u)
  {
    assert IsPath(edges, [u]);
  }

  /** A step followed by a walk is a walk. */
  lemma ReachPrepend(edges: array2<bool>, u: int, k: int, j: int)
    requires 0 <= u < edges.Length0 && u < edges.Length1
    requires 0 <= k < edges.Length1 && edges[u, k] && Reach(edges, k, j)
    ensures Reach(edges, u, j)
  {
    var p :| IsPath(edges, p) && p[0] == k && p[|p| - 1] == j;
    var q := [u] + p;
    assert forall i :: 1 <= i < |q| ==> q[i] == p[i - 1];
    assert IsPath(edges, q);
  }

  /** Two walks meeting end to start make one walk. */
  lemma ReachTransitive(edges: array2<bool>, u: int, k: int, j: int)
    requires Reach(edges, u, k) && Reach(edges, k, j)
    ensures Reach(edges, u, j)
  {
    var p :| IsPath(edges, p) && p[0] == u && p[|p| - 1] == k;
    var q :| IsPath(edges, q) && q[0] == k && q[|q| - 1] == j;
    var r := p + q[1..];
    assert forall m :: |p| <= m < |r| ==> r[m] == q[m - |p| + 1];
    forall m | 0 <= m < |r| - 1
      ensures edges[r[m], r[m + 1]]
    {
      if m == |p| - 1 {
        assert r[m] == q[0] && r[m + 1] == q[1];
      } else if m >= |p| {
        assert r[m] == q[m - |p| + 1];
      }
    }
    assert IsPath(edges, r);
  }

  /** Every vertex is reached from a leader at or below it: the first vertex
      that reaches it. */
  lemma {:induction false} LeaderOf(edges: array2<bool>, i: int, m: int) returns (u: int)
    requires 0 <= m && Reach(edges, m, i)
    ensures 0 <= u <= m && IsLeader(edges, u) && Reach(edges, u, i)
    decreases m
  {
    if w :| 0 <= w < m && Reach(edges, w, i) {
      u := LeaderOf(edges, i, w);
    } else {
      u := m;
      forall w | 0 <= w < u
        ensures !Reach(edges, w, u)
      {
        if Reach(edges, w, u) {
          ReachTransitive(edges, w, u, i);
        }
      }
    }
  }

  /** Every vertex of a walk that starts at a marked vertex of a closed marking
      is marked. */
  lemma {:induction false} PathMarked(edges: array2<bool>, visited: array<bool>, p: seq<int>)
    requires Square(edges, visited) && Closed(edges, visited)
    requires IsPath(edges, p) && visited[p[0]]
    ensures visited[p[|p| - 1]]
    decreases |p|
  {
    if |p| > 1 {
      assert IsPath(edges, p[1..]);
      PathMarked(edges, visited, p[1..]);
    }
  }

  /** Only the lower-numbered vertices count below `m + 1` besides `m` itself. */
  lemma LeadersStep(edges: array2<bool>, m: int)
    requires 0 <= m
    ensures |LeadersBelow(edges, m + 1)| == |LeadersBelow(edges, m)| + (if IsLeader(edges, m) then 1 else 0)
  {
    if IsLeader(edges, m) {
      assert LeadersBelow(edges, m + 1) == LeadersBelow(edges, m) + {m};
    } else {
      assert LeadersBelow(edges, m + 1) == LeadersBelow(edges, m);
    }
  }

  /** `LackOfCohesion.dfs`: marks `node`, then searches from every neighbour
      not marked yet, in index order. The vertices it marks are exactly the
      ones reachable from `node` that were unmarked: the marks only grow, each
      new mark is reachable from `node`, and every neighbour of a new mark ends
      up marked. */
  method Dfs(node: int, visited: array<bool>, edges: array2<bool>)
    requires Square(edges, visited)
    requires 0 <= node < visited.Length && !visited[node]
    modifies visited
    ensures visited[node]
    ensures forall j :: 0 <= j < visited.Length && old(visited[j]) ==> visited[j]
    ensures forall j :: 0 <= j < visited.Length && visited[j] && !old(visited[j]) ==> Reach(edges, node, j)
    ensures forall j, k :: 0 <= j < visited.Length && 0 <= k < visited.Length && visited[j] && !old(visited[j]) && edges[j, k] ==> visited[k]
    decreases Unvisited(visited)
  {
    visited[node] := true;
    ReachSelf(edges, node);
    var neighbor := 0;
    while neighbor < visited.Length
      invariant 0 <= neighbor <= visited.Length
      invariant visited[node]
      invariant forall j :: 0 <= j < visited.Length && old(visited[j]) ==> visited[j]
      invariant forall j :: 0 <= j < visited.Length && visited[j] && !old(visited[j]) ==> Reach(edges, node, j)
      invariant forall j, k :: 0 <= j < visited.Length && 0 <= k < visited.Length && j != node && visited[j] && !old(visited[j]) && edges[j, k] ==> visited[k]
      invariant forall k :: 0 <= k < neighbor && edges[node, k] ==> visited[k]
    {
      if edges[node, neighbor] && !visited[neighbor] {
        ghost var before := visited[..];
        assert Unvisited(visited) < old(Unvisited(visited)) by {
          assert node in old(Unvisited(visited)) && node !in Unvisited(visited);
        }
        Dfs(neighbor, visited, edges);
        forall j | 0 <= j < visited.Length && visited[j] && !before[j]
          ensures Reach(edges, node, j)
        {
          ReachPrepend(edges, node, neighbor, j);
        }
      }
      neighbor := neighbor + 1;
    }
  }

  /** `LackOfCohesion.count_connected_components`: one count per vertex still
      unmarked when the loop reaches it, each followed by a search from it.
      The count is the number of leaders: the vertices no lower-numbered vertex
      reaches. A matrix with rows has at least one, and never more than rows. */
  method CountConnectedComponents(edges: array2<bool>) returns (count: nat)
    requires edges.Length0 == edges.Length1
    ensures count == |Leaders(edges)|
    ensures count <= edges.Length0
    ensures edges.Length0 > 0 ==> count >= 1
  {
    var n := edges.Length0;
    var visited := new bool[n](_ => false);
    count := 0;
    var node := 0;
    while node < n
      invariant 0 <= node <= n && visited.Length == n
      invariant Closed(edges, visited)
      invariant forall u :: 0 <= u < node ==> visited[u]
      invariant forall j :: 0 <= j < n && visited[j] ==> exists u :: 0 <= u < node && Reach(edges, u, j)
      invariant count == |LeadersBelow(edges, node)|
      invariant count <= node && (node > 0 ==> count >= 1)
    {
      LeadersStep(edges, node);
      if !visited[node] {
        forall w | 0 <= w < node
          ensures !Reach(edges, w, node)
        {
          if Reach(edges, w, node) {
            var p :| IsPath(edges, p) && p[0] == w && p[|p| - 1] == node;
            PathMarked(edges, visited, p);
          }
        }
        count := count + 1;
        ghost var before := visited[..];
        label Searching:
        Dfs(node, visited, edges);
        forall j | 0 <= j < n && visited[j]
          ensures exists u :: 0 <= u < node + 1 && Reach(edges, u, j)
        {
          if !before[j] {
            assert Reach(edges, node, j);
          } else {
            var u :| 0 <= u < node && old@Searching(Reach(edges, u, j));
            assert Reach(edges, u, j) == old@Searching(Reach(edges, u, j));
          }
        }
      } else {
        ghost var u :| 0 <= u < node && Reach(edges, u, node);
      }
      node := node + 1;
    }
  }
}
