/** Lack of cohesion (LCOM, in its fourth variant): the number of connected
    components of the graph whose vertices are the attribute and method names
    of a class and whose edges join a method to the attributes it accesses and
    the names it calls. */
module Cohesion {
  import opened Dicts
  import opened ClassModel
  import opened ConnectedComponents

  /** The first component of every attribute descriptor. */
  function AttributeNames(attributes: set<Attribute>): set<string> {
    set a | a in attributes :: a.0
  }

  /** The vertex names: attribute names and method names, each once. */
  function Vertices(attributes: set<Attribute>, methods: Dict<Method>): set<string> {
    AttributeNames(attributes) + methods.entries.Keys
  }

  /** The names a method is joined to: the attributes it accesses and the
      names it calls. */
  function Targets(m: Method): set<string> {
    m.accessedAttributes + m.called
  }

  /** `x` is a method whose targets include `y`. */
  predicate Uses(methods: Dict<Method>, x: string, y: string) {
    x in methods.entries && y in Targets(methods.entries[x])
  }

  /** The edge relation: a method and one of its targets, in either order. */
  predicate Linked(methods: Dict<Method>, x: string, y: string) {
    Uses(methods, x, y) || Uses(methods, y, x)
  }

  /** A walk through vertices along edges. */
  ghost predicate IsWalk(vertices: set<string>, methods: Dict<Method>, p: seq<string>) {
    && |p| >= 1
    && (forall k :: 0 <= k < |p| ==> p[k] in vertices)
    && (forall k :: 0 <= k < |p| - 1 ==> Linked(methods, p[k], p[k + 1]))
  }

  ghost predicate Connected(vertices: set<string>, methods: Dict<Method>, x: string, y: string) {
    exists p :: IsWalk(vertices, methods, p) && p[0] == x && p[|p| - 1] == y
  }

  /** The vertices in the same cluster as `x`. */
  ghost function Component(vertices: set<string>, methods: Dict<Method>, x: string): set<string> {
    set y | y in vertices && Connected(vertices, methods, x, y)
  }

  /** The clusters of the graph; their number does not depend on any ordering
      of the vertices. */
  ghost function Components(vertices: set<string>, methods: Dict<Method>): set<set<string>> {
    set x | x in vertices :: Component(vertices, methods, x)
  }

  /** No method, or a single one named `__init__`: nothing to measure. */
  predicate NothingToMeasure(methods: Dict<Method>) {
    |methods.keys| == 0 || (|methods.keys| == 1 && methods.keys[0] == "__init__")
  }

  /** The value `LackOfCohesion.calculate` promises. */
  ghost function LackOfCohesionValue(attributes: set<Attribute>, methods: Dict<Method>): nat {
    if NothingToMeasure(methods) then 0
    else |Components(Vertices(attributes, methods), methods)|
  }

  // Walks.

  lemma ConnectedSelf(vertices: set<string>, methods: Dict<Method>, x: string)
    requires x in vertices
    ensures Connected(vertices, methods, x, x)
  {
    assert IsWalk(vertices, methods, [x]);
  }

  /** A walk read backwards is a walk, as the edge relation is symmetric. */
  lemma ConnectedSymmetric(vertices: set<string>, methods: Dict<Method>, x: string, y: string)
    requires Connected(vertices, methods, x, y)
    ensures Connected(vertices, methods, y, x)
  {
    var p :| IsWalk(vertices, methods, p) && p[0] == x && p[|p| - 1] == y;
    var q := seq(|p|, k requires 0 <= k < |p| => p[|p| - 1 - k]);
    forall k | 0 <= k < |q| - 1
      ensures Linked(methods, q[k], q[k + 1])
    {
      var j := |p| - 2 - k;
      assert q[k] == p[j + 1] && q[k + 1] == p[j];
    }
    assert IsWalk(vertices, methods, q);
  }

  /** Two walks meeting end to start make one walk. */
  lemma ConnectedTransitive(vertices: set<string>, methods: Dict<Method>, x: string, y: string, z: string)
    requires Connected(vertices, methods, x, y) && Connected(vertices, methods, y, z)
    ensures Connected(vertices, methods, x, z)
  {
    var p :| IsWalk(vertices, methods, p) && p[0] == x && p[|p| - 1] == y;
    var q :| IsWalk(vertices, methods, q) && q[0] == y && q[|q| - 1] == z;
    var r := p + q[1..];
    assert forall k :: |p| <= k < |r| ==> r[k] == q[k - |p| + 1];
    assert forall k :: 0 <= k < |r| - 1 ==> Linked(methods, r[k], r[k + 1]) by {
      forall k | 0 <= k < |r| - 1
        ensures Linked(methods, r[k], r[k + 1])
      {
        if k < |p| - 1 {
        } else if k == |p| - 1 {
          assert r[k] == q[0] && r[k + 1] == q[1];
        } else {
          assert r[k] == q[k - |p| + 1];
        }
      }
    }
    assert IsWalk(vertices, methods, r);
  }

  /** Vertices in one cluster share the cluster. */
  lemma SameComponent(vertices: set<string>, methods: Dict<Method>, x: string, y: string)
    requires Connected(vertices, methods, x, y)
    ensures Component(vertices, methods, x) == Component(vertices, methods, y)
  {
    ConnectedSymmetric(vertices, methods, x, y);
    forall z | z in vertices && Connected(vertices, methods, x, z)
      ensures Connected(vertices, methods, y, z)
    {
      ConnectedTransitive(vertices, methods, y, x, z);
    }
    forall z | z in vertices && Connected(vertices, methods, y, z)
      ensures Connected(vertices, methods, x, z)
    {
      ConnectedTransitive(vertices, methods, x, y, z);
    }
  }

  // The matrix and the graph.

  /** The matrix holds the edge relation of the listed vertices. */
  ghost predicate Encodes(edges: array2<bool>, vertices: seq<string>, methods: Dict<Method>)
    reads edges
  {
    && edges.Length0 == edges.Length1 == |vertices|
    && Distinct(vertices)
    && forall i, j :: 0 <= i < |vertices| && 0 <= j < |vertices| ==>
         (edges[i, j] <==> Linked(methods, vertices[i], vertices[j]))
  }

  /** The names in a vertex list. */
  function Listed(vertices: seq<string>): set<string> {
    set x | x in vertices
  }

  /** The position of a listed name. */
  ghost function Position(vertices: seq<string>, x: string): (i: int)
    requires x in vertices
    ensures 0 <= i < |vertices| && vertices[i] == x
  {
    var i :| 0 <= i < |vertices| && vertices[i] == x; i
  }

  /** A walk through matrix positions names a walk through the graph. */
  lemma ReachConnects(edges: array2<bool>, vertices: seq<string>, methods: Dict<Method>, i: int, j: int)
    requires Encodes(edges, vertices, methods) && Reach(edges, i, j)
    ensures Connected(Listed(vertices), methods, vertices[i], vertices[j])
  {
    var p :| IsPath(edges, p) && p[0] == i && p[|p| - 1] == j;
    var q := seq(|p|, k requires 0 <= k < |p| => vertices[p[k]]);
    assert IsWalk(Listed(vertices), methods, q);
  }

  /** A walk through the graph has a walk through matrix positions below it. */
  lemma ConnectedReaches(edges: array2<bool>, vertices: seq<string>, methods: Dict<Method>, i: int, j: int)
    requires Encodes(edges, vertices, methods) && 0 <= i < |vertices| && 0 <= j < |vertices|
    requires Connected(Listed(vertices), methods, vertices[i], vertices[j])
    ensures Reach(edges, i, j)
  {
    var q :| IsWalk(Listed(vertices), methods, q) && q[0] == vertices[i] && q[|q| - 1] == vertices[j];
    var p := seq(|q|, k requires 0 <= k < |q| => Position(vertices, q[k]));
    assert p[0] == i && p[|p| - 1] == j;
    forall k | 0 <= k < |p| - 1
      ensures edges[p[k], p[k + 1]]
    {
      assert Linked(methods, q[k], q[k + 1]);
    }
    assert IsPath(edges, p);
  }

  /** The cluster of the vertex at position `u`. */
  ghost function ClusterAt(vertices: seq<string>, methods: Dict<Method>, u: int): set<string> {
    if 0 <= u < |vertices| then Component(Listed(vertices), methods, vertices[u]) else {}
  }

  /** Two leaders never share a cluster: the lower would reach the higher. */
  lemma LeaderClustersDiffer(edges: array2<bool>, vertices: seq<string>, methods: Dict<Method>, u: int, w: int)
    requires Encodes(edges, vertices, methods)
    requires u in Leaders(edges) && w in Leaders(edges) && u < w
    ensures ClusterAt(vertices, methods, u) != ClusterAt(vertices, methods, w)
  {
    ConnectedSelf(Listed(vertices), methods, vertices[w]);
    if ClusterAt(vertices, methods, u) == ClusterAt(vertices, methods, w) {
      assert vertices[w] in ClusterAt(vertices, methods, u);
      ConnectedReaches(edges, vertices, methods, u, w);
      assert false;
    }
  }

  /** Every cluster is the cluster of a leader. */
  lemma ClusterHasLeader(edges: array2<bool>, vertices: seq<string>, methods: Dict<Method>, x: string)
    requires Encodes(edges, vertices, methods) && x in vertices
    ensures exists u :: u in Leaders(edges) && ClusterAt(vertices, methods, u) == Component(Listed(vertices), methods, x)
  {
    var i := Position(vertices, x);
    ReachSelf(edges, i);
    var u := LeaderOf(edges, i, i);
    ReachConnects(edges, vertices, methods, u, i);
    SameComponent(Listed(vertices), methods, vertices[u], x);
    assert u in Leaders(edges);
  }

  /** The leaders of the matrix and the clusters of the graph correspond one to
      one: each leader's cluster, and each cluster's first listed vertex. */
  lemma LeadersAreComponents(edges: array2<bool>, vertices: seq<string>, methods: Dict<Method>)
    requires Encodes(edges, vertices, methods)
    ensures |Leaders(edges)| == |Components(Listed(vertices), methods)|
  {
    var leaders := Leaders(edges);
    var f := u => ClusterAt(vertices, methods, u);
    forall u, w | u in leaders && w in leaders && f(u) == f(w)
      ensures u == w
    {
      if u < w {
        LeaderClustersDiffer(edges, vertices, methods, u, w);
      } else if w < u {
        LeaderClustersDiffer(edges, vertices, methods, w, u);
      }
    }
    InjectiveImageCardinality(leaders, f);
    forall c | c in Components(Listed(vertices), methods)
      ensures c in Image(leaders, f)
    {
      var x :| x in Listed(vertices) && c == Component(Listed(vertices), methods, x);
      ClusterHasLeader(edges, vertices, methods, x);
    }
    forall u | u in leaders
      ensures f(u) in Components(Listed(vertices), methods)
    {
      assert vertices[u] in Listed(vertices);
    }
    assert Image(leaders, f) == Components(Listed(vertices), methods);
  }

  // The computation.

  /** `list(set(...))`: the names of a set in an order the set chooses. */
  method VertexList(names: set<string>) returns (vertices: seq<string>)
    ensures Distinct(vertices) && Listed(vertices) == names
  {
    vertices := [];
    var remaining := names;
    while remaining != {}
      invariant Distinct(vertices)
      invariant Listed(vertices) + remaining == names
      invariant Listed(vertices) !! remaining
      decreases remaining
    {
      var x :| x in remaining;
      vertices := vertices + [x];
      remaining := remaining - {x};
    }
  }

  /** `vertices.index(x)`: the first position holding `x`. */
  method IndexOf(vertices: seq<string>, x: string) returns (i: int)
    requires x in vertices
    ensures 0 <= i < |vertices| && vertices[i] == x && x !in vertices[..i]
  {
    i := 0;
    while vertices[i] != x
      invariant 0 <= i < |vertices| && x !in vertices[..i]
      invariant x in vertices[i..]
      decreases |vertices| - i
    {
      assert vertices[i..] == [vertices[i]] + vertices[i + 1..];
      i := i + 1;
    }
  }

  /** The pairs of names one method's edges join: the method and one of the names. */
  predicate Joined(name: string, targets: set<string>, x: string, y: string) {
    (x == name && y in targets) || (y == name && x in targets)
  }

  /** One inner loop of the edge filling: for each name among `targets` that is
      a vertex, the two cells joining it to the method are set. */
  method Connect(edges: array2<bool>, vertices: seq<string>, name: string, targets: set<string>)
    requires Distinct(vertices) && name in vertices
    requires edges.Length0 == edges.Length1 == |vertices|
    modifies edges
    ensures forall i, j :: 0 <= i < |vertices| && 0 <= j < |vertices| ==>
      (edges[i, j] <==> old(edges[i, j]) || Joined(name, targets, vertices[i], vertices[j]))
  {
    var remaining := targets;
    ghost var done: set<string> := {};
    while remaining != {}
      invariant done + remaining == targets
      invariant forall i, j :: 0 <= i < |vertices| && 0 <= j < |vertices| ==>
        (edges[i, j] <==> old(edges[i, j]) || Joined(name, done, vertices[i], vertices[j]))
      decreases remaining
    {
      var target :| target in remaining;
      if target in vertices {
        var t := IndexOf(vertices, target);
        var m := IndexOf(vertices, name);
        edges[t, m] := true;
        edges[m, t] := true;
      }
      remaining := remaining - {target};
      done := done + {target};
    }
  }

  /** The edges the methods stored under the keys `ks` contribute. */
  predicate LinkedAmong(methods: Dict<Method>, ks: seq<string>, x: string, y: string) {
    (x in ks && Uses(methods, x, y)) || (y in ks && Uses(methods, y, x))
  }

  /** The adjacency matrix of `calculate`: square over the vertex list, with a
      cell set exactly when its two names are joined by an edge. */
  method BuildEdges(vertices: seq<string>, methods: Dict<Method>) returns (edges: array2<bool>)
    requires Distinct(vertices) && MethodsNamed(methods)
    requires forall k :: k in methods.entries ==> k in vertices
    ensures fresh(edges) && Encodes(edges, vertices, methods)
  {
    var n := |vertices|;
    edges := new bool[n, n]((i, j) => false);
    var values := methods.Values();
    var mi := 0;
    while mi < |values|
      invariant 0 <= mi <= |values|
      invariant edges.Length0 == edges.Length1 == n
      invariant forall i, j :: 0 <= i < n && 0 <= j < n ==>
        (edges[i, j] <==> LinkedAmong(methods, methods.keys[..mi], vertices[i], vertices[j]))
    {
      var current := values[mi];
      assert methods.keys[..mi + 1] == methods.keys[..mi] + [methods.keys[mi]];
      Connect(edges, vertices, current.name, current.accessedAttributes);
      Connect(edges, vertices, current.name, current.called);
      mi := mi + 1;
    }
    assert methods.keys[..mi] == methods.keys;
  }

  /** `LackOfCohesion.calculate`: 0 when there is no method or only
      `__init__`, otherwise the number of clusters of the graph, which is at
      least 1 and at most the number of vertices. */
  method LackOfCohesion(c: Class) returns (lcom: nat)
    requires MethodsNamed(c.methods)
    ensures lcom == LackOfCohesionValue(c.attributes, c.methods)
    ensures !NothingToMeasure(c.methods) ==> 1 <= lcom <= |Vertices(c.attributes, c.methods)|
  {
    var methods := c.methods;
    if |methods.keys| == 0 || (|methods.keys| == 1 && methods.keys[0] == "__init__") {
      return 0;
    }
    var vertices := VertexList(AttributeNames(c.attributes) + methods.entries.Keys);
    var edges := BuildEdges(vertices, methods);
    lcom := CountConnectedComponents(edges);
    LeadersAreComponents(edges, vertices, methods);
    DistinctCardinality(vertices);
    assert Listed(vertices) == set x | x in vertices;
    assert methods.keys[0] in vertices;
  }
}
