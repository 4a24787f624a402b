/** Inheritance metrics: depth of inheritance tree (DIT), which reports a
    circular hierarchy instead of a number, and number of children (NOC). */
module Inheritance {
  import opened Dicts
  import opened ClassModel
  import opened Coupling

  /** How many nested calls the recursion may make before the interpreter
      raises its recursion error. */
  const RecursionLimit: nat := 1000

  /** The value `DepthOfInheritanceTree.calculate` reports. */
  datatype DepthValue = Depth(n: nat) | Circular

  /** Every parent of a class of `u` is in `u`. */
  ghost predicate ParentClosed(u: set<Class>)
    reads u
  {
    forall x, i :: x in u && 0 <= i < |x.parents| ==> x.parents[i] in u
  }

  function Plus(r: Option<nat>, d: nat): Option<nat> {
    if r.None? then None else Some(r.value + d)
  }

  function Max(a: nat, b: nat): nat {
    if a >= b then a else b
  }

  /** `depth_of_inheritance_tree_recursive(c, depth)` with `fuel` calls left:
      `None` when the recursion limit is reached. */
  function DepthFrom(c: Class, depth: nat, fuel: nat, u: set<Class>): Option<nat>
    requires c in u && ParentClosed(u)
    reads u
    decreases fuel, 0
  {
    if fuel == 0 then None
    else if c.parents == [] then Some(depth)
    else MaxDepth(c.parents, depth, fuel - 1, u)
  }

  /** The maximum over the parents `ps` of their recursive depth at `depth + 1`,
      evaluated from the first parent to the last; `None` if any call hits the
      recursion limit. */
  function MaxDepth(ps: seq<Class>, depth: nat, fuel: nat, u: set<Class>): Option<nat>
    requires ps != [] && (forall i :: 0 <= i < |ps| ==> ps[i] in u) && ParentClosed(u)
    reads u
    decreases fuel, 1, |ps|
  {
    var last := DepthFrom(ps[|ps| - 1], depth + 1, fuel, u);
    if |ps| == 1 then last
    else
      var init := MaxDepth(ps[..|ps| - 1], depth, fuel, u);
      if init.None? || last.None? then None else Some(Max(init.value, last.value))
  }

  /** `DepthOfInheritanceTree.calculate`: the depth, or `Circular` when the
      recursion limit is reached. */
  function DepthOfInheritanceTree(c: Class, u: set<Class>): (r: DepthValue)
    requires c in u && ParentClosed(u)
    reads u
    ensures c.parents == [] ==> r == Depth(0)
    ensures c.parents != [] && r.Depth? ==> r.n >= 1
  {
    var d := DepthFrom(c, 0, RecursionLimit, u);
    if d.None? then Circular
    else
      DepthLowerBound(c, 0, RecursionLimit, u);
      Depth(d.value)
  }

  /** The recursion started at `depth` reports `depth` plus what it reports when
      started at 0: `recursive(c, d) == d + DIT(c)`. */
  lemma {:induction false} DepthShift(c: Class, d: nat, fuel: nat, u: set<Class>)
    requires c in u && ParentClosed(u)
    ensures DepthFrom(c, d, fuel, u) == Plus(DepthFrom(c, 0, fuel, u), d)
    decreases fuel, 0
  {
    if fuel > 0 && c.parents != [] {
      MaxShift(c.parents, d, fuel - 1, u);
    }
  }

  lemma {:induction false} MaxShift(ps: seq<Class>, d: nat, fuel: nat, u: set<Class>)
    requires ps != [] && (forall i :: 0 <= i < |ps| ==> ps[i] in u) && ParentClosed(u)
    ensures MaxDepth(ps, d, fuel, u) == Plus(MaxDepth(ps, 0, fuel, u), d)
    decreases fuel, 1, |ps|
  {
    var p := ps[|ps| - 1];
    DepthShift(p, d + 1, fuel, u);
    DepthShift(p, 1, fuel, u);
    if |ps| > 1 {
      MaxShift(ps[..|ps| - 1], d, fuel, u);
    }
  }

  /** A reported depth is at least the starting depth, and more when the class
      has parents. */
  lemma {:induction false} DepthLowerBound(c: Class, d: nat, fuel: nat, u: set<Class>)
    requires c in u && ParentClosed(u)
    requires DepthFrom(c, d, fuel, u).Some?
    ensures DepthFrom(c, d, fuel, u).value >= d
    ensures c.parents != [] ==> DepthFrom(c, d, fuel, u).value >= d + 1
    decreases fuel, 0
  {
    if c.parents != [] {
      MaxLowerBound(c.parents, d, fuel - 1, u);
    }
  }

  lemma {:induction false} MaxLowerBound(ps: seq<Class>, d: nat, fuel: nat, u: set<Class>)
    requires ps != [] && (forall i :: 0 <= i < |ps| ==> ps[i] in u) && ParentClosed(u)
    requires MaxDepth(ps, d, fuel, u).Some?
    ensures MaxDepth(ps, d, fuel, u).value >= d + 1
    decreases fuel, 1, |ps|
  {
    DepthLowerBound(ps[|ps| - 1], d + 1, fuel, u);
  }

  /** One parent whose recursion hits the limit makes the maximum hit it too. */
  lemma {:induction false} MaxDepthNone(ps: seq<Class>, j: int, d: nat, fuel: nat, u: set<Class>)
    requires ps != [] && (forall i :: 0 <= i < |ps| ==> ps[i] in u) && ParentClosed(u)
    requires 0 <= j < |ps| && DepthFrom(ps[j], d + 1, fuel, u).None?
    ensures MaxDepth(ps, d, fuel, u).None?
    decreases |ps|
  {
    if j < |ps| - 1 {
      MaxDepthNone(ps[..|ps| - 1], j, d, fuel, u);
    }
  }

  /** Whether some parent of `x` is in `s`. */
  ghost predicate HasParentIn(x: Class, s: set<Class>)
    reads x
  {
    exists i :: 0 <= i < |x.parents| && x.parents[i] in s
  }

  /** A set of classes each of which has a parent in the set (a cycle, or
      anything leading into one): the recursion never returns a number from
      any of them, however much fuel it has. */
  lemma {:induction false} CycleNeverReturns(s: set<Class>, c: Class, d: nat, fuel: nat, u: set<Class>)
    requires s <= u && ParentClosed(u) && c in s
    requires forall x :: x in s ==> HasParentIn(x, s)
    ensures DepthFrom(c, d, fuel, u).None?
    decreases fuel
  {
    if fuel > 0 {
      var i :| 0 <= i < |c.parents| && c.parents[i] in s;
      CycleNeverReturns(s, c.parents[i], d + 1, fuel - 1, u);
      MaxDepthNone(c.parents, i, d, fuel - 1, u);
    }
  }

  /** A class in a cycle has the depth `Circular`, a class its own parent included. */
  lemma CircularHierarchy(s: set<Class>, c: Class, u: set<Class>)
    requires s <= u && ParentClosed(u) && c in s
    requires forall x :: x in s ==> HasParentIn(x, s)
    ensures DepthOfInheritanceTree(c, u) == Circular
  {
    CycleNeverReturns(s, c, 0, RecursionLimit, u);
  }

  /** Ranks that strictly decrease from a class to each parent exclude cycles; a
      class ranked below the fuel gets a number. */
  ghost predicate Ranked(rank: map<Class, nat>, u: set<Class>)
    reads u
  {
    forall x, i :: x in u && 0 <= i < |x.parents| ==>
      x in rank && x.parents[i] in rank && rank[x.parents[i]] < rank[x]
  }

  lemma {:induction false} RankedReturns(rank: map<Class, nat>, c: Class, d: nat, fuel: nat, u: set<Class>)
    requires c in u && ParentClosed(u) && Ranked(rank, u)
    requires c in rank && rank[c] < fuel
    ensures DepthFrom(c, d, fuel, u).Some?
    decreases fuel, 0
  {
    if c.parents != [] {
      MaxRankedReturns(rank, c.parents, c, d, fuel - 1, u);
    }
  }

  lemma {:induction false} MaxRankedReturns(rank: map<Class, nat>, ps: seq<Class>, c: Class, d: nat, fuel: nat, u: set<Class>)
    requires ps != [] && (forall i :: 0 <= i < |ps| ==> ps[i] in u) && ParentClosed(u) && Ranked(rank, u)
    requires c in u && c in rank && rank[c] <= fuel
    requires forall i :: 0 <= i < |ps| ==> ps[i] in rank && rank[ps[i]] < rank[c]
    ensures MaxDepth(ps, d, fuel, u).Some?
    decreases fuel, 1, |ps|
  {
    RankedReturns(rank, ps[|ps| - 1], d + 1, fuel, u);
    if |ps| > 1 {
      MaxRankedReturns(rank, ps[..|ps| - 1], c, d, fuel, u);
    }
  }

  /** On an acyclic hierarchy less deep than the recursion limit the result is
      a number. */
  lemma AcyclicIsNumber(rank: map<Class, nat>, c: Class, u: set<Class>)
    requires c in u && ParentClosed(u) && Ranked(rank, u)
    requires c in rank && rank[c] < RecursionLimit
    ensures DepthOfInheritanceTree(c, u).Depth?
  {
    RankedReturns(rank, c, 0, RecursionLimit, u);
  }

  /** The fixture of the DIT tests: a leaf with parents I1 (a root) and I2, whose
      parent is the root. The depth is the longest branch, 2, not the first
      branch's 1 or the sum 3; a class with one parentless parent has depth 1. */
  lemma DiamondDepth(leaf: Class, i1: Class, i2: Class, root: Class, u: set<Class>)
    requires {leaf, i1, i2, root} <= u && ParentClosed(u)
    requires leaf.parents == [i1, i2] && i1.parents == [] && i2.parents == [root] && root.parents == []
    ensures DepthOfInheritanceTree(i2, u) == Depth(1)
    ensures DepthOfInheritanceTree(leaf, u) == Depth(2)
  {
    var f := RecursionLimit - 1;
    assert DepthFrom(root, 1, f, u) == Some(1);
    assert DepthFrom(root, 2, f - 1, u) == Some(2);
    assert DepthFrom(i2, 1, f, u) == Some(2);
    assert DepthFrom(i1, 1, f, u) == Some(1);
    assert MaxDepth([root], 0, f, u) == Some(1);
    assert DepthFrom(i2, 0, RecursionLimit, u) == Some(1);
    assert leaf.parents[..1] == [i1];
    assert MaxDepth([i1], 0, f, u) == Some(1);
    assert MaxDepth([i1, i2], 0, f, u) == Some(2);
    assert DepthFrom(leaf, 0, RecursionLimit, u) == Some(2);
  }

  /** Whether `x` names `name` among its parents' names. */
  predicate ListsParent(x: Class, name: string)
    reads x
  {
    name in x.GetAllParentNames()
  }

  /** `NumberOfChildren.calculate` as written: the loop variable rebinds
      `class_obj`, so a class is counted when it lists ITSELF among its parents'
      names, whatever class was asked about. */
  function SelfParented(all: Dict<Class>): set<string>
    reads all.entries.Values
  {
    set k | k in all.entries && ListsParent(all.entries[k], all.entries[k].name)
  }

  function SelfParentedAmong(keys: seq<string>, all: Dict<Class>): set<string>
    reads all.entries.Values
  {
    set k | k in keys && k in all.entries && ListsParent(all.entries[k], all.entries[k].name)
  }

  lemma SelfParentedStep(all: Dict<Class>, i: int)
    requires all.Valid() && 0 <= i < |all.keys|
    ensures var x := all.entries[all.keys[i]];
      |SelfParentedAmong(all.keys[..i + 1], all)|
      == |SelfParentedAmong(all.keys[..i], all)| + (if ListsParent(x, x.name) then 1 else 0)
  {
    var k := all.keys[i];
    assert all.keys[..i + 1] == all.keys[..i] + [k];
    assert k !in SelfParentedAmong(all.keys[..i], all);
    var x := all.entries[k];
    if ListsParent(x, x.name) {
      assert SelfParentedAmong(all.keys[..i + 1], all) == SelfParentedAmong(all.keys[..i], all) + {k};
    } else {
      assert SelfParentedAmong(all.keys[..i + 1], all) == SelfParentedAmong(all.keys[..i], all);
    }
  }

  method NumberOfChildrenAsWritten(c: Class, all: Dict<Class>) returns (noc: nat)
    requires all.Valid()
    ensures noc == |SelfParented(all)|
  {
    noc := 0;
    var values := all.Values();
    var i := 0;
    while i < |values|
      invariant 0 <= i <= |values|
      invariant noc == |SelfParentedAmong(all.keys[..i], all)|
    {
      var classObj := values[i];
      SelfParentedStep(all, i);
      var parents := classObj.GetAllParentNames();
      assert classObj == all.entries[all.keys[i]];
      assert classObj.name in parents <==> ListsParent(classObj, classObj.name);
      if classObj.name in parents {
        noc := noc + 1;
      }
      assert noc == |SelfParentedAmong(all.keys[..i + 1], all)|;
      i := i + 1;
    }
    assert all.keys[..i] == all.keys;
    assert SelfParentedAmong(all.keys, all) == SelfParented(all);
  }

  /** The classes that list `name` among their parents' names: the count the
      docstring and the tests describe. */
  function Children(name: string, all: Dict<Class>): set<string>
    reads all.entries.Values
  {
    set k | k in all.entries && ListsParent(all.entries[k], name)
  }

  function ChildrenAmong(name: string, keys: seq<string>, all: Dict<Class>): set<string>
    reads all.entries.Values
  {
    set k | k in keys && k in all.entries && ListsParent(all.entries[k], name)
  }

  lemma ChildrenStep(name: string, all: Dict<Class>, i: int)
    requires all.Valid() && 0 <= i < |all.keys|
    ensures |ChildrenAmong(name, all.keys[..i + 1], all)|
      == |ChildrenAmong(name, all.keys[..i], all)| + (if ListsParent(all.entries[all.keys[i]], name) then 1 else 0)
  {
    var k := all.keys[i];
    assert all.keys[..i + 1] == all.keys[..i] + [k];
    assert k !in ChildrenAmong(name, all.keys[..i], all);
    if ListsParent(all.entries[k], name) {
      assert ChildrenAmong(name, all.keys[..i + 1], all) == ChildrenAmong(name, all.keys[..i], all) + {k};
    } else {
      assert ChildrenAmong(name, all.keys[..i + 1], all) == ChildrenAmong(name, all.keys[..i], all);
    }
  }

  /** `NumberOfChildren.calculate` with the loop variable renamed: the number of
      registered classes that name the given class among their parents. */
  method NumberOfChildren(c: Class, all: Dict<Class>) returns (noc: nat)
    requires all.Valid()
    ensures noc == |Children(c.name, all)|
    ensures noc <= |all.entries|
  {
    noc := 0;
    var values := all.Values();
    var i := 0;
    while i < |values|
      invariant 0 <= i <= |values|
      invariant noc == |ChildrenAmong(c.name, all.keys[..i], all)|
    {
      var other := values[i];
      ChildrenStep(c.name, all, i);
      var parents := other.GetAllParentNames();
      assert other == all.entries[all.keys[i]];
      assert c.name in parents <==> ListsParent(other, c.name);
      if c.name in parents {
        noc := noc + 1;
      }
      assert noc == |ChildrenAmong(c.name, all.keys[..i + 1], all)|;
      i := i + 1;
    }
    assert all.keys[..i] == all.keys;
    assert ChildrenAmong(c.name, all.keys, all) == Children(c.name, all);
    SubsetCardinality(Children(c.name, all), all.entries.Keys);
  }

  /** Which of three differently named classes count as children of `name`. */
  lemma Registry3Children(a: Class, b: Class, c: Class, name: string)
    requires a.name != b.name && a.name != c.name && b.name != c.name
    ensures Children(name, Registry3(a, b, c))
         == (if ListsParent(a, name) then {a.name} else {})
          + (if ListsParent(b, name) then {b.name} else {})
          + (if ListsParent(c, name) then {c.name} else {})
  {
    var all := Registry3(a, b, c);
    assert all.entries[a.name] == a && all.entries[b.name] == b && all.entries[c.name] == c;
    assert all.entries.Keys == {a.name, b.name, c.name};
  }

  /** The loop as written counts none of three classes that do not list
      themselves as parents. */
  lemma Registry3NoneSelfParented(a: Class, b: Class, c: Class)
    requires !ListsParent(a, a.name) && !ListsParent(b, b.name) && !ListsParent(c, c.name)
    ensures SelfParented(Registry3(a, b, c)) == {}
  {
    var all := Registry3(a, b, c);
    forall k | k in all.entries
      ensures !ListsParent(all.entries[k], all.entries[k].name)
    {
      assert all.entries[k] in {a, b, c};
    }
  }

  /** A class with a single parent lists exactly that parent's name. */
  lemma SingleParent(x: Class, p: Class, name: string)
    requires x.parents == [p]
    ensures ListsParent(x, name) <==> name == p.name
  {
  }

  /** The fixture of the NOC tests: a parent and two children listing it. The
      intended count is 2, while the loop as written counts the classes that
      are their own parents: none. */
  lemma ChildrenScenario(p: Class, c1: Class, c2: Class)
    requires p.name != c1.name && p.name != c2.name && c1.name != c2.name
    requires p.parents == [] && c1.parents == [p] && c2.parents == [p]
    ensures Registry3(p, c1, c2).Valid()
    ensures |Children(p.name, Registry3(p, c1, c2))| == 2
    ensures SelfParented(Registry3(p, c1, c2)) == {}
  {
    assert p.GetAllParentNames() == {};
    SingleParent(c1, p, p.name);
    SingleParent(c1, p, c1.name);
    SingleParent(c2, p, p.name);
    SingleParent(c2, p, c2.name);
    Registry3Children(p, c1, c2, p.name);
    Registry3NoneSelfParented(p, c1, c2);
    Registry3Couplers(p, c1, c2, p.name);
    PairCardinality(c1.name, c2.name);
  }

  /** A lone class without parents has no children. */
  lemma LoneClassChildren(c: Class)
    requires c.parents == []
    ensures Children(c.name, Dict([c.name], map[c.name := c])) == {}
  {
    assert c.GetAllParentNames() == {};
  }
}
