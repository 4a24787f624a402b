/** Coupling metrics over the registry the parser leaves: fan in (FIN), fan out
    (FOUT) and their sum, coupling between objects (CBO). */
module Coupling {
  import opened Dicts
  import opened ClassModel

  /** The keys among `keys` whose class records a coupling to `name`. */
  function CouplersAmong(name: string, keys: seq<string>, all: Dict<Class>): set<string>
    reads all.entries.Values
  {
    set k | k in keys && k in all.entries && name in all.entries[k].coupledClasses
  }

  /** The registered classes that record a coupling to `name`. */
  function Couplers(name: string, all: Dict<Class>): set<string>
    reads all.entries.Values
  {
    set k | k in all.entries && name in all.entries[k].coupledClasses
  }

  /** Extending the key prefix by one key adds that key exactly when its class
      is coupled to `name`; a key of a valid dictionary is not in its prefix. */
  lemma CouplersStep(name: string, all: Dict<Class>, i: int)
    requires all.Valid() && 0 <= i < |all.keys|
    ensures var k := all.keys[i];
      && k !in CouplersAmong(name, all.keys[..i], all)
      && CouplersAmong(name, all.keys[..i + 1], all)
         == CouplersAmong(name, all.keys[..i], all) + (if name in all.entries[k].coupledClasses then {k} else {})
  {
    assert all.keys[..i + 1] == all.keys[..i] + [all.keys[i]];
  }

  /** `FanIn.calculate`: one count per registered class whose coupled classes
      name the given class. */
  method FanIn(c: Class, all: Dict<Class>) returns (fanIn: nat)
    requires all.Valid()
    ensures fanIn == |Couplers(c.name, all)|
  {
    fanIn := 0;
    var i := 0;
    while i < |all.keys|
      invariant 0 <= i <= |all.keys|
      invariant fanIn == |CouplersAmong(c.name, all.keys[..i], all)|
    {
      var compared := all.keys[i];
      CouplersStep(c.name, all, i);
      if c.name in all.entries[compared].coupledClasses {
        fanIn := fanIn + 1;
      }
      i := i + 1;
    }
    assert all.keys[..i] == all.keys;
    assert CouplersAmong(c.name, all.keys, all) == Couplers(c.name, all);
  }

  /** FIN never exceeds the number of registered classes. */
  lemma FanInBound(name: string, all: Dict<Class>)
    ensures |Couplers(name, all)| <= |all.entries|
  {
    SubsetCardinality(Couplers(name, all), all.entries.Keys);
  }

  /** In a registry where every class is stored under its own name and no class
      is coupled to itself (which `add_coupled_class` guarantees), a class is not
      among the classes counted for its own FIN. */
  lemma FanInExcludesSelf(c: Class, all: Dict<Class>)
    requires WellFormedRegistry(all)
    requires forall k :: k in all.entries ==> k !in all.entries[k].coupledClasses
    ensures c.name !in Couplers(c.name, all)
    ensures |Couplers(c.name, all)| <= |all.entries - {c.name}|
  {
    assert Couplers(c.name, all) <= (all.entries - {c.name}).Keys;
    SubsetCardinality(Couplers(c.name, all), (all.entries - {c.name}).Keys);
  }

  /** `FanOut.calculate`: the number of confirmed couplings. In a registry
      where no class is coupled to itself, the class's own name is not among
      them. */
  function FanOut(c: Class): (r: nat)
    reads c
    ensures r == 0 <==> c.coupledClasses == {}
    ensures c.name !in c.coupledClasses ==> r == |c.coupledClasses - {c.name}|
  {
    |c.coupledClasses|
  }

  /** `CouplingBetweenObjects.calculate`: fan in plus fan out. */
  method CouplingBetweenObjects(c: Class, all: Dict<Class>) returns (cbo: nat)
    requires all.Valid()
    ensures cbo == |Couplers(c.name, all)| + |c.coupledClasses|
    ensures cbo >= |Couplers(c.name, all)| && cbo >= FanOut(c)
  {
    var fin := FanIn(c, all);
    var fout := FanOut(c);
    cbo := fin + fout;
  }

  /** A registry of three classes in the given order. */
  function Registry3(a: Class, b: Class, c: Class): Dict<Class> {
    Dict([a.name, b.name, c.name], map[a.name := a, b.name := b, c.name := c])
  }

  /** Which of three differently named classes count toward the FIN of `name`. */
  lemma Registry3Couplers(a: Class, b: Class, c: Class, name: string)
    requires a.name != b.name && a.name != c.name && b.name != c.name
    ensures Registry3(a, b, c).Valid()
    ensures Couplers(name, Registry3(a, b, c))
         == (if name in a.coupledClasses then {a.name} else {})
          + (if name in b.coupledClasses then {b.name} else {})
          + (if name in c.coupledClasses then {c.name} else {})
  {
  }

  lemma PairCardinality(x: string, y: string)
    requires x != y
    ensures |{x, y}| == 2
  {
  }

  /** The three-class fixture of the coupling tests: A is coupled to B, B to A
      and C to A. A has FIN 2 (B and C), FOUT 1 (B) and CBO 3. */
  method CouplingScenario(a: Class, b: Class, c: Class) returns (fin: nat, fout: nat, cbo: nat)
    requires a.name != b.name && a.name != c.name && b.name != c.name
    requires a.coupledClasses == {b.name} && b.coupledClasses == {a.name} && c.coupledClasses == {a.name}
    ensures fin == 2 && fout == 1 && cbo == 3
  {
    var all := Registry3(a, b, c);
    Registry3Couplers(a, b, c, a.name);
    assert Couplers(a.name, all) == {b.name, c.name};
    PairCardinality(b.name, c.name);
    fin := FanIn(a, all);
    fout := FanOut(a);
    cbo := CouplingBetweenObjects(a, all);
  }
}
