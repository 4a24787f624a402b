/** Size metrics of a class: weighted methods per class (WMC), response for
    class (RFC), number of attributes (NOA) and number of methods (NOM). */
module SizeMetrics {
  import opened Dicts
  import opened ClassModel

  /** The logical lines of a list of methods, added from first to last. */
  function SumLloc(ms: seq<Method>): int {
    if ms == [] then 0 else SumLloc(ms[..|ms| - 1]) + ms[|ms| - 1].lloc
  }

  /** Every method has a non-negative logical line count, as every count
      `count_lloc` reports is. */
  predicate NonNegativeLloc(methods: Dict<Method>) {
    forall k :: k in methods.entries ==> methods.entries[k].lloc >= 0
  }

  /** With non-negative counts, the sum is non-negative and at least each summand. */
  lemma {:induction false} SumLlocBounds(ms: seq<Method>)
    requires forall i :: 0 <= i < |ms| ==> ms[i].lloc >= 0
    ensures SumLloc(ms) >= 0
    ensures forall i :: 0 <= i < |ms| ==> ms[i].lloc <= SumLloc(ms)
  {
    if ms != [] {
      var init := ms[..|ms| - 1];
      assert forall i :: 0 <= i < |init| ==> init[i] == ms[i];
      SumLlocBounds(init);
    }
  }

  /** `WeightedMethodsPerClass.calculate`: the logical lines of the methods, in
      the dictionary's order. A class without methods weighs 0; with
      non-negative counts the weight is non-negative and at least the count of
      each of its methods. */
  function WeightedMethods(methods: Dict<Method>): (r: int)
    requires methods.Valid()
    ensures methods.entries == map[] ==> r == 0
    ensures NonNegativeLloc(methods) ==> r >= 0 && forall k :: k in methods.entries ==> methods.entries[k].lloc <= r
  {
    WeightedMethodsBounds(methods);
    SumLloc(methods.Values())
  }

  lemma WeightedMethodsBounds(methods: Dict<Method>)
    requires methods.Valid()
    ensures methods.entries == map[] ==> SumLloc(methods.Values()) == 0
    ensures NonNegativeLloc(methods) ==> SumLloc(methods.Values()) >= 0
    ensures NonNegativeLloc(methods) ==> forall k :: k in methods.entries ==> methods.entries[k].lloc <= SumLloc(methods.Values())
  {
    var vs := methods.Values();
    SizeIsKeyCount(methods);
    if NonNegativeLloc(methods) {
      SumLlocBounds(vs);
      forall k | k in methods.entries
        ensures methods.entries[k].lloc <= SumLloc(vs)
      {
        var i :| 0 <= i < |methods.keys| && methods.keys[i] == k;
        assert vs[i] == methods.entries[k];
      }
    }
  }

  /** The method list of a dictionary after `d[k] = m` for a new key: one more
      method, at the end. */
  lemma ValuesAfterNewKey(d: Dict<Method>, k: string, m: Method)
    requires d.Valid() && k !in d.entries
    ensures d.Put(k, m).Values() == d.Values() + [m]
  {
  }

  /** A class without methods weighs nothing; adding a method under a new name
      adds its logical lines. */
  lemma {:induction false} WeightedMethodsNew(d: Dict<Method>, k: string, m: Method)
    requires d.Valid() && k !in d.entries
    ensures WeightedMethods(Empty()) == 0
    ensures WeightedMethods(d.Put(k, m)) == WeightedMethods(d) + m.lloc
  {
    ValuesAfterNewKey(d, k, m);
    var vs := d.Values() + [m];
    assert vs[..|vs| - 1] == d.Values();
  }

  /** Replacing one entry of a method list changes the sum by the difference. */
  lemma {:induction false} SumLlocReplace(ms: seq<Method>, i: int, m: Method)
    requires 0 <= i < |ms|
    ensures SumLloc(ms[i := m]) == SumLloc(ms) - ms[i].lloc + m.lloc
    decreases |ms|
  {
    var last := |ms| - 1;
    if i < last {
      SumLlocReplace(ms[..last], i, m);
      assert ms[i := m][..last] == ms[..last][i := m];
    } else {
      assert ms[i := m][..last] == ms[..last];
    }
  }

  /** Redefining a method name replaces the method in place, so its logical
      lines replace the old ones. */
  lemma WeightedMethodsRedefined(d: Dict<Method>, k: string, m: Method)
    requires d.Valid() && k in d.entries
    ensures WeightedMethods(d.Put(k, m)) == WeightedMethods(d) - d.entries[k].lloc + m.lloc
  {
    var i :| 0 <= i < |d.keys| && d.keys[i] == k;
    assert d.Put(k, m).Values() == d.Values()[i := m];
    SumLlocReplace(d.Values(), i, m);
  }

  /** The two-method fixture of the WMC tests: logical lines 5 and 3 give 8. */
  lemma WeightedMethodsScenario(n1: string, n2: string)
    requires n1 != n2
    ensures var d := Empty<Method>().Put(n1, Method(n1, 5, 1, {}, {})).Put(n2, Method(n2, 3, 1, {}, {}));
      WeightedMethods(d) == 8
  {
    var d0 := Empty<Method>();
    var d1 := d0.Put(n1, Method(n1, 5, 1, {}, {}));
    WeightedMethodsNew(d0, n1, Method(n1, 5, 1, {}, {}));
    WeightedMethodsNew(d1, n2, Method(n2, 3, 1, {}, {}));
  }

  /** Every name some method calls. */
  function CalledByMethods(methods: Dict<Method>): set<string> {
    set k, n | k in methods.entries && n in methods.entries[k].called :: n
  }

  /** The names called by the methods stored under the keys of a prefix. */
  function CalledAmong(keys: seq<string>, methods: Dict<Method>): set<string> {
    set k, n | k in keys && k in methods.entries && n in methods.entries[k].called :: n
  }

  lemma CalledStep(methods: Dict<Method>, i: int)
    requires methods.Valid() && 0 <= i < |methods.keys|
    ensures CalledAmong(methods.keys[..i + 1], methods)
         == CalledAmong(methods.keys[..i], methods) + methods.entries[methods.keys[i]].called
  {
    assert methods.keys[..i + 1] == methods.keys[..i] + [methods.keys[i]];
  }

  /** `ResponseForClass.calculate`: the number of methods, plus the names the
      class body calls, plus the names its methods call, each name once. */
  method ResponseForClass(c: Class) returns (rfc: nat)
    requires c.methods.Valid()
    ensures rfc == |c.methods.entries| + |c.called| + |CalledByMethods(c.methods)|
    ensures rfc >= |c.methods.entries|
  {
    var methods := c.methods;
    var values := methods.Values();
    var calledByMethods: set<string> := {};
    var i := 0;
    while i < |values|
      invariant 0 <= i <= |values|
      invariant calledByMethods == CalledAmong(methods.keys[..i], methods)
    {
      CalledStep(methods, i);
      calledByMethods := calledByMethods + values[i].called;
      i := i + 1;
    }
    assert methods.keys[..i] == methods.keys;
    assert calledByMethods == CalledByMethods(methods);
    rfc := |methods.entries| + |c.called| + |calledByMethods|;
  }

  /** A method added under a new name contributes only the names no other
      method calls yet: the third term of RFC grows by at most its call count,
      and a class without methods contributes nothing. */
  lemma CalledByMethodsNew(d: Dict<Method>, k: string, m: Method)
    requires k !in d.entries
    ensures CalledByMethods(Empty()) == {}
    ensures CalledByMethods(d.Put(k, m)) == CalledByMethods(d) + m.called
    ensures |CalledByMethods(d.Put(k, m))| <= |CalledByMethods(d)| + |m.called|
  {
    var e := d.Put(k, m).entries;
    forall n | n in m.called
      ensures n in CalledByMethods(d.Put(k, m))
    {
      assert k in e && n in e[k].called;
    }
    forall n | n in CalledByMethods(d)
      ensures n in CalledByMethods(d.Put(k, m))
    {
      var j :| j in d.entries && n in d.entries[j].called;
      assert j in e && n in e[j].called;
    }
  }

  /** `NumberOfAttributes.calculate`: the attribute descriptors, so a name
      recorded with two different inferred types counts twice. */
  function NumberOfAttributes(c: Class): (r: nat)
    reads c
    ensures r == 0 <==> c.attributes == {}
    ensures r >= |AttributeNames(c.attributes)|
  {
    NamesAtMostDescriptors(c.attributes);
    |c.attributes|
  }

  /** The attribute names among a set of descriptors. */
  function AttributeNames(attributes: set<Attribute>): set<string> {
    set a | a in attributes :: a.0
  }

  /** There are no more attribute names than descriptors. */
  lemma {:induction false} NamesAtMostDescriptors(attributes: set<Attribute>)
    ensures |AttributeNames(attributes)| <= |attributes|
    decreases attributes
  {
    if attributes != {} {
      var a :| a in attributes;
      var rest := attributes - {a};
      NamesAtMostDescriptors(rest);
      assert AttributeNames(attributes) == AttributeNames(rest) + {a.0};
    }
  }

  /** `NumberOfMethods.calculate`: the number of method names, one per key of
      the class's method dictionary. */
  function NumberOfMethods(c: Class): (r: nat)
    reads c
    ensures r == 0 <==> c.methods.entries == map[]
    ensures c.methods.Valid() ==> r == |c.methods.keys|
  {
    ValidSizeIsKeyCount(c.methods);
    |c.methods.entries|
  }

  lemma ValidSizeIsKeyCount(d: Dict<Method>)
    ensures d.Valid() ==> |d.entries| == |d.keys|
  {
    if d.Valid() {
      SizeIsKeyCount(d);
    }
  }

  /** Storing a method under a name that is already present overwrites it, so the
      count is of distinct names. */
  lemma MethodCountAfterPut(d: Dict<Method>, k: string, m: Method)
    ensures |d.Put(k, m).entries| == |d.entries| + (if k in d.entries then 0 else 1)
  {
    if k in d.entries {
      assert d.Put(k, m).entries.Keys == d.entries.Keys;
    }
  }
}
