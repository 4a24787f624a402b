/** The metrics calculator: one row of eleven class metrics per registered
    class, and one row of two method metrics per method of each class. */
module MetricsCalculation {
  import opened Dicts
  import opened ClassModel
  import opened SizeMetrics
  import opened Coupling
  import opened Inheritance
  import opened Cohesion

  /** A metric value: a count, or the text `'Circular'` the depth of
      inheritance reports for a cyclic hierarchy. */
  datatype Value = Number(n: int) | Text(s: string)

  /** The class metric calculators. */
  datatype ClassMetric = WMC | DIT | NOC | FIN | FOUT | CBO | RFC | LCOM | ClassLLOC | NOA | NOM

  /** The method metric calculators; logical lines serve both classes and
      methods, under one name. */
  datatype MethodMetric = MethodLLOC | NOP

  /** A calculator object: the metric it computes and its `name` property,
      the key its results are stored under. */
  datatype Calculator<K> = Calculator(metric: K, name: string)

  /** `self.class_metrics` of `MetricsCalculator.__init__`, in order; logical
      lines report under the name `"LLOC"`. */
  const ClassCalculators: seq<Calculator<ClassMetric>> := [
    Calculator(WMC, "WMC"), Calculator(DIT, "DIT"), Calculator(NOC, "NOC"), Calculator(FIN, "FIN"),
    Calculator(FOUT, "FOUT"), Calculator(CBO, "CBO"), Calculator(RFC, "RFC"), Calculator(LCOM, "LCOM"),
    Calculator(ClassLLOC, "LLOC"), Calculator(NOA, "NOA"), Calculator(NOM, "NOM")]

  /** `self.method_metrics`, in order. */
  const MethodCalculators: seq<Calculator<MethodMetric>> := [Calculator(MethodLLOC, "LLOC"), Calculator(NOP, "NOP")]

  /** The names of a calculator list, in order. */
  function Names<K>(calculators: seq<Calculator<K>>): seq<string> {
    seq(|calculators|, i requires 0 <= i < |calculators| => calculators[i].name)
  }

  /** The two calculator lists name their calculators apart, so no result of
      one calculator overwrites another's. */
  lemma CalculatorNamesDistinct()
    ensures Names(ClassCalculators) == ["WMC", "DIT", "NOC", "FIN", "FOUT", "CBO", "RFC", "LCOM", "LLOC", "NOA", "NOM"]
    ensures Distinct(Names(ClassCalculators))
    ensures Names(MethodCalculators) == ["LLOC", "NOP"]
    ensures Distinct(Names(MethodCalculators))
  {
    var names := Names(ClassCalculators);
    forall i, j | 0 <= i < j < |names|
      ensures names[i] != names[j]
    {
      assert names[i][0] != names[j][0] || |names[i]| != |names[j]| || names[i][1] != names[j][1] || names[i][2] != names[j][2] || names[i][3] != names[j][3];
    }
  }

  /** The state a class metric needs: a valid registry, a set of classes that
      holds every registered class and every parent of one of its classes,
      and methods stored under their own names. */
  ghost predicate Context(all: Dict<Class>, u: set<Class>)
    reads all.entries.Values, u
  {
    && all.Valid()
    && ParentClosed(u)
    && forall k :: k in all.entries ==> all.entries[k] in u && MethodsNamed(all.entries[k].methods)
  }

  /** What each class calculator's `calculate(class_obj, {"all_classes": all})`
      returns, stated through the definitions of the metric modules. The
      number of children is the count the docstring describes. */
  ghost function ClassMetricValue(metric: ClassMetric, c: Class, all: Dict<Class>, u: set<Class>): Value
    requires c in u && ParentClosed(u) && c.methods.Valid() && all.entries.Values <= u
    reads u
  {
    match metric
    case WMC => Number(WeightedMethods(c.methods))
    case DIT => (match DepthOfInheritanceTree(c, u) case Depth(n) => Number(n) case Circular => Text("Circular"))
    case NOC => Number(|Children(c.name, all)|)
    case FIN => Number(|Couplers(c.name, all)|)
    case FOUT => Number(|c.coupledClasses|)
    case CBO => Number(|Couplers(c.name, all)| + |c.coupledClasses|)
    case RFC => Number(|c.methods.entries| + |c.called| + |CalledByMethods(c.methods)|)
    case LCOM => Number(LackOfCohesionValue(c.attributes, c.methods))
    case ClassLLOC => Number(c.lloc)
    case NOA => Number(|c.attributes|)
    case NOM => Number(|c.methods.entries|)
  }

  /** What each method calculator returns. */
  function MethodMetricValue(metric: MethodMetric, m: Method): Value {
    match metric
    case MethodLLOC => Number(m.lloc)
    case NOP => Number(m.numberOfParameters)
  }

  /** `metric.calculate(class_obj, context)` for one class calculator. */
  method CalculateClassMetric(metric: ClassMetric, c: Class, all: Dict<Class>, u: set<Class>) returns (v: Value)
    requires Context(all, u) && c in u && MethodsNamed(c.methods)
    ensures v == ClassMetricValue(metric, c, all, u)
  {
    match metric
    case WMC =>
      v := Number(WeightedMethods(c.methods));
    case DIT =>
      var depth := DepthOfInheritanceTree(c, u);
      v := if depth.Depth? then Number(depth.n) else Text("Circular");
    case NOC =>
      var noc := NumberOfChildren(c, all);
      v := Number(noc);
    case FIN =>
      var fin := FanIn(c, all);
      v := Number(fin);
    case FOUT =>
      v := Number(FanOut(c));
    case CBO =>
      var cbo := CouplingBetweenObjects(c, all);
      v := Number(cbo);
    case RFC =>
      var rfc := ResponseForClass(c);
      v := Number(rfc);
    case LCOM =>
      var lcom := LackOfCohesion(c);
      v := Number(lcom);
    case ClassLLOC =>
      v := Number(c.lloc);
    case NOA =>
      v := Number(NumberOfAttributes(c));
    case NOM =>
      v := Number(NumberOfMethods(c));
  }

  /** The row `calculate_class_metrics` stores for one class: the calculators'
      names as keys, in order, each holding that calculator's value. */
  ghost predicate IsClassRow(row: Dict<Value>, calculators: seq<Calculator<ClassMetric>>, c: Class, all: Dict<Class>, u: set<Class>)
    reads u
  {
    && c in u && ParentClosed(u) && c.methods.Valid() && all.entries.Values <= u
    && row.Valid()
    && row.keys == Names(calculators)
    && forall k :: k in calculators ==> k.name in row.entries && row.entries[k.name] == ClassMetricValue(k.metric, c, all, u)
  }

  /** The row `calculate_method_metrics` stores for one method. */
  ghost predicate IsMethodRow(row: Dict<Value>, calculators: seq<Calculator<MethodMetric>>, m: Method) {
    && row.Valid()
    && row.keys == Names(calculators)
    && forall k :: k in calculators ==> k.name in row.entries && row.entries[k.name] == MethodMetricValue(k.metric, m)
  }

  /** A row holding `values[j]` under `names[j]`, its keys in that order. */
  ghost predicate RowOf(row: Dict<Value>, names: seq<string>, values: seq<Value>) {
    && |names| == |values|
    && row.Valid() && row.keys == names
    && forall j :: 0 <= j < |names| ==> names[j] in row.entries && row.entries[names[j]] == values[j]
  }

  /** Storing under the next of a list of distinct names extends the row by
      one column. */
  lemma RowStep(row: Dict<Value>, names: seq<string>, i: int, values: seq<Value>, v: Value)
    requires Distinct(names) && 0 <= i < |names| && RowOf(row, names[..i], values)
    ensures RowOf(row.Put(names[i], v), names[..i + 1], values + [v])
  {
    forall j | 0 <= j < i
      ensures names[j] != names[i]
    {
    }
    assert names[..i + 1] == names[..i] + [names[i]];
  }

  /** The inner loop of `calculate_class_metrics`: every class calculator in
      order, each result stored under the calculator's name. */
  method CalculateClassRow(calculators: seq<Calculator<ClassMetric>>, c: Class, all: Dict<Class>, u: set<Class>) returns (row: Dict<Value>)
    requires Distinct(Names(calculators)) && Context(all, u) && c in u && MethodsNamed(c.methods)
    ensures IsClassRow(row, calculators, c, all, u)
  {
    row := Empty();
    ghost var names := Names(calculators);
    ghost var values: seq<Value> := [];
    var i := 0;
    while i < |calculators|
      invariant 0 <= i <= |calculators| && |values| == i
      invariant RowOf(row, names[..i], values)
      invariant forall j :: 0 <= j < i ==> values[j] == old(ClassMetricValue(calculators[j].metric, c, all, u))
    {
      var v := CalculateClassMetric(calculators[i].metric, c, all, u);
      assert v == old(ClassMetricValue(calculators[i].metric, c, all, u));
      RowStep(row, names, i, values, v);
      row, values, i := row.Put(calculators[i].name, v), values + [v], i + 1;
    }
    assert names[..i] == names;
    forall k | k in calculators
      ensures k.name in row.entries && row.entries[k.name] == ClassMetricValue(k.metric, c, all, u)
    {
      var j :| 0 <= j < |calculators| && calculators[j] == k;
      assert names[j] == k.name && values[j] == old(ClassMetricValue(k.metric, c, all, u));
    }
  }

  /** The innermost loop of `calculate_method_metrics`, for one method. */
  method CalculateMethodRow(calculators: seq<Calculator<MethodMetric>>, m: Method) returns (row: Dict<Value>)
    requires Distinct(Names(calculators))
    ensures IsMethodRow(row, calculators, m)
  {
    row := Empty();
    ghost var names := Names(calculators);
    ghost var values: seq<Value> := [];
    var i := 0;
    while i < |calculators|
      invariant 0 <= i <= |calculators| && |values| == i
      invariant RowOf(row, names[..i], values)
      invariant forall j :: 0 <= j < i ==> values[j] == MethodMetricValue(calculators[j].metric, m)
    {
      var v := MethodMetricValue(calculators[i].metric, m);
      RowStep(row, names, i, values, v);
      row, values, i := row.Put(calculators[i].name, v), values + [v], i + 1;
    }
    assert names[..i] == names;
    forall k | k in calculators
      ensures k.name in row.entries && row.entries[k.name] == MethodMetricValue(k.metric, m)
    {
      var j :| 0 <= j < |calculators| && calculators[j] == k;
      assert names[j] == k.name;
    }
  }

  /** Copying the keys of a dictionary in order: the next key is new, and
      storing it extends the copy by that key. */
  lemma CopyStep<V, W>(source: Dict<V>, d: Dict<W>, i: int, w: W)
    requires source.Valid() && 0 <= i < |source.keys|
    requires d.Valid() && d.keys == source.keys[..i]
    ensures source.keys[i] !in d.entries && source.keys[i] in source.entries
    ensures d.Put(source.keys[i], w).Valid() && d.Put(source.keys[i], w).keys == source.keys[..i + 1]
  {
    assert source.keys[..i + 1] == source.keys[..i] + [source.keys[i]];
  }

  /** The table `calculate_class_metrics` returns: one row per registered
      class, in registry order, each under the class's key. */
  ghost predicate IsClassTable(results: Dict<Dict<Value>>, calculators: seq<Calculator<ClassMetric>>, all: Dict<Class>, u: set<Class>)
    reads u
  {
    && results.Valid()
    && results.keys == all.keys
    && forall k :: k in results.entries ==> k in all.entries && IsClassRow(results.entries[k], calculators, all.entries[k], all, u)
  }

  /** `MetricsCalculator.calculate_class_metrics`: every calculator applied to
      every registered class, with the whole registry as context. The
      registry itself is left as it was. */
  method CalculateClassMetrics(calculators: seq<Calculator<ClassMetric>>, all: Dict<Class>, u: set<Class>) returns (results: Dict<Dict<Value>>)
    requires Distinct(Names(calculators)) && Context(all, u)
    ensures IsClassTable(results, calculators, all, u)
  {
    results := Empty();
    var i := 0;
    while i < |all.keys|
      invariant 0 <= i <= |all.keys|
      invariant results.Valid() && results.keys == all.keys[..i]
      invariant forall k :: k in results.entries ==> k in all.entries && IsClassRow(results.entries[k], calculators, all.entries[k], all, u)
    {
      var name := all.keys[i];
      var row := CalculateClassRow(calculators, all.entries[name], all, u);
      CopyStep(all, results, i, row);
      results := results.Put(name, row);
      i := i + 1;
    }
    assert all.keys[..i] == all.keys;
  }

  /** The rows `calculate_method_metrics` stores for one class: one per
      method, in the order of the class's method table. */
  ghost predicate IsMethodTable(rows: Dict<Dict<Value>>, calculators: seq<Calculator<MethodMetric>>, methods: Dict<Method>) {
    && rows.Valid()
    && rows.keys == methods.keys
    && forall k :: k in rows.entries ==> k in methods.entries && IsMethodRow(rows.entries[k], calculators, methods.entries[k])
  }

  /** The middle loop of `calculate_method_metrics`, over one class's methods. */
  method CalculateMethodTable(calculators: seq<Calculator<MethodMetric>>, methods: Dict<Method>) returns (rows: Dict<Dict<Value>>)
    requires Distinct(Names(calculators)) && methods.Valid()
    ensures IsMethodTable(rows, calculators, methods)
  {
    rows := Empty();
    var i := 0;
    while i < |methods.keys|
      invariant 0 <= i <= |methods.keys|
      invariant rows.Valid() && rows.keys == methods.keys[..i]
      invariant forall k :: k in rows.entries ==> k in methods.entries && IsMethodRow(rows.entries[k], calculators, methods.entries[k])
    {
      var name := methods.keys[i];
      var row := CalculateMethodRow(calculators, methods.entries[name]);
      CopyStep(methods, rows, i, row);
      var next := rows.Put(name, row);
      forall k | k in next.entries
        ensures k in methods.entries && IsMethodRow(next.entries[k], calculators, methods.entries[k])
      {
        if k != name {
          assert next.entries[k] == rows.entries[k];
        }
      }
      rows, i := next, i + 1;
    }
    assert methods.keys[..i] == methods.keys;
  }

  /** The table `calculate_method_metrics` returns: one entry per registered
      class, in registry order, holding that class's method rows; a class
      without methods gets an empty table. */
  ghost predicate IsMethodMetricsTable(results: Dict<Dict<Dict<Value>>>, calculators: seq<Calculator<MethodMetric>>, all: Dict<Class>)
    reads all.entries.Values
  {
    && results.Valid()
    && results.keys == all.keys
    && forall k :: k in results.entries ==> k in all.entries && IsMethodTable(results.entries[k], calculators, all.entries[k].methods)
  }

  /** `MetricsCalculator.calculate_method_metrics`. */
  method CalculateMethodMetrics(calculators: seq<Calculator<MethodMetric>>, all: Dict<Class>) returns (results: Dict<Dict<Dict<Value>>>)
    requires Distinct(Names(calculators)) && all.Valid()
    requires forall k :: k in all.entries ==> all.entries[k].methods.Valid()
    ensures IsMethodMetricsTable(results, calculators, all)
  {
    results := Empty();
    var i := 0;
    while i < |all.keys|
      invariant 0 <= i <= |all.keys|
      invariant results.Valid() && results.keys == all.keys[..i]
      invariant forall k :: k in results.entries ==> k in all.entries && IsMethodTable(results.entries[k], calculators, all.entries[k].methods)
    {
      var name := all.keys[i];
      var rows := CalculateMethodTable(calculators, all.entries[name].methods);
      CopyStep(all, results, i, rows);
      var next := results.Put(name, rows);
      forall k | k in next.entries
        ensures k in all.entries && IsMethodTable(next.entries[k], calculators, all.entries[k].methods)
      {
        if k != name {
          assert next.entries[k] == results.entries[k];
        }
      }
      results, i := next, i + 1;
    }
    assert all.keys[..i] == all.keys;
  }

  /** `MetricsCalculator.calculate_all_metrics`: both tables, from the
      calculator lists of `__init__`. */
  method CalculateAllMetrics(all: Dict<Class>, u: set<Class>) returns (classResults: Dict<Dict<Value>>, methodResults: Dict<Dict<Dict<Value>>>)
    requires Context(all, u)
    ensures IsClassTable(classResults, ClassCalculators, all, u)
    ensures IsMethodMetricsTable(methodResults, MethodCalculators, all)
  {
    CalculatorNamesDistinct();
    classResults := CalculateClassMetrics(ClassCalculators, all, u);
    methodResults := CalculateMethodMetrics(MethodCalculators, all);
  }
}
