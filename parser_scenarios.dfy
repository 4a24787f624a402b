/** The parser on the sample module its tests parse, and the reuse of a base
    stub by a later class definition. */
module ParserScenarios {
  import opened Dicts
  import opened Syntax
  import opened ClassModel
  import opened Extraction
  import opened Parsing
  import opened LogicalLines
  import SizeMetrics
  import Coupling

  function PassStatement(): Stmt {
    Simple(Pass, [], [])
  }

  /** `def __init__(self): pass` */
  function InitPass(): Stmt {
    FunctionDef("__init__", false, ["self"], [NoAnnotation], None, [PassStatement()], [])
  }

  /** `name = <constant>` at class level. */
  function ClassConstant(name: string): Stmt {
    Simple(Assign, [NameTarget(name)], [])
  }

  /** A method reduced to a `pass` body: what its statements report does not
      affect which classes and methods are registered. */
  function MethodDef(name: string, args: seq<string>): Stmt {
    FunctionDef(name, false, args, [], None, [PassStatement()], [])
  }

  function UsedClass6Def(): Stmt {
    ClassDef("UsedClass6", [], [InitPass()])
  }

  function UsedClassWithConstDef(): Stmt {
    ClassDef("UsedClassWithConst", [], [ClassConstant("USED_CONST"), InitPass()])
  }

  function UsedClassDef(): Stmt {
    ClassDef("UsedClass", [], [MethodDef("__init__", ["self"])])
  }

  function MySuperParentDef(): Stmt {
    ClassDef("MySuperParent", [], [ClassConstant("super_parent_var"), InitPass()])
  }

  function MyParentDef(): Stmt {
    ClassDef("MyParent", [NameBase("MySuperParent1"), NameBase("MySuperParent2")],
             [ClassConstant("parent_var"), InitPass()])
  }

  function MyClassDef(): Stmt {
    ClassDef("MyClass", [NameBase("MyParent")],
             [ClassConstant("class_variable"), MethodDef("__init__", ["self", "value"]),
              MethodDef("my_method", ["self"])])
  }

  function MyFunctionDef(): Stmt {
    MethodDef("my_function", [])
  }

  /** The module of the parser's tests: six classes, two base lists (one naming
      two classes the module never defines) and a module-level function. */
  function SampleModule(): Module {
    Module("", [UsedClass6Def(), UsedClassWithConstDef(), UsedClassDef(), MySuperParentDef(),
                MyParentDef(), MyClassDef(), MyFunctionDef()])
  }

  function SampleClassNames(): set<string> {
    {"UsedClass6", "UsedClassWithConst", "UsedClass", "MySuperParent", "MyParent",
     "MySuperParent1", "MySuperParent2", "MyClass"}
  }

  /** The key order the sample leaves: each class where it is first named, the
      stubs right after the class whose base list names them. */
  function SampleKeys(): seq<string> {
    ["UsedClass6", "UsedClassWithConst", "UsedClass", "MySuperParent", "MyParent",
     "MySuperParent1", "MySuperParent2", "MyClass"]
  }

  /** The classes without a base list register their own name. */
  lemma PlainClassNames()
    ensures ClassBodyExtractable(UsedClass6Def().body) && StatementNames(UsedClass6Def()) == {"UsedClass6"}
    ensures ClassBodyExtractable(UsedClassWithConstDef().body)
         && StatementNames(UsedClassWithConstDef()) == {"UsedClassWithConst"}
    ensures ClassBodyExtractable(UsedClassDef().body) && StatementNames(UsedClassDef()) == {"UsedClass"}
    ensures ClassBodyExtractable(MySuperParentDef().body)
         && StatementNames(MySuperParentDef()) == {"MySuperParent"}
  {
  }

  /** A class definition whose body does not raise registers its name and its
      plain-name bases. */
  lemma DefinitionNames(name: string, bases: seq<Base>, body: seq<Stmt>)
    requires ClassBodyExtractable(body)
    ensures StatementNames(ClassDef(name, bases, body)) == {name} + Elements(BaseNames(bases))
  {
  }

  lemma TwoBases(a: string, b: string)
    ensures BaseNames([NameBase(a), NameBase(b)]) == [a, b]
    ensures Elements([a, b]) == {a, b}
  {
    OneBase(a);
    var bases := [NameBase(a), NameBase(b)];
    assert bases[..1] == [NameBase(a)];
    assert BaseNames(bases) == BaseNames([NameBase(a)]) + [b];
    assert [a, b][..1] == [a];
    assert Elements([a, b]) == Elements([a]) + {b};
  }

  lemma OneBase(a: string)
    ensures BaseNames([NameBase(a)]) == [a]
    ensures Elements([a]) == {a}
  {
    var bases := [NameBase(a)];
    assert bases[..0] == [];
    assert [a][..0] == [];
  }

  /** `MyParent` also registers its two undefined bases. */
  lemma MyParentNames()
    ensures ClassBodyExtractable(MyParentDef().body)
    ensures BaseNames(MyParentDef().bases) == ["MySuperParent1", "MySuperParent2"]
  {
    TwoBases("MySuperParent1", "MySuperParent2");
  }

  /** `MyClass` also registers its base. */
  lemma MyClassNames()
    ensures ClassBodyExtractable(MyClassDef().body)
    ensures BaseNames(MyClassDef().bases) == ["MyParent"]
  {
    OneBase("MyParent");
  }

  /** A class definition extracted from a blank state ends with exactly one
      method per distinct function name of its body. */
  lemma DefinedClassMethods(cd: Stmt)
    requires cd.ClassDef? && ClassBodyExtractable(cd.body)
    ensures ClassBodyEffect(cd.body, cd.name, BlankState()).Some?
    ensures ClassBodyEffect(cd.body, cd.name, BlankState()).value.methods.entries.Keys == MethodNames(cd.body)
  {
    ClassBodyEffectDefined(cd.body, cd.name, BlankState());
    ClassBodyEffectFacts(cd.body, cd.name, BlankState());
  }

  function DefinedName(s: Stmt): set<string> {
    if s.FunctionDef? then {s.name} else {}
  }

  lemma MethodNamesOfTwo(a: Stmt, b: Stmt)
    ensures MethodNames([a]) == DefinedName(a)
    ensures MethodNames([a, b]) == DefinedName(a) + DefinedName(b)
  {
    MethodNamesStep([a]);
    assert [a][..0] == [];
    MethodNamesStep([a, b]);
    assert [a, b][..1] == [a];
  }

  lemma MethodNamesOfThree(a: Stmt, b: Stmt, c: Stmt)
    ensures MethodNames([a, b, c]) == DefinedName(a) + DefinedName(b) + DefinedName(c)
  {
    MethodNamesOfTwo(a, b);
    MethodNamesStep([a, b, c]);
    assert [a, b, c][..2] == [a, b];
  }

  lemma SampleMethodNames()
    ensures MethodNames(UsedClass6Def().body) == {"__init__"}
    ensures MethodNames(UsedClassWithConstDef().body) == {"__init__"}
    ensures MethodNames(UsedClassDef().body) == {"__init__"}
    ensures MethodNames(MySuperParentDef().body) == {"__init__"}
    ensures MethodNames(MyParentDef().body) == {"__init__"}
    ensures MethodNames(MyClassDef().body) == {"__init__", "my_method"}
  {
    MethodNamesOfTwo(InitPass(), InitPass());
    MethodNamesOfTwo(ClassConstant("USED_CONST"), InitPass());
    MethodNamesOfTwo(MethodDef("__init__", ["self"]), InitPass());
    MethodNamesOfTwo(ClassConstant("super_parent_var"), InitPass());
    MethodNamesOfTwo(ClassConstant("parent_var"), InitPass());
    MethodNamesOfThree(ClassConstant("class_variable"), MethodDef("__init__", ["self", "value"]),
                       MethodDef("my_method", ["self"]));
  }

  /** What the parser's effect on the sample depends on: which statements are
      class definitions that do not raise, their names, their plain-name bases
      and the function names of their bodies. */
  predicate SampleOutline(body: seq<Stmt>) {
    && |body| == 7
    && (forall j :: 0 <= j < 6 ==> body[j].ClassDef? && ClassBodyExtractable(body[j].body))
    && !body[6].ClassDef?
    && body[0].ClassDef? && body[0].name == "UsedClass6"
    && body[1].ClassDef? && body[1].name == "UsedClassWithConst"
    && body[2].ClassDef? && body[2].name == "UsedClass"
    && body[3].ClassDef? && body[3].name == "MySuperParent"
    && body[4].ClassDef? && body[4].name == "MyParent"
    && body[5].ClassDef? && body[5].name == "MyClass"
    && (forall j :: 0 <= j < 4 ==> body[j].bases == [])
    && BaseNames(body[4].bases) == ["MySuperParent1", "MySuperParent2"]
    && BaseNames(body[5].bases) == ["MyParent"]
    && (forall j :: 0 <= j < 5 ==> MethodNames(body[j].body) == {"__init__"})
    && MethodNames(body[5].body) == {"__init__", "my_method"}
  }

  lemma SampleOutlined()
    ensures SampleOutline(SampleModule().body)
  {
    PlainClassNames();
    MyParentNames();
    MyClassNames();
    SampleMethodNames();
  }

  /** Extending a module prefix by one statement adds what it registers. */
  lemma NamesStep(body: seq<Stmt>, i: int)
    requires 0 <= i < |body|
    ensures ModuleNames(body[..i + 1]) == ModuleNames(body[..i]) + StatementNames(body[i])
  {
    ModuleStep(body, i);
  }

  /** A seven-statement module registers what its statements register. */
  lemma SevenStatements(body: seq<Stmt>)
    requires |body| == 7
    ensures ModuleNames(body) == StatementNames(body[0]) + StatementNames(body[1]) + StatementNames(body[2])
      + StatementNames(body[3]) + StatementNames(body[4]) + StatementNames(body[5]) + StatementNames(body[6])
  {
    assert body[..0] == [];
    NamesStep(body, 0);
    NamesStep(body, 1);
    NamesStep(body, 2);
    NamesStep(body, 3);
    NamesStep(body, 4);
    NamesStep(body, 5);
    NamesStep(body, 6);
    assert body[..7] == body;
  }

  /** No class body of the sample raises. */
  lemma SampleModuleExtractable(body: seq<Stmt>)
    requires SampleOutline(body)
    ensures ModuleExtractable(body)
  {
  }

  /** The sample registers the six classes it defines and the two stubs
      `MySuperParent1` and `MySuperParent2`. */
  lemma SampleModuleNames(body: seq<Stmt>)
    requires SampleOutline(body)
    ensures ModuleNames(body) == SampleClassNames()
  {
    SevenStatements(body);
    TwoBases("MySuperParent1", "MySuperParent2");
    OneBase("MyParent");
    forall j | 0 <= j < 4
      ensures StatementNames(body[j]) == {body[j].name}
    {
      assert BaseNames(body[j].bases) == [];
    }
  }

  /** The key order after one more statement of a module prefix. */
  lemma KeysStep(body: seq<Stmt>, i: int, keys: seq<string>)
    requires 0 <= i < |body|
    ensures ModuleKeys(body[..i + 1], keys) == StatementKeys(body[i], ModuleKeys(body[..i], keys))
  {
    assert body[..i + 1][..i] == body[..i];
  }

  /** A class definition without a base list registers its name at the end. */
  lemma PlainDefinitionKeys(cd: Stmt, keys: seq<string>)
    requires cd.ClassDef? && cd.bases == [] && cd.name !in keys
    ensures StatementKeys(cd, keys) == keys + [cd.name]
  {
    assert BaseNames(cd.bases) == [];
  }

  lemma KeysAfter(body: seq<Stmt>, i: int, before: seq<string>, after: seq<string>)
    requires 0 <= i < |body| && ModuleKeys(body[..i], []) == before && StatementKeys(body[i], before) == after
    ensures ModuleKeys(body[..i + 1], []) == after
  {
    KeysStep(body, i, []);
  }

  /** The four classes without a base list, each registered at the end. */
  lemma PlainKeys(body: seq<Stmt>)
    requires SampleOutline(body)
    ensures ModuleKeys(body[..4], []) == ["UsedClass6", "UsedClassWithConst", "UsedClass", "MySuperParent"]
  {
    assert body[..0] == [];
    PlainDefinitionKeys(body[0], []);
    KeysAfter(body, 0, [], ["UsedClass6"]);
    PlainDefinitionKeys(body[1], ["UsedClass6"]);
    KeysAfter(body, 1, ["UsedClass6"], ["UsedClass6", "UsedClassWithConst"]);
    PlainDefinitionKeys(body[2], ["UsedClass6", "UsedClassWithConst"]);
    KeysAfter(body, 2, ["UsedClass6", "UsedClassWithConst"], ["UsedClass6", "UsedClassWithConst", "UsedClass"]);
    PlainDefinitionKeys(body[3], ["UsedClass6", "UsedClassWithConst", "UsedClass"]);
    KeysAfter(body, 3, ["UsedClass6", "UsedClassWithConst", "UsedClass"],
              ["UsedClass6", "UsedClassWithConst", "UsedClass", "MySuperParent"]);
  }

  /** `MyParent` is registered, then its two bases in order. */
  lemma MyParentKeys(cd: Stmt, keys: seq<string>)
    requires cd.ClassDef? && ClassBodyExtractable(cd.body) && cd.name == "MyParent"
    requires BaseNames(cd.bases) == ["MySuperParent1", "MySuperParent2"]
    requires "MyParent" !in keys && "MySuperParent1" !in keys && "MySuperParent2" !in keys
    ensures StatementKeys(cd, keys) == keys + ["MyParent", "MySuperParent1", "MySuperParent2"]
  {
    var withClass := AddKey(keys, "MyParent");
    assert withClass == keys + ["MyParent"];
    assert ["MySuperParent1", "MySuperParent2"][..1] == ["MySuperParent1"];
    assert ["MySuperParent1"][..0] == [];
    assert AddKeys(withClass, ["MySuperParent1"]) == withClass + ["MySuperParent1"];
    assert AddKeys(withClass, ["MySuperParent1", "MySuperParent2"])
        == AddKey(withClass + ["MySuperParent1"], "MySuperParent2");
  }

  /** `MyClass` is registered at the end; its base is already a key. */
  lemma MyClassKeys(cd: Stmt, keys: seq<string>)
    requires cd.ClassDef? && ClassBodyExtractable(cd.body) && cd.name == "MyClass"
    requires BaseNames(cd.bases) == ["MyParent"]
    requires "MyClass" !in keys && "MyParent" in keys
    ensures StatementKeys(cd, keys) == keys + ["MyClass"]
  {
    assert ["MyParent"][..0] == [];
    assert AddKeys(keys + ["MyClass"], ["MyParent"]) == AddKey(keys + ["MyClass"], "MyParent");
  }

  /** The sample registers its classes in the order of `SampleKeys`. */
  lemma SampleModuleKeys(body: seq<Stmt>)
    requires SampleOutline(body)
    ensures ModuleKeys(body, []) == SampleKeys()
  {
    var four := ["UsedClass6", "UsedClassWithConst", "UsedClass", "MySuperParent"];
    var seven := four + ["MyParent", "MySuperParent1", "MySuperParent2"];
    PlainKeys(body);
    MyParentKeys(body[4], four);
    KeysAfter(body, 4, four, seven);
    MyClassKeys(body[5], seven);
    KeysAfter(body, 5, seven, SampleKeys());
    KeysAfter(body, 6, SampleKeys(), SampleKeys());
    assert body[..7] == body;
  }

  lemma SampleClassCount()
    ensures |SampleClassNames()| == 8
  {
  }

  /** A module body that never defines `k` leaves the record of `k` alone. */
  lemma {:induction false} NoDefinitionRecord(body: seq<Stmt>, path: string, k: string, r: ClassRecord)
    requires forall i :: 0 <= i < |body| ==> !(body[i].ClassDef? && body[i].name == k)
    ensures ModuleRecord(body, path, k, r) == Some(r)
  {
    if body != [] {
      var init := body[..|body| - 1];
      assert forall i :: 0 <= i < |init| ==> init[i] == body[i];
      NoDefinitionRecord(init, path, k, r);
    }
  }

  /** A module body that defines `k` once gives `k` the record of that definition. */
  lemma {:induction false} SingleDefinitionRecord(body: seq<Stmt>, path: string, k: string, j: int, r: ClassRecord)
    requires 0 <= j < |body| && body[j].ClassDef? && body[j].name == k
    requires forall i :: 0 <= i < |body| && i != j ==> !(body[i].ClassDef? && body[i].name == k)
    ensures ModuleRecord(body, path, k, r) == DefinedRecord(body[j], path, r)
  {
    var init := body[..|body| - 1];
    assert forall i :: 0 <= i < |init| ==> init[i] == body[i];
    if j == |body| - 1 {
      NoDefinitionRecord(init, path, k, r);
    } else {
      SingleDefinitionRecord(init, path, k, j, r);
    }
  }

  /** Each of the six classes the sample defines ends with one method per distinct
      function name of its body, and with its plain-name bases as parents. */
  lemma SampleDefinition(body: seq<Stmt>, j: int)
    requires SampleOutline(body) && 0 <= j < 6
    ensures && body[j].ClassDef?
      && ModuleRecord(body, "", body[j].name, BlankRecord()).Some?
      && ModuleRecord(body, "", body[j].name, BlankRecord()).value.state.methods.entries.Keys
         == MethodNames(body[j].body)
      && ModuleRecord(body, "", body[j].name, BlankRecord()).value.parents == BaseNames(body[j].bases)
  {
    SingleDefinitionRecord(body, "", body[j].name, j, BlankRecord());
    DefinedClassMethods(body[j]);
  }

  /** The two stubs are never defined, so they keep the blank record. */
  lemma SampleStub(body: seq<Stmt>, k: string)
    requires SampleOutline(body) && (k == "MySuperParent1" || k == "MySuperParent2")
    ensures ModuleRecord(body, "", k, BlankRecord()) == Some(BlankRecord())
  {
    NoDefinitionRecord(body, "", k, BlankRecord());
  }

  /** The number of methods over the classes of a registry, in key order: the
      parser tests' sum of `len(c.methods)` over `classes.values()`. */
  function MethodTotal(keys: seq<string>, entries: map<string, Class>): nat
    requires forall i :: 0 <= i < |keys| ==> keys[i] in entries
    reads entries.Values
  {
    if keys == [] then 0
    else MethodTotal(keys[..|keys| - 1], entries) + |entries[keys[|keys| - 1]].methods.entries|
  }

  /** Extending the key prefix by one key adds that class's method count. */
  lemma TotalStep(keys: seq<string>, entries: map<string, Class>, i: int)
    requires 0 <= i < |keys| && forall j :: 0 <= j < |keys| ==> keys[j] in entries
    ensures MethodTotal(keys[..i + 1], entries) == MethodTotal(keys[..i], entries) + |entries[keys[i]].methods.entries|
  {
    assert keys[..i + 1][..i] == keys[..i];
  }

  /** The number of methods of each class of the sample, in key order. */
  function SampleCounts(): seq<nat> {
    [1, 1, 1, 1, 1, 0, 0, 2]
  }

  /** The per-class method counts of the sample add up to seven. */
  lemma SampleTotal(entries: map<string, Class>)
    requires forall i :: 0 <= i < 8 ==>
      SampleKeys()[i] in entries && |entries[SampleKeys()[i]].methods.entries| == SampleCounts()[i]
    ensures MethodTotal(SampleKeys(), entries) == 7
  {
    var keys := SampleKeys();
    assert keys[..0] == [];
    TotalStep(keys, entries, 0);
    TotalStep(keys, entries, 1);
    TotalStep(keys, entries, 2);
    TotalStep(keys, entries, 3);
    TotalStep(keys, entries, 4);
    TotalStep(keys, entries, 5);
    TotalStep(keys, entries, 6);
    TotalStep(keys, entries, 7);
    assert keys[..8] == keys;
  }

  /** A defined class of the sample, in a registry holding the records the
      sample gives: its methods are the function names of its body. */
  lemma DefinedCount(body: seq<Stmt>, entries: map<string, Class>, j: int)
    requires SampleOutline(body) && 0 <= j < 6 && entries.Keys == SampleClassNames()
    requires forall k :: ModuleRecord(body, "", k, BlankRecord()) == Some(RecordIn(entries, k))
    ensures body[j].ClassDef? && body[j].name in entries
    ensures entries[body[j].name].methods.entries.Keys == MethodNames(body[j].body)
    ensures Names(entries[body[j].name].parents) == BaseNames(body[j].bases)
  {
    SampleDefinition(body, j);
    assert ModuleRecord(body, "", body[j].name, BlankRecord()) == Some(RecordIn(entries, body[j].name));
  }

  /** A stub of the sample, in the same registry: no methods and no parents. */
  lemma StubCount(body: seq<Stmt>, entries: map<string, Class>, k: string)
    requires SampleOutline(body) && entries.Keys == SampleClassNames()
    requires k == "MySuperParent1" || k == "MySuperParent2"
    requires forall k :: ModuleRecord(body, "", k, BlankRecord()) == Some(RecordIn(entries, k))
    ensures k in entries && entries[k].methods == Empty() && entries[k].parents == []
  {
    SampleStub(body, k);
    assert ModuleRecord(body, "", k, BlankRecord()) == Some(RecordIn(entries, k));
  }

  /** One class of the same registry has the method count `SampleCounts` gives it. */
  lemma SampleCount(body: seq<Stmt>, entries: map<string, Class>, i: int)
    requires SampleOutline(body) && entries.Keys == SampleClassNames() && 0 <= i < 8
    requires forall k :: ModuleRecord(body, "", k, BlankRecord()) == Some(RecordIn(entries, k))
    ensures SampleKeys()[i] in entries && |entries[SampleKeys()[i]].methods.entries| == SampleCounts()[i]
  {
    var k := SampleKeys()[i];
    if i == 5 || i == 6 {
      StubCount(body, entries, k);
    } else {
      var j := if i < 5 then i else 5;
      DefinedCount(body, entries, j);
      DefinedMethodCount(body, j, entries[k]);
    }
  }

  /** A class of the sample whose methods are the function names of its body:
      one method, or two for `MyClass`. */
  lemma DefinedMethodCount(body: seq<Stmt>, j: int, c: Class)
    requires SampleOutline(body) && 0 <= j < 6
    requires c.methods.entries.Keys == MethodNames(body[j].body)
    ensures |c.methods.entries| == if j < 5 then 1 else 2
  {
    var names := c.methods.entries.Keys;
    assert |c.methods.entries| == |names|;
    if j == 5 {
      assert names == {"__init__", "my_method"};
      assert |{"__init__", "my_method"}| == 2;
    }
  }

  /** The registry's keys after the sample: the eight names, in the order of
      `SampleKeys`. */
  lemma SampleParsedKeys(body: seq<Stmt>, keys: seq<string>, entries: map<string, Class>)
    requires SampleOutline(body) && entries.Keys == ModuleNames(body) && keys == ModuleKeys(body, [])
    ensures entries.Keys == SampleClassNames() && |entries| == 8
    ensures keys == SampleKeys()
  {
    SampleModuleNames(body);
    SampleModuleKeys(body);
    SampleClassCount();
  }

  /** A registry holding the records the sample gives has seven methods over
      the sample's keys. */
  lemma SampleParsedTotal(body: seq<Stmt>, entries: map<string, Class>)
    requires SampleOutline(body) && entries.Keys == SampleClassNames()
    requires forall k :: ModuleRecord(body, "", k, BlankRecord()) == Some(RecordIn(entries, k))
    ensures forall i :: 0 <= i < |SampleKeys()| ==> SampleKeys()[i] in entries
    ensures MethodTotal(SampleKeys(), entries) == 7
  {
    forall i | 0 <= i < 8
      ensures SampleKeys()[i] in entries && |entries[SampleKeys()[i]].methods.entries| == SampleCounts()[i]
    {
      SampleCount(body, entries, i);
    }
    SampleTotal(entries);
  }

  /** The same registry: `MyClass` and `MyParent` have their bases as parents and
      the two stubs neither methods nor parents. */
  lemma SampleShape(body: seq<Stmt>, entries: map<string, Class>)
    requires SampleOutline(body) && entries.Keys == SampleClassNames()
    requires forall k :: ModuleRecord(body, "", k, BlankRecord()) == Some(RecordIn(entries, k))
    ensures entries["MyClass"].methods.entries.Keys == {"__init__", "my_method"}
    ensures Names(entries["MyClass"].parents) == ["MyParent"]
    ensures Names(entries["MyParent"].parents) == ["MySuperParent1", "MySuperParent2"]
    ensures var stub := entries["MySuperParent1"]; stub.methods == Empty() && stub.parents == []
    ensures var stub := entries["MySuperParent2"]; stub.methods == Empty() && stub.parents == []
  {
    DefinedCount(body, entries, 5);
    DefinedCount(body, entries, 4);
    StubCount(body, entries, "MySuperParent1");
    StubCount(body, entries, "MySuperParent2");
  }

  /** `CodeParser()` then `extract_code_data` on a module: a fresh registry that
      holds, for every name, the record the module gives it. */
  method ParseModule(m: Module) returns (parser: CodeParser, ok: bool)
    ensures fresh(parser) && fresh(parser.Repr)
    ensures parser.Valid()
    ensures ok <==> ModuleExtractable(m.body)
    ensures ok ==> parser.classes.entries.Keys == ModuleNames(m.body)
    ensures ok ==> parser.classes.keys == ModuleKeys(m.body, [])
    ensures ok ==> forall k :: ModuleRecord(m.body, m.path, k, BlankRecord()) == Some(RecordIn(parser.classes.entries, k))
    ensures ok ==> WellFormedRegistry(parser.classes) && SelfFree(parser.classes)
  {
    parser := new CodeParser();
    ok := parser.ExtractClassesData(m);
    if ok {
      ModuleKeysUnique(m.body, []);
      forall k | k in parser.classes.entries
        ensures k !in parser.classes.entries[k].coupledClasses
      {
        ModuleRecordSelfFree(m.body, m.path, k, BlankRecord());
        assert ModuleRecord(m.body, m.path, k, BlankRecord()) == Some(RecordIn(parser.classes.entries, k));
      }
    }
  }

  /** `CodeParser()` then `extract_code_data` on the sample module: eight
      classes in the order of `SampleKeys`, seven methods over them (one
      `__init__` per defined class and `my_method` in `MyClass`), the two stubs
      without methods or parents, and `MyClass` a child of `MyParent`. */
  method ParseSampleModule() returns (parser: CodeParser)
    ensures fresh(parser) && fresh(parser.Repr)
    ensures parser.Valid()
    ensures parser.classes.entries.Keys == SampleClassNames()
    ensures |parser.classes.entries| == 8
    ensures parser.classes.keys == SampleKeys()
    ensures MethodTotal(parser.classes.keys, parser.classes.entries) == 7
    ensures parser.classes.entries["MyClass"].methods.entries.Keys == {"__init__", "my_method"}
    ensures Names(parser.classes.entries["MyClass"].parents) == ["MyParent"]
    ensures Names(parser.classes.entries["MyParent"].parents) == ["MySuperParent1", "MySuperParent2"]
    ensures var stub := parser.classes.entries["MySuperParent1"]; stub.methods == Empty() && stub.parents == []
    ensures var stub := parser.classes.entries["MySuperParent2"]; stub.methods == Empty() && stub.parents == []
  {
    var m := SampleModule();
    SampleOutlined();
    SampleModuleExtractable(m.body);
    var ok;
    parser, ok := ParseModule(m);
    SampleParsedKeys(m.body, parser.classes.keys, parser.classes.entries);
    SampleParsedTotal(m.body, parser.classes.entries);
    SampleShape(m.body, parser.classes.entries);
  }

  /** `process_possible_coupled_classes` after parsing the sample keeps its
      eight classes. */
  method ParseAndProcessSample() returns (parser: CodeParser)
    ensures parser.classes.entries.Keys == SampleClassNames()
  {
    parser := ParseSampleModule();
    parser.ProcessPossibleCoupledClasses();
  }

  lemma BlankClassState(c: Class)
    requires c.IsBlank()
    ensures StateOf(c) == BlankState()
  {
  }

  /** A new parser with one registered, blank class. */
  method ParserWith(name: string) returns (parser: CodeParser, c: Class)
    ensures fresh(parser) && fresh(c)
    ensures parser.Valid()
    ensures parser.classes.entries.Keys == {name}
    ensures parser.classes.entries[name] == c && c.IsBlank()
  {
    parser := new CodeParser();
    c := parser.Register(name);
  }

  /** The attribute descriptors of `<x>.n = <a t1>` followed by `<x>.n = <a t2>`. */
  lemma RetypedWrites(n: string, t1: string, t2: string)
    requires t1 != t2
    ensures WrittenAttributes([AttributeWrite(n, Some(t1)), AttributeWrite(n, Some(t2))])
         == {(n, Some(t1)), (n, Some(t2))}
    ensures |{(n, Some(t1)), (n, Some(t2))}| == 2
  {
    var es := [AttributeWrite(n, Some(t1)), AttributeWrite(n, Some(t2))];
    assert es[0].AttributeWrite? && es[1].AttributeWrite?;
    assert (n, Some(t1)) != (n, Some(t2));
  }

  /** A fresh class whose `__init__` writes the same attribute twice, inferred as
      two different types: it records two descriptors, and its NOA is 2. */
  method RetypedAttribute(n: string, t1: string, t2: string) returns (parser: CodeParser, c: Class)
    requires t1 != t2
    ensures c.attributes == {(n, Some(t1)), (n, Some(t2))}
    ensures SizeMetrics.NumberOfAttributes(c) == 2
  {
    parser, c := ParserWith("C");
    var events := [AttributeWrite(n, Some(t1)), AttributeWrite(n, Some(t2))];
    var def := FunctionDef("__init__", false, ["self"], [NoAnnotation], None, [PassStatement()], events);
    ghost var before := Fp({}, {}, c);
    parser.ExtractMethods(def, "C");
    ghost var start := Footprint({}, {}, before.attributes, before.coupled,
                                 before.possible + ParameterTypeNames(def.annotations) + {});
    EventsAttributes(events, "C", start);
    RetypedWrites(n, t1, t2);
  }

  /** `class Test(str)` parsed by a new parser: the builtin base `str` is
      registered and the class is coupled to it, since the inheritance step
      couples every plain-name base without a builtin test. */
  method BuiltinBaseCoupled() returns (parser: CodeParser)
    ensures parser.Valid()
    ensures parser.classes.keys == ["Test", "str"]
    ensures parser.classes.entries["Test"].coupledClasses == {"str"}
  {
    parser := new CodeParser();
    var cd := ClassDef("Test", [NameBase("str")], [PassStatement()]);
    BuiltinBaseKeys(cd);
    var ok := parser.ExtractClass(cd, "test.py");
    BuiltinBaseRecord(cd);
  }

  lemma BuiltinBaseKeys(cd: Stmt)
    requires cd == ClassDef("Test", [NameBase("str")], [PassStatement()])
    ensures ClassBodyExtractable(cd.body)
    ensures StatementKeys(cd, []) == ["Test", "str"]
  {
    OneBase("str");
    assert ["str"][..0] == [];
  }

  /** The definition couples a blank `Test` to `str`. */
  lemma BuiltinBaseRecord(cd: Stmt)
    requires cd == ClassDef("Test", [NameBase("str")], [PassStatement()])
    ensures DefinedRecord(cd, "test.py", BlankRecord()).Some?
    ensures DefinedRecord(cd, "test.py", BlankRecord()).value.state.fp.coupled == {"str"}
  {
    OneBase("str");
  }

  /** In a registry a parser leaves after a module that did not raise (see
      `ParseModule`), a class is not among the classes counted for its own FIN,
      nor among its own FOUT. */
  lemma ParsedCouplingExcludesSelf(parser: CodeParser, k: string)
    requires WellFormedRegistry(parser.classes) && SelfFree(parser.classes) && k in parser.classes.entries
    ensures k !in Coupling.Couplers(k, parser.classes)
    ensures |Coupling.Couplers(k, parser.classes)| <= |parser.classes.entries| - 1
    ensures Coupling.FanOut(parser.classes.entries[k]) == |parser.classes.entries[k].coupledClasses - {k}|
  {
    var c := parser.classes.entries[k];
    Coupling.FanInExcludesSelf(c, parser.classes);
    assert |parser.classes.entries - {k}| == |parser.classes.entries| - 1;
  }

  /** A new parser that has seen only `class <child>(<base>)` with an empty body:
      the base is a blank stub and the child's only parent. */
  method ParseChildFirst(child: string, base: string) returns (parser: CodeParser, stub: Class)
    requires child != base
    ensures fresh(parser) && fresh(stub)
    ensures parser.Valid()
    ensures parser.classes.entries.Keys == {child, base}
    ensures parser.classes.entries[base] == stub
    ensures stub.IsBlank()
    ensures parser.classes.entries[child].parents == [stub]
  {
    var c;
    parser, c := ParserWith(child);
    parser.ExtractInheritance(base, child);
    stub := parser.classes.entries[base];
  }

  /** `class <child>(<base>)` seen before `class <base>`: the base list of the
      child leaves a blank stub for the base, and the later definition of the
      base fills in that same object, so the child's parent is the defined class. */
  method StubReused(child: string, cd: Stmt) returns (parser: CodeParser, stub: Class)
    requires cd.ClassDef? && cd.name != child && cd.bases == []
    ensures parser.Valid()
    ensures parser.classes.entries.Keys == {child, cd.name}
    ensures parser.classes.entries[cd.name] == stub
    ensures parser.classes.entries[child].parents == [stub]
    ensures stub.file == "a.py" && stub.lloc == DefinitionLloc(cd.body)
    ensures ClassBodyExtractable(cd.body) ==> stub.methods.entries.Keys == MethodNames(cd.body)
  {
    parser, stub := ParseChildFirst(child, cd.name);
    BlankClassState(stub);
    var ok := parser.ExtractClass(cd, "a.py");
    assert BaseNames(cd.bases) == [];
    if ok {
      DefinedClassMethods(cd);
    }
  }
}
