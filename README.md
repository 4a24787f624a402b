# PyCKTool core, modelled in Dafny

PyCKTool computes the Chidamber–Kemerer family of object-oriented metrics
for Python code. This project models the part of the tool that does the
computing, and proves properties of that model:

- the class and method records (`pycktool/model/class_model.py`,
  `pycktool/model/method_model.py`);
- the code parser (`pycktool/parser/code_parser.py`). It keeps a registry of
  classes keyed by name, counts logical lines of code, records called
  methods, attributes and coupled classes, follows inheritance, and resolves
  the possible couplings it deferred;
- the class metrics: WMC, DIT, NOC, FIN, FOUT, CBO, RFC, LCOM, NOA and NOM.
  The method metrics: LLOC and NOP;
- the metrics calculator, which fills one row of results per class and one
  per method;
- the two CSV formatters, which turn result tables into columns.

## Structure

Each module follows one source unit:

| module | file | models |
|---|---|---|
| `Dicts` | `dicts.dfy` | Python dictionaries with insertion-ordered keys; `Option`, `Result` |
| `ClassModel` | `class_model.dfy` | `Class` (a Dafny class, updated in place) and `Method` (a value) |
| `Syntax` | `syntax.dfy` | the syntax-tree shapes the parser inspects |
| `LogicalLines` | `logical_lines.dfy` | `count_lloc` and `count_lloc_in_compound_statement` |
| `CalleeNames` | `callee_names.dfy` | `str.replace` and the callee name `_add_called_method` records |
| `Extraction` | `extraction.dfy` | what each inspected node adds to the class and method sets |
| `Parsing` | `parser.dfy` | `CodeParser`: a Dafny class whose methods update the registry in place |
| `ParserScenarios` | `parser_scenarios.dfy` | the sample module the parser's tests use |
| `SizeMetrics` | `size_metrics.dfy` | WMC, RFC, NOA and NOM |
| `Coupling` | `coupling.dfy` | FIN, FOUT and CBO |
| `Inheritance` | `inheritance.dfy` | DIT and NOC |
| `ConnectedComponents` | `components.dfy` | LCOM's depth-first search and component count over an `array2<bool>` |
| `Cohesion` | `cohesion.dfy` | LCOM: the method/attribute graph and its components |
| `MetricsCalculation` | `calculator.dfy` | `MetricsCalculator` |
| `CsvOutput` | `csv_output.dfy` | `format_class_results` and `format_method_results` |

Some operations are loops in the source. These are methods with loop
invariants, each proved against a specification function. Examples:
`FanIn` against `Couplers`, `NumberOfChildren` against `Children`,
`CountConnectedComponents` against `Leaders`, and `FormatClassResults`
against `ClassColumn`. Lemmas then prove what the source promises about
those functions. For LCOM, `Cohesion.LeadersAreComponents` shows that the
number of searches the counting loop starts equals the number of connected
components of the method/attribute graph. That graph is independent of
vertex order.

## Model

| member | source | states |
|---|---|---|
| `Dicts.Dict.Put` | pycktool/parser/code_parser.py:224 | Storing under a key replaces its value. The key joins the key order only when it is new. A valid dictionary stays valid. |
| `Dicts.Dict.Values` | pycktool/metrics/class_metrics/response_for_class.py:18 | `.values()` lists one value per key, in key order. |
| `ClassModel.NewMethod` | pycktool/model/method_model.py:6-11 | A new method record has its name, zero logical lines, zero parameters, and no accessed attributes or calls. |
| `ClassModel.Class.constructor` | pycktool/model/class_model.py:6-16 | A new class has the given name and file. Its methods, attributes, variables, coupled, possible-coupled and parent collections are all empty. |
| `ClassModel.Class.AddCoupledClass` | pycktool/model/class_model.py:18-20 | The coupled set gains the name unless it is the class's own name. Nothing else changes. |
| `ClassModel.Class.ProcessPossibleCoupledClasses` | pycktool/model/class_model.py:22-33 | Every deferred name that is a known class, other than the class itself, becomes coupled. The deferred set is emptied exactly when `cleanup` holds. |
| `ClassModel.Class.GetAllParentNames` | pycktool/model/class_model.py:35-39 | A name is in the result if and only if some parent carries it. There are no more names than parents. |
| `LogicalLines.CountLloc` | pycktool/parser/code_parser.py:23-44 | Fails (ValueError) if and only if the node is not a function or class definition. Otherwise it returns the non-negative line count of the body. |
| `LogicalLines.CompoundLloc` | pycktool/parser/code_parser.py:46-69 | A compound statement counts at least one line: itself. |
| `LogicalLines.DefinitionLlocAppend` | pycktool/parser/code_parser.py:32-44 | The count of a definition body adds up over any split of the body. |
| `LogicalLines.BodyLlocAppend` | pycktool/parser/code_parser.py:50-69 | The count of a compound statement's body or `orelse` adds up over any split. |
| `LogicalLines.NestedDefinitionScores` | pycktool/parser/code_parser.py:42-43 | A nested function counts 1 plus its own body inside a definition, and nothing inside a compound statement. |
| `LogicalLines.CompoundIgnoresHandlers` | pycktool/parser/code_parser.py:46-69 | A compound statement counts 1 plus its body and `orelse`. Exception handlers and `finally` blocks add nothing. |
| `LogicalLines.DefinitionLlocBound` | pycktool/parser/code_parser.py:23-44 | A definition never counts more lines than its body has statements at any depth. |
| `LogicalLines.CompoundLlocBound` | pycktool/parser/code_parser.py:46-69 | The same bound for a compound statement. |
| `LogicalLines.DefinitionLlocLowerBound` | pycktool/parser/code_parser.py:33-43 | Every simple, compound or nested definition child counts at least once. |
| `LogicalLines.FlatBodyLloc` | pycktool/parser/code_parser.py:34-39 | A body of simple statements counts exactly one line per statement. |
| `CalleeNames.RemoveAll` | pycktool/parser/code_parser.py:100 | `str.replace(p, "")` never lengthens the text. |
| `CalleeNames.RemoveAllIdentity` | pycktool/parser/code_parser.py:99-102 | Removing a pattern changes the text if and only if the pattern occurs in it. So the `in` guards are redundant. |
| `CalleeNames.StripCallee` | pycktool/parser/code_parser.py:97-102 | The recorded callee name is never longer than the callee's text. |
| `CalleeNames.StripCalleeUnguarded` | pycktool/parser/code_parser.py:99-102 | The recorded name is the text with every `<Class>.` and then every `self.` removed. |
| `CalleeNames.UndottedCalleeKept` | pycktool/parser/code_parser.py:97-103 | A callee without a dot is recorded verbatim. |
| `CalleeNames.SelfCallStripped` | pycktool/parser/code_parser.py:101-103 | `self.m` is recorded as `m`. |
| `CalleeNames.ClassCallStripped` | pycktool/parser/code_parser.py:99-103 | `<Class>.m` is recorded as `m`. |
| `CalleeNames.SelfRemovedInsideIdentifier` | pycktool/parser/code_parser.py:101-102 | The removal is not anchored. `xself.t` is recorded as `xt` for any dot-free `x` and `t`. |
| `Extraction.InferenceEffect` | pycktool/parser/code_parser.py:110-126 | Only the inferred non-builtin class can become coupled, and never the class itself. Only the name itself can be deferred. Nothing else changes. |
| `Extraction.EventsGrow` | pycktool/parser/code_parser.py:128-194 | Walking a statement's nodes only adds to the recorded sets. |
| `Extraction.EventsCalled` | pycktool/parser/code_parser.py:95-103 | After a walk, the called set is the old one plus the stripped name of every non-builtin call. |
| `Extraction.EventsAttributes` | pycktool/parser/code_parser.py:165-179 | After a walk, the class's attributes are the old ones plus the name of every attribute target written (`self.<attr>` or `<other>.<attr>` alike), paired with its inferred type. |
| `Extraction.EventsNeverSelfCouple` | pycktool/model/class_model.py:18-20 | No walk couples a class to itself. |
| `Extraction.ReturnTypeNamesBound` | pycktool/parser/code_parser.py:261-284 | A subscripted return type defers its outer name and each element name: at most 1 + elements names. |
| `Extraction.ExtractedMethodFacts` | pycktool/parser/code_parser.py:196-224 | The stored record is named after the definition. It counts every positional parameter, takes its lines from `count_lloc` and calls exactly the stripped non-builtin names. The class's attributes, couplings and deferred parameter types only grow. |
| `Extraction.TargetNames` | pycktool/parser/code_parser.py:323-325 | Names are defined if and only if every target is a plain name, and they are exactly the targets' names. |
| `Extraction.ClassStatementEffect` | pycktool/parser/code_parser.py:315-331 | A class-level statement fails if and only if it is an annotated assignment or has a non-name target. |
| `Extraction.ClassBodyEffectDefined` | pycktool/parser/code_parser.py:315-331 | A class body fails if and only if one of its statements does. |
| `Extraction.ClassBodyEffectFacts` | pycktool/parser/code_parser.py:315-331 | A class body that succeeds adds one method per function definition, stored under its own name. The sets only grow, and the class never couples to itself. |
| `Parsing.AddKeysMembers` | pycktool/parser/code_parser.py:294 | Registering a list of names adds exactly those names to the keys. |
| `Parsing.ModuleKeysMembers` | pycktool/parser/code_parser.py:307-336 | The keys a module adds are exactly the names it registers. |
| `Parsing.ModuleKeysUnique` | pycktool/parser/code_parser.py:310 | The key order a module leaves lists no name twice, as a dictionary's keys. |
| `Parsing.ModuleRecordSelfFree` | pycktool/model/class_model.py:18-20 | A class whose record has no self-coupling and stores methods under their names keeps both through any module body. |
| `Parsing.DefinedNamesRegistered` | pycktool/parser/code_parser.py:307-310 | Every class a module defines ends up registered. |
| `Parsing.BaseNamesMembers` | pycktool/parser/code_parser.py:334-336 | The bases followed are exactly the plain-name bases. |
| `Parsing.CodeParser.constructor` | pycktool/parser/code_parser.py:12-14 | A new parser has an empty registry. |
| `Parsing.CodeParser.GetClass` | pycktool/parser/code_parser.py:16-21 | Returns the registered class, or a fresh blank class of that name without registering it. |
| `Parsing.CodeParser.ExtractCoupledClasses` | pycktool/parser/code_parser.py:110-126 | The class's sets change exactly as `Extraction.InferenceEffect` says. |
| `Parsing.CodeParser.AddCalledMethod` | pycktool/parser/code_parser.py:95-108 | Records the stripped name unless the call is builtin. If the name still holds a dot, the receiver is inferred. |
| `Parsing.CodeParser.ApplyEvent` | pycktool/parser/code_parser.py:128-194 | One inspected node changes the sets as `Extraction.EventEffect` says. |
| `Parsing.CodeParser.WalkEvents` | pycktool/parser/code_parser.py:226-259 | The walk over a statement changes the sets as `Extraction.EventsEffect` says. |
| `Parsing.CodeParser.ExtractReturnType` | pycktool/parser/code_parser.py:261-284 | The deferred set gains exactly the return type's names. |
| `Parsing.CodeParser.ExtractParameterTypes` | pycktool/parser/code_parser.py:212-215 | The deferred set gains exactly the non-builtin plain-name parameter annotations. |
| `Parsing.CodeParser.ExtractMethods` | pycktool/parser/code_parser.py:196-224 | The class's method table gains the extracted record under its name, and the class's sets are those after the walk. |
| `Parsing.CodeParser.Register` | pycktool/parser/code_parser.py:310 | The name is registered: a new name is appended with a fresh blank class, and an existing entry is kept in place. No other entry changes. |
| `Parsing.CodeParser.ExtractInheritance` | pycktool/parser/code_parser.py:286-297 | The base is registered (as a blank stub when new). It is appended to the class's parents and coupled unless it is the class itself. |
| `Parsing.CodeParser.RecordTargets` | pycktool/parser/code_parser.py:323-325 | Succeeds if and only if every target is a name. On success the variables gain those names. |
| `Parsing.CodeParser.ExtractClassStatement` | pycktool/parser/code_parser.py:315-331 | Succeeds if and only if the statement does not raise, and then changes the class as `Extraction.ClassStatementEffect` says. |
| `Parsing.CodeParser.ExtractClassBody` | pycktool/parser/code_parser.py:315-331 | Succeeds if and only if the body is extractable, and then changes the class as `Extraction.ClassBodyEffect` says. |
| `Parsing.CodeParser.ExtractBases` | pycktool/parser/code_parser.py:334-336 | Registers every base in order, keeping every registered class in place and leaving each new base a blank stub. Parent names grow by the base names in order, and coupled classes grow by the bases other than the class. |
| `Parsing.CodeParser.DefineClass` | pycktool/parser/code_parser.py:311-336 | Sets file and line count. Succeeds if and only if the body is extractable. On success the class holds the record its definition implies (`DefinedRecord`: state, parents, file, lines), the bases are registered as blank stubs when new, and every other registered class stays in place. |
| `Parsing.CodeParser.ExtractClass` | pycktool/parser/code_parser.py:308-336 | Registers the class (reusing a stub). Its record is the one implied by its definition, starting from whatever the stub held. The key order gains the class and then its bases, and every other new name is a blank stub. |
| `Parsing.CodeParser.ExtractStatement` | pycktool/parser/code_parser.py:307-336 | Only class definitions register names. A class definition fails if and only if its body raises. On success every name's record changes as `StatementRecord` says: only the defined class changes. |
| `Parsing.CodeParser.ExtractClassesData` | pycktool/parser/code_parser.py:299-336 | Succeeds if and only if no class body raises. The registry then gains exactly the defined classes and their plain-name bases, in the key order `ModuleKeys` gives. Every name holds the record `ModuleRecord` gives it: its methods, sets, parents, file and lines after each of its definitions in turn. |
| `Parsing.CodeParser.ProcessPossibleCoupledClasses` | pycktool/parser/code_parser.py:346-352 | The registry is unchanged. Every class couples to its deferred names that are registered classes other than itself, and its deferred set is emptied. A registry without self-coupling stays without it. |
| `ParserScenarios.SampleModuleNames` | pycktool/parser/code_parser.py:355-408 | The sample module registers exactly its six classes and the two bases it never defines. |
| `ParserScenarios.SampleMethodNames` | pycktool/parser/code_parser.py:355-408 | Each sample class defines `__init__`, and `MyClass` also defines `my_method`. |
| `ParserScenarios.DefinedClassMethods` | pycktool/parser/code_parser.py:315-319 | An extractable class body's methods are exactly its function definitions. |
| `ParserScenarios.NoDefinitionRecord` | pycktool/parser/code_parser.py:307-310 | A module that never defines a class leaves its record as it was. |
| `ParserScenarios.SingleDefinitionRecord` | pycktool/parser/code_parser.py:307-336 | A module that defines a class once gives it the record of that definition. |
| `ParserScenarios.ParseModule` | pycktool/parser/code_parser.py:338-344 | A new parser given a module succeeds if and only if no class body raises. It then registers exactly the module's names, each in a well-formed registry holding the record the module gives it, and no class is coupled to itself. |
| `ParserScenarios.ParseSampleModule` | pycktool/tests/test_code_parser.py:57-72 | Parsing the sample module registers eight classes in a fixed key order, with seven methods over them. `MyClass` has `__init__` and `my_method` and the parent `MyParent`. `MyParent` has the parents `MySuperParent1` and `MySuperParent2`, two stubs without methods or parents. |
| `ParserScenarios.ParsedCouplingExcludesSelf` | pycktool/model/class_model.py:18-20 | In a registry the parser leaves, no class counts towards its own FIN, so FIN is at most the registry size less one. FOUT counts only other classes. |
| `ParserScenarios.BuiltinBaseCoupled` | pycktool/parser/code_parser.py:286-297 | `class Test(str): pass` registers `str` after `Test` and couples `Test` to `str`: bases get no builtin test. |
| `ParserScenarios.ParseAndProcessSample` | pycktool/parser/code_parser.py:346-352 | Post-processing keeps the eight registered names. |
| `ParserScenarios.ParseChildFirst` | pycktool/parser/code_parser.py:286-297 | A base seen before its definition is registered as a blank stub, and the child lists it as parent. |
| `ParserScenarios.StubReused` | pycktool/parser/code_parser.py:16-21 | A later definition of that base fills the same stub object, so the child's parent sees the definition's file, lines and methods. |
| `SizeMetrics.WeightedMethods` | pycktool/metrics/class_metrics/weighted_methods_per_class.py:10-17 | WMC of a class without methods is 0. When no method has negative lines, WMC is non-negative and at least the lines of each single method. |
| `SizeMetrics.WeightedMethodsNew` | pycktool/metrics/class_metrics/weighted_methods_per_class.py:10-17 | WMC of no methods is 0. Adding a method adds its lines. |
| `SizeMetrics.WeightedMethodsRedefined` | pycktool/metrics/class_metrics/weighted_methods_per_class.py:10-17 | Redefining a method swaps its old lines for the new ones. |
| `SizeMetrics.WeightedMethodsScenario` | pycktool/tests/metrics/class_metrics/test_weighted_methods_per_class.py:10-24 | Methods of 5 and 3 lines give WMC 8. |
| `SizeMetrics.ResponseForClass` | pycktool/metrics/class_metrics/response_for_class.py:10-23 | RFC is the number of methods plus the class's own calls plus the distinct calls of its methods, so never less than the method count. |
| `SizeMetrics.CalledByMethodsNew` | pycktool/metrics/class_metrics/response_for_class.py:17-19 | The union of method calls starts empty, and a new method adds exactly its calls. |
| `SizeMetrics.NumberOfAttributes` | pycktool/metrics/class_metrics/number_of_attributes.py:10-14 | NOA is 0 exactly when the class records no attribute. It is never less than the number of distinct attribute names, since each name is counted once per inferred type. |
| `ParserScenarios.RetypedAttribute` | pycktool/parser/code_parser.py:165-179 | A method that writes one attribute twice, inferred as two different types, leaves the class two (name, type) descriptors, so its NOA is 2. |
| `SizeMetrics.NumberOfMethods` | pycktool/metrics/class_metrics/number_of_methods.py:10-14 | NOM is 0 exactly when the class has no method, and equals the number of method names in the table. |
| `SizeMetrics.MethodCountAfterPut` | pycktool/metrics/class_metrics/number_of_methods.py:10-14 | NOM grows by one for a new method name and is unchanged for a redefinition. |
| `Coupling.FanIn` | pycktool/metrics/class_metrics/fan_in.py:10-23 | FIN is the number of registered classes whose coupled set names the class. |
| `Coupling.FanInBound` | pycktool/metrics/class_metrics/fan_in.py:19-23 | FIN never exceeds the number of registered classes. |
| `Coupling.FanInExcludesSelf` | pycktool/model/class_model.py:18-20 | When no class is coupled to itself, a class never counts towards its own FIN. |
| `Coupling.FanOut` | pycktool/metrics/class_metrics/fan_out.py:10-17 | FOUT is 0 exactly when the class is coupled to nothing. For a class not coupled to itself, it counts the other classes it is coupled to. |
| `Coupling.CouplingBetweenObjects` | pycktool/metrics/class_metrics/coupling_between_objects.py:12-21 | CBO is FIN plus FOUT, so at least each of them. |
| `Coupling.CouplingScenario` | pycktool/tests/metrics/class_metrics/test_coupling_between_objects.py:9-25 | A coupled to B, and B and C coupled to A, give A a FIN of 2, a FOUT of 1 and a CBO of 3. |
| `Inheritance.DepthOfInheritanceTree` | pycktool/metrics/class_metrics/depth_of_inheritance_tree.py:10-34 | DIT of a class without parents is 0. A class with a parent has a depth of at least 1 unless the hierarchy is reported circular. |
| `Inheritance.DepthLowerBound` | pycktool/metrics/class_metrics/depth_of_inheritance_tree.py:23-34 | The recursion returns at least the depth it started from, and more when there are parents. |
| `Inheritance.DepthShift` | pycktool/metrics/class_metrics/depth_of_inheritance_tree.py:23-34 | Starting the recursion d deeper shifts its result by d. |
| `Inheritance.CircularHierarchy` | pycktool/metrics/class_metrics/depth_of_inheritance_tree.py:17-21 | A class inside a set of classes that each have a parent in the set reports `'Circular'`. |
| `Inheritance.AcyclicIsNumber` | pycktool/metrics/class_metrics/depth_of_inheritance_tree.py:17-21 | A class whose ancestry is ranked below the recursion limit gets a numeric depth. |
| `Inheritance.DiamondDepth` | pycktool/tests/metrics/class_metrics/test_depth_of_inheritance_tree.py:21-52 | With one parent at depth 0 and another at depth 1, the leaf has depth 2, and a one-parent class has depth 1. |
| `Inheritance.NumberOfChildrenAsWritten` | pycktool/metrics/class_metrics/number_of_children.py:17-24 | The loop as written counts the registered classes that list themselves as a parent, whatever class is asked about. |
| `Inheritance.NumberOfChildren` | pycktool/metrics/class_metrics/number_of_children.py:10-16 | NOC is the number of registered classes listing the class among their parents, and never more than the registry. |
| `Inheritance.ChildrenScenario` | pycktool/tests/metrics/class_metrics/test_number_of_children.py:22-36 | A parent with two children has NOC 2. The loop as written gives 0. |
| `Inheritance.LoneClassChildren` | pycktool/tests/metrics/class_metrics/test_number_of_children.py:9-19 | A lone class has no children. |
| `ConnectedComponents.Dfs` | pycktool/metrics/class_metrics/lack_of_cohesion.py:59-64 | Marks the start vertex. Marks only grow, every new mark is reachable from the start, and every neighbour of a new mark ends up marked. |
| `ConnectedComponents.CountConnectedComponents` | pycktool/metrics/class_metrics/lack_of_cohesion.py:47-57 | The count is the number of vertices no lower-numbered vertex reaches. It is at most the vertex count, and at least 1 for a non-empty matrix. |
| `ConnectedComponents.LeaderOf` | pycktool/metrics/class_metrics/lack_of_cohesion.py:52-55 | Every vertex is reached from some counted vertex at or below any vertex that reaches it. |
| `Cohesion.ConnectedSymmetric` | pycktool/metrics/class_metrics/lack_of_cohesion.py:34-42 | The method/attribute graph is undirected. |
| `Cohesion.ConnectedTransitive` | pycktool/metrics/class_metrics/lack_of_cohesion.py:34-42 | Connectedness composes. |
| `Cohesion.SameComponent` | pycktool/metrics/class_metrics/lack_of_cohesion.py:14-16 | Connected vertices lie in the same cluster. |
| `Cohesion.ReachConnects` | pycktool/metrics/class_metrics/lack_of_cohesion.py:29-42 | A walk in the matrix is a connection in the graph. |
| `Cohesion.ConnectedReaches` | pycktool/metrics/class_metrics/lack_of_cohesion.py:29-42 | A connection in the graph is a walk in the matrix. |
| `Cohesion.LeadersAreComponents` | pycktool/metrics/class_metrics/lack_of_cohesion.py:44-57 | The number of searches started equals the number of clusters of the graph, whatever the vertex order. |
| `Cohesion.VertexList` | pycktool/metrics/class_metrics/lack_of_cohesion.py:28 | The vertex list holds each attribute and method name once. |
| `Cohesion.IndexOf` | pycktool/metrics/class_metrics/lack_of_cohesion.py:37-42 | `list.index` returns the first position holding the name. |
| `Cohesion.Connect` | pycktool/metrics/class_metrics/lack_of_cohesion.py:35-42 | One method's loop sets exactly the symmetric entries between the method and the listed names it uses, and keeps the others. |
| `Cohesion.BuildEdges` | pycktool/metrics/class_metrics/lack_of_cohesion.py:29-42 | The matrix is square, and an entry is set if and only if one endpoint is a method that accesses or calls the other. |
| `Cohesion.LackOfCohesion` | pycktool/metrics/class_metrics/lack_of_cohesion.py:10-45 | LCOM is 0 for a class with no methods or only `__init__`, and otherwise the number of clusters, between 1 and the vertex count. |
| `MetricsCalculation.CalculatorNamesDistinct` | pycktool/metrics/metrics_calculator.py:35-53 | The calculators report under WMC, DIT, NOC, FIN, FOUT, CBO, RFC, LCOM, LLOC, NOA, NOM and LLOC, NOP. Within each list the names are distinct. |
| `MetricsCalculation.CalculateClassMetric` | pycktool/metrics/metrics_calculator.py:63-64 | One calculator's value is the metric's definition for the class, with `'Circular'` as text. |
| `MetricsCalculation.CalculateClassRow` | pycktool/metrics/metrics_calculator.py:61-64 | A class's row is keyed by the calculator names in order, each holding its calculator's value. |
| `MetricsCalculation.CalculateMethodRow` | pycktool/metrics/metrics_calculator.py:75-78 | A method's row holds its logical lines and its parameter count. |
| `MetricsCalculation.CalculateClassMetrics` | pycktool/metrics/metrics_calculator.py:55-65 | The class table has one row per registered class, in registry order. |
| `MetricsCalculation.CalculateMethodTable` | pycktool/metrics/metrics_calculator.py:73-78 | One class's method table has one row per method, in definition order. |
| `MetricsCalculation.CalculateMethodMetrics` | pycktool/metrics/metrics_calculator.py:67-79 | The method table has one method table per registered class, in registry order. |
| `MetricsCalculation.CalculateAllMetrics` | pycktool/metrics/metrics_calculator.py:81-85 | Returns both tables. |
| `CsvOutput.FirstOccurrencesMembers` | pycktool/output_handler/csv_output.py:24-26 | The columns created are exactly the header names. |
| `CsvOutput.FirstOccurrencesDistinct` | pycktool/output_handler/csv_output.py:22-26 | Distinct headers become the columns in header order. |
| `CsvOutput.InitColumns` | pycktool/output_handler/csv_output.py:24-26 | One empty column per distinct header, in first-occurrence order. |
| `CsvOutput.AppendResults` | pycktool/output_handler/csv_output.py:30-31 | Fails (KeyError) if and only if a result name has no column. Otherwise each column gains the row's value under its name. |
| `CsvOutput.FormatClassResults` | pycktool/output_handler/csv_output.py:6-33 | An empty table or empty first row gives `{}`. Otherwise it succeeds if and only if every row's result names are headers, and each column is the transpose of the table. |
| `CsvOutput.MetricColumnTranspose` | pycktool/output_handler/csv_output.py:28-31 | A metric's column holds, at line i, the i-th class's value. |
| `CsvOutput.ClassNameColumn` | pycktool/output_handler/csv_output.py:28-29 | The `class` column holds, at line i, the i-th class name. |
| `CsvOutput.UniformTranspose` | pycktool/output_handler/csv_output.py:19-31 | For rows sharing the first row's names, every column has one line per class, holding that class's name or value. |
| `CsvOutput.UniformRowsListed` | pycktool/output_handler/csv_output.py:19-31 | Rows sharing the first row's names never fail. |
| `CsvOutput.LinesColumnConcat` | pycktool/output_handler/csv_output.py:60-65 | Columns built from a concatenation of lines are the concatenation of the columns. |
| `CsvOutput.AppendLine` | pycktool/output_handler/csv_output.py:62-65 | A method line fails if and only if a result name has no column. Otherwise every column gains that line's cells. |
| `CsvOutput.AppendClassMethods` | pycktool/output_handler/csv_output.py:61-65 | A class's methods fail if and only if one does not fit. Otherwise every column gains those lines in order. |
| `CsvOutput.FormatMethodResults` | pycktool/output_handler/csv_output.py:36-67 | An empty table or empty first class gives `{}`. Otherwise it succeeds if and only if every method's result names are headers, and each column is read off the (class, method) lines in order. |
| `CsvOutput.LinesFromTable` | pycktool/output_handler/csv_output.py:60-65 | Every line comes from a (class, method) entry of the table, carrying its results. |
| `CsvOutput.TableInLines` | pycktool/output_handler/csv_output.py:60-65 | Every (class, method) entry of the table gives a line. |
| `CsvOutput.LinesTranspose` | pycktool/output_handler/csv_output.py:64-65 | A metric column holds, at line t, the t-th method's value. |
| `CsvOutput.LinesNameColumns` | pycktool/output_handler/csv_output.py:62-63 | The `class` and `method` columns hold each line's class and method names. |

## Left out

- The astroid parsing and inference engine is not modelled. A syntax tree
  is a `Syntax.Module` value. Whatever inference would say about a name, an
  attribute type or a builtin call is recorded in the tree as data.
- The reflective walk `_extract_methods_data_recursively` is not modelled
  attribute by attribute. Each statement carries the sequence of nodes
  (calls, attribute reads, `self.` writes, value attributes, annotations)
  the walk reaches, in walk order. The model states exactly what each
  of them adds.
- `is_builtin` and `is_builtin_call` are not modelled. Their answers are
  fields of the tree.
- File reading, `extract_code_data`'s call to `astroid.parse`, the JSON
  output, `save_results`, the folder walk and the command line are left out:
  they are I/O.
- `Inheritance.DepthOfInheritanceTree`: Python's RecursionError is replaced
  by a recursion budget of 1000 (`RecursionLimit`). A hierarchy deeper than
  that, though acyclic, reports `Circular`, much as CPython's default
  recursion limit of 1000 would make it. The budget is counted per call level, not per Python frame.
- Functions that read the parent graph of `Class` objects take `u`: a set of
  classes closed under parents, holding every class reachable from the one
  asked about.
- `Cohesion.LackOfCohesion` requires every method to be stored under its
  own name, as the parser always does. Otherwise `vertices.index` could
  raise.
- `Cohesion.LackOfCohesion`: the edges matrix holds booleans, not the 0/1
  integers of the source. The order of the vertex list (`list(set(...))`)
  is chosen arbitrarily. The result is proved independent of that order.
- `CsvOutput.FormatClassResults` and `CsvOutput.FormatMethodResults`: the
  cells are values of a `Cell` datatype (a name label or a metric value)
  rather than untyped Python objects.
- `MetricsCalculation.CalculateClassMetric` uses the corrected number of
  children, `Inheritance.NumberOfChildren`. The as-written count is
  modelled by `Inheritance.NumberOfChildrenAsWritten`.
- The WMC docstring speaks of dividing lines by the class's lines. The code
  sums the lines of the methods, and the model follows the code.
- Builtin bases: the inheritance step registers and couples every plain-name
  base, builtin or not (pycktool/parser/code_parser.py:286-297 and 334-336),
  while the test at pycktool/tests/test_code_parser.py:281-289 expects
  `class Test(str)` not to be coupled to `str`. The model follows the code
  (`ParserScenarios.BuiltinBaseCoupled` states the coupling). No variant that
  skips builtin bases is modelled: the syntax tree does not say which base
  names are builtin, and the code gives no rule for deciding it.
- `Parsing.CodeParser.Valid` keeps the registry's keys and entries in step
  but does not itself require the keys to be distinct. That is proved of the
  key order a module leaves (`Parsing.ModuleKeysUnique`), and
  `ParserScenarios.ParseModule` states the full well-formedness.
- The older `pycktools` package (a separate, earlier implementation) is not
  part of this model.

## Findings

| source | as written | input that shows it | evidently intended | confidence | as-written member | corrected member |
|---|---|---|---|---|---|---|
| pycktool/metrics/class_metrics/number_of_children.py:20-22 | The loop variable `class_obj` rebinds the parameter, so the loop counts classes that list themselves as a parent. | A `Parent` with children `Child1` and `Child2` (the fixture at pycktool/tests/metrics/class_metrics/test_number_of_children.py:22-36) gives 0. | The number of registered classes listing the asked class among their parents, 2 here. | not executed | `Inheritance.NumberOfChildrenAsWritten`, with `Inheritance.ChildrenScenario` | `Inheritance.NumberOfChildren` |
