/** The code parser: a registry from class names to classes, filled one module
    at a time. */
module Parsing {
  import opened Dicts
  import opened Syntax
  import opened ClassModel
  import opened CalleeNames
  import opened LogicalLines
  import opened Extraction

  /** The sets of class `c`, with `called` and `accessed` standing for the object
      being filled. */
  function Fp(called: set<string>, accessed: set<string>, c: Class): Footprint
    reads c
  {
    Footprint(called, accessed, c.attributes, c.coupledClasses, c.possibleCoupledClasses)
  }

  /** The class-body state of `c`, with `c` itself as the object being filled. */
  function StateOf(c: Class): ClassState
    reads c
  {
    ClassState(Fp(c.called, c.accessedAttributes, c), c.methods, c.variables)
  }

  function BlankState(): ClassState {
    ClassState(Footprint({}, {}, {}, {}, {}), Empty(), {})
  }

  /** `d[k] = ...` on the key order. */
  function AddKey(keys: seq<string>, k: string): seq<string> {
    if k in keys then keys else keys + [k]
  }

  /** The elements of a list of names, as a set. */
  function Elements(s: seq<string>): set<string> {
    if s == [] then {} else Elements(s[..|s| - 1]) + {s[|s| - 1]}
  }

  lemma ElementsMembers(s: seq<string>)
    ensures forall x :: x in Elements(s) <==> x in s
  {
  }

  lemma SplitLast(s: seq<string>)
    requires s != []
    ensures s == s[..|s| - 1] + [s[|s| - 1]]
  {
  }

  lemma AppendAssoc(a: seq<string>, b: seq<string>, c: seq<string>)
    ensures (a + b) + c == a + (b + c)
  {
  }

  /** The names of the bases that are plain names, in order. */
  function BaseNames(bases: seq<Base>): seq<string> {
    if bases == [] then []
    else
      var last := bases[|bases| - 1];
      BaseNames(bases[..|bases| - 1]) + (if last.NameBase? then [last.id] else [])
  }

  /** A base name is kept exactly when the base is a plain name. */
  lemma {:induction false} BaseNamesMembers(bases: seq<Base>)
    ensures forall n :: n in BaseNames(bases) <==> exists i :: 0 <= i < |bases| && bases[i] == NameBase(n)
  {
    if bases != [] {
      var init := bases[..|bases| - 1];
      BaseNamesMembers(init);
      forall n | n in BaseNames(bases)
        ensures exists i :: 0 <= i < |bases| && bases[i] == NameBase(n)
      {
        if n in BaseNames(init) {
          var i :| 0 <= i < |init| && init[i] == NameBase(n);
          assert bases[i] == NameBase(n);
        } else {
          assert bases[|bases| - 1] == NameBase(n);
        }
      }
      forall n, i | 0 <= i < |bases| && bases[i] == NameBase(n)
        ensures n in BaseNames(bases)
      {
        if i < |bases| - 1 {
          assert init[i] == NameBase(n);
        }
      }
    }
  }

  /** The names one top-level statement registers: a class definition registers
      its own name and, unless its body raises, its plain-name bases. */
  function StatementNames(s: Stmt): set<string> {
    if s.ClassDef? then {s.name} + (if ClassBodyExtractable(s.body) then Elements(BaseNames(s.bases)) else {})
    else {}
  }

  /** The names a module body registers, statement by statement. */
  function ModuleNames(body: seq<Stmt>): set<string> {
    if body == [] then {} else ModuleNames(body[..|body| - 1]) + StatementNames(body[|body| - 1])
  }

  /** Extending a module prefix by one statement. */
  lemma ModuleStep(body: seq<Stmt>, i: int)
    requires 0 <= i < |body|
    ensures ModuleNames(body[..i + 1]) == ModuleNames(body[..i]) + StatementNames(body[i])
    ensures ModuleExtractable(body[..i]) && (body[i].ClassDef? ==> ClassBodyExtractable(body[i].body))
        ==> ModuleExtractable(body[..i + 1])
  {
    assert body[..i + 1][..i] == body[..i];
  }

  /** The classes a module body defines. */
  function DefinedNames(body: seq<Stmt>): set<string> {
    set i | 0 <= i < |body| && body[i].ClassDef? :: body[i].name
  }

  /** Every class a module defines is registered by it. */
  lemma {:induction false} DefinedNamesRegistered(body: seq<Stmt>)
    ensures DefinedNames(body) <= ModuleNames(body)
  {
    if body != [] {
      var init := body[..|body| - 1];
      DefinedNamesRegistered(init);
      assert forall i :: 0 <= i < |init| ==> init[i] == body[i];
      assert DefinedNames(body) == DefinedNames(init)
        + (if body[|body| - 1].ClassDef? then {body[|body| - 1].name} else {});
    }
  }

  /** No class body of the module raises. */
  predicate ModuleExtractable(body: seq<Stmt>) {
    forall i :: 0 <= i < |body| && body[i].ClassDef? ==> ClassBodyExtractable(body[i].body)
  }

  /** The class-body state after a class definition whose body did not raise:
      the body's effect, then coupling to every base but the class itself. */
  function DefinedState(cd: Stmt, start: ClassState): Option<ClassState>
    requires cd.ClassDef?
  {
    var st := ClassBodyEffect(cd.body, cd.name, start);
    if st.None? then None
    else Some(st.value.(fp := st.value.fp.(coupled := st.value.fp.coupled + (Elements(BaseNames(cd.bases)) - {cd.name}))))
  }

  /** Adds the names to the key order, one by one. */
  function AddKeys(keys: seq<string>, names: seq<string>): seq<string> {
    if names == [] then keys else AddKey(AddKeys(keys, names[..|names| - 1]), names[|names| - 1])
  }

  /** The key order after one top-level statement: a class definition adds its
      own name and, unless its body raises, its plain-name bases. */
  function StatementKeys(s: Stmt, keys: seq<string>): seq<string> {
    if !s.ClassDef? then keys
    else if ClassBodyExtractable(s.body) then AddKeys(AddKey(keys, s.name), BaseNames(s.bases))
    else AddKey(keys, s.name)
  }

  /** No key is listed twice. */
  ghost predicate Unique(keys: seq<string>) {
    forall i :: 0 <= i < |keys| ==> keys[i] !in keys[..i]
  }

  /** Adding names to a key order never lists a key twice. */
  lemma {:induction false} AddKeysUnique(keys: seq<string>, names: seq<string>)
    requires Unique(keys)
    ensures Unique(AddKeys(keys, names))
  {
    if names != [] {
      var prev := AddKeys(keys, names[..|names| - 1]);
      AddKeysUnique(keys, names[..|names| - 1]);
      var k := names[|names| - 1];
      if k !in prev {
        assert (prev + [k])[..|prev|] == prev;
      }
    }
  }

  /** The keys a key order gains from a list of names are those names. */
  lemma {:induction false} AddKeysMembers(keys: seq<string>, names: seq<string>)
    ensures forall x :: x in AddKeys(keys, names) <==> x in keys || x in names
  {
    if names != [] {
      AddKeysMembers(keys, names[..|names| - 1]);
      SplitLast(names);
    }
  }

  /** The key order after a module body, statement by statement. */
  function ModuleKeys(body: seq<Stmt>, keys: seq<string>): seq<string> {
    if body == [] then keys else StatementKeys(body[|body| - 1], ModuleKeys(body[..|body| - 1], keys))
  }

  /** What the registry holds about one class: its class-body state, the names of
      its parents in order, its file and its logical lines. */
  datatype ClassRecord = ClassRecord(state: ClassState, parents: seq<string>, file: string, lloc: int)

  function RecordOf(c: Class): ClassRecord
    reads c
  {
    ClassRecord(StateOf(c), Names(c.parents), c.file, c.lloc)
  }

  /** What a class created by `_get_class` holds. */
  function BlankRecord(): ClassRecord {
    ClassRecord(BlankState(), [], "", 0)
  }

  /** The record of `name` in a registry, blank for a name not registered. */
  function RecordIn(entries: map<string, Class>, name: string): ClassRecord
    reads if name in entries then {entries[name]} else {}
  {
    if name in entries then RecordOf(entries[name]) else BlankRecord()
  }

  /** The record of a class after its definition, from the record it had: the
      definition's state, the plain-name bases appended to the parents, the
      module's path and the definition's logical lines; `None` when the body raises. */
  function DefinedRecord(cd: Stmt, path: string, start: ClassRecord): Option<ClassRecord>
    requires cd.ClassDef?
  {
    var st := DefinedState(cd, start.state);
    if st.None? then None
    else Some(ClassRecord(st.value, start.parents + BaseNames(cd.bases), path, DefinitionLloc(cd.body)))
  }

  /** The record of class `k` after one top-level statement: only a definition of
      `k` changes it. */
  function StatementRecord(s: Stmt, path: string, k: string, r: ClassRecord): Option<ClassRecord> {
    if s.ClassDef? && s.name == k then DefinedRecord(s, path, r) else Some(r)
  }

  /** A module body never lists a key twice. */
  lemma {:induction false} ModuleKeysUnique(body: seq<Stmt>, keys: seq<string>)
    requires Unique(keys)
    ensures Unique(ModuleKeys(body, keys))
  {
    if body != [] {
      var prev := ModuleKeys(body[..|body| - 1], keys);
      ModuleKeysUnique(body[..|body| - 1], keys);
      var s := body[|body| - 1];
      if s.ClassDef? {
        AddKeysUnique(prev, [s.name]);
        assert AddKeys(prev, [s.name]) == AddKey(prev, s.name);
        AddKeysUnique(AddKey(prev, s.name), BaseNames(s.bases));
      }
    }
  }

  /** The keys a module body adds are the names it registers. */
  lemma {:induction false} ModuleKeysMembers(body: seq<Stmt>, keys: seq<string>)
    ensures forall x :: x in ModuleKeys(body, keys) <==> x in keys || x in ModuleNames(body)
  {
    if body != [] {
      var prev := ModuleKeys(body[..|body| - 1], keys);
      ModuleKeysMembers(body[..|body| - 1], keys);
      var s := body[|body| - 1];
      if s.ClassDef? {
        AddKeysMembers(AddKey(prev, s.name), BaseNames(s.bases));
        ElementsMembers(BaseNames(s.bases));
      }
    }
  }

  /** The record of class `k` after a module body, statement by statement;
      `None` when a definition of `k` raises. */
  function ModuleRecord(body: seq<Stmt>, path: string, k: string, r: ClassRecord): Option<ClassRecord> {
    if body == [] then Some(r)
    else
      var init := ModuleRecord(body[..|body| - 1], path, k, r);
      if init.None? then None else StatementRecord(body[|body| - 1], path, k, init.value)
  }

  /** No registered class is coupled to itself. */
  ghost predicate SelfFree(classes: Dict<Class>)
    reads classes.entries.Values
  {
    forall k :: k in classes.entries ==> k !in classes.entries[k].coupledClasses
  }

  /** A record that stores its methods under their names and is not coupled to
      its own class keeps both through a module body: neither a class body nor
      the base list couples a class to itself. */
  lemma {:induction false} ModuleRecordSelfFree(body: seq<Stmt>, path: string, k: string, r: ClassRecord)
    requires MethodsNamed(r.state.methods) && k !in r.state.fp.coupled
    ensures ModuleRecord(body, path, k, r).Some? ==>
      var q := ModuleRecord(body, path, k, r).value;
      MethodsNamed(q.state.methods) && k !in q.state.fp.coupled
  {
    if body != [] {
      var init := body[..|body| - 1];
      ModuleRecordSelfFree(init, path, k, r);
      var prev := ModuleRecord(init, path, k, r);
      var s := body[|body| - 1];
      if prev.Some? && s.ClassDef? && s.name == k {
        ClassBodyEffectFacts(s.body, k, prev.value.state);
      }
    }
  }

  /** A class created by `_get_class` for a name that is not registered. */
  ghost predicate IsStub(c: Class)
    reads c
  {
    c.IsBlank() && c.file == ""
  }

  /** A class created by `_get_class` holds the blank record. */
  lemma BlankClassRecord(c: Class)
    requires IsStub(c)
    ensures RecordOf(c) == BlankRecord()
  {
  }

  class CodeParser {
    var classes: Dict<Class>
    /** Every class object the registry holds or has held. */
    ghost var Repr: set<Class>

    /** The registered names are the listed keys, and every class is stored
        under its own name and is one of `Repr`. */
    ghost predicate Valid()
      reads this
    {
      && (forall k :: k in classes.entries <==> k in classes.keys)
      && (forall k :: k in classes.entries ==> classes.entries[k].name == k)
      && forall k :: k in classes.entries ==> classes.entries[k] in Repr
    }

    /** `self.classes[k]`. */
    function Registered(k: string): Class
      reads this
      requires k in classes.entries
    {
      classes.entries[k]
    }

    /** `k` is registered, under its own name. */
    predicate Named(k: string)
      reads this
    {
      k in classes.entries && classes.entries[k].name == k
    }

    constructor ()
      ensures Valid() && classes == Empty() && Repr == {}
    {
      classes := Empty();
      Repr := {};
    }

    /** `_get_class`: the registered class, or a new blank one that is not registered. */
    method GetClass(name: string) returns (c: Class)
      ensures name in classes.entries ==> c == classes.entries[name]
      ensures name !in classes.entries ==> fresh(c) && c.name == name && IsStub(c)
    {
      var created := new Class(name);
      if name in classes.entries {
        c := classes.entries[name];
      } else {
        c := created;
      }
    }

    /** `_extract_coupled_classes` on a name. */
    method ExtractCoupledClasses(ref: NameRef, className: string)
      requires Named(className)
      modifies Registered(className)`coupledClasses, Registered(className)`possibleCoupledClasses
      ensures Fp({}, {}, classes.entries[className])
           == InferenceEffect(ref, className, old(Fp({}, {}, classes.entries[className])))
    {
      var c := classes.entries[className];
      match ref.inference
      case Uninferable =>
        c.possibleCoupledClasses := c.possibleCoupledClasses + {ref.id};
      case InferredClass(n, builtin) =>
        if !builtin {
          c.AddCoupledClass(n);
        }
      case _ =>
    }

    /** `_add_called_method`: `called` is the set of the object being filled. */
    method AddCalledMethod(call: Call, className: string, called: set<string>) returns (called': set<string>)
      requires Named(className)
      modifies Registered(className)`coupledClasses, Registered(className)`possibleCoupledClasses
      ensures Fp(called', {}, classes.entries[className])
           == AddCalledEffect(call, className, old(Fp(called, {}, classes.entries[className])))
    {
      var name := call.text;
      called' := called;
      if !call.builtinCall {
        if Occurs(className + ".", name) {
          name := RemoveAll(name, className + ".");
        }
        if Occurs("self.", name) {
          name := RemoveAll(name, "self.");
        }
        called' := called' + {name};
      }
      if '.' in name && call.callee.CalleeAttribute? && call.callee.receiver.Some? {
        ExtractCoupledClasses(call.callee.receiver.value, className);
      }
    }

    /** One node of the walk over a statement. */
    method ApplyEvent(e: Event, className: string, called: set<string>, accessed: set<string>)
      returns (called': set<string>, accessed': set<string>)
      requires Named(className)
      modifies Registered(className)`attributes, Registered(className)`coupledClasses,
               Registered(className)`possibleCoupledClasses
      ensures Fp(called', accessed', classes.entries[className])
           == EventEffect(e, className, old(Fp(called, accessed, classes.entries[className])))
    {
      var c := classes.entries[className];
      called', accessed' := called, accessed;
      match e
      case CallEvent(call) =>
        called' := AddCalledMethod(call, className, called);
        if call.callee.CalleeName? {
          ExtractCoupledClasses(call.callee.ref, className);
        }
      case AttributeRead(text) =>
        if Occurs("self", text) {
          accessed' := accessed + {RemoveAll(text, "self.")};
        }
      case AttributeWrite(attr, ty) =>
        c.attributes := c.attributes + {(attr, ty)};
        var name := attr;
        if Occurs("self.", name) {
          name := RemoveAll(name, "self.");
        }
        accessed' := accessed + {name};
      case ValueAttribute(attr) =>
        accessed' := accessed + {attr};
      case Annotation(text) =>
        c.possibleCoupledClasses := c.possibleCoupledClasses + {text};
    }

    /** The walk over a statement, node by node. */
    method WalkEvents(es: seq<Event>, className: string, called: set<string>, accessed: set<string>)
      returns (called': set<string>, accessed': set<string>)
      requires Named(className)
      modifies Registered(className)`attributes, Registered(className)`coupledClasses,
               Registered(className)`possibleCoupledClasses
      ensures Fp(called', accessed', classes.entries[className])
           == EventsEffect(es, className, old(Fp(called, accessed, classes.entries[className])))
    {
      called', accessed' := called, accessed;
      var i := 0;
      while i < |es|
        invariant 0 <= i <= |es|
        invariant Fp(called', accessed', classes.entries[className])
               == EventsEffect(es[..i], className, old(Fp(called, accessed, classes.entries[className])))
      {
        assert es[..i + 1][..i] == es[..i];
        called', accessed' := ApplyEvent(es[i], className, called', accessed');
        i := i + 1;
      }
      assert es[..i] == es;
    }

    /** `_extract_return_type`: only the deferred names of the class change. */
    method ExtractReturnType(returnAnnotation: ReturnAnnotation, className: string)
      requires className in classes.entries
      modifies Registered(className)`possibleCoupledClasses
      ensures classes.entries[className].possibleCoupledClasses
           == old(classes.entries[className].possibleCoupledClasses) + ReturnTypeNames(returnAnnotation)
    {
      var c := classes.entries[className];
      match returnAnnotation
      case Subscripted(outer, slice) =>
        c.possibleCoupledClasses := c.possibleCoupledClasses + {outer};
        match slice {
        case ElementsSlice(elements) =>
          var i := 0;
          while i < |elements|
            invariant 0 <= i <= |elements|
            invariant c.possibleCoupledClasses
                   == old(c.possibleCoupledClasses) + {outer} + set e | e in elements[..i]
          {
            assert elements[..i + 1] == elements[..i] + [elements[i]];
            c.possibleCoupledClasses := c.possibleCoupledClasses + {elements[i]};
            i := i + 1;
          }
          assert elements[..i] == elements;
        case SingleSlice(text) =>
          c.possibleCoupledClasses := c.possibleCoupledClasses + {text};
        }
      case PlainReturn(text) =>
        c.possibleCoupledClasses := c.possibleCoupledClasses + {text};
    }

    /** `_extract_methods`: the method record is stored under its name (replacing
        a method of the same name) and the class's sets change as the
        extraction specifies. */
    method ExtractMethods(def: Stmt, className: string)
      requires Named(className) && def.FunctionDef?
      modifies Registered(className)`methods, Registered(className)`attributes,
               Registered(className)`coupledClasses, Registered(className)`possibleCoupledClasses
      ensures var c := classes.entries[className];
        var extracted := ExtractedMethod(def, className, old(Fp({}, {}, c)));
        && c.methods == old(c.methods).Put(def.name, extracted.0)
        && Fp({}, {}, c) == extracted.1.(called := {}, accessed := {})
    {
      var c := classes.entries[className];
      ghost var before := Fp({}, {}, c);
      var lloc := CountLloc(def).value;
      var numberOfParameters := |def.args|;
      ExtractParameterTypes(def.annotations, className);
      if def.returnAnnotation.Some? {
        ExtractReturnType(def.returnAnnotation.value, className);
      }
      ghost var returned := if def.returnAnnotation.Some? then ReturnTypeNames(def.returnAnnotation.value) else {};
      assert Fp({}, {}, c) == Footprint({}, {}, before.attributes, before.coupled,
                                        before.possible + ParameterTypeNames(def.annotations) + returned);
      var called, accessed := WalkEvents(def.events, className, {}, {});
      ghost var after := ExtractedMethod(def, className, before);
      assert Fp(called, accessed, c) == after.1;
      c.methods := c.methods.Put(def.name, Method(def.name, lloc, numberOfParameters, accessed, called));
      assert c.methods == old(c.methods).Put(def.name, after.0);
    }

    /** The parameter annotations that are plain non-builtin names are deferred. */
    method ExtractParameterTypes(annotations: seq<ParamAnnotation>, className: string)
      requires className in classes.entries
      modifies Registered(className)`possibleCoupledClasses
      ensures classes.entries[className].possibleCoupledClasses
           == old(classes.entries[className].possibleCoupledClasses) + ParameterTypeNames(annotations)
    {
      var c := classes.entries[className];
      var i := 0;
      while i < |annotations|
        invariant 0 <= i <= |annotations|
        invariant c.possibleCoupledClasses == old(c.possibleCoupledClasses) + ParameterTypeNames(annotations[..i])
      {
        var a := annotations[i];
        assert forall j :: 0 <= j < i ==> annotations[..i + 1][j] == annotations[..i][j];
        assert ParameterTypeNames(annotations[..i + 1])
            == ParameterTypeNames(annotations[..i]) + (if a.NameAnnotation? && !a.builtin then {a.id} else {});
        if a.NameAnnotation? && !a.builtin {
          c.possibleCoupledClasses := c.possibleCoupledClasses + {a.id};
        }
        i := i + 1;
      }
      assert annotations[..i] == annotations;
    }

    /** `self.classes[name] = self._get_class(name)`: the name becomes a key (a
        registered class is kept, otherwise a blank stub is created) and no
        registered class changes. */
    method Register(name: string) returns (c: Class)
      requires Valid()
      modifies this
      ensures Valid()
      ensures classes.keys == AddKey(old(classes.keys), name)
      ensures classes.entries.Keys == old(classes.entries.Keys) + {name}
      ensures forall k :: k in old(classes.entries) ==> classes.entries[k] == old(classes.entries[k])
      ensures c == classes.entries[name]
      ensures name !in old(classes.entries) ==> fresh(c) && c.name == name && IsStub(c)
      ensures Repr == old(Repr) + {c} && fresh(Repr - old(Repr))
    {
      c := GetClass(name);
      classes := classes.Put(name, c);
      Repr := Repr + {c};
    }

    /** `_extract_inheritance`: the base is registered, the class gains the base's
        object as its last parent and is coupled to the base unless it is the base
        itself; no other class changes. */
    method ExtractInheritance(baseName: string, className: string)
      requires Valid() && className in classes.entries
      modifies this, Registered(className)`parents, Registered(className)`coupledClasses
      ensures Valid()
      ensures classes.keys == AddKey(old(classes.keys), baseName)
      ensures classes.entries.Keys == old(classes.entries.Keys) + {baseName}
      ensures forall k :: k in old(classes.entries) ==> classes.entries[k] == old(classes.entries[k])
      ensures baseName !in old(classes.entries) ==>
        var b := classes.entries[baseName];
        fresh(b) && b.name == baseName && IsStub(b)
      ensures var c := classes.entries[className];
        && c.parents == old(c.parents) + [classes.entries[baseName]]
        && c.coupledClasses == old(c.coupledClasses) + ({baseName} - {className})
        && Names(c.parents) == Names(old(c.parents)) + [baseName]
      ensures Repr == old(Repr) + {classes.entries[baseName]}
      ensures old(Repr) <= Repr && fresh(Repr - old(Repr))
    {
      var base := Register(baseName);
      var c := classes.entries[className];
      NamesAppend(c.parents, base);
      c.parents := c.parents + [base];
      c.AddCoupledClass(baseName);
    }

    /** The targets of a class-level assignment become class variables, one by
        one, until a target that is not a plain name raises. */
    method RecordTargets(targets: seq<Target>, className: string) returns (ok: bool)
      requires className in classes.entries
      modifies Registered(className)`variables
      ensures ok <==> TargetNames(targets).Some?
      ensures ok ==> classes.entries[className].variables
                     == old(classes.entries[className].variables) + TargetNames(targets).value
    {
      var c := classes.entries[className];
      var t := 0;
      while t < |targets|
        invariant 0 <= t <= |targets|
        invariant TargetNames(targets[..t]).Some?
        invariant c.variables == old(c.variables) + TargetNames(targets[..t]).value
      {
        var target := targets[t];
        assert targets[..t + 1][..t] == targets[..t];
        if !target.NameTarget? {
          return false;
        }
        c.variables := c.variables + {target.id};
        t := t + 1;
      }
      assert targets[..t] == targets;
      return true;
    }

    /** One statement of a class body. */
    method ExtractClassStatement(s: Stmt, className: string) returns (ok: bool)
      requires Named(className)
      modifies Registered(className)`methods, Registered(className)`attributes,
               Registered(className)`coupledClasses, Registered(className)`possibleCoupledClasses,
               Registered(className)`variables, Registered(className)`called,
               Registered(className)`accessedAttributes
      ensures ok <==> !RaisesAtClassLevel(s)
      ensures ok ==>
        ClassStatementEffect(s, className, old(StateOf(classes.entries[className])))
          == Some(StateOf(classes.entries[className]))
    {
      var c := classes.entries[className];
      ghost var st := StateOf(c);
      if s.FunctionDef? {
        ExtractMethods(s, className);
      }
      assert StateOf(c) == DefinitionStep(s, className, st);
      if IsAssignment(s) {
        if s.kind == AnnAssign {
          return false;
        }
        ok := RecordTargets(s.targets, className);
        if !ok {
          return;
        }
      }
      assert StateOf(c) == TargetStep(s, DefinitionStep(s, className, st));
      if s.Simple? && (s.kind == Expr || s.kind == Assign || s.kind == AnnAssign) {
        var called, accessed := WalkEvents(s.events, className, c.called, c.accessedAttributes);
        c.called, c.accessedAttributes := called, accessed;
      }
      return true;
    }

    /** The statements of one class body, in order, until one raises. */
    method ExtractClassBody(body: seq<Stmt>, className: string) returns (ok: bool)
      requires Named(className)
      modifies Registered(className)`methods, Registered(className)`attributes,
               Registered(className)`coupledClasses, Registered(className)`possibleCoupledClasses,
               Registered(className)`variables, Registered(className)`called,
               Registered(className)`accessedAttributes
      ensures ok <==> ClassBodyExtractable(body)
      ensures ok ==>
        ClassBodyEffect(body, className, old(StateOf(classes.entries[className])))
          == Some(StateOf(classes.entries[className]))
    {
      var c := classes.entries[className];
      ClassBodyEffectDefined(body, className, StateOf(c));
      var j := 0;
      while j < |body|
        invariant 0 <= j <= |body|
        invariant ClassBodyEffect(body[..j], className, old(StateOf(c))) == Some(StateOf(c))
      {
        assert body[..j + 1][..j] == body[..j];
        ok := ExtractClassStatement(body[j], className);
        if !ok {
          return;
        }
        j := j + 1;
      }
      assert body[..j] == body;
      return true;
    }

    /** The plain-name bases of a class definition, in order: each is registered
        and appended to the class's parents, and the class is coupled to it
        unless it is the class itself. */
    method ExtractBases(names: seq<string>, className: string, ghost c: Class)
      requires Valid() && className in classes.entries && classes.entries[className] == c
      modifies this, c`parents, c`coupledClasses
      ensures Valid() && className in classes.entries && classes.entries[className] == c
      ensures classes.keys == AddKeys(old(classes.keys), names)
      ensures classes.entries.Keys == old(classes.entries.Keys) + Elements(names)
      ensures old(Repr) <= Repr && fresh(Repr - old(Repr))
      ensures forall k :: k in old(classes.entries) ==> classes.entries[k] == old(classes.entries[k])
      ensures forall k :: k in classes.entries && k !in old(classes.entries) ==> IsStub(classes.entries[k])
      ensures c.coupledClasses == old(c.coupledClasses) + (Elements(names) - {className})
      ensures Names(c.parents) == Names(old(c.parents)) + names
      decreases |names|
    {
      if names != [] {
        ghost var start := Names(c.parents);
        var init := names[..|names| - 1];
        var last := names[|names| - 1];
        ExtractBases(init, className, c);
        ghost var mid := c.parents;
        ghost var midEntries := classes.entries;
        ghost var midRepr := Repr;
        ExtractInheritance(last, className);
        assert Repr - old(Repr) <= (Repr - midRepr) + (midRepr - old(Repr));
        assert Elements(names) == Elements(init) + {last};
        forall k | k in classes.entries && k !in old(classes.entries)
          ensures IsStub(classes.entries[k])
        {
          if k in midEntries {
            assert classes.entries[k] == midEntries[k] && midEntries[k].name == k != className;
          }
        }
        SplitLast(names);
        AppendAssoc(start, init, [last]);
      }
    }

    /** The registered class of a class definition gets the module's path and its
        logical lines, has its body extracted and then, unless the body raised,
        has its bases extracted. */
    method DefineClass(cd: Stmt, path: string, c: Class) returns (ok: bool)
      requires Valid() && cd.ClassDef? && cd.name in classes.entries && classes.entries[cd.name] == c
      modifies this, c
      ensures Valid() && cd.name in classes.entries && classes.entries[cd.name] == c
      ensures ok <==> ClassBodyExtractable(cd.body)
      ensures classes.keys == if ok then AddKeys(old(classes.keys), BaseNames(cd.bases)) else old(classes.keys)
      ensures classes.entries.Keys == old(classes.entries.Keys) + (if ok then Elements(BaseNames(cd.bases)) else {})
      ensures old(Repr) <= Repr && fresh(Repr - old(Repr))
      ensures c.file == path && c.lloc == DefinitionLloc(cd.body)
      ensures forall k :: k in old(classes.entries) ==> classes.entries[k] == old(classes.entries[k])
      ensures forall k :: k in classes.entries && k !in old(classes.entries) ==> IsStub(classes.entries[k])
      ensures ok ==> DefinedRecord(cd, path, old(RecordOf(c))) == Some(RecordOf(c))
    {
      c.file := path;
      c.lloc := CountLloc(cd).value;
      ok := ExtractClassBody(cd.body, cd.name);
      if ok {
        ghost var body := StateOf(c);
        ExtractBases(BaseNames(cd.bases), cd.name, c);
        assert StateOf(c) == body.(fp := body.fp.(coupled := body.fp.coupled + (Elements(BaseNames(cd.bases)) - {cd.name})));
      }
    }

    /** One class definition of a module: the class is registered (a stub left
        by an earlier base list is reused) and then defined. */
    method ExtractClass(cd: Stmt, path: string) returns (ok: bool)
      requires Valid() && cd.ClassDef?
      modifies this, if cd.name in classes.entries then {classes.entries[cd.name]} else {}
      ensures Valid()
      ensures ok <==> ClassBodyExtractable(cd.body)
      ensures classes.keys == StatementKeys(cd, old(classes.keys))
      ensures classes.entries.Keys
           == old(classes.entries.Keys) + {cd.name} + (if ok then Elements(BaseNames(cd.bases)) else {})
      ensures old(Repr) <= Repr && fresh(Repr - old(Repr))
      ensures forall k :: k in old(classes.entries) ==> classes.entries[k] == old(classes.entries[k])
      ensures var c := classes.entries[cd.name]; c.file == path && c.lloc == DefinitionLloc(cd.body)
      ensures forall k :: k in classes.entries && k !in old(classes.entries) && k != cd.name ==> IsStub(classes.entries[k])
      ensures ok ==>
        DefinedRecord(cd, path, old(RecordIn(classes.entries, cd.name))) == Some(RecordIn(classes.entries, cd.name))
    {
      var c := Register(cd.name);
      if cd.name !in old(classes.entries) {
        BlankClassRecord(c);
      }
      assert RecordOf(c) == old(RecordIn(classes.entries, cd.name));
      ghost var registered := Repr;
      ok := DefineClass(cd, path, c);
      assert Repr - old(Repr) <= (Repr - registered) + (registered - old(Repr));
    }

    /** One top-level statement of a module: a class definition is extracted,
        anything else is skipped. */
    method ExtractStatement(s: Stmt, path: string) returns (ok: bool)
      requires Valid()
      modifies this, if s.ClassDef? && s.name in classes.entries then {classes.entries[s.name]} else {}
      ensures Valid()
      ensures ok <==> !s.ClassDef? || ClassBodyExtractable(s.body)
      ensures classes.keys == StatementKeys(s, old(classes.keys))
      ensures old(classes.entries.Keys) <= classes.entries.Keys
      ensures ok ==> classes.entries.Keys == old(classes.entries.Keys) + StatementNames(s)
      ensures old(Repr) <= Repr && fresh(Repr - old(Repr))
      ensures ok ==> forall k ::
        StatementRecord(s, path, k, old(RecordIn(classes.entries, k))) == Some(RecordIn(classes.entries, k))
    {
      ok := true;
      if s.ClassDef? {
        ok := ExtractClass(s, path);
        forall k | k != s.name
          ensures RecordIn(classes.entries, k) == old(RecordIn(classes.entries, k))
        {
          if k in old(classes.entries) {
            assert classes.entries[k] == old(classes.entries[k]);
            assert old(classes.entries[k]).name == k;
          } else if k in classes.entries {
            BlankClassRecord(classes.entries[k]);
          }
        }
      }
    }

    /** `_extract_classes_data`: every class definition of the module body, in
        order, until a class body raises. */
    method ExtractClassesData(m: Module) returns (ok: bool)
      requires Valid()
      modifies this, Repr
      ensures Valid()
      ensures ok <==> ModuleExtractable(m.body)
      ensures ok ==> classes.entries.Keys == old(classes.entries.Keys) + ModuleNames(m.body)
      ensures ok ==> classes.keys == ModuleKeys(m.body, old(classes.keys))
      ensures ok ==> forall k ::
        ModuleRecord(m.body, m.path, k, old(RecordIn(classes.entries, k))) == Some(RecordIn(classes.entries, k))
      ensures old(Repr) <= Repr && fresh(Repr - old(Repr))
    {
      var i := 0;
      while i < |m.body|
        invariant 0 <= i <= |m.body|
        invariant Valid()
        invariant ModuleExtractable(m.body[..i])
        invariant classes.keys == ModuleKeys(m.body[..i], old(classes.keys))
        invariant forall k ::
          ModuleRecord(m.body[..i], m.path, k, old(RecordIn(classes.entries, k))) == Some(RecordIn(classes.entries, k))
        invariant old(Repr) <= Repr && fresh(Repr - old(Repr))
      {
        ModuleStep(m.body, i);
        assert m.body[..i + 1][..i] == m.body[..i];
        ok := ExtractStatement(m.body[i], m.path);
        if !ok {
          return;
        }
        i := i + 1;
      }
      assert m.body[..i] == m.body;
      ModuleKeysMembers(m.body, old(classes.keys));
      return true;
    }
  
    /** `process_possible_coupled_classes`: every registered class, in key order,
        promotes the deferred names that are registered class names and then
        forgets its deferred names; the registry itself does not change. */
    method ProcessPossibleCoupledClasses()
      requires Valid()
      modifies Repr
      ensures Valid()
      ensures classes == old(classes)
      ensures old(SelfFree(classes)) ==> SelfFree(classes)
      ensures forall k :: k in classes.entries ==>
        var c := classes.entries[k];
        && c.coupledClasses
           == old(c.coupledClasses) + (old(c.possibleCoupledClasses) * classes.entries.Keys - {k})
        && c.possibleCoupledClasses == {}
    {
      var allClasses := classes.entries.Keys;
      var i := 0;
      while i < |classes.keys|
        invariant 0 <= i <= |classes.keys|
        invariant forall k :: k in classes.entries ==>
          var c := classes.entries[k];
          if k in classes.keys[..i] then
            && c.coupledClasses
               == old(c.coupledClasses) + (old(c.possibleCoupledClasses) * allClasses - {k})
            && c.possibleCoupledClasses == {}
          else
            && c.coupledClasses == old(c.coupledClasses)
            && c.possibleCoupledClasses == old(c.possibleCoupledClasses)
      {
        var k := classes.keys[i];
        var c := classes.entries[k];
        assert classes.keys[..i + 1] == classes.keys[..i] + [k];
        c.ProcessPossibleCoupledClasses(allClasses);
        i := i + 1;
      }
      assert classes.keys[..i] == classes.keys;
    }
  }
}
