/** What the data extraction adds for each node it reacts to, stated over the
    sets it fills: the `called` and `accessed_attributes` of the object being
    filled (a method, or the class itself for class-level statements) and the
    `attributes`, `coupled_classes` and `possible_coupled_classes` of the class. */
module Extraction {
  import opened Dicts
  import opened Syntax
  import opened ClassModel
  import opened CalleeNames
  import opened LogicalLines

  datatype Footprint = Footprint(
    called: set<string>,
    accessed: set<string>,
    attributes: set<Attribute>,
    coupled: set<string>,
    possible: set<string>)

  /** Every set of `g` contains the corresponding set of `f`. */
  predicate Grows(f: Footprint, g: Footprint) {
    && f.called <= g.called && f.accessed <= g.accessed && f.attributes <= g.attributes
    && f.coupled <= g.coupled && f.possible <= g.possible
  }

  /** `_extract_coupled_classes` on a name: a non-builtin class it infers to is
      coupled (never the class itself), an uninferable name is deferred, and
      anything else is ignored. */
  function InferenceEffect(ref: NameRef, className: string, f: Footprint): (g: Footprint)
    ensures Grows(f, g)
    ensures g.called == f.called && g.accessed == f.accessed && g.attributes == f.attributes
    ensures g.coupled - f.coupled <= if ref.inference.InferredClass? then {ref.inference.className} else {}
    ensures className !in g.coupled - f.coupled
    ensures g.possible - f.possible <= {ref.id}
  {
    match ref.inference
    case Uninferable => f.(possible := f.possible + {ref.id})
    case InferredClass(n, builtin) =>
      if builtin then f else f.(coupled := f.coupled + ({n} - {className}))
    case _ => f
  }

  /** The name `_add_called_method` works with: the raw callee text for a builtin
      call, the stripped text otherwise. */
  function RecordedName(call: Call, className: string): string {
    if call.builtinCall then call.text else StripCallee(call.text, className)
  }

  /** `_add_called_method`: record the name unless the call is builtin, then look
      at the receiver when the name still holds a dot. */
  function AddCalledEffect(call: Call, className: string, f: Footprint): Footprint {
    var name := RecordedName(call, className);
    var f1 := if call.builtinCall then f else f.(called := f.called + {name});
    if '.' in name && call.callee.CalleeAttribute? && call.callee.receiver.Some?
    then InferenceEffect(call.callee.receiver.value, className, f1)
    else f1
  }

  /** A call node: `_add_called_method`, then `_extract_coupled_classes` on the
      callee when it is a bare name. */
  function CallEffect(call: Call, className: string, f: Footprint): Footprint {
    var g := AddCalledEffect(call, className, f);
    if call.callee.CalleeName? then InferenceEffect(call.callee.ref, className, g) else g
  }

  /** One node of the walk. */
  function EventEffect(e: Event, className: string, f: Footprint): Footprint {
    match e
    case CallEvent(call) => CallEffect(call, className, f)
    case AttributeRead(text) =>
      if Occurs("self", text) then f.(accessed := f.accessed + {RemoveAll(text, "self.")}) else f
    case AttributeWrite(attr, ty) =>
      var name := if Occurs("self.", attr) then RemoveAll(attr, "self.") else attr;
      f.(attributes := f.attributes + {(attr, ty)}, accessed := f.accessed + {name})
    case ValueAttribute(attr) => f.(accessed := f.accessed + {attr})
    case Annotation(text) => f.(possible := f.possible + {text})
  }

  /** The nodes of a walk, in order. */
  function EventsEffect(es: seq<Event>, className: string, f: Footprint): Footprint
  {
    if es == [] then f
    else EventEffect(es[|es| - 1], className, EventsEffect(es[..|es| - 1], className, f))
  }

  /** The names recorded for the non-builtin calls of a walk. */
  function CalledNames(es: seq<Event>, className: string): set<string> {
    set i | 0 <= i < |es| && es[i].CallEvent? && !es[i].call.builtinCall
      :: StripCallee(es[i].call.text, className)
  }

  /** The attribute descriptors of the attribute targets written in a walk, on
      any receiver. */
  function WrittenAttributes(es: seq<Event>): set<Attribute> {
    set i | 0 <= i < |es| && es[i].AttributeWrite? :: (es[i].attr, es[i].inferredType)
  }

  /** Extraction only adds: no set shrinks. */
  lemma {:induction false} EventsGrow(es: seq<Event>, className: string, f: Footprint)
    ensures Grows(f, EventsEffect(es, className, f))
  {
    if es != [] {
      EventsGrow(es[..|es| - 1], className, f);
    }
  }

  /** A call node records its stripped name unless the builtin test flags it;
      no other node touches the called set. */
  lemma EventCalled(e: Event, className: string, g: Footprint)
    ensures EventEffect(e, className, g).called
         == g.called + (if e.CallEvent? && !e.call.builtinCall then {StripCallee(e.call.text, className)} else {})
  {
  }

  lemma CalledNamesStep(es: seq<Event>, className: string)
    requires es != []
    ensures var e := es[|es| - 1];
      CalledNames(es, className)
        == CalledNames(es[..|es| - 1], className)
           + (if e.CallEvent? && !e.call.builtinCall then {StripCallee(e.call.text, className)} else {})
  {
    var init := es[..|es| - 1];
    assert forall i :: 0 <= i < |init| ==> init[i] == es[i];
  }

  /** The called set gains exactly the stripped names of the calls the builtin
      test does not flag; builtin calls add nothing. */
  lemma {:induction false} EventsCalled(es: seq<Event>, className: string, f: Footprint)
    ensures EventsEffect(es, className, f).called == f.called + CalledNames(es, className)
  {
    if es != [] {
      var init := es[..|es| - 1];
      EventsCalled(init, className, f);
      EventCalled(es[|es| - 1], className, EventsEffect(init, className, f));
      CalledNamesStep(es, className);
    }
  }

  /** A `self` write records its descriptor; no other node touches the class's
      attribute set. */
  lemma EventAttributes(e: Event, className: string, g: Footprint)
    ensures EventEffect(e, className, g).attributes
         == g.attributes + (if e.AttributeWrite? then {(e.attr, e.inferredType)} else {})
  {
  }

  lemma WrittenAttributesStep(es: seq<Event>)
    requires es != []
    ensures var e := es[|es| - 1];
      WrittenAttributes(es)
        == WrittenAttributes(es[..|es| - 1]) + (if e.AttributeWrite? then {(e.attr, e.inferredType)} else {})
  {
    var init := es[..|es| - 1];
    assert forall i :: 0 <= i < |init| ==> init[i] == es[i];
  }

  /** The class's attribute set gains exactly the descriptors of the attribute
      targets written, whether the receiver is `self` or another object. */
  lemma {:induction false} EventsAttributes(es: seq<Event>, className: string, f: Footprint)
    ensures EventsEffect(es, className, f).attributes == f.attributes + WrittenAttributes(es)
  {
    if es != [] {
      var init := es[..|es| - 1];
      EventsAttributes(init, className, f);
      EventAttributes(es[|es| - 1], className, EventsEffect(init, className, f));
      WrittenAttributesStep(es);
    }
  }

  /** A class never becomes coupled to itself through a walk. */
  lemma {:induction false} EventsNeverSelfCouple(es: seq<Event>, className: string, f: Footprint)
    requires className !in f.coupled
    ensures className !in EventsEffect(es, className, f).coupled
  {
    if es != [] {
      EventsNeverSelfCouple(es[..|es| - 1], className, f);
    }
  }

  /** `_extract_return_type`: the outer type and each element of a subscripted
      annotation, or the single slice, or the whole annotation text. */
  function ReturnTypeNames(r: ReturnAnnotation): (names: set<string>)
  {
    match r
    case Subscripted(outer, ElementsSlice(elements)) => {outer} + set e | e in elements
    case Subscripted(outer, SingleSlice(text)) => {outer, text}
    case PlainReturn(text) => {text}
  }

  /** A subscripted return type contributes its outer name and every element, and
      never more than one name per element besides the outer one. */
  lemma ReturnTypeNamesBound(outer: string, elements: seq<string>)
    ensures outer in ReturnTypeNames(Subscripted(outer, ElementsSlice(elements)))
    ensures forall e :: e in elements ==> e in ReturnTypeNames(Subscripted(outer, ElementsSlice(elements)))
    ensures |ReturnTypeNames(Subscripted(outer, ElementsSlice(elements)))| <= 1 + |elements|
  {
    SeqSetCardinality(elements);
  }

  /** The parameter annotations that are plain, non-builtin names. */
  function ParameterTypeNames(annotations: seq<ParamAnnotation>): set<string> {
    set i | 0 <= i < |annotations| && annotations[i].NameAnnotation? && !annotations[i].builtin
      :: annotations[i].id
  }

  /** `_extract_methods` on a function definition, given the class's sets before it:
      the method record it stores and the class's sets after it.  The record's
      call and attribute sets start empty; parameter and return annotations are
      deferred on the class before the body's nodes are walked. */
  function ExtractedMethod(def: Stmt, className: string, before: Footprint): (Method, Footprint)
    requires def.FunctionDef?
  {
    var returned := if def.returnAnnotation.Some? then ReturnTypeNames(def.returnAnnotation.value) else {};
    var start := Footprint({}, {}, before.attributes, before.coupled,
                           before.possible + ParameterTypeNames(def.annotations) + returned);
    var after := EventsEffect(def.events, className, start);
    (Method(def.name, DefinitionLloc(def.body), |def.args|, after.accessed, after.called), after)
  }

  /** The extracted record: named after the definition, counting every positional
      parameter (`self` included), with the lines of its body, calling exactly
      the stripped names of its non-builtin calls; the class keeps everything it
      had and is still not coupled to itself. */
  lemma ExtractedMethodFacts(def: Stmt, className: string, before: Footprint)
    requires def.FunctionDef?
    requires className !in before.coupled
    ensures var (m, after) := ExtractedMethod(def, className, before);
      && m.name == def.name
      && m.numberOfParameters == |def.args|
      && Success(m.lloc) == CountLloc(def)
      && m.called == CalledNames(def.events, className)
      && before.attributes <= after.attributes && before.coupled <= after.coupled
      && before.possible + ParameterTypeNames(def.annotations) <= after.possible
      && className !in after.coupled
  {
    var returned := if def.returnAnnotation.Some? then ReturnTypeNames(def.returnAnnotation.value) else {};
    var start := Footprint({}, {}, before.attributes, before.coupled,
                           before.possible + ParameterTypeNames(def.annotations) + returned);
    EventsCalled(def.events, className, start);
    EventsGrow(def.events, className, start);
    EventsNeverSelfCouple(def.events, className, start);
  }

  /** What extracting a class body builds up: the class's own sets, its methods
      and its class-body variables. */
  datatype ClassState = ClassState(fp: Footprint, methods: Dict<Method>, variables: set<string>)

  /** The names of a list of assignment targets, or `None` when one of them is
      not a plain name (reading `.name` on it raises AttributeError). */
  function TargetNames(targets: seq<Target>): (r: Option<set<string>>)
    ensures r.Some? <==> forall i :: 0 <= i < |targets| ==> targets[i].NameTarget?
    ensures r.Some? ==> r.value == set i | 0 <= i < |targets| :: targets[i].id
  {
    if targets == [] then Some({})
    else
      var prefix := targets[..|targets| - 1];
      var init := TargetNames(prefix);
      var last := targets[|targets| - 1];
      if init.None? || !last.NameTarget? then None
      else
        assert (set i | 0 <= i < |targets| :: targets[i].id)
            == (set i | 0 <= i < |prefix| :: prefix[i].id) + {last.id};
        Some(init.value + {last.id})
  }

  /** Whether a class-body statement is an assignment whose targets are read. */
  predicate IsAssignment(s: Stmt) {
    s.Simple? && (s.kind == Assign || s.kind == AnnAssign)
  }

  /** The class-level assignments that make the extraction raise: an annotated
      assignment (it has no `targets`) or a target that is not a plain name. */
  predicate RaisesAtClassLevel(s: Stmt) {
    IsAssignment(s) && (s.kind == AnnAssign || TargetNames(s.targets).None?)
  }

  /** A function definition of a class body becomes a method of the class. */
  function DefinitionStep(s: Stmt, className: string, st: ClassState): ClassState {
    if s.FunctionDef? then
      var (m, after) := ExtractedMethod(s, className, st.fp);
      ClassState(st.fp.(attributes := after.attributes, coupled := after.coupled, possible := after.possible),
                 st.methods.Put(s.name, m), st.variables)
    else st
  }

  /** An assignment whose targets are all plain names records them as class variables. */
  function TargetStep(s: Stmt, st: ClassState): ClassState
    requires !RaisesAtClassLevel(s)
  {
    if IsAssignment(s) then st.(variables := st.variables + TargetNames(s.targets).value) else st
  }

  /** An expression or assignment has its value walked with the class itself as
      the object being filled. */
  function WalkStep(s: Stmt, className: string, st: ClassState): ClassState {
    if s.Simple? && (s.kind == Expr || s.kind == Assign || s.kind == AnnAssign)
    then st.(fp := EventsEffect(s.events, className, st.fp))
    else st
  }

  /** One statement of a class body, or `None` if it raises. */
  function ClassStatementEffect(s: Stmt, className: string, st: ClassState): (r: Option<ClassState>)
    ensures r.None? <==> RaisesAtClassLevel(s)
  {
    if RaisesAtClassLevel(s) then None
    else Some(WalkStep(s, className, TargetStep(s, DefinitionStep(s, className, st))))
  }

  /** A class body, statement by statement; `None` as soon as one raises. */
  function ClassBodyEffect(body: seq<Stmt>, className: string, st: ClassState): Option<ClassState>
  {
    if body == [] then Some(st)
    else
      var init := ClassBodyEffect(body[..|body| - 1], className, st);
      if init.None? then None else ClassStatementEffect(body[|body| - 1], className, init.value)
  }

  /** The names of the methods a class body defines. */
  function MethodNames(body: seq<Stmt>): set<string> {
    set i | 0 <= i < |body| && body[i].FunctionDef? :: body[i].name
  }

  /** The statements of a class body that can make the extraction raise. */
  predicate ClassBodyExtractable(body: seq<Stmt>) {
    forall i :: 0 <= i < |body| ==> !RaisesAtClassLevel(body[i])
  }

  /** A class body fails exactly when one of its statements raises. */
  lemma {:induction false} ClassBodyEffectDefined(body: seq<Stmt>, className: string, st: ClassState)
    ensures ClassBodyEffect(body, className, st).Some? <==> ClassBodyExtractable(body)
  {
    if body != [] {
      var init := body[..|body| - 1];
      ClassBodyEffectDefined(init, className, st);
      assert forall i :: 0 <= i < |init| ==> init[i] == body[i];
    }
  }

  /** One statement of a class body that does not raise: a function definition
      adds (or overwrites) one method stored under its own name, the sets only
      grow, and the class is still not coupled to itself. */
  lemma ClassStatementFacts(s: Stmt, className: string, p: ClassState)
    requires MethodsNamed(p.methods) && className !in p.fp.coupled
    ensures ClassStatementEffect(s, className, p).Some? ==>
      var r := ClassStatementEffect(s, className, p).value;
      && r.methods.entries.Keys == p.methods.entries.Keys + (if s.FunctionDef? then {s.name} else {})
      && MethodsNamed(r.methods)
      && Grows(p.fp, r.fp)
      && className !in r.fp.coupled
  {
    var st1 := DefinitionStep(s, className, p);
    if s.FunctionDef? {
      ExtractedMethodFacts(s, className, p.fp);
    }
    if !RaisesAtClassLevel(s) && s.Simple? {
      var st2 := TargetStep(s, st1);
      EventsGrow(s.events, className, st2.fp);
      EventsNeverSelfCouple(s.events, className, st2.fp);
    }
  }

  lemma MethodNamesStep(body: seq<Stmt>)
    requires body != []
    ensures var last := body[|body| - 1];
      MethodNames(body) == MethodNames(body[..|body| - 1]) + (if last.FunctionDef? then {last.name} else {})
  {
    var init := body[..|body| - 1];
    assert forall i :: 0 <= i < |init| ==> init[i] == body[i];
  }

  /** When a class body succeeds, the class gains one method per function
      definition (a redefined name overwrites), its methods stay stored under
      their own names, its sets only grow, and it is still not coupled to itself. */
  lemma {:induction false} ClassBodyEffectFacts(body: seq<Stmt>, className: string, st: ClassState)
    requires MethodsNamed(st.methods) && className !in st.fp.coupled
    ensures ClassBodyEffect(body, className, st).Some? ==>
      var r := ClassBodyEffect(body, className, st).value;
      && r.methods.entries.Keys == st.methods.entries.Keys + MethodNames(body)
      && MethodsNamed(r.methods)
      && Grows(st.fp, r.fp)
      && className !in r.fp.coupled
  {
    if body != [] {
      var init := body[..|body| - 1];
      ClassBodyEffectFacts(init, className, st);
      MethodNamesStep(body);
      var prev := ClassBodyEffect(init, className, st);
      if prev.Some? {
        ClassStatementFacts(body[|body| - 1], className, prev.value);
      }
    }
  }
}
