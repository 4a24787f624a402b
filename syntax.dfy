/** The part of a Python syntax tree the parser looks at.  What the inference
    engine would say about a name, or whether a call resolves to a builtin, is
    recorded in the tree itself: the parser only reads these answers. */
module Syntax {
  import opened Dicts

  /** The fifteen simple statements that count as one logical line. */
  datatype SimpleKind =
    | Assign | AugAssign | AnnAssign | Expr | Return | Raise | Delete | Pass
    | Break | Continue | Global | Nonlocal | Assert | Import | ImportFrom

  /** The compound statements whose bodies are counted. */
  datatype CompoundKind = If | For | While | Try | With

  /** What inferring a name yields: a class definition (possibly a builtin one),
      some other value, nothing at all, or an explicit "uninferable" / an
      inference failure. */
  datatype Inference = InferredClass(className: string, builtin: bool) | InferredOther | NoInference | Uninferable

  /** A `Name` node and the first value inference gives for it. */
  datatype NameRef = NameRef(id: string, inference: Inference)

  /** The `func` part of a call: a bare name, an attribute whose receiver may be
      a name (`A.f`, `self.f`), or anything else. */
  datatype Callee = CalleeName(ref: NameRef) | CalleeAttribute(receiver: Option<NameRef>) | CalleeOther

  /** A call: the source text of its `func`, whether the builtin test holds for it,
      and the shape of its `func`. */
  datatype Call = Call(text: string, builtinCall: bool, callee: Callee)

  /** The nodes of a statement that the data extraction reacts to, in the order
      of the walk over the statement.
      - `CallEvent`: a call node;
      - `AttributeRead`: an attribute node, by its source text;
      - `AttributeWrite`: an assignment target that is an attribute `<x>.<attr>`,
        whatever the receiver `<x>` is (`self` or any other object), with the
        type name inference gives for it (the leading dot already dropped);
      - `ValueAttribute`: an assignment whose value is an attribute `x.<attr>`;
      - `Annotation`: an annotated assignment, by the text of its annotation. */
  datatype Event =
    | CallEvent(call: Call)
    | AttributeRead(text: string)
    | AttributeWrite(attr: string, inferredType: Option<string>)
    | ValueAttribute(attr: string)
    | Annotation(text: string)

  /** A parameter annotation: absent, a name (with the builtin test), or another expression. */
  datatype ParamAnnotation = NoAnnotation | NameAnnotation(id: string, builtin: bool) | OtherAnnotation

  /** The slice of a subscripted annotation: a tuple of elements or a single expression. */
  datatype Slice = ElementsSlice(elements: seq<string>) | SingleSlice(text: string)

  /** A return annotation: subscripted (`dict[str, Class]`) or plain. */
  datatype ReturnAnnotation = Subscripted(outer: string, slice: Slice) | PlainReturn(text: string)

  /** An assignment target: a plain name or anything else. */
  datatype Target = NameTarget(id: string) | OtherTarget

  /** A base-class expression: a plain name or anything else. */
  datatype Base = NameBase(id: string) | OtherBase

  datatype Stmt =
    | Simple(kind: SimpleKind, targets: seq<Target>, events: seq<Event>)
    | Compound(compound: CompoundKind, body: seq<Stmt>, orelse: seq<Stmt>,
               handlers: seq<Stmt>, finalbody: seq<Stmt>)
    | FunctionDef(name: string, isAsync: bool, args: seq<string>,
                  annotations: seq<ParamAnnotation>, returnAnnotation: Option<ReturnAnnotation>,
                  body: seq<Stmt>, events: seq<Event>)
    | ClassDef(name: string, bases: seq<Base>, body: seq<Stmt>)
    | ExceptHandler(body: seq<Stmt>)
    | OtherStmt

  /** A parsed module: its path and its top-level statements. */
  datatype Module = Module(path: string, body: seq<Stmt>)

  /** The statements `count_lloc` accepts. */
  predicate IsDefinition(s: Stmt) {
    s.FunctionDef? || s.ClassDef?
  }
}
