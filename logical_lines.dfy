/** Logical lines of code, counted over statement trees by two mutually
    recursive counters: one for the body of a definition and one for the body
    of a compound statement. */
module LogicalLines {
  import opened Dicts
  import opened Syntax

  /** `count_lloc`: a ValueError unless the node is a function, async function
      or class definition; otherwise the count of its direct body. */
  function CountLloc(node: Stmt): (r: Result<int>)
    ensures r.Failure? <==> !IsDefinition(node)
    ensures r.Success? ==> r.value == DefinitionLloc(node.body) && r.value >= 0
  {
    match node
    case FunctionDef(_, _, _, _, _, body, _) => Success(DefinitionLloc(body))
    case ClassDef(_, _, body) => Success(DefinitionLloc(body))
    case _ => Failure("Node must be a function or method definition")
  }

  /** The sum, from first to last, of the scores of a definition's direct children. */
  function DefinitionLloc(body: seq<Stmt>): (n: int)
    ensures n >= 0
    decreases body, 1
  {
    if body == [] then 0
    else DefinitionLloc(body[..|body| - 1]) + DefinitionScore(body[|body| - 1])
  }

  /** What one direct child of a definition adds: 1 for a simple statement, its
      compound count for a compound statement, 1 plus its own count for a nested
      function definition, and nothing for anything else. */
  function DefinitionScore(child: Stmt): (n: int)
    ensures n >= 0
    decreases child, 1
  {
    match child
    case Simple(_, _, _) => 1
    case Compound(_, _, _, _, _) => CompoundLloc(child)
    case FunctionDef(_, _, _, _, _, body, _) => 1 + DefinitionLloc(body)
    case _ => 0
  }

  /** `count_lloc_in_compound_statement`: the statement itself, then its `body`
      and its `orelse` children; exception handlers and `finally` bodies are not
      visited. */
  function CompoundLloc(s: Stmt): (n: int)
    requires s.Compound?
    ensures n >= 1
    decreases s, 0
  {
    1 + BodyLloc(s.body) + BodyLloc(s.orelse)
  }

  function BodyLloc(body: seq<Stmt>): (n: int)
    ensures n >= 0
    decreases body, 1
  {
    if body == [] then 0
    else BodyLloc(body[..|body| - 1]) + CompoundScore(body[|body| - 1])
  }

  /** What one child of a compound statement adds: nested definitions add nothing. */
  function CompoundScore(child: Stmt): (n: int)
    ensures n >= 0
    decreases child, 1
  {
    match child
    case Simple(_, _, _) => 1
    case Compound(_, _, _, _, _) => CompoundLloc(child)
    case _ => 0
  }

  /** The number of statements in a body, counting every nested body, handler and
      `finally` block. */
  function Size(body: seq<Stmt>): nat
    decreases body, 1
  {
    if body == [] then 0 else Size(body[..|body| - 1]) + StmtSize(body[|body| - 1])
  }

  function StmtSize(s: Stmt): nat
    decreases s, 0
  {
    match s
    case Compound(_, body, orelse, handlers, finalbody) =>
      1 + Size(body) + Size(orelse) + Size(handlers) + Size(finalbody)
    case FunctionDef(_, _, _, _, _, body, _) => 1 + Size(body)
    case ClassDef(_, _, body) => 1 + Size(body)
    case ExceptHandler(body) => 1 + Size(body)
    case _ => 1
  }

  /** The definition counter is additive over concatenated bodies. */
  lemma {:induction false} DefinitionLlocAppend(a: seq<Stmt>, b: seq<Stmt>)
    ensures DefinitionLloc(a + b) == DefinitionLloc(a) + DefinitionLloc(b)
    decreases |b|
  {
    if b == [] {
      assert a + b == a;
    } else {
      var b' := b[..|b| - 1];
      assert (a + b)[..|a + b| - 1] == a + b';
      assert (a + b)[|a + b| - 1] == b[|b| - 1];
      DefinitionLlocAppend(a, b');
    }
  }

  /** The compound counter is additive over concatenated bodies. */
  lemma {:induction false} BodyLlocAppend(a: seq<Stmt>, b: seq<Stmt>)
    ensures BodyLloc(a + b) == BodyLloc(a) + BodyLloc(b)
    decreases |b|
  {
    if b == [] {
      assert a + b == a;
    } else {
      var b' := b[..|b| - 1];
      assert (a + b)[..|a + b| - 1] == a + b';
      assert (a + b)[|a + b| - 1] == b[|b| - 1];
      BodyLlocAppend(a, b');
    }
  }

  /** A function definition nested in a compound statement adds nothing to it,
      whereas the same definition directly in a definition's body adds one plus
      its own count. */
  lemma NestedDefinitionScores(prefix: seq<Stmt>, def: Stmt)
    requires def.FunctionDef?
    ensures BodyLloc(prefix + [def]) == BodyLloc(prefix)
    ensures DefinitionLloc(prefix + [def]) == DefinitionLloc(prefix) + 1 + DefinitionLloc(def.body)
  {
    BodyLlocAppend(prefix, [def]);
    DefinitionLlocAppend(prefix, [def]);
  }

  /** Handlers and `finally` blocks never change a compound statement's count,
      while every counted statement of its `body` or `orelse` does. */
  lemma CompoundIgnoresHandlers(k: CompoundKind, body: seq<Stmt>, orelse: seq<Stmt>,
                                handlers: seq<Stmt>, finalbody: seq<Stmt>, extra: Stmt)
    requires extra.Simple?
    ensures CompoundLloc(Compound(k, body, orelse, handlers, finalbody)) == 1 + BodyLloc(body) + BodyLloc(orelse)
    ensures CompoundLloc(Compound(k, body, orelse, handlers + [ExceptHandler([extra])], finalbody + [extra]))
         == CompoundLloc(Compound(k, body, orelse, handlers, finalbody))
    ensures CompoundLloc(Compound(k, body, orelse + [extra], handlers, finalbody))
         == CompoundLloc(Compound(k, body, orelse, handlers, finalbody)) + 1
  {
    BodyLlocAppend(orelse, [extra]);
  }

  /** Each statement counts at most once: the logical lines of a body never
      exceed the number of statements in it. */
  lemma {:induction false} DefinitionLlocBound(body: seq<Stmt>)
    ensures DefinitionLloc(body) <= Size(body)
    decreases body, 1
  {
    if body != [] {
      DefinitionLlocBound(body[..|body| - 1]);
      DefinitionScoreBound(body[|body| - 1]);
    }
  }

  lemma {:induction false} DefinitionScoreBound(s: Stmt)
    ensures DefinitionScore(s) <= StmtSize(s)
    decreases s, 1
  {
    match s
    case Compound(_, _, _, _, _) => CompoundLlocBound(s);
    case FunctionDef(_, _, _, _, _, body, _) => DefinitionLlocBound(body);
    case _ =>
  }

  lemma {:induction false} CompoundLlocBound(s: Stmt)
    requires s.Compound?
    ensures CompoundLloc(s) <= StmtSize(s)
    decreases s, 0
  {
    BodyLlocBound(s.body);
    BodyLlocBound(s.orelse);
  }

  lemma {:induction false} BodyLlocBound(body: seq<Stmt>)
    ensures BodyLloc(body) <= Size(body)
    decreases body, 1
  {
    if body != [] {
      BodyLlocBound(body[..|body| - 1]);
      var last := body[|body| - 1];
      if last.Compound? {
        CompoundLlocBound(last);
      }
    }
  }

  /** Every direct child that is a simple, compound or function statement counts
      at least once, so the count is at least the number of such children. */
  lemma {:induction false} DefinitionLlocLowerBound(body: seq<Stmt>)
    ensures DefinitionLloc(body) >= |CountedChildren(body)|
  {
    if body != [] {
      DefinitionLlocLowerBound(body[..|body| - 1]);
    }
  }

  function CountedChildren(body: seq<Stmt>): seq<Stmt> {
    if body == [] then []
    else
      var last := body[|body| - 1];
      CountedChildren(body[..|body| - 1])
        + (if last.Simple? || last.Compound? || last.FunctionDef? then [last] else [])
  }

  /** A definition whose body is made only of simple statements has exactly as many
      logical lines as statements. */
  lemma {:induction false} FlatBodyLloc(body: seq<Stmt>)
    requires forall i :: 0 <= i < |body| ==> body[i].Simple?
    ensures DefinitionLloc(body) == |body|
  {
    if body != [] {
      FlatBodyLloc(body[..|body| - 1]);
    }
  }
}
