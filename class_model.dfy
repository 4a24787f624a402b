/** The entity model: methods as records, classes as objects that the parser
    updates in place and that refer to their parents by reference. */
module ClassModel {
  import opened Dicts

  /** An attribute descriptor: the attribute's name and the type inferred for it, if any. */
  type Attribute = (string, Option<string>)

  /** A method: its name, logical lines, positional-parameter count, the attribute names
      it records as accessed, and the names it calls. */
  datatype Method = Method(
    name: string,
    lloc: int,
    numberOfParameters: int,
    accessedAttributes: set<string>,
    called: set<string>)

  /** `Method(name)`: every count zero, every set empty. */
  function NewMethod(name: string): (m: Method)
    ensures m.name == name && m.lloc == 0 && m.numberOfParameters == 0
    ensures m.accessedAttributes == {} && m.called == {}
  {
    Method(name, 0, 0, {}, {})
  }

  /** Every method is stored under its own name. */
  ghost predicate MethodsNamed(methods: Dict<Method>) {
    && methods.Valid()
    && forall k :: k in methods.entries ==> methods.entries[k].name == k
  }

  class Class {
    const name: string
    var file: string
    var lloc: int
    var methods: Dict<Method>
    var attributes: set<Attribute>
    var variables: set<string>
    var called: set<string>
    var accessedAttributes: set<string>
    var coupledClasses: set<string>
    var possibleCoupledClasses: set<string>
    var parents: seq<Class>

    /** Everything a freshly created class holds besides its name and file. */
    ghost predicate IsBlank()
      reads this
    {
      && lloc == 0
      && methods == Empty()
      && attributes == {}
      && variables == {}
      && called == {}
      && accessedAttributes == {}
      && coupledClasses == {}
      && possibleCoupledClasses == {}
      && parents == []
    }

    constructor (name: string, file: string := "")
      ensures this.name == name && this.file == file
      ensures IsBlank()
    {
      this.name := name;
      this.file := file;
      lloc := 0;
      methods := Empty();
      attributes := {};
      variables := {};
      called := {};
      accessedAttributes := {};
      coupledClasses := {};
      possibleCoupledClasses := {};
      parents := [];
    }

    /** Records a confirmed coupling; a class is never coupled to itself. */
    method AddCoupledClass(coupledTo: string)
      modifies this`coupledClasses
      ensures coupledClasses == old(coupledClasses) + ({coupledTo} - {name})
    {
      if coupledTo != name {
        coupledClasses := coupledClasses + {coupledTo};
      }
    }

    /** Promotes every deferred name that is among the known class names, then
        forgets the deferred names when `cleanup` is set. */
    method ProcessPossibleCoupledClasses(allClasses: set<string>, cleanup: bool := true)
      modifies this`coupledClasses, this`possibleCoupledClasses
      ensures coupledClasses == old(coupledClasses) + (old(possibleCoupledClasses) * allClasses - {name})
      ensures possibleCoupledClasses == if cleanup then {} else old(possibleCoupledClasses)
    {
      var pending := possibleCoupledClasses;
      while pending != {}
        invariant pending <= old(possibleCoupledClasses)
        invariant possibleCoupledClasses == old(possibleCoupledClasses)
        invariant coupledClasses
          == old(coupledClasses) + ((old(possibleCoupledClasses) - pending) * allClasses - {name})
        decreases pending
      {
        var candidate :| candidate in pending;
        if candidate in allClasses {
          AddCoupledClass(candidate);
        }
        pending := pending - {candidate};
      }
      if cleanup {
        possibleCoupledClasses := {};
      }
    }

    /** The names of the parent classes; a parent listed twice contributes one name. */
    function GetAllParentNames(): (names: set<string>)
      reads this
      ensures forall n :: n in names <==> exists i :: 0 <= i < |parents| && parents[i].name == n
      ensures |names| <= |parents|
    {
      ParentNamesBound(parents);
      set p | p in parents :: p.name
    }
  }

  /** The names of a list of classes, in order. */
  function Names(cs: seq<Class>): (names: seq<string>)
    ensures |names| == |cs|
  {
    if cs == [] then [] else Names(cs[..|cs| - 1]) + [cs[|cs| - 1].name]
  }

  /** Appending to a class list appends the new names. */
  lemma NamesAppend(a: seq<Class>, c: Class)
    ensures Names(a + [c]) == Names(a) + [c.name]
  {
    assert (a + [c])[..|a|] == a;
  }

  /** The names of a parent list never outnumber its entries. */
  lemma {:induction false} ParentNamesBound(ps: seq<Class>)
    ensures |set p | p in ps :: p.name| <= |ps|
  {
    if ps != [] {
      var tail := ps[1..];
      ParentNamesBound(tail);
      var rest := set p | p in tail :: p.name;
      assert |rest| <= |tail|;
      var all := set p | p in ps :: p.name;
      assert all == rest + {ps[0].name};
      assert |rest + {ps[0].name}| <= |rest| + 1;
    }
  }

  /** A registry as the parser leaves it: every class stored under its own name. */
  ghost predicate WellFormedRegistry(classes: Dict<Class>) {
    && classes.Valid()
    && forall k :: k in classes.entries ==> classes.entries[k].name == k
  }
}
