/** Python values the tool relies on: an optional value, an outcome that may be
    an exception, and the string-keyed dictionary whose iteration order is the
    order in which keys were first inserted. */
module Dicts {

  datatype Option<+T> = None | Some(value: T)

  /** The outcome of an operation that Python ends by raising an exception. */
  datatype Result<+T> = Success(value: T) | Failure(error: string)

  /** A string-keyed dictionary: `keys` lists every key once, in first-insertion
      order (the iteration order of `d.keys()`, `d.values()`, `d.items()`), and
      `entries` holds the value stored under each key. */
  datatype Dict<V> = Dict(keys: seq<string>, entries: map<string, V>) {

    ghost predicate Valid() {
      && (forall i :: 0 <= i < |keys| ==> keys[i] !in keys[..i])
      && (forall k :: k in entries <==> k in keys)
    }

    /** `d[k] = v`: a key already present keeps its position, a new key goes last. */
    function Put(k: string, v: V): (d: Dict<V>)
      ensures d.entries == entries[k := v]
      ensures d.keys == if k in entries then keys else keys + [k]
      ensures Valid() ==> d.Valid()
    {
      if k in entries then Dict(keys, entries[k := v]) else Dict(keys + [k], entries[k := v])
    }

    /** `list(d.values())`. */
    function Values(): (vs: seq<V>)
      requires Valid()
      ensures |vs| == |keys|
      ensures forall i :: 0 <= i < |keys| ==> vs[i] == entries[keys[i]]
    {
      seq(|keys|, i requires 0 <= i < |keys| => entries[keys[i]])
    }
  }

  function Empty<V>(): Dict<V> {
    Dict([], map[])
  }

  ghost predicate Distinct<T>(s: seq<T>) {
    forall i, j :: 0 <= i < j < |s| ==> s[i] != s[j]
  }

  /** A sequence without repetitions has as many distinct elements as positions. */
  lemma {:induction false} DistinctCardinality<T>(s: seq<T>)
    requires Distinct(s)
    ensures |set x | x in s| == |s|
  {
    if s != [] {
      var rest := s[1..];
      assert Distinct(rest);
      DistinctCardinality(rest);
      assert (set x | x in s) == (set x | x in rest) + {s[0]};
      assert s[0] !in (set x | x in rest);
    }
  }

  /** A sequence has no more distinct elements than positions. */
  lemma {:induction false} SeqSetCardinality<T>(s: seq<T>)
    ensures |set x | x in s| <= |s|
  {
    if s != [] {
      var rest := s[1..];
      SeqSetCardinality(rest);
      assert (set x | x in s) == (set x | x in rest) + {s[0]};
    }
  }

  /** `len(d)` is the number of keys. */
  lemma SizeIsKeyCount<V>(d: Dict<V>)
    requires d.Valid()
    ensures |d.entries| == |d.keys|
  {
    assert d.entries.Keys == set x | x in d.keys;
    DistinctCardinality(d.keys);
  }

  /** A subset is no larger than its superset. */
  lemma {:induction false} SubsetCardinality<T>(a: set<T>, b: set<T>)
    requires a <= b
    ensures |a| <= |b|
    decreases b
  {
    if b != {} {
      var x :| x in b;
      SubsetCardinality(a - {x}, b - {x});
    }
  }

  /** The image of a set under a function. */
  ghost function Image<T, U>(a: set<T>, f: T -> U): set<U> {
    set x | x in a :: f(x)
  }

  /** The image of a finite set under a function injective on it has the same size. */
  lemma {:induction false} InjectiveImageCardinality<T, U>(a: set<T>, f: T -> U)
    requires forall x, y :: x in a && y in a && f(x) == f(y) ==> x == y
    ensures |Image(a, f)| == |a|
    decreases a
  {
    if a != {} {
      var x :| x in a;
      InjectiveImageCardinality(a - {x}, f);
      assert Image(a, f) == Image(a - {x}, f) + {f(x)};
    }
  }
}
