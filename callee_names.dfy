/** Python's substring test and `str.replace(pattern, "")`, and the callee name the
    parser records for a call: its source text with every `<ClassName>.` and then
    every `self.` removed. */
module CalleeNames {

  /** `p in s` for strings: `p` is a prefix of `s` or occurs in its tail. */
  predicate Occurs(p: string, s: string)
    decreases |s|
  {
    p <= s || (s != [] && Occurs(p, s[1..]))
  }

  /** `s.replace(p, "")`: scanning from the left, every non-overlapping occurrence
      of `p` is dropped. */
  function RemoveAll(s: string, p: string): (r: string)
    requires p != []
    ensures |r| <= |s|
    decreases |s|
  {
    if s == [] then []
    else if p <= s then RemoveAll(s[|p|..], p)
    else [s[0]] + RemoveAll(s[1..], p)
  }

  /** Removing a pattern changes the text exactly when the pattern occurs in it,
      so the `in` tests that guard the replacements in the parser change nothing. */
  lemma {:induction false} RemoveAllIdentity(s: string, p: string)
    requires p != []
    ensures RemoveAll(s, p) == s <==> !Occurs(p, s)
    decreases |s|
  {
    if s == [] {
    } else if p <= s {
      RemoveAllShorter(s, p);
    } else {
      RemoveAllIdentity(s[1..], p);
      assert s == [s[0]] + s[1..];
    }
  }

  /** When the pattern occurs, the result is strictly shorter. */
  lemma {:induction false} RemoveAllShorter(s: string, p: string)
    requires p != []
    requires Occurs(p, s)
    ensures |RemoveAll(s, p)| < |s|
    decreases |s|
  {
    if !(p <= s) {
      RemoveAllShorter(s[1..], p);
    }
  }

  /** A pattern that contains a character the text lacks cannot occur in it. */
  lemma {:induction false} MissingCharacter(p: string, s: string, ch: char)
    requires ch in p && ch !in s
    ensures !Occurs(p, s)
    decreases |s|
  {
    if s != [] {
      MissingCharacter(p, s[1..], ch);
    }
  }

  /** Removing an occurrence at the front leaves the removal on the rest. */
  lemma LeadingOccurrence(p: string, m: string)
    requires p != []
    ensures RemoveAll(p + m, p) == RemoveAll(m, p)
  {
    assert p <= p + m;
    assert (p + m)[|p|..] == m;
  }

  /** `_add_called_method`, as far as it concerns the recorded name: for a call
      the builtin test does not flag, the callee text with every `<className>.`
      and then every `self.` removed, each removal done only when the `in` test
      finds the pattern. */
  function StripCallee(text: string, className: string): (name: string)
    ensures |name| <= |text|
  {
    var afterClass := if Occurs(className + ".", text) then RemoveAll(text, className + ".") else text;
    if Occurs("self.", afterClass) then RemoveAll(afterClass, "self.") else afterClass
  }

  /** The guards are redundant: the name is the two removals applied in turn. */
  lemma StripCalleeUnguarded(text: string, className: string)
    ensures StripCallee(text, className) == RemoveAll(RemoveAll(text, className + "."), "self.")
  {
    RemoveAllIdentity(text, className + ".");
    RemoveAllIdentity(RemoveAll(text, className + "."), "self.");
  }

  /** A callee without a dot is recorded verbatim (`max`, `print`). */
  lemma UndottedCalleeKept(text: string, className: string)
    requires '.' !in text
    ensures StripCallee(text, className) == text
  {
    MissingCharacter(className + ".", text, '.');
    assert "self."[4] == '.';
    MissingCharacter("self.", text, '.');
  }

  /** `self.<m>` is recorded as `<m>` when `m` mentions neither pattern and the
      class name does not itself end the word `self`. */
  lemma SelfCallStripped(m: string, className: string)
    requires !Occurs(className + ".", "self." + m)
    requires !Occurs("self.", m)
    ensures StripCallee("self." + m, className) == m
  {
    LeadingOccurrence("self.", m);
    RemoveAllIdentity(m, "self.");
  }

  /** `<className>.<m>` is recorded as `<m>` when `m` mentions neither pattern. */
  lemma ClassCallStripped(m: string, className: string)
    requires !Occurs(className + ".", m)
    requires !Occurs("self.", m)
    ensures StripCallee(className + "." + m, className) == m
  {
    LeadingOccurrence(className + ".", m);
    RemoveAllIdentity(m, className + ".");
    RemoveAllIdentity(m, "self.");
  }

  /** Removal skips a prefix at none of whose positions the pattern starts. */
  lemma {:induction false} KeepPrefix(x: string, s: string, p: string)
    requires p != []
    requires forall i :: 0 <= i < |x| ==> !(p <= (x + s)[i..])
    ensures RemoveAll(x + s, p) == x + RemoveAll(s, p)
    decreases |x|
  {
    if x != [] {
      assert !(p <= (x + s)[0..]);
      assert (x + s)[0..] == x + s;
      assert (x + s)[1..] == x[1..] + s;
      forall i | 0 <= i < |x[1..]|
        ensures !(p <= (x[1..] + s)[i..])
      {
        assert (x[1..] + s)[i..] == (x + s)[i + 1..];
      }
      KeepPrefix(x[1..], s, p);
    }
  }

  /** The removal is not anchored at the receiver: `self.` is dropped wherever it
      ends an identifier, so `x` + `self.` + `t` becomes `x` + `t` for any dot-free
      `x` and `t`. */
  lemma SelfRemovedInsideIdentifier(x: string, t: string, className: string)
    requires '.' !in x && '.' !in t
    requires !Occurs(className + ".", x + "self." + t)
    ensures StripCallee(x + "self." + t, className) == x + t
  {
    var p := "self.";
    var s := p + t;
    assert x + "self." + t == x + s;
    forall i | 0 <= i < |x|
      ensures !(p <= (x + s)[i..])
    {
      assert (x + s)[i + 4] == if i + 4 < |x| then x[i + 4] else p[i + 4 - |x|];
    }
    KeepPrefix(x, s, p);
    LeadingOccurrence(p, t);
    MissingCharacter(p, t, '.');
    RemoveAllIdentity(t, p);
    RemoveAllIdentity(x + s, p);
  }

}
