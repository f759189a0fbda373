/** A JavaScript `Set<string>` as the core uses it: membership plus
    first-insertion order, modelled as a duplicate-free sequence that `AddCode`
    extends at the end. `AddAll([], xs)` is `Array.from(new Set(xs))`. */
module OrderedSet {
  import Sequences

  predicate NoDuplicates(s: seq<string>) {
    forall i, j :: 0 <= i < j < |s| ==> s[i] != s[j]
  }

  function Elements(s: seq<string>): set<string> {
    set x | x in s
  }

  /** `Set.prototype.add`. */
  function AddCode(codes: seq<string>, c: string): (r: seq<string>)
    ensures NoDuplicates(codes) ==> NoDuplicates(r)
    ensures forall x :: x in r <==> x in codes || x == c
  {
    if c in codes then codes else codes + [c]
  }

  /** Adding the elements of `xs` one after the other. */
  function AddAll(codes: seq<string>, xs: seq<string>): seq<string>
    decreases |xs|
  {
    if xs == [] then codes else AddAll(AddCode(codes, xs[0]), xs[1..])
  }

  /** The elements of `s` that are not in `excluded`, in order and with
      their multiplicity: `s.filter(x => !excluded.has(x))`. */
  function Without(s: seq<string>, excluded: set<string>): (r: seq<string>)
    ensures forall x :: x in r <==> x in s && x !in excluded
  {
    if s == [] then []
    else if s[0] in excluded then Without(s[1..], excluded)
    else [s[0]] + Without(s[1..], excluded)
  }

  // ---------------------------------------------------------------------

  lemma {:induction false} AddAllConcat(codes: seq<string>, xs: seq<string>, ys: seq<string>)
    ensures AddAll(codes, xs + ys) == AddAll(AddAll(codes, xs), ys)
    decreases |xs|
  {
    if xs != [] {
      assert (xs + ys)[0] == xs[0] && (xs + ys)[1..] == xs[1..] + ys;
      AddAllConcat(AddCode(codes, xs[0]), xs[1..], ys);
    } else {
      assert xs + ys == ys;
    }
  }

  lemma {:induction false} AddAllNoDuplicates(codes: seq<string>, xs: seq<string>)
    requires NoDuplicates(codes)
    ensures NoDuplicates(AddAll(codes, xs))
    decreases |xs|
  {
    if xs != [] {
      AddAllNoDuplicates(AddCode(codes, xs[0]), xs[1..]);
    }
  }

  lemma {:induction false} AddAllMembers(codes: seq<string>, xs: seq<string>)
    ensures forall x :: x in AddAll(codes, xs) <==> x in codes || x in xs
    decreases |xs|
  {
    if xs != [] {
      AddAllMembers(AddCode(codes, xs[0]), xs[1..]);
      assert xs == [xs[0]] + xs[1..];
    }
  }

  /** `Without` is the source's `filter`: it keeps, in order and with their
      multiplicity, the elements not excluded. */
  lemma WithoutIsFilter(s: seq<string>, excluded: set<string>)
    ensures Without(s, excluded) == Sequences.Filter(s, x => x !in excluded)
  {
    WithoutIsFilterOn(s, excluded, x => x !in excluded);
  }

  /** Filtering by a predicate that agrees with `excluded` on the elements
      of `s` is `Without`. */
  lemma {:induction false} WithoutIsFilterOn(s: seq<string>, excluded: set<string>, p: string -> bool)
    requires forall x :: x in s ==> (p(x) <==> x !in excluded)
    ensures Without(s, excluded) == Sequences.Filter(s, p)
    decreases |s|
  {
    if s != [] {
      assert forall x :: x in s[1..] ==> x in s;
      WithoutIsFilterOn(s[1..], excluded, p);
    }
  }

  lemma {:induction false} WithoutWithout(s: seq<string>, a: set<string>, b: set<string>)
    ensures Without(Without(s, a), b) == Without(s, a + b)
    decreases |s|
  {
    if s != [] {
      WithoutWithout(s[1..], a, b);
      if s[0] !in a {
        assert ([s[0]] + Without(s[1..], a))[1..] == Without(s[1..], a);
      }
    }
  }

  /** Adding `xs` to `codes` appends, after `codes`, what `xs` alone would
      give, less what `codes` already holds. */
  lemma {:induction false} AddAllSplit(codes: seq<string>, xs: seq<string>)
    ensures AddAll(codes, xs) == codes + Without(AddAll([], xs), Elements(codes))
    decreases |xs|
  {
    if xs == [] {
      assert codes + [] == codes;
    } else {
      var x, rest := xs[0], xs[1..];
      AddAllSplit([x], rest);
      AddAllSplit(AddCode(codes, x), rest);
      AddAllSplitStep(codes, x, rest);
    }
  }

  /** The inductive step of `AddAllSplit`, given its two hypotheses. */
  lemma AddAllSplitStep(codes: seq<string>, x: string, rest: seq<string>)
    requires AddAll([x], rest) == [x] + Without(AddAll([], rest), Elements([x]))
    requires AddAll(AddCode(codes, x), rest)
      == AddCode(codes, x) + Without(AddAll([], rest), Elements(AddCode(codes, x)))
    ensures AddAll(codes, [x] + rest) == codes + Without(AddAll([], [x] + rest), Elements(codes))
  {
    var a, d := Elements(codes), AddAll([], rest);
    assert ([x] + rest)[0] == x && ([x] + rest)[1..] == rest;
    assert AddCode([], x) == [x];
    assert AddAll([], [x] + rest) == AddAll([x], rest);
    assert AddAll(codes, [x] + rest) == AddAll(AddCode(codes, x), rest);
    assert Elements([x]) == {x};
    assert ([x] + Without(d, {x}))[1..] == Without(d, {x});
    WithoutWithout(d, {x}, a);
    var w := Without(AddAll([], [x] + rest), a);
    assert w == if x in a then Without(d, {x} + a) else [x] + Without(d, {x} + a);
    if x in codes {
      assert {x} + a == a;
    } else {
      AddAllSplitFresh(codes, x, d);
    }
  }

  lemma AddAllSplitFresh(codes: seq<string>, x: string, d: seq<string>)
    requires x !in codes
    ensures codes + ([x] + Without(d, {x} + Elements(codes)))
      == AddCode(codes, x) + Without(d, Elements(AddCode(codes, x)))
  {
    var a := Elements(codes);
    assert AddCode(codes, x) == codes + [x];
    assert Elements(codes + [x]) == a + {x};
    assert {x} + a == a + {x};
  }
}
