/** Shared datatypes and a few facts about sets and sequences. */
module Prelude {

  datatype Option<+T> = None | Some(value: T)

  function Max(a: int, b: int): int {
    if a > b then a else b
  }

  function Min(a: int, b: int): int {
    if a < b then a else b
  }

  /** The elements of a sequence of optional values that are present, in order. */
  function Present<T>(xs: seq<Option<T>>): seq<T> {
    if xs == [] then []
    else if xs[|xs| - 1].Some? then Present(xs[..|xs| - 1]) + [xs[|xs| - 1].value]
    else Present(xs[..|xs| - 1])
  }

  /** Where they are. */
  function PresentAt<T>(xs: seq<Option<T>>): seq<nat> {
    if xs == [] then []
    else if xs[|xs| - 1].Some? then PresentAt(xs[..|xs| - 1]) + [|xs| - 1]
    else PresentAt(xs[..|xs| - 1])
  }

  lemma {:induction false} PresentIs<T>(xs: seq<Option<T>>)
    ensures |Present(xs)| == |PresentAt(xs)|
    ensures forall i | 0 <= i < |Present(xs)| :: PresentAt(xs)[i] < |xs| && xs[PresentAt(xs)[i]] == Some(Present(xs)[i])
  {
    if xs != [] {
      PresentIs(xs[..|xs| - 1]);
    }
  }

  /** Concatenation of a sequence of sequences. */
  function Concat<T>(xss: seq<seq<T>>): seq<T> {
    if xss == [] then [] else xss[0] + Concat(xss[1..])
  }

  lemma ConcatCons<T>(xs: seq<T>, xss: seq<seq<T>>)
    ensures Concat([xs] + xss) == xs + Concat(xss)
  {
    assert ([xs] + xss)[1..] == xss;
  }

  lemma {:induction false} ConcatAppend<T>(xss: seq<seq<T>>, xs: seq<T>)
    ensures Concat(xss + [xs]) == Concat(xss) + xs
  {
    if xss == [] {
      assert Concat([xs]) == xs + [];
    } else {
      ConcatAppend(xss[1..], xs);
      assert (xss + [xs])[0] == xss[0] && (xss + [xs])[1..] == xss[1..] + [xs];
    }
  }

  lemma Associates<T>(a: seq<T>, b: seq<T>, c: seq<T>)
    ensures a + b + c == a + (b + c)
  {
  }

  lemma {:induction false} SubsetCardinality<T>(a: set<T>, b: set<T>)
    requires a <= b
    ensures |a| <= |b|
  {
    if a != {} {
      var x :| x in a;
      SubsetCardinality(a - {x}, b - {x});
    }
  }
}
