/** Facts about sequences the rest of the model shares: no element
    repeated, and the set of elements. */
module Sequences {
  /** Every element of `xs` occurs once. */
  ghost predicate Distinct<T>(xs: seq<T>) {
    forall i, j {:trigger Apart(xs, i, j)} :: 0 <= i < j < |xs| ==> Apart(xs, i, j)
  }

  /** Elements `i` and `j` of `xs` differ. */
  ghost predicate Apart<T>(xs: seq<T>, i: nat, j: nat)
    requires i < |xs| && j < |xs|
  {
    xs[i] != xs[j]
  }

  /** Two duplicate-free sequences with no element in common concatenate
      to a duplicate-free one. */
  lemma {:induction false} DistinctAppend<T>(a: seq<T>, b: seq<T>)
    requires Distinct(a) && Distinct(b)
    requires forall x :: x in b ==> x !in a
    ensures Distinct(a + b)
  {
    forall i, j | 0 <= i < j < |a + b|
      ensures Apart(a + b, i, j)
    {
      if j < |a| {
        assert Apart(a, i, j);
      } else if |a| <= i {
        assert Apart(b, i - |a|, j - |a|);
      } else {
        assert (a + b)[j] in b;
      }
    }
  }

  /** The parts of a duplicate-free sequence are duplicate-free and have
      no element in common. */
  lemma DistinctSplit<T>(a: seq<T>, b: seq<T>)
    requires Distinct(a + b)
    ensures Distinct(a) && Distinct(b)
    ensures forall x :: x in a ==> x !in b
  {
    forall i, j | 0 <= i < j < |a| ensures Apart(a, i, j) {
      assert Apart(a + b, i, j);
    }
    forall i, j | 0 <= i < j < |b| ensures Apart(b, i, j) {
      assert Apart(a + b, |a| + i, |a| + j);
    }
    forall i, j | 0 <= i < |a| && 0 <= j < |b| ensures a[i] != b[j] {
      assert Apart(a + b, i, |a| + j);
    }
  }

  /** The elements of `xs`, as a set. */
  ghost function Elems(xs: seq<string>): set<string> {
    set x | x in xs
  }

  lemma ElemsOf(xs: seq<string>)
    ensures forall x :: x in Elems(xs) <==> x in xs
  {
  }

  lemma ElemsSnoc(xs: seq<string>, x: string)
    ensures Elems(xs + [x]) == Elems(xs) + {x}
  {
  }

  lemma ElemsAppend(a: seq<string>, b: seq<string>)
    ensures Elems(a + b) == Elems(a) + Elems(b)
  {
  }

  lemma ElemsGrow(a: seq<string>, b: seq<string>)
    ensures Elems(a) <= Elems(a + b)
  {
  }

  lemma AppendAssociative<T>(a: seq<T>, b: seq<T>, c: seq<T>)
    ensures (a + b) + c == a + (b + c)
  {
  }
}
