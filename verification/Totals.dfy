/** Sums of cent amounts over a set of names, whatever the order in which they are added up. */
module Totals {

  /** The sum of `f` over a set. */
  ghost function SumOver(names: set<string>, f: string -> int): int
    decreases |names|
  {
    if names == {} then 0
    else
      var x :| x in names;
      f(x) + SumOver(names - {x}, f)
  }

  lemma NotEmpty(names: set<string>)
    requires names != {}
    ensures exists x :: x in names
  {
    assert (forall x :: x !in names) ==> names == {};
  }

  lemma {:induction false} SumWithout(names: set<string>, f: string -> int, x: string)
    requires x in names
    ensures SumOver(names, f) == f(x) + SumOver(names - {x}, f)
    decreases |names|
  {
    var y :| y in names && SumOver(names, f) == f(y) + SumOver(names - {y}, f);
    if y != x {
      SumWithout(names - {y}, f, x);
      SumWithout(names - {x}, f, y);
      assert names - {y} - {x} == names - {x} - {y};
    }
  }

  lemma SumOfOneMore(names: set<string>, f: string -> int, x: string)
    requires x !in names
    ensures SumOver(names + {x}, f) == SumOver(names, f) + f(x)
  {
    SumWithout(names + {x}, f, x);
    assert names + {x} - {x} == names;
  }

  lemma {:induction false} SumsAgree(names: set<string>, f: string -> int, g: string -> int)
    requires forall x :: x in names ==> f(x) == g(x)
    ensures SumOver(names, f) == SumOver(names, g)
    decreases |names|
  {
    if names == {} {
    } else {
      var x :| x in names;
      SumWithout(names, f, x);
      SumWithout(names, g, x);
      SumsAgree(names - {x}, f, g);
    }
  }

  /** Names that contribute nothing do not matter. */
  lemma {:induction false} SumIgnoresZeros(few: set<string>, many: set<string>, f: string -> int)
    requires few <= many && forall x :: x in many - few ==> f(x) == 0
    ensures SumOver(few, f) == SumOver(many, f)
    decreases |many|
  {
    if few == many {
    } else {
      var x :| x in many && x !in few;
      SumWithout(many, f, x);
      SumIgnoresZeros(few, many - {x}, f);
    }
  }

  lemma SameSupport(a: set<string>, b: set<string>, f: string -> int, g: string -> int)
    requires forall x :: f(x) == g(x)
    requires forall x :: x !in a || x !in b ==> f(x) == 0
    ensures SumOver(a, f) == SumOver(b, g)
  {
    SumIgnoresZeros(a, a + b, f);
    SumIgnoresZeros(b, a + b, f);
    SumsAgree(b, f, g);
  }

  /** One name takes a value more. */
  lemma SumOfOneChange(names: set<string>, f: string -> int, g: string -> int, x: string, v: int)
    requires x in names && g(x) == f(x) + v && forall y :: y in names && y != x ==> g(y) == f(y)
    ensures SumOver(names, g) == SumOver(names, f) + v
  {
    SumWithout(names, f, x);
    SumWithout(names, g, x);
    SumsAgree(names - {x}, f, g);
  }

  function SumSeq(xs: seq<int>): int {
    if xs == [] then 0 else SumSeq(xs[..|xs| - 1]) + xs[|xs| - 1]
  }

  lemma {:induction false} SumSeqOfZeros(xs: seq<int>)
    requires forall i :: 0 <= i < |xs| ==> xs[i] == 0
    ensures SumSeq(xs) == 0
  {
    if xs == [] {
    } else {
      SumSeqOfZeros(xs[..|xs| - 1]);
    }
  }

  lemma {:induction false} SumSeqOfUpdate(xs: seq<int>, i: nat, v: int)
    requires i < |xs|
    ensures SumSeq(xs[i := xs[i] + v]) == SumSeq(xs) + v
  {
    var n := |xs| - 1;
    if i == n {
      assert xs[i := xs[i] + v][..n] == xs[..n];
    } else {
      assert xs[i := xs[i] + v][..n] == xs[..n][i := xs[i] + v];
      SumSeqOfUpdate(xs[..n], i, v);
    }
  }
}
