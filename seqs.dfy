/** Ruby's `Array#uniq` on lists of tags: the first occurrence of every element, in order. */
module Seqs {

  predicate Distinct(r: seq<string>) {
    forall i, j :: 0 <= i < j < |r| ==> r[i] != r[j]
  }

  /** The position of the first occurrence of `x`. */
  function FirstIndex(xs: seq<string>, x: string): (k: nat)
    requires x in xs
    ensures k < |xs| && xs[k] == x && x !in xs[..k]
  {
    if xs[0] == x then 0 else 1 + FirstIndex(xs[1..], x)
  }

  function Uniq(xs: seq<string>): (r: seq<string>)
    ensures forall x :: x in r <==> x in xs
    ensures Distinct(r)
    decreases |xs|
  {
    if |xs| == 0 then []
    else
      var u := Uniq(xs[..|xs| - 1]);
      if xs[|xs| - 1] in u then u else u + [xs[|xs| - 1]]
  }

  lemma FirstIndexOfPrefix(xs: seq<string>, n: nat, x: string)
    requires n <= |xs| && x in xs[..n]
    ensures FirstIndex(xs, x) == FirstIndex(xs[..n], x)
  {
    var k := FirstIndex(xs[..n], x);
    assert xs[..n][..k] == xs[..k];
    FirstIndexUnique(xs, x, k);
  }

  lemma FirstIndexUnique(xs: seq<string>, x: string, k: nat)
    requires k < |xs| && xs[k] == x && x !in xs[..k]
    ensures FirstIndex(xs, x) == k
  {
  }

  /** Uniq keeps the elements in the order of their first occurrences. */
  lemma {:induction false} UniqOrder(xs: seq<string>)
    ensures forall i, j :: 0 <= i < j < |Uniq(xs)| ==> FirstIndex(xs, Uniq(xs)[i]) < FirstIndex(xs, Uniq(xs)[j])
    decreases |xs|
  {
    if |xs| > 0 {
      var n := |xs| - 1;
      var init := xs[..n];
      var u := Uniq(init);
      var r := Uniq(xs);
      UniqOrder(init);
      forall i, j | 0 <= i < j < |r| ensures FirstIndex(xs, r[i]) < FirstIndex(xs, r[j]) {
        assert r[i] == u[i];
        FirstIndexOfPrefix(xs, n, r[i]);
        if j < |u| {
          assert r[j] == u[j];
          FirstIndexOfPrefix(xs, n, r[j]);
        } else {
          assert r[j] == xs[n] && xs[n] !in init;
          assert xs[..n] == init;
          FirstIndexUnique(xs, xs[n], n);
        }
      }
    }
  }

  /** A sequence without repetitions is its own Uniq. */
  lemma {:induction false} UniqDistinct(xs: seq<string>)
    requires Distinct(xs)
    ensures Uniq(xs) == xs
    decreases |xs|
  {
    if |xs| > 0 {
      var n := |xs| - 1;
      assert Distinct(xs[..n]);
      UniqDistinct(xs[..n]);
      assert xs[n] !in xs[..n];
      assert xs[..n] + [xs[n]] == xs;
    }
  }
}
