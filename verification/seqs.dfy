/** Sequence helpers: distinctness, the "first repeated element" scan that the
    source performs with a `HashSet` and `insert`, and flattening. */
module Seqs {
  import opened Wrappers

  /** No element occurs twice. */
  predicate Distinct<T(==)>(xs: seq<T>)
  {
    forall i, j :: 0 <= i < j < |xs| ==> xs[i] != xs[j]
  }

  /** Scanning `xs` from position `k` with the elements of `xs[..k]` already
      inserted into a set, the first element whose insertion fails. */
  function FirstRepeatFrom<T(==)>(xs: seq<T>, k: nat): (r: Option<T>)
    requires k <= |xs| && Distinct(xs[..k])
    ensures r.None? <==> Distinct(xs)
    ensures r.Some? ==> exists j :: k <= j < |xs| && xs[j] == r.value && xs[j] in xs[..j] && Distinct(xs[..j])
    decreases |xs| - k
  {
    if k == |xs| then
      assert xs[..k] == xs;
      None
    else if xs[k] in xs[..k] then
      assert !Distinct(xs) by {
        var i :| 0 <= i < k && xs[..k][i] == xs[k];
        assert xs[i] == xs[k];
      }
      Some(xs[k])
    else
      assert Distinct(xs[..k + 1]) by {
        assert xs[..k + 1] == xs[..k] + [xs[k]];
      }
      FirstRepeatFrom(xs, k + 1)
  }

  /** The element the source reports as a duplicate: the first one, in order,
      equal to an element before it; `None` when all elements are distinct. */
  function FirstRepeat<T(==)>(xs: seq<T>): (r: Option<T>)
    ensures r.None? <==> Distinct(xs)
    ensures r.Some? ==> exists j :: 0 <= j < |xs| && xs[j] == r.value && xs[j] in xs[..j] && Distinct(xs[..j])
  {
    FirstRepeatFrom(xs, 0)
  }

  /** The summed length of a sequence of sequences. */
  function TotalLength<T>(xss: seq<seq<T>>): nat
  {
    if |xss| == 0 then 0 else |xss[0]| + TotalLength(xss[1..])
  }

  /** Concatenation of a sequence of sequences, in order. */
  function Flatten<T>(xss: seq<seq<T>>): (r: seq<T>)
    ensures |r| == TotalLength(xss)
    ensures |r| == 0 <==> forall i :: 0 <= i < |xss| ==> |xss[i]| == 0
    ensures forall i, x :: 0 <= i < |xss| && x in xss[i] ==> x in r
    ensures forall x :: x in r ==> exists i :: 0 <= i < |xss| && x in xss[i]
  {
    if |xss| == 0 then [] else xss[0] + Flatten(xss[1..])
  }

  /** Flattening distributes over concatenation: the pieces of `xss` come
      first, in order, then those of `yss`. */
  lemma {:induction false} FlattenAppend<T>(xss: seq<seq<T>>, yss: seq<seq<T>>)
    ensures Flatten(xss + yss) == Flatten(xss) + Flatten(yss)
    decreases |xss|
  {
    if |xss| > 0 {
      assert (xss + yss)[1..] == xss[1..] + yss;
      FlattenAppend(xss[1..], yss);
    } else {
      assert xss + yss == yss;
    }
  }

  /** One piece flattens to itself. */
  lemma FlattenSingle<T>(xs: seq<T>)
    ensures Flatten([xs]) == xs
  {
    assert [xs][1..] == [];
  }

  /** Element j of piece i sits at the summed length of the pieces before i,
      plus j. */
  lemma FlattenIndex<T>(xss: seq<seq<T>>, i: nat, j: nat)
    requires i < |xss| && j < |xss[i]|
    ensures TotalLength(xss[..i]) + j < |Flatten(xss)|
    ensures Flatten(xss)[TotalLength(xss[..i]) + j] == xss[i][j]
  {
    assert xss == xss[..i] + xss[i..];
    FlattenAppend(xss[..i], xss[i..]);
    assert Flatten(xss[i..]) == xss[i] + Flatten(xss[i + 1..]) by {
      assert xss[i..][1..] == xss[i + 1..];
    }
  }

  /** Running a check over every element in order and stopping at the first
      failure, as a `for x in xs { check(x)?; }` loop does. */
  function FirstFailure<T, E>(xs: seq<T>, check: T -> Outcome<E>): (r: Outcome<E>)
    ensures r.Pass? <==> forall i :: 0 <= i < |xs| ==> check(xs[i]).Pass?
    ensures r.Fail? ==> exists i :: 0 <= i < |xs| && check(xs[i]) == r && forall j :: 0 <= j < i ==> check(xs[j]).Pass?
  {
    if |xs| == 0 then Pass
    else if check(xs[0]).Fail? then check(xs[0])
    else
      var rest := FirstFailure(xs[1..], check);
      assert rest.Fail? ==> exists i :: 0 <= i < |xs| && check(xs[i]) == rest && forall j :: 0 <= j < i ==> check(xs[j]).Pass? by {
        if rest.Fail? {
          var i :| 0 <= i < |xs| - 1 && check(xs[1..][i]) == rest && forall j :: 0 <= j < i ==> check(xs[1..][j]).Pass?;
          assert forall j :: 0 <= j < i + 1 ==> check(xs[j]).Pass? by {
            forall j | 0 <= j < i + 1
              ensures check(xs[j]).Pass?
            {
              if j > 0 {
                assert xs[j] == xs[1..][j - 1];
              }
            }
          }
          assert check(xs[i + 1]) == rest;
        }
      }
      rest
  }
}
