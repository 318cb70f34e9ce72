/** Small helpers shared by every part of the model. */
module Common {

  /** A value that may be absent: JavaScript's `null` / `undefined`. */
  datatype Option<T> = None | Some(value: T)

  /** A colour of the VGA palette, or of an image pixel: red, green and blue. */
  datatype Rgb = Rgb(r: int, g: int, b: int)

  function Abs(x: real): real
  {
    if x < 0.0 then -x else x
  }

  function Min(a: real, b: real): real
  {
    if a <= b then a else b
  }

  function Max(a: real, b: real): real
  {
    if a >= b then a else b
  }

  /** No element occurs twice. */
  predicate Distinct<T(==)>(s: seq<T>)
  {
    forall i, j :: 0 <= i < j < |s| ==> s[i] != s[j]
  }

  /** The elements of `xs` whose flag (the same position of `flags`) is set, in their order. */
  function Keep<T>(xs: seq<T>, flags: seq<bool>): (r: seq<T>)
    requires |flags| == |xs|
    ensures |r| <= |xs|
  {
    if xs == [] then []
    else
      var n := |xs| - 1;
      Keep(xs[..n], flags[..n]) + (if flags[n] then [xs[n]] else [])
  }

  /** Every flagged element is kept. */
  lemma {:induction false} KeepKeepsFlagged<T>(xs: seq<T>, flags: seq<bool>)
    requires |flags| == |xs|
    ensures forall j :: 0 <= j < |xs| && flags[j] ==> xs[j] in Keep(xs, flags)
  {
    if xs != [] {
      var n := |xs| - 1;
      KeepKeepsFlagged(xs[..n], flags[..n]);
      forall j | 0 <= j < |xs| && flags[j]
        ensures xs[j] in Keep(xs, flags)
      {
        if j < n {
          assert xs[..n][j] == xs[j] && flags[..n][j] == flags[j];
        }
      }
    }
  }

  /** Every kept element is a flagged element. */
  lemma {:induction false} KeptAreFlagged<T>(xs: seq<T>, flags: seq<bool>)
    requires |flags| == |xs|
    ensures forall x :: x in Keep(xs, flags) ==> exists j :: 0 <= j < |xs| && xs[j] == x && flags[j]
  {
    if xs != [] {
      var n := |xs| - 1;
      KeptAreFlagged(xs[..n], flags[..n]);
      forall x | x in Keep(xs, flags)
        ensures exists j :: 0 <= j < |xs| && xs[j] == x && flags[j]
      {
        if x in Keep(xs[..n], flags[..n]) {
          var j :| 0 <= j < n && xs[..n][j] == x && flags[..n][j];
          assert xs[j] == x && flags[j];
        } else {
          assert xs[n] == x && flags[n];
        }
      }
    }
  }

  /**
   * One pass of a loop that walks `xs` and splices out what it does not
   * keep: the elements before position `i` of the list are the kept ones
   * among the first `k` of `xs`, and the rest are the ones not yet visited.
   * Splicing out the k-th exactly when its flag is clear keeps this so for
   * `k + 1`.
   */
  lemma {:induction false} KeepSplice<T>(before: seq<T>, after: seq<T>, i: int, removed: bool,
                                         xs: seq<T>, flags: seq<bool>, k: int)
    requires |flags| == k + 1 && 0 <= k < |xs| && 0 <= i < |before|
    requires before[..i] == Keep(xs[..k], flags[..k]) && before[i..] == xs[k..]
    requires removed == !flags[k]
    requires after == if removed then before[..i] + before[i + 1..] else before
    ensures var j := if removed then i else i + 1;
            j <= |after| && after[..j] == Keep(xs[..k + 1], flags) && after[j..] == xs[k + 1..]
  {
    assert xs[..k + 1][..k] == xs[..k];
    assert before[i] == xs[k];
    if removed {
      assert after[..i] == before[..i];
      assert after[i..] == before[i + 1..];
    } else {
      assert after[..i + 1] == before[..i] + [before[i]];
    }
  }

  /** Keeping some elements of a list without repetitions gives a list without repetitions. */
  lemma {:induction false} KeepDistinct<T>(xs: seq<T>, flags: seq<bool>)
    requires |flags| == |xs| && Distinct(xs)
    ensures Distinct(Keep(xs, flags))
  {
    if xs != [] {
      var n := |xs| - 1;
      assert Distinct(xs[..n]);
      KeepDistinct(xs[..n], flags[..n]);
      KeptAreFlagged(xs[..n], flags[..n]);
      assert xs[n] !in Keep(xs[..n], flags[..n]);
    }
  }
}
