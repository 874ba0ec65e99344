/** Orders of cards: the shuffled `list(range(n))` that places solution
    card `i` at puzzle position `order[i]`, its inverse dictionary, and the
    cyclic rotation of the entries of one piece. */
module Permutations {

  /** `order` is an arrangement of `0 .. n-1`. */
  predicate IsPermutation(order: seq<nat>, n: nat) {
    && |order| == n
    && (forall i :: 0 <= i < n ==> order[i] < n)
    && (forall i, j :: 0 <= i < j < n ==> order[i] != order[j])
  }

  /** The unshuffled order `list(range(n))`. */
  function Identity(n: nat): (r: seq<nat>)
    ensures IsPermutation(r, n)
    ensures forall i :: 0 <= i < n ==> r[i] == i
  {
    seq(n, i requires 0 <= i < n => i)
  }

  /** Distinct values below `m` number at most `m` (the pigeonhole
      principle). */
  lemma {:induction false} DistinctBound(xs: seq<nat>, m: nat)
    requires forall i :: 0 <= i < |xs| ==> xs[i] < m
    requires forall i, j :: 0 <= i < j < |xs| ==> xs[i] != xs[j]
    ensures |xs| <= m
    decreases m
  {
    if |xs| > 0 {
      assert xs[0] < m;
      // Remove the value m - 1, if present.
      var rest: seq<nat> := if m - 1 in xs then RemoveValue(xs, m - 1) else xs;
      assert forall i :: 0 <= i < |rest| ==> rest[i] in xs && rest[i] != m - 1;
      assert forall i :: 0 <= i < |rest| ==> rest[i] < m - 1 by {
        forall i | 0 <= i < |rest| ensures rest[i] < m - 1 {
          var k :| 0 <= k < |xs| && xs[k] == rest[i];
        }
      }
      DistinctBound(rest, m - 1);
    }
  }

  /** `xs` with its single occurrence of `v` removed. */
  function RemoveValue(xs: seq<nat>, v: nat): (r: seq<nat>)
    requires v in xs
    requires forall i, j :: 0 <= i < j < |xs| ==> xs[i] != xs[j]
    ensures |r| == |xs| - 1
    ensures forall i :: 0 <= i < |r| ==> r[i] in xs && r[i] != v
    ensures forall i, j :: 0 <= i < j < |r| ==> r[i] != r[j]
  {
    var k :| 0 <= k < |xs| && xs[k] == v;
    var r := xs[..k] + xs[k + 1..];
    assert forall i :: 0 <= i < |r| ==> r[i] == (if i < k then xs[i] else xs[i + 1]);
    r
  }

  /** Every position is used: a permutation reaches every value. */
  lemma PermutationOnto(order: seq<nat>, n: nat)
    requires IsPermutation(order, n)
    ensures forall v :: 0 <= v < n ==> v in order
  {
    forall v | 0 <= v < n ensures v in order {
      if v !in order {
        var others := seq(n, i requires 0 <= i < n => if order[i] < v then order[i] else order[i] - 1);
        assert forall i :: 0 <= i < n ==> others[i] < n - 1;
        assert forall i, j :: 0 <= i < j < n ==> others[i] != others[j];
        DistinctBound(others, n - 1);
      }
    }
  }

  /** `invcardorder = {j: i for (i, j) in enumerate(order)}`: the solution
      position of each puzzle position. */
  function Inverse(order: seq<nat>): map<nat, nat>
    requires forall i, j :: 0 <= i < j < |order| ==> order[i] != order[j]
  {
    map i | 0 <= i < |order| :: order[i] := i
  }

  /** The inverse is defined on every puzzle position, undoes `order` in
      both directions, and is itself a permutation. */
  lemma InverseIsInverse(order: seq<nat>, n: nat)
    requires IsPermutation(order, n)
    ensures forall v :: v in Inverse(order) <==> 0 <= v < n
    ensures forall i :: 0 <= i < n ==> Inverse(order)[order[i]] == i
    ensures forall v :: 0 <= v < n ==> Inverse(order)[v] < n && order[Inverse(order)[v]] == v
    ensures IsPermutation(seq(n, v requires 0 <= v < n => Inverse(order)[v]), n)
  {
    PermutationOnto(order, n);
    var inv := Inverse(order);
    forall v | 0 <= v < n ensures v in inv && inv[v] < n && order[inv[v]] == v {
      assert v in order;
      var i :| 0 <= i < n && order[i] == v;
      assert inv[v] == i;
    }
  }

  /** A cyclic rotation of a piece by `rot` places (`0 <= rot < |xs|`):
      entry `k` of the result is entry `k - rot` of `xs`, counted cyclically. */
  function Rotate<T>(xs: seq<T>, rot: nat): (r: seq<T>)
    requires rot < |xs|
    ensures |r| == |xs|
  {
    seq(|xs|, k requires 0 <= k < |xs| => if k >= rot then xs[k - rot] else xs[k - rot + |xs|])
  }

  /** The rotation back: entry `k` of the result is entry `k + rot` of
      `ys`, counted cyclically. */
  function Unrotate<T>(ys: seq<T>, rot: nat): (r: seq<T>)
    requires rot < |ys|
    ensures |r| == |ys|
  {
    seq(|ys|, k requires 0 <= k < |ys| => if k + rot < |ys| then ys[k + rot] else ys[k + rot - |ys|])
  }

  /** Undoing the rotation gives back the piece, in either order. */
  lemma RotateRoundTrip<T>(xs: seq<T>, rot: nat)
    requires rot < |xs|
    ensures Unrotate(Rotate(xs, rot), rot) == xs
    ensures Rotate(Unrotate(xs, rot), rot) == xs
  {
  }

  /** A rotation keeps every entry: it is a permutation of the piece. */
  lemma RotatePreservesEntries<T>(xs: seq<T>, rot: nat)
    requires rot < |xs|
    ensures multiset(Rotate(xs, rot)) == multiset(xs)
  {
    var t := |xs| - rot;
    assert Rotate(xs, rot) == xs[t..] + xs[..t];
    assert xs == xs[..t] + xs[t..];
  }
}
