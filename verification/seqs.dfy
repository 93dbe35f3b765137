/** Sequence helpers shared by the other modules. */
module Seqs {

  function Flatten<T>(ss: seq<seq<T>>): seq<T>
  {
    if ss == [] then [] else ss[0] + Flatten(ss[1..])
  }

  lemma FlattenCons<T>(x: seq<T>, rest: seq<seq<T>>)
    ensures Flatten([x] + rest) == x + Flatten(rest)
  {
    assert ([x] + rest)[1..] == rest;
  }

  /** Cutting a concatenation inside its left part. */
  lemma CutAppend<T>(a: seq<T>, b: seq<T>, n: nat)
    requires n <= |a|
    ensures (a + b)[..n] == a[..n]
    ensures (a + b)[n..] == a[n..] + b
  {
  }

  lemma {:induction false} FlattenAppend<T>(a: seq<seq<T>>, b: seq<seq<T>>)
    ensures Flatten(a + b) == Flatten(a) + Flatten(b)
  {
    if a == [] {
      assert a + b == b;
    } else {
      assert (a + b)[1..] == a[1..] + b;
      FlattenAppend(a[1..], b);
    }
  }

  /** Sum of a sequence of naturals, adding the last element last. */
  function Sum(xs: seq<nat>): nat
  {
    if xs == [] then 0 else Sum(xs[..|xs| - 1]) + xs[|xs| - 1]
  }

  lemma SumStep(xs: seq<nat>, k: nat)
    requires k < |xs|
    ensures Sum(xs[..k + 1]) == Sum(xs[..k]) + xs[k]
  {
    assert xs[..k + 1][..k] == xs[..k];
  }

  /** The length of each element. */
  function Lengths<T>(ss: seq<seq<T>>): (ls: seq<nat>)
    ensures |ls| == |ss|
    ensures forall k :: 0 <= k < |ss| ==> ls[k] == |ss[k]|
  {
    seq(|ss|, k requires 0 <= k < |ss| => |ss[k]|)
  }

  /** Flattening keeps every element, so the length is the sum of lengths. */
  lemma {:induction false} FlattenLength<T>(ss: seq<seq<T>>)
    ensures |Flatten(ss)| == Sum(Lengths(ss))
    decreases |ss|
  {
    if ss != [] {
      var init := ss[..|ss| - 1];
      assert ss == init + [ss[|ss| - 1]];
      FlattenAppend(init, [ss[|ss| - 1]]);
      assert Flatten([ss[|ss| - 1]]) == ss[|ss| - 1] + Flatten([ss[|ss| - 1]][1..]);
      FlattenLength(init);
      assert Lengths(ss)[..|ss| - 1] == Lengths(init);
    }
  }

  /** Element `k` of `ss` sits in the flattening between the summed lengths
      of the elements before it and those up to it. */
  lemma FlattenSlice<T>(ss: seq<seq<T>>, k: nat)
    requires k < |ss|
    ensures Sum(Lengths(ss)[..k]) + |ss[k]| <= |Flatten(ss)|
    ensures Flatten(ss)[Sum(Lengths(ss)[..k])..Sum(Lengths(ss)[..k]) + |ss[k]|] == ss[k]
  {
    assert ss == ss[..k] + ([ss[k]] + ss[k + 1..]);
    FlattenAppend(ss[..k], [ss[k]] + ss[k + 1..]);
    FlattenAppend([ss[k]], ss[k + 1..]);
    assert Flatten([ss[k]]) == ss[k] + Flatten([ss[k]][1..]);
    FlattenLength(ss[..k]);
    assert Lengths(ss)[..k] == Lengths(ss[..k]);
  }
}
