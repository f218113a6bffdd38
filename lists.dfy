// `array.filter` as the admin lists use it to drop a deleted row.

module Lists {

  /** `a` is `b` with some elements left out and the rest in their order. */
  predicate IsSubsequence<T(==)>(a: seq<T>, b: seq<T>)
    decreases |b|
  {
    a == [] || (b != [] && if a[0] == b[0] then IsSubsequence(a[1..], b[1..]) else IsSubsequence(a, b[1..]))
  }

  /** `xs.filter(x => key(x) !== k)`: the rows whose key differs, in order. */
  function RemoveKey<T>(xs: seq<T>, key: T -> string, k: string): (r: seq<T>)
    ensures |r| <= |xs|
    ensures forall i :: 0 <= i < |r| ==> key(r[i]) != k
    ensures forall i :: 0 <= i < |r| ==> r[i] in xs
    ensures forall i :: 0 <= i < |xs| && key(xs[i]) != k ==> xs[i] in r
    decreases |xs|
  {
    if xs == [] then []
    else
      var rest := RemoveKey(xs[..|xs| - 1], key, k);
      var last := xs[|xs| - 1];
      assert forall i :: 0 <= i < |xs| - 1 ==> xs[i] == xs[..|xs| - 1][i];
      if key(last) == k then rest else rest + [last]
  }

  /** Removing a key no row has changes nothing. */
  lemma {:induction false} RemoveAbsentKey<T>(xs: seq<T>, key: T -> string, k: string)
    requires forall i :: 0 <= i < |xs| ==> key(xs[i]) != k
    ensures RemoveKey(xs, key, k) == xs
    decreases |xs|
  {
    if xs != [] {
      RemoveAbsentKey(xs[..|xs| - 1], key, k);
      assert xs[..|xs| - 1] + [xs[|xs| - 1]] == xs;
    }
  }

  /** With distinct keys, exactly the one row goes. */
  lemma {:induction false} RemoveUniqueKey<T>(xs: seq<T>, key: T -> string, i: nat)
    requires i < |xs|
    requires forall a, b :: 0 <= a < b < |xs| ==> key(xs[a]) != key(xs[b])
    ensures RemoveKey(xs, key, key(xs[i])) == xs[..i] + xs[i + 1..]
    decreases |xs|
  {
    var n := |xs| - 1;
    var k := key(xs[i]);
    if i == n {
      RemoveAbsentKey(xs[..n], key, k);
    } else {
      RemoveUniqueKey(xs[..n], key, i);
      assert xs[..n][..i] == xs[..i];
      assert xs[..n][i + 1..] + [xs[n]] == xs[i + 1..];
    }
  }
}
