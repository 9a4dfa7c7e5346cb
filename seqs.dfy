/** The list operations the address book relies on: filtering, finding the
    first hit, and Python's `list.remove`. */
module Seqs {
  import opened Options

  /** The elements of `xs` that satisfy `keep`, in their original order
      (the loop that appends every kept element to a fresh list). */
  function Filter<T(!new)>(xs: seq<T>, keep: T -> bool): (r: seq<T>)
    ensures |r| <= |xs|
    ensures forall x :: x in r <==> x in xs && keep(x)
    decreases |xs|
  {
    if xs == [] then []
    else
      var init, last := xs[..|xs| - 1], xs[|xs| - 1];
      assert xs == init + [last];
      Filter(init, keep) + (if keep(last) then [last] else [])
  }

  /** A single element is kept exactly when it passes the test. */
  lemma FilterSingleton<T(!new)>(x: T, keep: T -> bool)
    ensures Filter([x], keep) == if keep(x) then [x] else []
  {
    assert [x][..0] == [];
  }

  /** One more element of a scan: the kept prefix grows by that element
      exactly when it passes the test. */
  lemma FilterStep<T(!new)>(xs: seq<T>, i: nat, keep: T -> bool)
    requires i < |xs|
    ensures Filter(xs[..i + 1], keep) == Filter(xs[..i], keep) + if keep(xs[i]) then [xs[i]] else []
  {
    assert xs[..i + 1][..i] == xs[..i];
  }

  /** Filtering commutes with concatenation: the kept elements of the front
      come before the kept elements of the back, so order is preserved. */
  lemma {:induction false} FilterAppend<T(!new)>(xs: seq<T>, ys: seq<T>, keep: T -> bool)
    ensures Filter(xs + ys, keep) == Filter(xs, keep) + Filter(ys, keep)
    decreases |ys|
  {
    if ys == [] {
      assert xs + ys == xs;
    } else {
      var init, last := ys[..|ys| - 1], ys[|ys| - 1];
      assert (xs + ys)[..|xs + ys| - 1] == xs + init;
      assert (xs + ys)[|xs + ys| - 1] == last;
      FilterAppend(xs, init, keep);
    }
  }

  /** The position of the first element of `xs` that satisfies `hit`, if any
      (a `for` loop with an early `return`). */
  function FirstIndex<T>(xs: seq<T>, hit: T -> bool): (r: Option<nat>)
    ensures r.Some? ==> r.value < |xs| && hit(xs[r.value])
    ensures r.Some? ==> forall j :: 0 <= j < r.value ==> !hit(xs[j])
    ensures r.None? <==> forall j :: 0 <= j < |xs| ==> !hit(xs[j])
  {
    if xs == [] then None
    else if hit(xs[0]) then Some(0)
    else
      match FirstIndex(xs[1..], hit)
      case None => None
      case Some(i) => Some(i + 1)
  }

  /** A hit with no hit before it is the one `FirstIndex` finds. */
  lemma FirstIndexIs<T>(xs: seq<T>, hit: T -> bool, i: nat)
    requires i < |xs| && hit(xs[i])
    requires forall j :: 0 <= j < i ==> !hit(xs[j])
    ensures FirstIndex(xs, hit) == Some(i)
  {
  }

  /** `xs` with position `i` cut out: one element shorter, the elements
      before `i` in place, the ones after it moved down by one, and exactly
      `xs[i]` taken out of the multiset. */
  function Without<T>(xs: seq<T>, i: nat): (r: seq<T>)
    requires i < |xs|
    ensures |r| == |xs| - 1
    ensures forall j :: 0 <= j < i ==> r[j] == xs[j]
    ensures forall j :: i <= j < |r| ==> r[j] == xs[j + 1]
    ensures multiset(r) + multiset{xs[i]} == multiset(xs)
  {
    assert xs == xs[..i] + [xs[i]] + xs[i + 1..];
    xs[..i] + xs[i + 1..]
  }

  /** Python's `list.remove(x)`: deletes the first element equal to `x`
      (it raises when there is none, so `x` must be present). */
  function DeleteFirst<T(==)>(xs: seq<T>, x: T): (r: seq<T>)
    requires x in xs
    ensures |r| == |xs| - 1
  {
    if xs[0] == x then xs[1..] else [xs[0]] + DeleteFirst(xs[1..], x)
  }

  /** When no element before position `i` equals `xs[i]`, removing the value
      `xs[i]` deletes exactly position `i`. */
  lemma {:induction false} DeleteFirstAt<T>(xs: seq<T>, i: nat)
    requires i < |xs|
    requires forall j :: 0 <= j < i ==> xs[j] != xs[i]
    ensures DeleteFirst(xs, xs[i]) == xs[..i] + xs[i + 1..]
  {
    if i > 0 {
      var tail := xs[1..];
      assert tail[i - 1] == xs[i];
      DeleteFirstAt(tail, i - 1);
      assert xs[..i] == [xs[0]] + tail[..i - 1];
      assert xs[i + 1..] == tail[i..];
    }
  }
}
