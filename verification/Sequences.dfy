/** Order-preserving helpers shared by the models: removal of repeats, filtering, flattening. */
module Sequences {

  datatype Option<+T> = None | Some(value: T)

  /** `have` with `x` appended unless it is already there. */
  function Append<T(==)>(have: seq<T>, x: T): seq<T> {
    if x in have then have else have + [x]
  }

  function AppendAll<T(==)>(have: seq<T>, xs: seq<T>): seq<T>
    decreases |xs|
  {
    if xs == [] then have else AppendAll(Append(have, xs[0]), xs[1..])
  }

  /** The first occurrence of every element, in order. */
  function Dedup<T(==)>(xs: seq<T>): seq<T> {
    AppendAll([], xs)
  }

  ghost predicate Distinct<T>(xs: seq<T>) {
    forall i, j :: 0 <= i < j < |xs| ==> xs[i] != xs[j]
  }

  /** Position of the first occurrence of `x`, or the length when there is none. */
  function FirstIndex<T(==)>(xs: seq<T>, x: T): (i: nat)
    ensures i <= |xs|
    ensures i < |xs| ==> xs[i] == x
    ensures forall j :: 0 <= j < i ==> xs[j] != x
    ensures x in xs <==> i < |xs|
  {
    if xs == [] then 0 else if xs[0] == x then 0 else 1 + FirstIndex(xs[1..], x)
  }

  function Flatten<T>(xss: seq<seq<T>>): seq<T> {
    if xss == [] then [] else xss[0] + Flatten(xss[1..])
  }

  lemma {:induction false} FlattenAppend<T>(a: seq<seq<T>>, b: seq<seq<T>>)
    ensures Flatten(a + b) == Flatten(a) + Flatten(b)
  {
    if a == [] {
      assert a + b == b;
    } else {
      assert (a + b)[1..] == a[1..] + b;
      FlattenAppend(a[1..], b);
    }
  }

  lemma {:induction false} AppendAllSplit<T>(have: seq<T>, a: seq<T>, b: seq<T>)
    ensures AppendAll(have, a + b) == AppendAll(AppendAll(have, a), b)
    decreases |a|
  {
    if a == [] {
      assert a + b == b;
    } else {
      assert (a + b)[1..] == a[1..] + b;
      AppendAllSplit(Append(have, a[0]), a[1..], b);
    }
  }

  lemma {:induction false} AppendAllMembers<T>(have: seq<T>, xs: seq<T>)
    ensures forall x :: x in AppendAll(have, xs) <==> x in have || x in xs
    decreases |xs|
  {
    if xs != [] {
      AppendAllMembers(Append(have, xs[0]), xs[1..]);
    }
  }

  /** Removing repeats keeps the set of elements, leaves no repeat and only extends what it starts from. */
  lemma {:induction false} AppendAllMeaning<T>(have: seq<T>, xs: seq<T>)
    requires Distinct(have)
    ensures Distinct(AppendAll(have, xs))
    ensures have <= AppendAll(have, xs)
    ensures forall x :: x in AppendAll(have, xs) <==> x in have || x in xs
    decreases |xs|
  {
    if xs != [] {
      AppendAllMeaning(Append(have, xs[0]), xs[1..]);
    }
  }

  /** Appending what is already present changes nothing. */
  lemma {:induction false} AppendAllAbsorbs<T>(have: seq<T>, xs: seq<T>)
    requires forall x :: x in xs ==> x in have
    ensures AppendAll(have, xs) == have
    decreases |xs|
  {
    if xs != [] {
      assert xs[0] in have;
      AppendAllAbsorbs(have, xs[1..]);
    }
  }

  /** A sequence without repeats is left as it is. */
  lemma {:induction false} AppendAllDistinct<T>(have: seq<T>, xs: seq<T>)
    requires Distinct(have + xs)
    ensures AppendAll(have, xs) == have + xs
    decreases |xs|
  {
    if xs != [] {
      assert (have + xs)[|have|] == xs[0];
      assert forall i :: 0 <= i < |have| ==> (have + xs)[i] == have[i];
      assert xs[0] !in have;
      assert have + xs == have + [xs[0]] + xs[1..];
      AppendAllDistinct(have + [xs[0]], xs[1..]);
    }
  }

  /** Elements come out in the order of their first occurrence. */
  lemma {:induction false} DedupOrder<T>(xs: seq<T>, i: nat, j: nat)
    requires i < j < |Dedup(xs)|
    ensures FirstIndex(xs, Dedup(xs)[i]) < FirstIndex(xs, Dedup(xs)[j]) < |xs|
    decreases |xs|
  {
    var init := xs[..|xs| - 1];
    var x := xs[|xs| - 1];
    assert xs == init + [x];
    AppendAllSplit([], init, [x]);
    AppendAllMeaning([], init);
    AppendAllMeaning([], xs);
    assert Dedup(xs) == Append(Dedup(init), x);
    FirstIndexSplit(init, [x], Dedup(xs)[i]);
    FirstIndexSplit(init, [x], Dedup(xs)[j]);
    if j < |Dedup(init)| {
      DedupOrder(init, i, j);
    }
  }

  lemma FirstIndexSplit<T>(a: seq<T>, b: seq<T>, x: T)
    ensures FirstIndex(a + b, x) == if x in a then FirstIndex(a, x) else |a| + FirstIndex(b, x)
  {
    if a == [] {
      assert a + b == b;
    } else {
      assert (a + b)[1..] == a[1..] + b;
    }
  }

  /** The elements of `xs` that occur in `ys`, in the order of `xs`. */
  function Keep<T(==)>(xs: seq<T>, ys: seq<T>): seq<T> {
    if xs == [] then []
    else if xs[0] in ys then [xs[0]] + Keep(xs[1..], ys)
    else Keep(xs[1..], ys)
  }

  lemma {:induction false} KeepMeaning<T>(xs: seq<T>, ys: seq<T>)
    ensures Distinct(xs) ==> Distinct(Keep(xs, ys))
    ensures forall x :: x in Keep(xs, ys) <==> x in xs && x in ys
    ensures forall k :: 0 <= k < |Keep(xs, ys)| ==> Keep(xs, ys)[k] in xs
    decreases |xs|
  {
    if xs != [] { KeepMeaning(xs[1..], ys); }
  }

  lemma {:induction false} KeepOrder<T>(xs: seq<T>, ys: seq<T>, i: nat, j: nat)
    requires Distinct(xs)
    requires i < j < |Keep(xs, ys)|
    ensures FirstIndex(xs, Keep(xs, ys)[i]) < FirstIndex(xs, Keep(xs, ys)[j])
    decreases |xs|
  {
    var rest := Keep(xs[1..], ys);
    if xs[0] in ys {
      assert Keep(xs, ys)[j] == rest[j - 1];
      KeptTail(xs, ys, j - 1);
      if i == 0 {
        assert Keep(xs, ys)[i] == xs[0] && FirstIndex(xs, xs[0]) == 0;
      } else {
        assert Keep(xs, ys)[i] == rest[i - 1];
        KeptTail(xs, ys, i - 1);
        KeepOrder(xs[1..], ys, i - 1, j - 1);
      }
    } else {
      KeptTail(xs, ys, i);
      KeptTail(xs, ys, j);
      KeepOrder(xs[1..], ys, i, j);
    }
  }

  lemma KeptTail<T>(xs: seq<T>, ys: seq<T>, i: nat)
    requires Distinct(xs) && xs != [] && i < |Keep(xs[1..], ys)|
    ensures FirstIndex(xs, Keep(xs[1..], ys)[i]) == 1 + FirstIndex(xs[1..], Keep(xs[1..], ys)[i])
  {
    KeepMeaning(xs[1..], ys);
    FirstIndexTail(xs, Keep(xs[1..], ys)[i]);
  }

  lemma FirstIndexTail<T>(xs: seq<T>, x: T)
    requires Distinct(xs) && xs != [] && x in xs[1..]
    ensures FirstIndex(xs, x) == 1 + FirstIndex(xs[1..], x)
  {
  }
}
