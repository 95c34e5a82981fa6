/** java.util.LinkedHashSet as a sequence without duplicates, in insertion
    order. */
module OrderedSet {

  predicate NoDuplicates<T(==)>(s: seq<T>) {
    forall i, j :: 0 <= i < j < |s| ==> s[i] != s[j]
  }

  /** `set.add(x)`: appends `x` unless it is already present. */
  function Add<T(==)>(s: seq<T>, x: T): seq<T> {
    if x in s then s else s + [x]
  }

  /** `set.addAll(xs)`: adds the elements of `xs` one by one, in order. */
  function AddAll<T(==)>(s: seq<T>, xs: seq<T>): seq<T>
    decreases |xs|
  {
    if xs == [] then s else AddAll(Add(s, xs[0]), xs[1..])
  }

  /** The elements of `xs` in order of first occurrence. */
  function FromSeq<T(==)>(xs: seq<T>): seq<T> {
    AddAll([], xs)
  }

  /** addAll keeps the old elements in front, adds exactly the new ones,
      and never creates a duplicate. */
  lemma {:induction false} AddAllSpec<T>(s: seq<T>, xs: seq<T>)
    requires NoDuplicates(s)
    ensures NoDuplicates(AddAll(s, xs))
    ensures |s| <= |AddAll(s, xs)| && AddAll(s, xs)[..|s|] == s
    ensures forall x :: x in AddAll(s, xs) <==> x in s || x in xs
    decreases |xs|
  {
    if xs != [] {
      var s' := Add(s, xs[0]);
      assert NoDuplicates(s');
      AddAllSpec(s', xs[1..]);
      assert AddAll(s, xs)[..|s'|][..|s|] == s;
      forall x ensures x in xs <==> x == xs[0] || x in xs[1..] {
        if x in xs {
          var k :| 0 <= k < |xs| && xs[k] == x;
          if k > 0 { assert xs[1..][k - 1] == x; }
        }
      }
    }
  }

  /** A set built from `xs` holds each element of `xs` exactly once. */
  lemma FromSeqSpec<T>(xs: seq<T>)
    ensures NoDuplicates(FromSeq(xs))
    ensures forall x :: x in FromSeq(xs) <==> x in xs
    ensures |FromSeq(xs)| <= |xs|
  {
    AddAllSpec([], xs);
    FromSeqLength(xs, []);
  }

  lemma {:induction false} FromSeqLength<T>(xs: seq<T>, s: seq<T>)
    ensures |AddAll(s, xs)| <= |s| + |xs|
    decreases |xs|
  {
    if xs != [] {
      FromSeqLength(xs[1..], Add(s, xs[0]));
    }
  }

  /** Adding the elements of a duplicate-free sequence to an empty set
      gives that sequence back. */
  lemma {:induction false} AddAllDistinct<T>(s: seq<T>, xs: seq<T>)
    requires NoDuplicates(s + xs)
    ensures AddAll(s, xs) == s + xs
    decreases |xs|
  {
    if xs != [] {
      assert xs[0] !in s by {
        assert forall k :: 0 <= k < |s| ==> (s + xs)[k] == s[k];
        assert (s + xs)[|s|] == xs[0];
      }
      assert s + xs == (s + [xs[0]]) + xs[1..];
      AddAllDistinct(s + [xs[0]], xs[1..]);
    }
  }

  /** Adding one more element to the end of the listed elements adds it
      to the set. */
  lemma {:induction false} AddAllSnoc<T>(s: seq<T>, xs: seq<T>, x: T)
    ensures AddAll(s, xs + [x]) == Add(AddAll(s, xs), x)
    decreases |xs|
  {
    if xs == [] {
      assert [x][1..] == [];
    } else {
      assert (xs + [x])[1..] == xs[1..] + [x];
      AddAllSnoc(Add(s, xs[0]), xs[1..], x);
    }
  }

  lemma FromSeqSnoc<T>(xs: seq<T>, x: T)
    ensures FromSeq(xs + [x]) == Add(FromSeq(xs), x)
  {
    AddAllSnoc([], xs, x);
  }
}
