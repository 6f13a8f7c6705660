/** java.util.ArrayList.remove(Object), the removal the server applies to its
    list of names and to its list of client threads. */
module Lists {

  /** The position of the first `x` in `s`. */
  function FirstIndex<T(==)>(s: seq<T>, x: T): (i: nat)
    requires x in s
    ensures i < |s| && s[i] == x
  {
    if s[0] == x then 0 else 1 + FirstIndex(s[1..], x)
  }

  /** No `x` stands before `FirstIndex(s, x)`. */
  lemma {:induction false} FirstIndexIsFirst<T>(s: seq<T>, x: T)
    requires x in s
    ensures x !in s[..FirstIndex(s, x)]
  {
    if s[0] != x {
      assert s[1..][0] in s[1..];
      FirstIndexIsFirst(s[1..], x);
      assert s[..FirstIndex(s, x)] == [s[0]] + s[1..][..FirstIndex(s[1..], x)];
    }
  }

  /** The first `c` of `a + [c] + x` is the one after `a` when `a` holds none. */
  lemma {:induction false} FirstIndexAfter<T>(a: seq<T>, c: T, x: seq<T>)
    requires c !in a
    ensures FirstIndex(a + [c] + x, c) == |a|
  {
    if a != [] {
      assert (a + [c] + x)[1..] == a[1..] + [c] + x;
      FirstIndexAfter(a[1..], c, x);
    }
  }

  /** The list without its element at position `i`, the others keeping their
      order. */
  function RemoveAt<T>(s: seq<T>, i: nat): (r: seq<T>)
    requires i < |s|
    ensures |r| == |s| - 1
  {
    if i == 0 then s[1..] else [s[0]] + RemoveAt(s[1..], i - 1)
  }

  /** The element at `j` after removing position `i` is the one that stood at
      `j` before `i`, and at `j + 1` from `i` on. */
  lemma {:induction false} RemoveAtIndex<T>(s: seq<T>, i: nat, j: nat)
    requires i < |s| && j < |s| - 1
    ensures RemoveAt(s, i)[j] == if j < i then s[j] else s[j + 1]
  {
    if i > 0 {
      var t := RemoveAt(s[1..], i - 1);
      assert RemoveAt(s, i) == [s[0]] + t;
      if j > 0 {
        RemoveAtIndex(s[1..], i - 1, j - 1);
        assert RemoveAt(s, i)[j] == t[j - 1];
      }
    }
  }

  /** Removing position `i` is cutting the list around it. */
  lemma {:induction false} RemoveAtSlices<T>(s: seq<T>, i: nat)
    requires i < |s|
    ensures RemoveAt(s, i) == s[..i] + s[i + 1..]
  {
    forall j | 0 <= j < |s| - 1
      ensures RemoveAt(s, i)[j] == (s[..i] + s[i + 1..])[j]
    {
      RemoveAtIndex(s, i, j);
    }
  }

  /** Taking out the element at `i` takes one copy of it out of the multiset. */
  lemma {:induction false} RemoveAtMultiset<T>(s: seq<T>, i: nat)
    requires i < |s|
    ensures multiset(s) == multiset(RemoveAt(s, i)) + multiset{s[i]}
  {
    assert s == [s[0]] + s[1..];
    if i > 0 {
      var t := RemoveAt(s[1..], i - 1);
      RemoveAtMultiset(s[1..], i - 1);
      assert s[1..][i - 1] == s[i];
      assert RemoveAt(s, i) == [s[0]] + t;
      assert multiset(RemoveAt(s, i)) == multiset{s[0]} + multiset(t);
    }
  }

  /** ArrayList.remove(x): scans from the front, drops the first element
      equal to `x` and stops; the list is left as it was when there is none. */
  function RemoveFirst<T(==)>(s: seq<T>, x: T): (r: seq<T>)
    ensures x !in s ==> r == s
    ensures x in s ==> r == RemoveAt(s, FirstIndex(s, x))
  {
    if s == [] then []
    else if s[0] == x then s[1..]
    else
      var t := RemoveFirst(s[1..], x);
      assert x in s <==> x in s[1..] by { assert s == [s[0]] + s[1..]; }
      assert x !in s ==> [s[0]] + t == s;
      [s[0]] + t
  }

  /** Removing `x` takes one copy of `x` out of the multiset of elements. */
  lemma {:induction false} RemoveFirstMultiset<T>(s: seq<T>, x: T)
    ensures multiset(RemoveFirst(s, x)) == multiset(s) - multiset{x}
  {
    if x in s {
      RemoveAtMultiset(s, FirstIndex(s, x));
    } else {
      assert x !in multiset(s);
    }
  }

  /** Overwriting the element at `k` trades one copy of it for one of `v`. */
  lemma {:induction false} UpdateMultiset<T>(s: seq<T>, k: nat, v: T)
    requires k < |s|
    ensures multiset(s[k := v]) == multiset(s) - multiset{s[k]} + multiset{v}
  {
    assert s == s[..k] + [s[k]] + s[k + 1..];
    assert s[k := v] == s[..k] + [v] + s[k + 1..];
  }
}
