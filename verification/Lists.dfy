/** Taking elements out of a list by value, as a linked list's remove does. */
module Lists {

  function Without<T(==)>(s: seq<T>, x: T): (r: seq<T>)
    decreases |s|
  {
    if s == [] then [] else
      Without(s[..|s| - 1], x) + if s[|s| - 1] == x then [] else [s[|s| - 1]]
  }

  ghost predicate Distinct<T>(s: seq<T>) { forall i, j :: 0 <= i < j < |s| ==> s[i] != s[j] }

  ghost predicate Apart<T>(a: seq<T>, b: seq<T>) { forall i, j :: 0 <= i < |a| && 0 <= j < |b| ==> a[i] != b[j] }

  lemma {:induction false} WithoutNone<T>(s: seq<T>, x: T)
    requires forall i :: 0 <= i < |s| ==> s[i] != x
    ensures Without(s, x) == s
    decreases |s|
  {
    if s != [] {
      WithoutNone(s[..|s| - 1], x);
    }
  }

  /** In a list without repetitions, removing an element leaves what is before and what is behind it. */
  lemma {:induction false} WithoutOne<T>(s: seq<T>, i: nat)
    requires Distinct(s) && i < |s|
    ensures Without(s, s[i]) == s[..i] + s[i + 1..]
    decreases |s|
  {
    var k := |s| - 1;
    var front := s[..k];
    if i == k {
      WithoutNone(front, s[k]);
      assert s[k + 1..] == [];
    } else {
      assert Distinct(front);
      WithoutOne(front, i);
      assert front[..i] == s[..i];
      assert front[i + 1..] + [s[k]] == s[i + 1..];
      assert front[..i] + front[i + 1..] + [s[k]] == front[..i] + (front[i + 1..] + [s[k]]);
    }
  }

  function WithoutAll<T(==)>(s: seq<T>, xs: seq<T>): seq<T>
    decreases |xs|
  {
    if xs == [] then s else WithoutAll(Without(s, xs[0]), xs[1..])
  }

  lemma WithoutSnoc<T>(s: seq<T>, x: T, y: T)
    ensures Without(s + [x], y) == Without(s, y) + if x == y then [] else [x]
  {
    assert (s + [x])[..|s|] == s;
  }

  /** An element that is not taken out stays behind the others. */
  lemma {:induction false} WithoutAllKeeps<T>(s: seq<T>, x: T, xs: seq<T>)
    requires Apart([x], xs)
    ensures WithoutAll(s + [x], xs) == WithoutAll(s, xs) + [x]
    decreases |xs|
  {
    if xs != [] {
      assert [x][0] != xs[0];
      assert Apart([x], xs[1..]);
      WithoutSnoc(s, x, xs[0]);
      WithoutAllKeeps(Without(s, xs[0]), x, xs[1..]);
    }
  }

  lemma {:induction false} WithoutAllSnoc<T>(s: seq<T>, xs: seq<T>, x: T)
    ensures WithoutAll(s, xs + [x]) == Without(WithoutAll(s, xs), x)
    decreases |xs|
  {
    if xs == [] {
      assert [x][1..] == [];
    } else {
      assert (xs + [x])[1..] == xs[1..] + [x];
      WithoutAllSnoc(Without(s, xs[0]), xs[1..], x);
    }
  }

  /** Adding an element and taking it out again leaves what there was. */
  lemma WithoutAllTakes<T>(s: seq<T>, xs: seq<T>, x: T)
    requires Apart([x], xs) && Apart([x], WithoutAll(s, xs))
    ensures WithoutAll(s + [x], xs + [x]) == WithoutAll(s, xs)
  {
    WithoutAllSnoc(s + [x], xs, x);
    WithoutAllKeeps(s, x, xs);
    var rest := WithoutAll(s, xs);
    WithoutSnoc(rest, x, x);
    assert [x][0] == x;
    WithoutNone(rest, x);
    assert rest + [] == rest;
  }
}
