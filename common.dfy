/**
 * Shared vocabulary of the controllers: an Option type, the first-match search
 * that stands for the ODM's `findOne`/`findById`, the filter that stands for
 * `find`/`deleteMany`, and the "keys are distinct" invariant of a collection.
 *
 * A collection is a sequence of documents in natural (insertion) order; a
 * query that returns one document returns the first one that matches.
 */
module Common {

  datatype Option<+T> = None | Some(value: T)

  /** JavaScript's `a || b` on two strings: the empty string is the only falsy string. */
  function Or(a: string, b: string): (r: string)
    ensures r == a || r == b
    ensures r == "" <==> a == "" && b == ""
    ensures a != "" ==> r == a
  {
    if a != "" then a else b
  }

  /** Index of the first element of `s` that satisfies `p` (the ODM's `findOne`). */
  function FirstIndex<T>(s: seq<T>, p: T -> bool): (r: Option<nat>)
    ensures r.None? <==> forall i :: 0 <= i < |s| ==> !p(s[i])
    ensures r.Some? ==> r.value < |s| && p(s[r.value])
    ensures r.Some? ==> forall j :: 0 <= j < r.value ==> !p(s[j])
  {
    if s == [] then None
    else if p(s[0]) then Some(0)
    else match FirstIndex(s[1..], p)
      case None => None
      case Some(k) => Some(k + 1)
  }

  /** The first match is at `i` when `s[i]` matches and nothing before it does. */
  lemma FirstIndexAt<T>(s: seq<T>, p: T -> bool, i: nat)
    requires i < |s| && p(s[i])
    requires forall j :: 0 <= j < i ==> !p(s[j])
    ensures FirstIndex(s, p) == Some(i)
  {
  }

  /**
   * The elements of `s` that satisfy `keep`, in their original order (the
   * ODM's `find`): each one as many times as `s` holds it, and no other.
   */
  function Filter<T(!new)>(s: seq<T>, keep: T -> bool): (r: seq<T>)
    ensures |r| <= |s|
    ensures forall x :: x in r <==> x in s && keep(x)
    ensures forall x :: multiset(r)[x] == if keep(x) then multiset(s)[x] else 0
  {
    if s == [] then []
    else
      assert s == [s[0]] + s[1..];
      (if keep(s[0]) then [s[0]] else []) + Filter(s[1..], keep)
  }

  /** `s` without its element at index `i`. */
  function RemoveAt<T>(s: seq<T>, i: nat): (r: seq<T>)
    requires i < |s|
    ensures |r| == |s| - 1
    ensures forall j :: 0 <= j < i ==> r[j] == s[j]
    ensures forall j :: i <= j < |r| ==> r[j] == s[j + 1]
  {
    s[..i] + s[i + 1..]
  }

  /** No two elements of `s` share a key. */
  ghost predicate Distinct<T, K>(s: seq<T>, key: T -> K)
  {
    forall i, j :: 0 <= i < |s| && 0 <= j < |s| && i != j ==> key(s[i]) != key(s[j])
  }

  /**
   * Removing the element at `i` from a collection with distinct keys removes
   * exactly the elements whose key is that element's key, and nothing else.
   */
  lemma RemoveAtDistinct<T(!new), K>(s: seq<T>, i: nat, key: T -> K)
    requires i < |s| && Distinct(s, key)
    ensures forall x :: x in RemoveAt(s, i) <==> x in s && key(x) != key(s[i])
    ensures Distinct(RemoveAt(s, i), key)
  {
    var r := RemoveAt(s, i);
    forall x
      ensures x in r <==> x in s && key(x) != key(s[i])
    {
      if x in r {
        var j :| 0 <= j < |r| && r[j] == x;
        if j < i {
          assert s[j] == x;
        } else {
          assert s[j + 1] == x;
        }
      }
      if x in s && key(x) != key(s[i]) {
        var j :| 0 <= j < |s| && s[j] == x;
        assert j != i;
        if j < i {
          assert r[j] == x;
        } else {
          assert r[j - 1] == x;
        }
      }
    }
    forall a, b | 0 <= a < |r| && 0 <= b < |r| && a != b
      ensures key(r[a]) != key(r[b])
    {
      var a' := if a < i then a else a + 1;
      var b' := if b < i then b else b + 1;
      assert r[a] == s[a'] && r[b] == s[b'];
    }
  }

  /** Replacing one element by one with the same key keeps the keys distinct. */
  lemma UpdateDistinct<T, K>(s: seq<T>, i: nat, x: T, key: T -> K)
    requires i < |s| && Distinct(s, key) && key(x) == key(s[i])
    ensures Distinct(s[i := x], key)
  {
    var r := s[i := x];
    forall a, b | 0 <= a < |r| && 0 <= b < |r| && a != b
      ensures key(r[a]) != key(r[b])
    {
      assert key(r[a]) == key(s[a]) && key(r[b]) == key(s[b]);
    }
  }

  /** Appending an element whose key is new keeps the keys distinct. */
  lemma AppendDistinct<T, K>(s: seq<T>, x: T, key: T -> K)
    requires Distinct(s, key)
    requires forall i :: 0 <= i < |s| ==> key(s[i]) != key(x)
    ensures Distinct(s + [x], key)
  {
    var r := s + [x];
    forall a, b | 0 <= a < |r| && 0 <= b < |r| && a != b
      ensures key(r[a]) != key(r[b])
    {
      if a < |s| && b < |s| {
        assert r[a] == s[a] && r[b] == s[b];
      }
    }
  }

  /** Dropping the first element keeps the keys distinct. */
  lemma TailDistinct<T, K>(s: seq<T>, key: T -> K)
    requires s != [] && Distinct(s, key)
    ensures Distinct(s[1..], key)
  {
    var tail := s[1..];
    forall a, b | 0 <= a < |tail| && 0 <= b < |tail| && a != b
      ensures key(tail[a]) != key(tail[b])
    {
      assert tail[a] == s[a + 1] && tail[b] == s[b + 1];
    }
  }

  /** Putting in front an element whose key is new keeps the keys distinct. */
  lemma ConsDistinct<T, K>(x: T, f: seq<T>, key: T -> K)
    requires Distinct(f, key) && forall y :: y in f ==> key(y) != key(x)
    ensures Distinct([x] + f, key)
  {
    var r := [x] + f;
    forall a, b | 0 <= a < |r| && 0 <= b < |r| && a != b
      ensures key(r[a]) != key(r[b])
    {
      if a == 0 {
        assert r[b] == f[b - 1];
      } else if b == 0 {
        assert r[a] == f[a - 1];
      } else {
        assert r[a] == f[a - 1] && r[b] == f[b - 1];
      }
    }
  }

  /** A filtered collection keeps distinct keys distinct. */
  lemma {:induction false} FilterDistinct<T(!new), K>(s: seq<T>, keep: T -> bool, key: T -> K)
    requires Distinct(s, key)
    ensures Distinct(Filter(s, keep), key)
  {
    if s != [] {
      var tail := s[1..];
      TailDistinct(s, key);
      FilterDistinct(tail, keep, key);
      var f := Filter(tail, keep);
      if keep(s[0]) {
        forall y | y in f
          ensures key(y) != key(s[0])
        {
          var j :| 0 <= j < |tail| && tail[j] == y;
          assert s[j + 1] == y;
        }
        ConsDistinct(s[0], f, key);
        assert Filter(s, keep) == [s[0]] + f;
      } else {
        assert Filter(s, keep) == f;
      }
    }
  }
}
