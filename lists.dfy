/**
 * The two list operations the game uses on its entity lists, with Python's
 * meaning: `append`, and `remove(x)`, which deletes the first element equal to
 * `x` and raises ValueError when there is none. Entities are objects without
 * an equality of their own, so "equal" is identity.
 */
module Lists {

  /** No element occurs twice. */
  predicate Distinct<T(==)>(s: seq<T>)
  {
    forall i, j :: 0 <= i < j < |s| ==> s[i] != s[j]
  }

  /** `list.remove(x)` for an `x` that is in the list. */
  function Remove<T(==)>(s: seq<T>, x: T): (r: seq<T>)
    requires x in s
    ensures |r| == |s| - 1
    ensures forall y :: y in r ==> y in s
  {
    assert s == [s[0]] + s[1..];
    if s[0] == x then s[1..] else [s[0]] + Remove(s[1..], x)
  }

  /** `remove` takes out exactly one copy of `x`. */
  lemma {:induction false} RemoveCount<T>(s: seq<T>, x: T)
    requires x in s
    ensures multiset(s) == multiset(Remove(s, x)) + multiset{x}
  {
    assert s == [s[0]] + s[1..];
    if s[0] != x {
      RemoveCount(s[1..], x);
    }
  }

  /** Removing the first occurrence cuts the list at that occurrence. */
  lemma {:induction false} RemoveAt<T>(s: seq<T>, k: nat)
    requires k < |s| && s[k] !in s[..k]
    ensures Remove(s, s[k]) == s[..k] + s[k + 1..]
  {
    var x, t := s[k], s[1..];
    if k == 0 {
      assert s[..k] + s[k + 1..] == t;
    } else {
      assert s[..k] == [s[0]] + t[..k - 1];
      assert s[0] != x && t[k - 1] == x;
      RemoveAt(t, k - 1);
      assert t[k..] == s[k + 1..];
      calc {
        Remove(s, x);
        [s[0]] + Remove(t, x);
        [s[0]] + (t[..k - 1] + t[k..]);
        s[..k] + s[k + 1..];
      }
    }
  }

  /** The tail of a list without repeats has none. */
  lemma DistinctTail<T>(s: seq<T>)
    requires s != [] && Distinct(s)
    ensures Distinct(s[1..]) && s[0] !in s[1..]
  {
    var t := s[1..];
    forall i, j | 0 <= i < j < |t| ensures t[i] != t[j] {
      assert t[i] == s[i + 1] && t[j] == s[j + 1];
    }
    forall j | 0 <= j < |t| ensures t[j] != s[0] {
      assert t[j] == s[j + 1];
    }
  }

  /** In a list without repeats, `remove` takes out every occurrence and keeps the rest. */
  lemma {:induction false} RemoveDistinct<T>(s: seq<T>, x: T)
    requires x in s && Distinct(s)
    ensures Distinct(Remove(s, x)) && x !in Remove(s, x)
    ensures forall y :: y in s && y != x ==> y in Remove(s, x)
  {
    var t := s[1..];
    assert s == [s[0]] + t;
    DistinctTail(s);
    if s[0] != x {
      RemoveDistinct(t, x);
      var r := Remove(t, x);
      assert Remove(s, x) == [s[0]] + r;
      forall i, j | 0 <= i < j < |[s[0]] + r| ensures ([s[0]] + r)[i] != ([s[0]] + r)[j] {
        if i == 0 {
          assert ([s[0]] + r)[j] == r[j - 1];
        } else {
          assert ([s[0]] + r)[i] == r[i - 1] && ([s[0]] + r)[j] == r[j - 1];
        }
      }
    }
  }

  /** Appending an element that is not yet there keeps a list distinct. */
  lemma AppendDistinct<T>(s: seq<T>, x: T)
    requires Distinct(s) && x !in s
    ensures Distinct(s + [x])
  {
  }

  /** Removing an element that is not in the part before it cuts it out of the list. */
  lemma RemoveFirst<T>(s: seq<T>, x: T, t: seq<T>)
    requires x !in s
    ensures x in s + [x] + t
    ensures Remove(s + [x] + t, x) == s + t
  {
    var u := s + [x] + t;
    assert u[|s|] == x && u[..|s|] == s && u[|s| + 1..] == t;
    RemoveAt(u, |s|);
  }

  /** A list without repeats holds every value at most once. */
  lemma {:induction false} DistinctCount<T>(s: seq<T>, x: T)
    requires Distinct(s)
    ensures multiset(s)[x] <= 1
  {
    if s != [] {
      DistinctTail(s);
      DistinctCount(s[1..], x);
      assert s == [s[0]] + s[1..];
      if x == s[0] {
        assert multiset(s[1..])[x] == 0;
      }
    }
  }

  /** A list that holds every value at most once has no repeats. */
  lemma CountDistinct<T>(s: seq<T>)
    requires forall x :: multiset(s)[x] <= 1
    ensures Distinct(s)
  {
    forall i, j | 0 <= i < j < |s|
      ensures s[i] != s[j]
    {
      var x := s[j];
      assert s == s[..j] + s[j..];
      assert x in s[j..] && s[i] == s[..j][i];
      assert multiset(s)[x] == multiset(s[..j])[x] + multiset(s[j..])[x];
    }
  }
}
