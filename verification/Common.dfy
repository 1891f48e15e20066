/** Result and list vocabulary shared by every component of the model. */
module Common {

  datatype Option<+T> = None | Some(value: T)

  datatype Result<+T, +E> = Success(value: T) | Failure(error: E) {
    predicate IsFailure() {
      Failure?
    }

    function PropagateFailure<U>(): Result<U, E>
      requires Failure?
    {
      Failure(error)
    }

    function Extract(): T
      requires Success?
    {
      value
    }
  }

  predicate NoDuplicates<T(==)>(s: seq<T>) {
    forall i, j :: 0 <= i < j < |s| ==> s[i] != s[j]
  }

  /** `rows` is some ordering of the set `s`: what a query without ORDER BY may return. */
  ghost predicate Lists<T(!new)>(rows: seq<T>, s: set<T>) {
    && NoDuplicates(rows)
    && forall x :: x in rows <==> x in s
  }

  lemma ListsLength<T(!new)>(rows: seq<T>, s: set<T>)
    requires Lists(rows, s)
    ensures |rows| == |s|
  {
    if rows == [] {
      assert s == {};
    } else {
      var x := rows[|rows| - 1];
      var rest := rows[..|rows| - 1];
      assert rows == rest + [x];
      assert Lists(rest, s - {x});
      ListsLength(rest, s - {x});
    }
  }

  lemma ListsEmpty<T(!new)>(rows: seq<T>, s: set<T>)
    requires Lists(rows, s)
    ensures rows == [] <==> s == {}
  {
    ListsLength(rows, s);
  }

  function RemoveAt<T>(s: seq<T>, k: nat): (r: seq<T>)
    requires k < |s|
    ensures |r| == |s| - 1
    ensures forall i :: 0 <= i < |r| ==> r[i] == s[if i < k then i else i + 1]
  {
    s[..k] + s[k + 1..]
  }

  lemma RemoveAtMultiset<T>(s: seq<T>, k: nat)
    requires k < |s|
    ensures multiset(s) == multiset(RemoveAt(s, k)) + multiset{s[k]}
    ensures multiset(RemoveAt(s, k)) == multiset(s) - multiset{s[k]}
  {
    assert s == s[..k] + [s[k]] + s[k + 1..];
  }

  lemma SameMembers<T>(a: seq<T>, b: seq<T>)
    requires multiset(a) == multiset(b)
    ensures forall x :: x in a <==> x in b
  {
    forall x
      ensures x in a <==> x in b
    {
      assert x in a <==> x in multiset(a);
      assert x in b <==> x in multiset(b);
    }
  }

  lemma TwoOccurrences<T>(s: seq<T>, i: nat, j: nat)
    requires i < j < |s| && s[i] == s[j]
    ensures multiset(s)[s[i]] >= 2
  {
    assert s == s[..j] + s[j..];
    assert s[i] == s[..j][i];
    assert s[j] == s[j..][0];
    assert s[i] in multiset(s[..j]) && s[j] in multiset(s[j..]);
  }

  lemma OneOccurrence<T>(s: seq<T>, x: nat)
    requires x < |s|
    requires forall y :: 0 <= y < |s| && y != x ==> s[y] != s[x]
    ensures multiset(s)[s[x]] == 1
  {
    assert s == s[..x] + [s[x]] + s[x + 1..];
    assert s[x] !in s[..x] && s[x] !in s[x + 1..];
    assert multiset(s) == multiset(s[..x]) + multiset{s[x]} + multiset(s[x + 1..]);
    assert s[x] !in multiset(s[..x]) && s[x] !in multiset(s[x + 1..]);
  }
}
