/** The java.util.List operations the bank code relies on, over values:
    indexOf and remove(Object) locate the FIRST element equal to the argument,
    set(i, x) overwrites one position. */
module Lists {

  /** List.indexOf: the position of the first element equal to x, or -1. */
  function IndexOf<T(==)>(s: seq<T>, x: T): (i: int)
    ensures -1 <= i < |s|
    ensures i >= 0 ==> s[i] == x && x !in s[..i]
    ensures i < 0 <==> x !in s
  {
    if s == [] then -1
    else if s[0] == x then 0
    else
      var j := IndexOf(s[1..], x);
      assert s[1..][..if j < 0 then 0 else j] == s[1..if j < 0 then 1 else j + 1];
      if j < 0 then -1 else j + 1
  }

  /** indexOf stops at or before any position holding the element. */
  lemma {:induction false} IndexOfAtMost<T>(s: seq<T>, j: nat)
    requires j < |s|
    ensures 0 <= IndexOf(s, s[j]) <= j
  {
    if s[0] != s[j] {
      assert s[1..][j - 1] == s[j];
      IndexOfAtMost(s[1..], j - 1);
    }
  }

  /** indexOf followed by set: the first element equal to x is overwritten
      by y; without such an element nothing changes. */
  function ReplaceFirst<T(==)>(s: seq<T>, x: T, y: T): (r: seq<T>)
    ensures |r| == |s|
    ensures x !in s ==> r == s
    ensures x in s ==> r == s[IndexOf(s, x) := y]
  {
    var i := IndexOf(s, x);
    if i < 0 then s else s[i := y]
  }

  /** List.remove(Object): drops the first element equal to x. */
  function RemoveFirst<T(==)>(s: seq<T>, x: T): (r: seq<T>)
    ensures x !in s ==> r == s
    ensures x in s ==> |r| == |s| - 1
    ensures x in s ==> r == s[..IndexOf(s, x)] + s[IndexOf(s, x) + 1..]
  {
    var i := IndexOf(s, x);
    if i < 0 then s else s[..i] + s[i + 1..]
  }

  /** No element occurs twice (reference or value identity). */
  ghost predicate NoDuplicates<T>(s: seq<T>)
  {
    forall i, j :: 0 <= i < j < |s| ==> s[i] != s[j]
  }

  /** Removing the first occurrence from a duplicate-free list removes the
      element altogether and keeps the list duplicate-free. */
  lemma RemoveFirstFromUnique<T>(s: seq<T>, x: T)
    requires NoDuplicates(s)
    ensures x !in RemoveFirst(s, x)
    ensures NoDuplicates(RemoveFirst(s, x))
    ensures forall y :: y != x ==> (y in RemoveFirst(s, x) <==> y in s)
  {
    var r := RemoveFirst(s, x);
    if x in s {
      var i := IndexOf(s, x);
      assert r == s[..i] + s[i + 1..];
      forall k | 0 <= k < |r| ensures r[k] != x {
        if k < i { assert r[k] == s[k]; } else { assert r[k] == s[k + 1]; }
      }
      forall y | y != x && y in s ensures y in r {
        var k :| 0 <= k < |s| && s[k] == y;
        if k < i { assert r[k] == y; } else { assert k != i; assert r[k - 1] == y; }
      }
    }
  }
}
