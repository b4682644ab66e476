/**
 * The viewer registry: a JavaScript `Set`, which keeps its members in
 * insertion order. It is modelled as a sequence without repetitions, so that
 * `forEach` visits the members in the order the source would.
 */
module Registry {

  predicate Distinct<T(==)>(s: seq<T>) {
    forall i, j :: 0 <= i < j < |s| ==> s[i] != s[j]
  }

  /** `Set.prototype.add`: a new member goes last; an existing member keeps its place. */
  function Add<T(==,!new)>(s: seq<T>, x: T): (r: seq<T>)
    ensures forall y :: y in r <==> y in s || y == x
    ensures Distinct(s) ==> Distinct(r)
    ensures x in s ==> r == s
    ensures |s| <= |r| <= |s| + 1 && r[..|s|] == s
  {
    if x in s then s else s + [x]
  }

  /** `Set.prototype.delete`: removes the member if present, keeping the order of the others. */
  function Remove<T(==,!new)>(s: seq<T>, x: T): (r: seq<T>)
    ensures forall y :: y in r <==> y in s && y != x
    ensures Distinct(s) ==> Distinct(r)
    ensures x !in s ==> r == s
    ensures |r| <= |s|
  {
    if s == [] then []
    else if s[0] == x then Remove(s[1..], x)
    else
      var rest := Remove(s[1..], x);
      assert Distinct(s) ==> s[0] !in s[1..];
      [s[0]] + rest
  }

  /** Deleting a member leaves the others in their insertion order: it cuts that one position out. */
  lemma {:induction false} RemoveKeepsOrder<T(!new)>(s: seq<T>, x: T, k: nat)
    requires Distinct(s) && k < |s| && s[k] == x
    ensures Remove(s, x) == s[..k] + s[k + 1..]
  {
    assert Distinct(s[1..]);
    if k == 0 {
      assert x !in s[1..];
    } else {
      RemoveKeepsOrder(s[1..], x, k - 1);
      assert s[..k] == [s[0]] + s[1..][..k - 1];
      assert s[k + 1..] == s[1..][k..];
    }
  }
}
