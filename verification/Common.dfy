/** Failure-compatible result types and the few sequence facts shared by the other modules. */
module Common {

  /** Every object of the Apstra API is named by an opaque text. */
  datatype ObjectId = ObjectId(text: string)

  /** A Go pointer to a value: None is nil. */
  datatype Option<+T> = None | Some(value: T)

  datatype Result<+T, +E> = Ok(value: T) | Err(error: E) {
    predicate IsFailure() {
      Err?
    }

    function PropagateFailure<U>(): Result<U, E>
      requires Err?
    {
      Err(error)
    }

    function Extract(): T
      requires Ok?
    {
      value
    }
  }

  ghost predicate NoDuplicates<T>(s: seq<T>) {
    forall i, j :: 0 <= i < j < |s| ==> s[i] != s[j]
  }

  /** Having no duplicates is a property of the multiset of elements, so every
      permutation has it too. */
  lemma {:induction false} NoDuplicatesAsMultiset<T>(s: seq<T>)
    ensures NoDuplicates(s) <==> forall x :: multiset(s)[x] <= 1
  {
    if s != [] {
      var t := s[..|s| - 1];
      assert s == t + [s[|s| - 1]];
      NoDuplicatesAsMultiset(t);
      if NoDuplicates(s) {
        assert s[|s| - 1] !in t;
        assert multiset(t)[s[|s| - 1]] == 0;
      } else if NoDuplicates(t) {
        var i :| 0 <= i < |t| && t[i] == s[|s| - 1];
        assert t[i] in multiset(t);
        assert multiset(s)[s[|s| - 1]] >= 2;
      } else {
        var x :| multiset(t)[x] > 1;
        assert multiset(s)[x] >= multiset(t)[x];
      }
    }
  }

  ghost function Without<T>(s: seq<T>, k: nat): (r: seq<T>)
    requires k < |s|
    ensures |r| == |s| - 1
  {
    s[..k] + s[k + 1..]
  }

  lemma FindAndRemove<T>(x: T, s: seq<T>) returns (k: nat)
    requires x in multiset(s)
    ensures k < |s| && s[k] == x
    ensures multiset(Without(s, k)) == multiset(s) - multiset{x}
  {
    k :| 0 <= k < |s| && s[k] == x;
    assert s == s[..k] + [s[k]] + s[k + 1..];
  }
}
