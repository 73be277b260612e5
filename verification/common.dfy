/** Shared vocabulary of the lock-sharing backend model: optional values,
    endpoint results with the HTTP error kinds the service raises, and the
    list operations MongoDB performs on array fields. */
module Common {

  datatype Option<T> = None | Some(value: T)

  /** The errors an endpoint reports. `Internal` stands for an unhandled
      Python exception (an index into an empty list, a field read on a
      missing document), which the web framework turns into status 500. */
  datatype Error =
    | NotFound(detail: string)      // HTTP 404
    | Conflict(detail: string)      // HTTP 400 "... already exists", "... limit reached"
    | Forbidden(detail: string)     // HTTP 403
    | Internal(detail: string)      // uncaught exception, HTTP 500

  datatype Result<T> = Ok(value: T) | Err(error: Error)

  /** Outcome of a write endpoint: its reply carries nothing beyond a message. */
  datatype Outcome = Done | Fail(error: Error)

  /** Position of the first occurrence of `x` in `s`: what `find_one` and
      `update_one` select when several documents match. */
  function IndexOf<T(==)>(s: seq<T>, x: T): (r: Option<nat>)
    ensures r.Some? ==> r.value < |s| && s[r.value] == x
  {
    if s == [] then None
    else if s[0] == x then Some(0)
    else match IndexOf(s[1..], x)
      case None => None
      case Some(k) => Some(k + 1)
  }

  /** `IndexOf` finds the first occurrence, and finds one exactly when
      there is one. */
  lemma {:induction false} IndexOfFirst<T>(s: seq<T>, x: T)
    ensures IndexOf(s, x).Some? ==> x !in s[..IndexOf(s, x).value]
    ensures IndexOf(s, x).None? <==> x !in s
  {
    if s != [] && s[0] != x {
      IndexOfFirst(s[1..], x);
      assert s == [s[0]] + s[1..];
      match IndexOf(s[1..], x)
      case None =>
      case Some(k) =>
        assert s[..k + 1] == [s[0]] + s[1..][..k];
    }
  }

  /** MongoDB `$pull` of a scalar: every element equal to `x` is removed,
      the others keep their order. */
  function Pull<T(==)>(s: seq<T>, x: T): (r: seq<T>)
  {
    if s == [] then []
    else if s[0] == x then Pull(s[1..], x)
    else [s[0]] + Pull(s[1..], x)
  }

  /** `$pull` removes exactly the elements equal to `x`. */
  lemma {:induction false} PullSpec<T>(s: seq<T>, x: T)
    ensures x !in Pull(s, x)
    ensures forall k :: 0 <= k < |Pull(s, x)| ==> Pull(s, x)[k] in s
    ensures forall k :: 0 <= k < |s| && s[k] != x ==> s[k] in Pull(s, x)
    ensures |Pull(s, x)| <= |s|
    ensures x !in s ==> Pull(s, x) == s
  {
    if s != [] {
      PullSpec(s[1..], x);
      assert s == [s[0]] + s[1..];
      forall k | 0 <= k < |s| && s[k] != x ensures s[k] in Pull(s, x) {
        if k > 0 { assert s[k] == s[1..][k - 1]; }
      }
    }
  }

  /** `$pull` adds nothing: what was absent stays absent, and the pulled
      value is gone. */
  lemma PullKeepsOut<T>(s: seq<T>, x: T)
    ensures forall y :: y in Pull(s, x) ==> y in s && y != x
  {
    PullSpec(s, x);
    forall y | y in Pull(s, x) ensures y in s {
      var k :| 0 <= k < |Pull(s, x)| && Pull(s, x)[k] == y;
    }
  }

  /** Removes the element at position `i` (MongoDB `delete_one` on the
      document found at that position). */
  function RemoveAt<T>(s: seq<T>, i: nat): (r: seq<T>)
    requires i < |s|
    ensures |r| == |s| - 1
  {
    s[..i] + s[i + 1..]
  }

  /** The elements before position `i` stay put, the later ones move down
      by one. */
  lemma RemoveAtSpec<T>(s: seq<T>, i: nat)
    requires i < |s|
    ensures forall k :: 0 <= k < i ==> RemoveAt(s, i)[k] == s[k]
    ensures forall k :: i <= k < |RemoveAt(s, i)| ==> RemoveAt(s, i)[k] == s[k + 1]
  {
  }

  /** Every element of a sequence occurs once. */
  predicate Distinct<T(==)>(s: seq<T>) {
    forall i, j :: 0 <= i < j < |s| ==> s[i] != s[j]
  }

  /** In a sequence without repeats, the first occurrence of an element is
      its only one. */
  lemma IndexOfDistinct<T>(s: seq<T>, j: nat)
    requires Distinct(s) && j < |s|
    ensures IndexOf(s, s[j]) == Some(j)
  {
    IndexOfFirst(s, s[j]);
    assert s[j] in s;
  }

  lemma {:induction false} DistinctAppend<T>(s: seq<T>, x: T)
    requires Distinct(s) && x !in s
    ensures Distinct(s + [x])
  {
    forall i, j | 0 <= i < j < |s + [x]|
      ensures (s + [x])[i] != (s + [x])[j]
    {
      if j == |s| {
        assert (s + [x])[i] == s[i];
        assert s[i] in s;
      } else {
        assert (s + [x])[i] == s[i] && (s + [x])[j] == s[j];
      }
    }
  }

  lemma {:induction false} DistinctRemoveAt<T>(s: seq<T>, i: nat)
    requires i < |s| && Distinct(s)
    ensures Distinct(RemoveAt(s, i))
  {
    var r := RemoveAt(s, i);
    RemoveAtSpec(s, i);
    forall a, b | 0 <= a < b < |r|
      ensures r[a] != r[b]
    {
      var a' := if a < i then a else a + 1;
      var b' := if b < i then b else b + 1;
      assert r[a] == s[a'] && r[b] == s[b'] && a' < b';
    }
  }
}
