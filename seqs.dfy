/** Small generic vocabulary shared by the model: optional values, results of
    handlers that can fail, and the three collection queries the store performs
    (find the first matching record, keep the matching records in order, delete
    one record). */
module Seqs {

  datatype Option<+T> = None | Some(value: T)

  datatype Result<+R, +E> = Success(value: R) | Failure(error: E)

  /** Index of the first element satisfying `p`: what a store's `findOne` /
      `findById` returns when several records could match. */
  function FirstIndex<T>(s: seq<T>, p: T -> bool): (r: Option<nat>)
    ensures r.Some? ==> r.value < |s| && p(s[r.value])
    ensures r.Some? ==> forall j :: 0 <= j < r.value ==> !p(s[j])
    ensures r.None? ==> forall j :: 0 <= j < |s| ==> !p(s[j])
  {
    if |s| == 0 then None
    else if p(s[0]) then Some(0)
    else match FirstIndex(s[1..], p)
      case None => None
      case Some(i) => Some(i + 1)
  }

  /** The elements of `s` that satisfy `p`, in their original order (a `filter`). */
  function Keep<T(!new)>(s: seq<T>, p: T -> bool): (r: seq<T>)
    ensures |r| <= |s|
    ensures forall x :: x in r <==> x in s && p(x)
  {
    if |s| == 0 then []
    else (if p(s[0]) then [s[0]] else []) + Keep(s[1..], p)
  }

  /** `s` without its element at index `i` (a delete by position). */
  function RemoveAt<T>(s: seq<T>, i: nat): (r: seq<T>)
    requires i < |s|
    ensures |r| == |s| - 1
    ensures forall j :: 0 <= j < i ==> r[j] == s[j]
    ensures forall j :: i <= j < |r| ==> r[j] == s[j + 1]
  {
    s[..i] + s[i + 1..]
  }

  /** Filtering distributes over concatenation: the kept elements keep their
      relative order. */
  lemma {:induction false} KeepAppend<T(!new)>(a: seq<T>, b: seq<T>, p: T -> bool)
    ensures Keep(a + b, p) == Keep(a, p) + Keep(b, p)
  {
    if |a| == 0 {
      assert a + b == b;
    } else {
      assert (a + b)[1..] == a[1..] + b;
      KeepAppend(a[1..], b, p);
    }
  }

  /** The first match is determined by its two defining facts. */
  lemma FirstIndexIs<T>(s: seq<T>, p: T -> bool, i: nat)
    requires i < |s| && p(s[i])
    requires forall j :: 0 <= j < i ==> !p(s[j])
    ensures FirstIndex(s, p) == Some(i)
  {
  }

  /** Replacing the first match by another element that also matches keeps the
      first match where it was. */
  lemma FirstIndexAfterUpdate<T>(s: seq<T>, p: T -> bool, i: nat, x: T)
    requires FirstIndex(s, p) == Some(i)
    requires p(x)
    ensures FirstIndex(s[i := x], p) == Some(i)
  {
    FirstIndexIs(s[i := x], p, i);
  }

  /** Replacing an element that does not match, by another one that does not
      match, changes no first match. */
  lemma FirstIndexUnaffected<T>(s: seq<T>, p: T -> bool, i: nat, x: T)
    requires i < |s| && !p(s[i]) && !p(x)
    ensures FirstIndex(s[i := x], p) == FirstIndex(s, p)
  {
    match FirstIndex(s, p)
    case None =>
      var t := s[i := x];
      assert forall j :: 0 <= j < |t| ==> !p(t[j]);
    case Some(k) =>
      FirstIndexIs(s[i := x], p, k);
  }

  /** Appending a matching element to a sequence with no match makes it the
      first match. */
  lemma FirstIndexAfterAppend<T>(s: seq<T>, p: T -> bool, x: T)
    requires FirstIndex(s, p) == None
    requires p(x)
    ensures FirstIndex(s + [x], p) == Some(|s|)
  {
    FirstIndexIs(s + [x], p, |s|);
  }

  /** Appending any element leaves an existing first match where it is. */
  lemma FirstIndexKeptByAppend<T>(s: seq<T>, p: T -> bool, x: T)
    requires FirstIndex(s, p).Some?
    ensures FirstIndex(s + [x], p) == FirstIndex(s, p)
  {
    FirstIndexIs(s + [x], p, FirstIndex(s, p).value);
  }
}
