/**
 * Option and Result, used by every module for the source's `None` returns and
 * raised errors, and the first-match scan the line-by-line extractors share.
 */
module Wrappers {

  datatype Option<+T> = None | Some(value: T)

  datatype Result<+R, +E> = Ok(value: R) | Err(error: E)

  /** The index of the first present entry of `xs[i..]`: a scan that stops at the first line yielding a result. */
  function FirstSome<T>(xs: seq<Option<T>>, i: nat): (r: Option<nat>)
    requires i <= |xs|
    ensures r.None? <==> forall k :: i <= k < |xs| ==> xs[k].None?
    ensures r.Some? ==> i <= r.value < |xs| && xs[r.value].Some?
    ensures r.Some? ==> forall k :: i <= k < r.value ==> xs[k].None?
    decreases |xs| - i
  {
    if i == |xs| then None
    else if xs[i].Some? then Some(i)
    else FirstSome(xs, i + 1)
  }

  /** The scan stops exactly at `i` when `xs[i]` is the first present entry. */
  lemma FirstSomeAt<T>(xs: seq<Option<T>>, i: nat)
    requires i < |xs| && xs[i].Some?
    requires forall k :: 0 <= k < i ==> xs[k].None?
    ensures FirstSome(xs, 0) == Some(i)
  {
  }

  /** The first present value of `xs`, if any. */
  function FirstValue<T>(xs: seq<Option<T>>): (r: Option<T>)
    ensures r.None? <==> forall k :: 0 <= k < |xs| ==> xs[k].None?
    ensures r.Some? ==> exists k :: 0 <= k < |xs| && xs[k] == r && forall j :: 0 <= j < k ==> xs[j].None?
  {
    match FirstSome(xs, 0)
    case None => None
    case Some(k) => xs[k]
  }

  /** Entries before the first present one do not change which value is found. */
  lemma FirstValueSkip<T>(a: seq<Option<T>>, b: seq<Option<T>>)
    requires forall k :: 0 <= k < |a| ==> a[k].None?
    ensures FirstValue(a + b) == FirstValue(b)
  {
    var c := a + b;
    match FirstSome(b, 0)
    case None =>
      forall k | 0 <= k < |c| ensures c[k].None? {
        if k >= |a| { assert c[k] == b[k - |a|]; }
      }
    case Some(k) =>
      assert c[|a| + k] == b[k];
      forall j | 0 <= j < |a| + k ensures c[j].None? {
        if j >= |a| { assert c[j] == b[j - |a|]; }
      }
      FirstSomeAt(c, |a| + k);
  }

  /** Entries after the first present one do not change which value is found. */
  lemma FirstValuePrefix<T>(a: seq<Option<T>>, b: seq<Option<T>>)
    requires FirstValue(a).Some?
    ensures FirstValue(a + b) == FirstValue(a)
  {
    var k := FirstSome(a, 0).value;
    var c := a + b;
    assert c[k] == a[k];
    forall j | 0 <= j < k ensures c[j].None? {
      assert c[j] == a[j];
    }
    FirstSomeAt(c, k);
  }
}
