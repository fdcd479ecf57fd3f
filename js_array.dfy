/**
 * The parts of JavaScript's Array.prototype.splice and push that the queue
 * store relies on, stated over sequences.
 */
module JsArray {

  /** The start position splice uses for a requested `start` on an array of
    * length `len`: a negative start counts back from the end, and the result
    * is clamped to 0..len. */
  function ClampStart(start: int, len: nat): (k: nat)
    ensures k <= len
    ensures 0 <= start <= len ==> k == start
    ensures start > len ==> k == len
    ensures start < 0 && 0 <= start + len ==> k == len + start
    ensures start + len < 0 ==> k == 0
  {
    if start < 0 then
      (if len + start < 0 then 0 else len + start)
    else if start > len then len
    else start
  }

  /** `splice(i, 1)` on an in-bounds index: the element at `i` is taken out and
    * everything after it shifts down by one. */
  function RemoveAt<T>(s: seq<T>, i: nat): (r: seq<T>)
    requires i < |s|
    ensures |r| == |s| - 1
    ensures forall j :: 0 <= j < i ==> r[j] == s[j]
    ensures forall j :: i <= j < |r| ==> r[j] == s[j + 1]
    ensures multiset(r) + multiset{s[i]} == multiset(s)
  {
    assert s == s[..i] + [s[i]] + s[i + 1..];
    s[..i] + s[i + 1..]
  }

  /** `splice(i, 0, x)` with `i` already clamped: `x` lands at index `i` and
    * everything from `i` on shifts up by one. */
  function InsertAt<T>(s: seq<T>, i: nat, x: T): (r: seq<T>)
    requires i <= |s|
    ensures |r| == |s| + 1
    ensures r[i] == x
    ensures forall j :: 0 <= j < i ==> r[j] == s[j]
    ensures forall j :: i < j < |r| ==> r[j] == s[j - 1]
    ensures multiset(r) == multiset(s) + multiset{x}
  {
    assert s == s[..i] + s[i..];
    s[..i] + [x] + s[i..]
  }

  /** Taking an element out and putting it back where it was restores the sequence. */
  lemma {:induction false} InsertAtRemoveAt<T>(s: seq<T>, i: nat)
    requires i < |s|
    ensures InsertAt(RemoveAt(s, i), i, s[i]) == s
  {
    var r := InsertAt(RemoveAt(s, i), i, s[i]);
    forall j | 0 <= j < |s|
      ensures r[j] == s[j]
    {
      if j < i {
      } else if j == i {
      } else {
        assert r[j] == RemoveAt(s, i)[j - 1];
      }
    }
  }

  /** Removing the element just inserted gives back the original sequence. */
  lemma {:induction false} RemoveAtInsertAt<T>(s: seq<T>, i: nat, x: T)
    requires i <= |s|
    ensures RemoveAt(InsertAt(s, i, x), i) == s
  {
    var r := RemoveAt(InsertAt(s, i, x), i);
    forall j | 0 <= j < |s|
      ensures r[j] == s[j]
    {
      if j >= i {
        assert r[j] == InsertAt(s, i, x)[j + 1];
      }
    }
  }

  /** Removing the last element is dropping it. */
  lemma RemoveLast<T>(s: seq<T>)
    requires |s| > 0
    ensures RemoveAt(s, |s| - 1) == s[..|s| - 1]
  {
  }

  /** `Array.prototype.map` with a callback that ignores the index. */
  function Map<A, B>(f: A -> B, s: seq<A>): (r: seq<B>)
    ensures |r| == |s|
    ensures forall i :: 0 <= i < |s| ==> r[i] == f(s[i])
  {
    seq(|s|, i requires 0 <= i < |s| => f(s[i]))
  }

  lemma MapAppend<A, B>(f: A -> B, a: seq<A>, b: seq<A>)
    ensures Map(f, a + b) == Map(f, a) + Map(f, b)
  {
  }

  lemma MapRemoveAt<A, B>(f: A -> B, s: seq<A>, i: nat)
    requires i < |s|
    ensures Map(f, RemoveAt(s, i)) == RemoveAt(Map(f, s), i)
    ensures multiset(Map(f, RemoveAt(s, i))) == multiset(Map(f, s)) - multiset{f(s[i])}
  {
    var m := Map(f, s);
    assert Map(f, RemoveAt(s, i)) == RemoveAt(m, i);
    assert multiset(RemoveAt(m, i)) + multiset{m[i]} == multiset(m);
  }

  lemma MapInsertAt<A, B>(f: A -> B, s: seq<A>, i: nat, x: A)
    requires i <= |s|
    ensures Map(f, InsertAt(s, i, x)) == InsertAt(Map(f, s), i, f(x))
    ensures multiset(Map(f, InsertAt(s, i, x))) == multiset(Map(f, s)) + multiset{f(x)}
  {
    assert Map(f, InsertAt(s, i, x)) == InsertAt(Map(f, s), i, f(x));
  }
}
