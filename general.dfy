/** Small collection helpers shared by every revision of the path model
    (Sources/General.swift), plus the optional and pass/fail wrappers the
    Swift code gets from `Optional` and `throws`. */
module General {

  datatype Option<+T> = None | Some(value: T) {
    /** Swift's `??`: the wrapped value, or `fallback` when absent. */
    function GetOr(fallback: T): T {
      match this
      case Some(v) => v
      case None => fallback
    }
  }

  /** The outcome of a Swift function that returns nothing but may throw `E`. */
  datatype Outcome<+E> = Pass | Fail(error: E)

  /** `firstIndex(of:)` from the Swift standard library. */
  function FirstIndex<T(==)>(s: seq<T>, e: T): (r: Option<nat>)
    ensures r.Some? ==> r.value < |s| && s[r.value] == e && e !in s[..r.value]
    ensures r.None? <==> e !in s
  {
    if |s| == 0 then None
    else if s[0] == e then Some(0)
    else
      match FirstIndex(s[1..], e)
      case None => None
      case Some(k) => assert s[..k + 1] == [s[0]] + s[1..][..k]; Some(k + 1)
  }

  /** The index of the last occurrence of `e` in `s`, or None when `e` does
      not occur: the reference that `LastIndexOf` is proved against. */
  function LastIndex<T(==)>(s: seq<T>, e: T): (r: Option<nat>)
    ensures r.Some? ==> r.value < |s| && s[r.value] == e
    ensures r.Some? ==> forall k :: r.value < k < |s| ==> s[k] != e
    ensures r.None? <==> e !in s
  {
    if |s| == 0 then None
    else
      match LastIndex(s[1..], e)
      case Some(k) => Some(k + 1)
      case None => if s[0] == e then Some(0) else None
  }

  /** `BidirectionalCollection.lastIndex(of:)`: walks an index backwards from
      the last element, checking the start index only after the loop.  It
      starts from `index(before: endIndex)`, so the collection must not be
      empty. */
  method LastIndexOf<T(==)>(s: seq<T>, e: T) returns (r: Option<nat>)
    requires |s| > 0
    ensures r.Some? ==> r.value < |s| && s[r.value] == e
    ensures r.Some? ==> forall k :: r.value < k < |s| ==> s[k] != e
    ensures r.None? <==> e !in s
    ensures r == LastIndex(s, e)
  {
    var idx := |s| - 1;
    while idx > 0
      invariant 0 <= idx < |s|
      invariant forall k :: idx < k < |s| ==> s[k] != e
    {
      if s[idx] == e {
        LastIndexIsUnique(s, e, idx);
        return Some(idx);
      }
      idx := idx - 1;
    }
    r := if s[0] == e then Some(idx) else None;
    if r.Some? {
      LastIndexIsUnique(s, e, 0);
    }
  }

  /** An occurrence with no later occurrence is the one `LastIndex` finds. */
  lemma LastIndexIsUnique<T>(s: seq<T>, e: T, i: nat)
    requires i < |s| && s[i] == e
    requires forall k :: i < k < |s| ==> s[k] != e
    ensures LastIndex(s, e) == Some(i)
  {
    var r := LastIndex(s, e);
    assert r.Some?;
    if r.value < i {
    } else if r.value > i {
    }
  }

  // ----- proof helpers: sequence identities that model nothing of the
  // library; each keeps one step of a larger proof small -----

  /** Cutting a sequence in two and joining the halves gives it back. */
  lemma SplitAt<T>(s: seq<T>, i: nat)
    requires i <= |s|
    ensures s[..i] + s[i..] == s
  {
  }

  /** Taking everything leaves nothing behind. */
  lemma TakeAll<T>(s: seq<T>, j: nat)
    requires j == |s|
    ensures s[..j] == s && s[j..] == []
  {
  }

  /** Concatenation is associative. */
  lemma AppendAssociative<T>(x: seq<T>, y: seq<T>, z: seq<T>)
    ensures x + (y + z) == (x + y) + z
  {
  }

  /** A non-empty sequence is its front followed by its last element. */
  lemma SplitLast<T>(s: seq<T>)
    requires |s| > 0
    ensures s == s[..|s| - 1] + [s[|s| - 1]]
  {
  }
}
