/** The two list idioms of the controller, over immutable sequences:
    `stream().filter(p).findFirst()` and `Collection.removeIf(p)`. */
module Streams {
  import opened Api

  /** The index of the first element satisfying `p`, or `None` when there is none. */
  function FindFirst<T>(s: seq<T>, p: T -> bool): (r: Option<nat>)
    ensures r.Some? ==> r.value < |s| && p(s[r.value])
    ensures r.Some? ==> forall j :: 0 <= j < r.value ==> !p(s[j])
    ensures r.None? <==> forall j :: 0 <= j < |s| ==> !p(s[j])
  {
    if s == [] then None
    else if p(s[0]) then Some(0)
    else match FindFirst(s[1..], p)
      case None => None
      case Some(k) => Some(k + 1)
  }

  /** `FindFirst` finds the one index that matches and has no match before it. */
  lemma FindFirstIsFirstMatch<T>(s: seq<T>, p: T -> bool, k: nat)
    requires k < |s| && p(s[k])
    requires forall j :: 0 <= j < k ==> !p(s[j])
    ensures FindFirst(s, p) == Some(k)
  {
  }

  /** The elements of `s` that do not satisfy `p`, in their original order. */
  function RemoveIf<T>(s: seq<T>, p: T -> bool): (r: seq<T>)
    ensures |r| <= |s|
    ensures forall i :: 0 <= i < |r| ==> r[i] in s && !p(r[i])
    ensures forall j :: 0 <= j < |s| && !p(s[j]) ==> s[j] in r
  {
    if s == [] then []
    else if p(s[0]) then RemoveIf(s[1..], p)
    else [s[0]] + RemoveIf(s[1..], p)
  }

  /** Removal works element by element and keeps the survivors' relative order:
      removing from a concatenation is concatenating the removals. */
  lemma {:induction false} RemoveIfAppend<T>(s: seq<T>, t: seq<T>, p: T -> bool)
    ensures RemoveIf(s + t, p) == RemoveIf(s, p) + RemoveIf(t, p)
  {
    if s == [] {
      assert s + t == t;
    } else {
      assert (s + t)[1..] == s[1..] + t;
      RemoveIfAppend(s[1..], t, p);
    }
  }

  /** When nothing matches, removal is a no-op; otherwise the list shrinks. */
  lemma {:induction false} RemoveIfNoMatch<T>(s: seq<T>, p: T -> bool)
    ensures (forall j :: 0 <= j < |s| ==> !p(s[j])) <==> RemoveIf(s, p) == s
  {
    if s != [] {
      RemoveIfNoMatch(s[1..], p);
      if p(s[0]) {
        assert |RemoveIf(s, p)| < |s| by {
          var r := RemoveIf(s[1..], p);
          assert |r| <= |s[1..]|;
        }
      }
    }
  }
}
