/** Index-addressed sequence edits shared by the rule and condition lists. */
module SeqEdit {

  /** `a` and `b` have the same length and agree at every index except `i`. */
  ghost predicate AgreeExcept<T>(a: seq<T>, b: seq<T>, i: nat) {
    |a| == |b| && forall j :: 0 <= j < |a| && j != i ==> a[j] == b[j]
  }

  /**
   Removal by position as a filter: scans the positions of `s` in order and
   keeps every one but `i`. An index past the end keeps them all.
   */
  function DropIndex<T>(s: seq<T>, i: nat): (r: seq<T>)
    ensures i < |s| ==> r == s[..i] + s[i + 1..]
    ensures i >= |s| ==> r == s
    decreases |s|
  {
    if |s| == 0 then []
    else
      var kept := DropIndex(s[..|s| - 1], i);
      if |s| - 1 == i then kept else kept + [s[|s| - 1]]
  }

  /** Dropping an index shifts every later element down by one and keeps the earlier ones. */
  lemma DropIndexPositions<T>(s: seq<T>, i: nat)
    requires i < |s|
    ensures |DropIndex(s, i)| == |s| - 1
    ensures forall k :: 0 <= k < i ==> DropIndex(s, i)[k] == s[k]
    ensures forall k :: i <= k < |s| - 1 ==> DropIndex(s, i)[k] == s[k + 1]
  {
  }

  /** Appending an element and then dropping its index gives back the sequence. */
  lemma DropAppended<T>(s: seq<T>, x: T)
    ensures DropIndex(s + [x], |s|) == s
  {
    assert (s + [x])[..|s|] == s;
  }
}
