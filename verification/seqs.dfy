/** Small facts about sequences shared by the backend and frontend models. */
module Seqs {
  import opened Wrappers

  /** No element occurs twice: none repeats an earlier one. */
  predicate NoDups<T(==)>(s: seq<T>) {
    forall i :: 0 <= i < |s| ==> s[i] !in s[..i]
  }

  /** The pairwise reading of `NoDups`. */
  lemma NoDupsDistinct<T>(s: seq<T>, i: nat, j: nat)
    requires NoDups(s) && i < j < |s|
    ensures s[i] != s[j]
  {
    assert s[i] == s[..j][i];
  }

  /** The index of the first element satisfying `p`, the model of a Python
      `for ... if ...: break` scan or of an SQL `.first()`. */
  function FindFirst<T>(s: seq<T>, p: T -> bool): (r: Option<nat>)
    ensures r.Some? ==> r.value < |s| && p(s[r.value])
    ensures r.Some? ==> forall j :: 0 <= j < r.value ==> !p(s[j])
    ensures r.None? ==> forall j :: 0 <= j < |s| ==> !p(s[j])
  {
    if |s| == 0 then None
    else if p(s[0]) then Some(0)
    else
      match FindFirst(s[1..], p)
      case None => None
      case Some(k) => Some(k + 1)
  }

  lemma HeadIsMember<T>(s: seq<T>)
    requires |s| > 0
    ensures s[0] in s
  {
  }
}
