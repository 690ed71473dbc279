/** Notions that several of the other modules share. */
module Common {

  ghost predicate Distinct<T>(s: seq<T>) {
    forall i, j :: 0 <= i < j < |s| ==> s[i] != s[j]
  }

  function OneIf(b: bool): nat { if b then 1 else 0 }
}
