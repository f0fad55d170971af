/** Searching text held as UTF-8 bytes, and the character boundaries slicing must respect. */
module TextSearch {
  import opened Bytes
  import opened Results

  predicate OccursAt(text: bytes, at: nat, pattern: bytes) {
    at + |pattern| <= |text| && text[at..at + |pattern|] == pattern
  }

  ghost predicate Contains(text: bytes, pattern: bytes) {
    exists at: nat :: OccursAt(text, at, pattern)
  }

  /** Where the pattern occurs first, if it does. */
  function Find(text: bytes, pattern: bytes): (r: Option<nat>)
    ensures match r
            case Some(at) => OccursAt(text, at, pattern) && forall k: nat :: k < at ==> !OccursAt(text, k, pattern)
            case None => !Contains(text, pattern)
  {
    FindFrom(text, pattern, 0)
  }

  function FindFrom(text: bytes, pattern: bytes, from: nat): (r: Option<nat>)
    requires forall k: nat :: k < from ==> !OccursAt(text, k, pattern)
    ensures match r
            case Some(at) => OccursAt(text, at, pattern) && forall k: nat :: k < at ==> !OccursAt(text, k, pattern)
            case None => !Contains(text, pattern)
    decreases |text| - from
  {
    if from > |text| then None
    else if OccursAt(text, from, pattern) then Some(from)
    else FindFrom(text, pattern, from + 1)
  }

  /** A pattern that occurs still occurs there when text is appended. */
  lemma OccursInLonger(text: bytes, at: nat, pattern: bytes, more: bytes)
    ensures OccursAt(text, at, pattern) ==> OccursAt(text + more, at, pattern)
    ensures OccursAt(text + more, at, pattern) && at + |pattern| <= |text| ==> OccursAt(text, at, pattern)
  {
    if at + |pattern| <= |text| {
      assert (text + more)[at..at + |pattern|] == text[at..at + |pattern|];
    }
  }

  /** A slice from `from` on holds exactly the occurrences at or after `from`. */
  lemma OccursInTail(text: bytes, from: nat, at: nat, pattern: bytes)
    requires from <= |text|
    ensures OccursAt(text[from..], at, pattern) <==> OccursAt(text, from + at, pattern)
  {
    if from + at + |pattern| <= |text| {
      assert text[from..][at..at + |pattern|] == text[from + at..from + at + |pattern|];
    }
  }

  lemma TailContains(text: bytes, from: nat, pattern: bytes)
    requires from <= |text|
    ensures Contains(text[from..], pattern) <==> exists at: nat :: from <= at && OccursAt(text, at, pattern)
  {
    if Contains(text[from..], pattern) {
      var at: nat :| OccursAt(text[from..], at, pattern);
      OccursInTail(text, from, at, pattern);
      assert OccursAt(text, from + at, pattern);
    }
    if at: nat :| from <= at && OccursAt(text, at, pattern) {
      OccursInTail(text, from, at - from, pattern);
    }
  }

  // ---------------------------------------------------------------- character boundaries

  predicate Boundary(text: bytes, i: nat) {
    i == 0 || i == |text| || (i < |text| && !Continuation(text[i]))
  }

  /** The last boundary at or before `i`. */
  function FloorBoundary(text: bytes, i: nat): (b: nat)
    requires i <= |text|
    ensures b <= i && Boundary(text, b)
    ensures forall j :: b < j <= i ==> !Boundary(text, j)
  {
    if Boundary(text, i) then i else FloorBoundary(text, i - 1)
  }
}
