/** Small value types and sequence facts shared by the models. */
module Common {

  datatype Option<+T> = None | Some(value: T)

  /** A byte of audio or of a random draw. */
  type Byte = bv8

  /** True when `a` can be obtained from `b` by deleting elements, keeping the order. */
  predicate IsSubsequence<T(==)>(a: seq<T>, b: seq<T>)
  {
    if a == [] then true
    else if b == [] then false
    else
      || (a[|a| - 1] == b[|b| - 1] && IsSubsequence(a[..|a| - 1], b[..|b| - 1]))
      || IsSubsequence(a, b[..|b| - 1])
  }

  /** Appending to both sides, or only to the longer side, keeps the relation. */
  lemma SubsequenceAppend<T>(a: seq<T>, b: seq<T>, x: T)
    requires IsSubsequence(a, b)
    ensures IsSubsequence(a + [x], b + [x])
    ensures IsSubsequence(a, b + [x])
  {
    assert (a + [x])[..|a|] == a && (b + [x])[..|b|] == b;
  }

  /** The elements of `a` stand in `b` at increasing positions. */
  lemma {:induction false} SubsequencePositions<T>(a: seq<T>, b: seq<T>) returns (at: seq<nat>)
    requires IsSubsequence(a, b)
    ensures |at| == |a| && forall i :: 0 <= i < |a| ==> at[i] < |b| && b[at[i]] == a[i]
    ensures forall i, j :: 0 <= i < j < |a| ==> at[i] < at[j]
    decreases |b|
  {
    at := [];
    if a != [] {
      if a[|a| - 1] == b[|b| - 1] && IsSubsequence(a[..|a| - 1], b[..|b| - 1]) {
        at := SubsequencePositions(a[..|a| - 1], b[..|b| - 1]);
        at := at + [|b| - 1];
      } else {
        at := SubsequencePositions(a, b[..|b| - 1]);
      }
    }
  }

  predicate IsLowerLetter(c: char) {
    c in "abcdefghijklmnopqrstuvwxyz"
  }

  /** The same character, or the capital and the small form of one letter. */
  predicate SameLetter(a: char, b: char) {
    a == b || (IsLowerLetter(a) && b as int == a as int - 32) || (IsLowerLetter(b) && a as int == b as int - 32)
  }

  lemma LowerLetters(c: char)
    ensures IsLowerLetter(c) <==> 'a' <= c <= 'z'
  {
    var letters := "abcdefghijklmnopqrstuvwxyz";
    if 'a' <= c <= 'z' {
      assert letters[c as int - 97] == c;
    }
  }
}
