/** Python's `str.startswith` and the substring test `sub in s`. */
module Text {

  /** `s.startswith(p)`: `s` is at least as long as `p` and agrees with it character by character. */
  function StartsWith(s: string, p: string): (b: bool)
    ensures b <==> |p| <= |s| && forall i :: 0 <= i < |p| ==> s[i] == p[i]
  {
    |p| <= |s| && s[..|p|] == p
  }

  /** `sub` occurs in `s` at position `i`. */
  predicate OccursAt(s: string, sub: string, i: nat)
  {
    i + |sub| <= |s| && s[i..i + |sub|] == sub
  }

  /** `sub in s`, as a left-to-right scan over the candidate positions from `from` on. */
  function ContainsFrom(s: string, sub: string, from: nat): (b: bool)
    decreases |s| - from
  {
    if from + |sub| > |s| then false
    else if s[from..from + |sub|] == sub then true
    else ContainsFrom(s, sub, from + 1)
  }

  /** `sub in s`: holds exactly when `sub` occurs somewhere in `s`. */
  function Contains(s: string, sub: string): (b: bool)
    ensures b <==> exists i: nat :: OccursAt(s, sub, i)
  {
    ContainsFromCorrect(s, sub, 0);
    ContainsFrom(s, sub, 0)
  }

  /** The scan finds an occurrence exactly when one exists at or after `from`. */
  lemma {:induction false} ContainsFromCorrect(s: string, sub: string, from: nat)
    ensures ContainsFrom(s, sub, from) <==> exists i: nat :: from <= i && OccursAt(s, sub, i)
    decreases |s| - from
  {
    if from + |sub| > |s| {
      assert forall i: nat :: from <= i ==> !OccursAt(s, sub, i);
    } else if s[from..from + |sub|] == sub {
      assert OccursAt(s, sub, from);
    } else {
      ContainsFromCorrect(s, sub, from + 1);
      assert !OccursAt(s, sub, from);
      assert forall i: nat :: from <= i && OccursAt(s, sub, i) ==> from + 1 <= i;
    }
  }

  /** A string contains every one of its own slices. */
  lemma ContainsSlice(s: string, i: nat, j: nat)
    requires i <= j <= |s|
    ensures Contains(s, s[i..j])
  {
    assert OccursAt(s, s[i..j], i);
  }
}
