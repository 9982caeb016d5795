/** Substring containment as Kotlin's `String.contains(other)` performs it. */
module Strings {

  /** `m` occurs in `s` starting at index `i`. */
  ghost predicate OccursAt(s: string, m: string, i: int) {
    0 <= i && i + |m| <= |s| && s[i..i + |m|] == m
  }

  /** `m` occurs somewhere in `s` (the empty string occurs everywhere). */
  ghost predicate IsSubstring(m: string, s: string) {
    exists i :: OccursAt(s, m, i)
  }

  /** Executable containment test: tries every start position from the left. */
  function Contains(s: string, m: string): bool
    decreases |s|
  {
    if |m| > |s| then false
    else if s[..|m|] == m then true
    else Contains(s[1..], m)
  }

  /** The executable test agrees with the definition by occurrence. */
  lemma {:induction false} ContainsIsSubstring(s: string, m: string)
    ensures Contains(s, m) <==> IsSubstring(m, s)
  {
    if |m| > |s| {
    } else if s[..|m|] == m {
      assert OccursAt(s, m, 0);
    } else {
      ContainsIsSubstring(s[1..], m);
      if IsSubstring(m, s) {
        var i :| OccursAt(s, m, i);
        assert i != 0;
        assert s[1..][i - 1..i - 1 + |m|] == s[i..i + |m|];
        assert OccursAt(s[1..], m, i - 1);
      }
      if IsSubstring(m, s[1..]) {
        var j :| OccursAt(s[1..], m, j);
        assert s[1..][j..j + |m|] == s[j + 1..j + 1 + |m|];
        assert OccursAt(s, m, j + 1);
      }
    }
  }

  /** Containment ignores whatever surrounds the searched text. */
  lemma ContainsInContext(prefix: string, m: string, suffix: string)
    ensures Contains(prefix + m + suffix, m)
  {
    var s := prefix + m + suffix;
    assert s[|prefix|..|prefix| + |m|] == m;
    assert OccursAt(s, m, |prefix|);
    ContainsIsSubstring(s, m);
  }

  /** Every character of a contained string is a character of the container;
      used to show that a marker does NOT occur in a given string. */
  lemma CharsOfContained(s: string, m: string, c: char)
    requires Contains(s, m) && c in m
    ensures c in s
  {
    ContainsIsSubstring(s, m);
    var i :| OccursAt(s, m, i);
    var k :| 0 <= k < |m| && m[k] == c;
    assert s[i + k] == s[i..i + |m|][k];
  }

  /** No character of `s` is one of `chars`. */
  ghost predicate AvoidsAll(s: string, chars: string) {
    forall i :: 0 <= i < |s| ==> s[i] !in chars
  }

  /** A string holding a character that `s` avoids does not occur in `s`. */
  lemma AvoidedNotContained(s: string, m: string, chars: string, c: char)
    requires AvoidsAll(s, chars) && c in chars && c in m
    ensures !Contains(s, m)
  {
    if Contains(s, m) {
      CharsOfContained(s, m, c);
    }
  }

  /** A string longer than `s` does not occur in `s`. */
  lemma LongerNotContained(s: string, m: string)
    requires |m| > |s|
    ensures !Contains(s, m)
  {
  }
}
