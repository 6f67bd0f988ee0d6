/** JavaScript's `String.prototype.includes`, the only string test the handlers use. */
module Strings {

  /** `t` is a prefix of `s`. */
  predicate StartsWith(s: string, t: string) {
    |t| <= |s| && s[..|t|] == t
  }

  /** `s.includes(t)`: `t` occurs somewhere in `s`; the empty string occurs in every string. */
  predicate Includes(s: string, t: string)
    decreases |s|
  {
    StartsWith(s, t) || (|s| > 0 && Includes(s[1..], t))
  }

  /** `t` occurs in `s` starting at index `i`. */
  predicate OccursAt(s: string, t: string, i: int) {
    0 <= i && i + |t| <= |s| && s[i..i + |t|] == t
  }

  /** The scanning definition agrees with the positional one, in both directions. */
  lemma {:induction false} IncludesIff(s: string, t: string)
    ensures Includes(s, t) <==> exists i :: OccursAt(s, t, i)
  {
    if StartsWith(s, t) {
      assert OccursAt(s, t, 0);
    } else if |s| > 0 {
      IncludesIff(s[1..], t);
      if exists i :: OccursAt(s, t, i) {
        var i :| OccursAt(s, t, i);
        assert s[1..][i - 1..i - 1 + |t|] == s[i..i + |t|];
        assert OccursAt(s[1..], t, i - 1);
      }
      if Includes(s[1..], t) {
        var j :| OccursAt(s[1..], t, j);
        assert s[1..][j..j + |t|] == s[j + 1..j + 1 + |t|];
        assert OccursAt(s, t, j + 1);
      }
    }
  }

  /** Whatever surrounds an occurrence, it is found. */
  lemma IncludesInfix(a: string, t: string, b: string)
    ensures Includes(a + t + b, t)
  {
    var s := a + t + b;
    assert s[|a|..|a| + |t|] == t;
    assert OccursAt(s, t, |a|);
    IncludesIff(s, t);
  }

  /** Every string includes itself. */
  lemma IncludesSelf(s: string)
    ensures Includes(s, s)
  {
    assert s[..|s|] == s;
  }

  /** Nothing longer than `s` occurs in `s`. */
  lemma {:induction false} IncludesLength(s: string, t: string)
    requires Includes(s, t)
    ensures |t| <= |s|
  {
    if !StartsWith(s, t) {
      IncludesLength(s[1..], t);
    }
  }

  /** Between strings of equal length, inclusion is equality. */
  lemma SameLengthIncludes(s: string, t: string)
    requires |s| == |t|
    ensures Includes(s, t) <==> s == t
  {
    IncludesIff(s, t);
    if Includes(s, t) {
      var i :| OccursAt(s, t, i);
      assert i == 0;
      assert s[0..|t|] == s;
    } else {
      IncludesSelf(s);
    }
  }
}
