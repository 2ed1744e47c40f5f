/** The two string operations the data-lake helpers rely on: Python's
    substring test `sub in s` and `str.replace(pat, "")`. */
module Strings {

  /** `sub` occurs in `s` starting at index `i`. */
  ghost predicate OccursAt(s: string, sub: string, i: int) {
    0 <= i && i + |sub| <= |s| && s[i..i + |sub|] == sub
  }

  /** Python's `sub in s`, computed by trying every start position from the left. */
  predicate Contains(s: string, sub: string)
    decreases |s|
  {
    sub <= s || (0 < |s| && Contains(s[1..], sub))
  }

  /** The scan agrees with the positional definition of a substring. */
  lemma {:induction false} ContainsIffOccurs(s: string, sub: string)
    ensures Contains(s, sub) <==> exists i :: OccursAt(s, sub, i)
    decreases |s|
  {
    if sub <= s {
      assert OccursAt(s, sub, 0);
    } else if |s| == 0 {
      assert 0 < |sub|;
    } else {
      ContainsIffOccurs(s[1..], sub);
      if Contains(s[1..], sub) {
        var i :| OccursAt(s[1..], sub, i);
        OccursShift(s, sub, i + 1);
      } else {
        forall i ensures !OccursAt(s, sub, i) {
          if 1 <= i {
            OccursShift(s, sub, i);
          } else if i == 0 {
            NotPrefix(s, sub);
          }
        }
      }
    }
  }

  /** An occurrence at `i >= 1` is an occurrence at `i - 1` after the first character. */
  lemma OccursShift(s: string, sub: string, i: int)
    requires 0 < |s| && 1 <= i
    ensures OccursAt(s, sub, i) <==> OccursAt(s[1..], sub, i - 1)
  {
    if i + |sub| <= |s| {
      assert s[i..i + |sub|] == s[1..][i - 1..i - 1 + |sub|];
    }
  }

  /** A pattern that is not a prefix does not occur at index 0. */
  lemma NotPrefix(s: string, sub: string)
    requires !(sub <= s)
    ensures !OccursAt(s, sub, 0)
  {
    if |sub| <= |s| {
      assert s[..|sub|] != sub;
    }
  }

  /** Python's `s.replace(pat, "")`: every non-overlapping occurrence of
      `pat`, found from the left, is deleted. An empty `pat` leaves `s` as it is. */
  function RemoveAll(s: string, pat: string): (r: string)
    ensures |r| <= |s|
    decreases |s|
  {
    if |pat| == 0 || |s| == 0 then s
    else if pat <= s then RemoveAll(s[|pat|..], pat)
    else [s[0]] + RemoveAll(s[1..], pat)
  }

  /** Every occurrence costs the length of the pattern. */
  lemma {:induction false} RemoveAllShrinks(s: string, pat: string)
    requires 0 < |pat| && Contains(s, pat)
    ensures |RemoveAll(s, pat)| <= |s| - |pat|
    decreases |s|
  {
    if pat <= s {
    } else {
      RemoveAllShrinks(s[1..], pat);
    }
  }

  /** Deleting a pattern changes a string exactly when the pattern occurs in it. */
  lemma {:induction false} RemoveAllFixpoint(s: string, pat: string)
    requires 0 < |pat|
    ensures RemoveAll(s, pat) == s <==> !Contains(s, pat)
    decreases |s|
  {
    if Contains(s, pat) {
      RemoveAllShrinks(s, pat);
    } else if |s| > 0 {
      RemoveAllFixpoint(s[1..], pat);
      assert [s[0]] + s[1..] == s;
    }
  }
}
