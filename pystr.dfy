/** Python's `str.replace(old, new)` with no count argument: every
    non-overlapping occurrence of `old`, found scanning left to right, is
    replaced by `new`, and the replacement text is never scanned again. */
module PyStr {

  /** `pat` occurs in `s` starting at index `i`. */
  predicate OccursAt(s: string, pat: string, i: int)
  {
    0 <= i && i + |pat| <= |s| && s[i..i + |pat|] == pat
  }

  /** `pat` occurs somewhere in `s` (Python's `pat in s`). */
  predicate Contains(s: string, pat: string)
  {
    exists i :: 0 <= i <= |s| && OccursAt(s, pat, i)
  }

  /** `s.replace(pat, rep)` for a non-empty `pat`. Shrinking replacements
      never make the string longer. */
  function ReplaceAll(s: string, pat: string, rep: string): (r: string)
    requires pat != []
    ensures |rep| <= |pat| ==> |r| <= |s|
    ensures |rep| < |pat| && Contains(s, pat) ==> |r| < |s|
    decreases |s|
  {
    if |s| < |pat| then s
    else if s[..|pat|] == pat then
      assert OccursAt(s, pat, 0);
      rep + ReplaceAll(s[|pat|..], pat, rep)
    else
      ContainsTail(s, pat);
      [s[0]] + ReplaceAll(s[1..], pat, rep)
  }

  /** An occurrence that does not start at index 0 is an occurrence in the tail. */
  lemma ContainsTail(s: string, pat: string)
    requires pat != [] && |s| >= |pat| && s[..|pat|] != pat
    ensures Contains(s, pat) ==> Contains(s[1..], pat)
  {
    if Contains(s, pat) {
      var i :| 0 <= i <= |s| && OccursAt(s, pat, i);
      assert i != 0;
      assert s[1..][i - 1..i - 1 + |pat|] == s[i..i + |pat|];
      assert OccursAt(s[1..], pat, i - 1);
    }
  }

  /** A string in which `pat` does not occur is left unchanged. */
  lemma {:induction false} ReplaceAbsent(s: string, pat: string, rep: string)
    requires pat != []
    requires !Contains(s, pat)
    ensures ReplaceAll(s, pat, rep) == s
    decreases |s|
  {
    if |s| >= |pat| {
      assert !OccursAt(s, pat, 0);
      assert !Contains(s[1..], pat) by {
        forall i | OccursAt(s[1..], pat, i) ensures false {
          assert s[i + 1..i + 1 + |pat|] == s[1..][i..i + |pat|];
          assert OccursAt(s, pat, i + 1);
        }
      }
      ReplaceAbsent(s[1..], pat, rep);
      assert s == [s[0]] + s[1..];
    }
  }

  /** A leading `pat` followed by text free of `pat` comes out as `rep`
      followed by that text, untouched. */
  lemma {:induction false} ReplaceLeading(pat: string, c: string, rep: string)
    requires pat != []
    requires !Contains(c, pat)
    ensures ReplaceAll(pat + c, pat, rep) == rep + c
  {
    var s := pat + c;
    assert s[..|pat|] == pat;
    assert s[|pat|..] == c;
    ReplaceAbsent(c, pat, rep);
  }

  /** Removing every occurrence does not always leave a string free of the
      pattern: the pieces around a removed occurrence can join into a new one.
      Here "__lab__label__el__" loses its middle "__label__" and what is left
      is "__label__" itself. */
  lemma RemovalCanRecreatePattern()
    ensures ReplaceAll("__lab" + ("__label__" + "el__"), "__label__", "") == "__label__"
  {
    var pat, head, tail := "__label__", "__lab", "el__";
    ReplaceLeading(pat, tail, "");
    var s := head + (pat + tail);
    assert !OccursAt(s, pat, 0) by { assert s[5] != pat[5]; }
    assert !OccursAt(s, pat, 1) by { assert s[6] != pat[5]; }
    assert !OccursAt(s, pat, 2) by { assert s[7] != pat[5]; }
    assert !OccursAt(s, pat, 3) by { assert s[8] != pat[5]; }
    assert !OccursAt(s, pat, 4) by { assert s[9] != pat[5]; }
    SkipChars(head, pat + tail, pat, "");
    assert head + tail == pat;
  }

  /** A head none of whose positions starts an occurrence is copied through. */
  lemma {:induction false} SkipChars(head: string, rest: string, pat: string, rep: string)
    requires pat != [] && |rest| >= |pat|
    requires forall k :: 0 <= k < |head| ==> !OccursAt(head + rest, pat, k)
    ensures ReplaceAll(head + rest, pat, rep) == head + ReplaceAll(rest, pat, rep)
    decreases |head|
  {
    if head != [] {
      var s, t := head + rest, head[1..] + rest;
      assert !OccursAt(s, pat, 0);
      assert s[1..] == t;
      forall k | 0 <= k < |head| - 1 ensures !OccursAt(t, pat, k) {
        ShiftOccurrence(s, pat, k);
      }
      SkipChars(head[1..], rest, pat, rep);
      SkipOne(s, pat, rep);
      var r := ReplaceAll(rest, pat, rep);
      assert ReplaceAll(s, pat, rep) == [head[0]] + (head[1..] + r);
      assert [head[0]] + (head[1..] + r) == head + r;
    } else {
      assert head + rest == rest;
    }
  }

  /** Without an occurrence at index 0 the first character is copied through. */
  lemma SkipOne(s: string, pat: string, rep: string)
    requires pat != [] && |s| >= |pat| && !OccursAt(s, pat, 0)
    ensures ReplaceAll(s, pat, rep) == [s[0]] + ReplaceAll(s[1..], pat, rep)
  {
    assert s[..|pat|] == s[0..|pat|];
  }

  /** An occurrence in the tail is an occurrence one position further on. */
  lemma ShiftOccurrence(s: string, pat: string, k: int)
    requires |s| >= 1 && 0 <= k
    ensures OccursAt(s[1..], pat, k) <==> OccursAt(s, pat, k + 1)
  {
    if k + 1 + |pat| <= |s| {
      assert s[1..][k..k + |pat|] == s[k + 1..k + 1 + |pat|];
    }
  }
}
