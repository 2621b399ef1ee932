/** Substring matching, the meaning of a `LIKE '%p%'` pattern without wildcards in `p`. */
module Text {

  predicate IsPrefix(p: string, s: string)
  {
    |p| <= |s| && s[..|p|] == p
  }

  /** Whether `p` occurs in `s`, by trying every start position in turn. */
  function Contains(s: string, p: string): bool
    decreases |s|
  {
    IsPrefix(p, s) || (|s| > 0 && Contains(s[1..], p))
  }

  /** `p` occurs in `s` at some position. */
  ghost predicate IsInfix(p: string, s: string)
  {
    exists i :: 0 <= i <= |s| - |p| && IsPrefix(p, s[i..])
  }

  lemma {:induction false} ContainsIsInfix(s: string, p: string)
    ensures Contains(s, p) <==> IsInfix(p, s)
    decreases |s|
  {
    if IsPrefix(p, s) {
      assert s[0..] == s;
      assert IsInfix(p, s);
    }
    if |s| > 0 {
      ContainsIsInfix(s[1..], p);
      if IsInfix(p, s[1..]) {
        var i :| 0 <= i <= |s[1..]| - |p| && IsPrefix(p, s[1..][i..]);
        assert s[1..][i..] == s[i + 1..];
        assert IsInfix(p, s);
      }
      if IsInfix(p, s) && !IsPrefix(p, s) {
        var i :| 0 <= i <= |s| - |p| && IsPrefix(p, s[i..]);
        assert i != 0;
        assert s[1..][i - 1..] == s[i..];
        assert IsInfix(p, s[1..]);
      }
    } else {
      if IsInfix(p, s) {
        var i :| 0 <= i <= |s| - |p| && IsPrefix(p, s[i..]);
        assert IsPrefix(p, s);
      }
    }
  }
}
