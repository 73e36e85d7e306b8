/** `clean_string` of app.py: drops every parenthesised segment, then every
    bracketed segment, then strips surrounding whitespace.  The two regular
    expressions `\([^)]*\)` and `\[[^]]*\]` are written out as a left-to-right
    scan that behaves as `re.sub` does: at each position an `open` character
    starts a match exactly when some `close` follows it, and the match ends at
    the first such `close`. */
module CleanTitle {
  import opened Text

  /** Some `open` in `s` has a `close` after it, i.e. the regular expression
      for this pair still finds a match. */
  predicate HasGroup(s: string, open: char, close: char)
    decreases |s|
  {
    |s| > 0 && ((s[0] == open && close in s[1..]) || HasGroup(s[1..], open, close))
  }

  /** `re.sub(open [^close]* close, '', s)`. */
  function RemoveGroups(s: string, open: char, close: char): (r: string)
    ensures |r| <= |s|
    ensures IsSubsequence(r, s)
    ensures !HasGroup(r, open, close)
    ensures r == s <==> !HasGroup(s, open, close)
    decreases |s|
  {
    if |s| == 0 then s
    else if s[0] == open && close in s[1..] then
      var rest := s[IndexOf(s[1..], close) + 2..];
      var r := RemoveGroups(rest, open, close);
      SubsequenceOfSuffix(r, s, IndexOf(s[1..], close) + 2);
      r
    else
      var tail := RemoveGroups(s[1..], open, close);
      var r := [s[0]] + tail;
      assert r[1..] == tail;
      if s[0] == open then
        assert close !in tail by {
          if close in tail {
            SubsequenceElements(tail, s[1..], close);
          }
        }
        r
      else
        r
  }

  /** A subsequence of a suffix of `b` is a subsequence of `b`. */
  lemma {:induction false} SubsequenceOfSuffix(a: string, b: string, k: nat)
    requires k <= |b| && IsSubsequence(a, b[k..])
    ensures IsSubsequence(a, b)
    decreases k
  {
    if k > 0 {
      assert b[1..][k - 1..] == b[k..];
      SubsequenceOfSuffix(a, b[1..], k - 1);
    }
  }

  /** Deleting characters cannot create a match. */
  lemma {:induction false} SubsequenceKeepsNoGroup(a: string, b: string, open: char, close: char)
    requires IsSubsequence(a, b) && !HasGroup(b, open, close)
    ensures !HasGroup(a, open, close)
    decreases |b|
  {
    if |a| > 0 {
      if a[0] == b[0] && IsSubsequence(a[1..], b[1..]) {
        SubsequenceKeepsNoGroup(a[1..], b[1..], open, close);
        if a[0] == open && close in a[1..] {
          SubsequenceElements(a[1..], b[1..], close);
        }
      } else {
        SubsequenceKeepsNoGroup(a, b[1..], open, close);
      }
    }
  }

  /** A slice of a string without a match has no match either. */
  lemma {:induction false} SliceKeepsNoGroup(s: string, i: nat, j: nat, open: char, close: char)
    requires i <= j <= |s| && !HasGroup(s, open, close)
    ensures !HasGroup(s[i..j], open, close)
    decreases |s|
  {
    if i > 0 {
      assert s[i..j] == s[1..][i - 1..j - 1];
      SliceKeepsNoGroup(s[1..], i - 1, j - 1, open, close);
    } else if j > 0 {
      assert s[i..j][1..] == s[1..][0..j - 1];
      SliceKeepsNoGroup(s[1..], 0, j - 1, open, close);
    }
  }

  /** Characters before the first `open` are kept unchanged. */
  lemma {:induction false} RemoveGroupsKeepsPrefix(k: string, rest: string, open: char, close: char)
    requires open !in k
    ensures RemoveGroups(k + rest, open, close) == k + RemoveGroups(rest, open, close)
    decreases |k|
  {
    if |k| > 0 {
      var c, tail := k[0], k[1..];
      assert k == [c] + tail;
      assert open !in tail;
      assert k + rest == [c] + (tail + rest);
      RemoveGroupsKeepsChar(c, tail + rest, open, close);
      RemoveGroupsKeepsPrefix(tail, rest, open, close);
    } else {
      assert k + rest == rest;
    }
  }

  /** A character other than `open` is kept, and the scan goes on after it. */
  lemma RemoveGroupsKeepsChar(c: char, rest: string, open: char, close: char)
    requires c != open
    ensures RemoveGroups([c] + rest, open, close) == [c] + RemoveGroups(rest, open, close)
  {
    assert ([c] + rest)[1..] == rest;
  }

  /** A segment `open m close` with no `close` inside `m` disappears entirely. */
  lemma RemoveGroupsDropsSegment(m: string, rest: string, open: char, close: char)
    requires close !in m
    ensures RemoveGroups([open] + m + [close] + rest, open, close) == RemoveGroups(rest, open, close)
  {
    var s := [open] + m + [close] + rest;
    assert s[1..] == m + [close] + rest;
    IndexOfAfter(m, close, rest);
    assert s[|m| + 2..] == rest;
  }

  /** `clean_string(s)` of app.py. */
  function CleanString(s: string): (r: string)
    ensures |r| <= |s|
    ensures Trimmed(Python, r)
    ensures !HasGroup(r, '(', ')') && !HasGroup(r, '[', ']')
    ensures IsSubsequence(r, s)
  {
    var noParens := RemoveGroups(s, '(', ')');
    var noBrackets := RemoveGroups(noParens, '[', ']');
    TrimKeepsNoGroups(noBrackets, noParens);
    TrimSubsequence(noBrackets);
    SubsequenceTransitive(noBrackets, noParens, s);
    SubsequenceTransitive(Trim(Python, noBrackets), noBrackets, s);
    Trim(Python, noBrackets)
  }

  /** Stripping keeps a contiguous run of the characters, in order. */
  lemma TrimSubsequence(t: string)
    ensures IsSubsequence(Trim(Python, t), t)
  {
    var r := Trim(Python, t);
    var i := TrimOffset(Python, t);
    StripsToSlice(Python, t, i, r);
    assert r == t[i..][..|r|];
    PrefixSubsequence(t[i..], |r|);
    SubsequenceOfSuffix(r, t, i);
  }

  /** Neither deleting characters nor stripping the ends creates a match. */
  lemma TrimKeepsNoGroups(t: string, u: string)
    requires IsSubsequence(t, u) && !HasGroup(u, '(', ')') && !HasGroup(t, '[', ']')
    ensures !HasGroup(Trim(Python, t), '(', ')') && !HasGroup(Trim(Python, t), '[', ']')
  {
    SubsequenceKeepsNoGroup(t, u, '(', ')');
    TrimKeepsNoGroup(t, '(', ')');
    TrimKeepsNoGroup(t, '[', ']');
  }

  /** Stripping the ends of a string without a group creates none. */
  lemma TrimKeepsNoGroup(t: string, open: char, close: char)
    requires !HasGroup(t, open, close)
    ensures !HasGroup(Trim(Python, t), open, close)
  {
    var r := Trim(Python, t);
    var i := TrimOffset(Python, t);
    StripsToSlice(Python, t, i, r);
    SliceKeepsNoGroup(t, i, i + |r|, open, close);
  }

  /** Cleaning an already cleaned title changes nothing. */
  lemma CleanStringIdempotent(s: string)
    ensures CleanString(CleanString(s)) == CleanString(s)
  {
    var t := CleanString(s);
    assert RemoveGroups(t, '(', ')') == t;
    assert RemoveGroups(t, '[', ']') == t;
    TrimFixedPoint(Python, t);
  }
}
