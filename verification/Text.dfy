/** String helpers shared by the server-side and client-side models:
    whitespace trimming as Python and JavaScript define it, ASCII
    lower-casing, substring containment, splitting on a separator,
    subsequences and decimal digits. */
module Text {

  /** The two runtimes whose `strip`/`trim` the model needs. */
  datatype Runtime = Python | JavaScript

  /** Characters removed by Python's `str.strip()` (those for which
      `str.isspace()` holds) and by JavaScript's `String.prototype.trim`
      (WhiteSpace and LineTerminator of ECMAScript). */
  predicate IsSpace(rt: Runtime, c: char) {
    || '\t' <= c <= '\r'   // tab, line feed, vertical tab, form feed, carriage return
    || c == ' '
    || c == '\U{00A0}'
    || c == '\U{1680}'
    || '\U{2000}' <= c <= '\U{200A}'
    || c == '\U{2028}'
    || c == '\U{2029}'
    || c == '\U{202F}'
    || c == '\U{205F}'
    || c == '\U{3000}'
    || (rt == Python && ('\U{001C}' <= c <= '\U{001F}' || c == '\U{0085}'))
    || (rt == JavaScript && c == '\U{FEFF}')
  }

  /** `s` has no removable whitespace at either end. */
  predicate Trimmed(rt: Runtime, s: string) {
    |s| == 0 || (!IsSpace(rt, s[0]) && !IsSpace(rt, s[|s| - 1]))
  }

  /** The end of the run of whitespace in `s` that starts at `i`. */
  function SpaceRunEnd(rt: Runtime, s: string, i: nat): (j: nat)
    requires i <= |s|
    ensures i <= j <= |s|
    ensures forall k :: i <= k < j ==> IsSpace(rt, s[k])
    ensures j == |s| || !IsSpace(rt, s[j])
    decreases |s| - i
  {
    if i < |s| && IsSpace(rt, s[i]) then SpaceRunEnd(rt, s, i + 1) else i
  }

  /** The start of the run of whitespace in `s` that ends at `j`, going no
      further back than `lo`. */
  function SpaceRunStart(rt: Runtime, s: string, lo: nat, j: nat): (i: nat)
    requires lo <= j <= |s|
    ensures lo <= i <= j
    ensures forall k :: i <= k < j ==> IsSpace(rt, s[k])
    ensures i == lo || !IsSpace(rt, s[i - 1])
    decreases j
  {
    if j > lo && IsSpace(rt, s[j - 1]) then SpaceRunStart(rt, s, lo, j - 1) else j
  }

  /** `r` is the run of `s` starting at `i`, and everything of `s` outside
      that run is whitespace. */
  predicate StripsTo(rt: Runtime, s: string, i: int, r: string) {
    && 0 <= i <= |s| - |r|
    && (forall k :: 0 <= k < |r| ==> r[k] == s[i + k])
    && (forall k :: 0 <= k < i ==> IsSpace(rt, s[k]))
    && (forall k :: i + |r| <= k < |s| ==> IsSpace(rt, s[k]))
  }

  /** How many characters trimming removes from the front of `s`. */
  function TrimOffset(rt: Runtime, s: string): (i: nat)
    ensures i <= |s|
  {
    SpaceRunEnd(rt, s, 0)
  }

  /** Python's `s.strip()` / JavaScript's `s.trim()`: the run of `s` that
      neither starts nor ends with whitespace, obtained by removing
      whitespace only. */
  function Trim(rt: Runtime, s: string): (r: string)
    ensures |r| <= |s|
    ensures StripsTo(rt, s, TrimOffset(rt, s), r)
    ensures |r| == 0 || (!IsSpace(rt, r[0]) && !IsSpace(rt, r[|r| - 1]))  // Trimmed(rt, r)
  {
    var i := TrimOffset(rt, s);
    var j := SpaceRunStart(rt, s, i, |s|);
    s[i..j]
  }

  /** A run that `StripsTo` describes is the slice of `s` it starts. */
  lemma StripsToSlice(rt: Runtime, s: string, i: int, r: string)
    requires StripsTo(rt, s, i, r)
    ensures r == s[i..i + |r|]
  {
  }

  /** Trimming changes exactly the strings that are not yet trimmed. */
  lemma {:induction false} TrimFixedPoint(rt: Runtime, s: string)
    ensures Trim(rt, s) == s <==> Trimmed(rt, s)
  {
    if Trimmed(rt, s) && |s| > 0 {
      assert TrimOffset(rt, s) == 0;
      assert SpaceRunStart(rt, s, 0, |s|) == |s|;
      assert s[0..|s|] == s;
    }
  }

  /** Trimming twice is trimming once. */
  lemma TrimIdempotent(rt: Runtime, s: string)
    ensures Trim(rt, Trim(rt, s)) == Trim(rt, s)
  {
    TrimFixedPoint(rt, Trim(rt, s));
  }

  /** ASCII lower-casing of one character. */
  function LowerChar(c: char): char {
    if 'A' <= c <= 'Z' then (c as int + 32) as char else c
  }

  /** Lower-casing of a string, character by character. */
  function Lower(s: string): (r: string)
    ensures |r| == |s|
    ensures forall i :: 0 <= i < |r| ==> !('A' <= r[i] <= 'Z')
    ensures forall i :: 0 <= i < |s| ==>
              r[i] == s[i] || ('A' <= s[i] <= 'Z' && r[i] as int == s[i] as int + 32)
  {
    seq(|s|, i requires 0 <= i < |s| => LowerChar(s[i]))
  }

  /** Lower-casing twice is lower-casing once. */
  lemma LowerIdempotent(s: string)
    ensures Lower(Lower(s)) == Lower(s)
  {
  }

  /** `needle` occurs in `hay` as a contiguous run (Python's `needle in hay`). */
  predicate Contains<T(==)>(hay: seq<T>, needle: seq<T>)
    decreases |hay|
  {
    needle <= hay || (|hay| > 0 && Contains(hay[1..], needle))
  }

  /** `needle` occurs in `hay` starting at offset `i`. */
  predicate OccursAt<T(==)>(hay: seq<T>, needle: seq<T>, i: int) {
    0 <= i <= |hay| - |needle| && hay[i..i + |needle|] == needle
  }

  /** Containment means an occurrence at some offset. */
  lemma {:induction false} ContainsAt<T>(hay: seq<T>, needle: seq<T>)
    ensures Contains(hay, needle) <==> exists i :: OccursAt(hay, needle, i)
    decreases |hay|
  {
    if needle <= hay {
      assert OccursAt(hay, needle, 0);
    } else if |hay| > 0 {
      ContainsAt(hay[1..], needle);
      if Contains(hay[1..], needle) {
        var i :| OccursAt(hay[1..], needle, i);
        assert OccursAt(hay, needle, i + 1);
      } else {
        forall i | OccursAt(hay, needle, i)
          ensures i > 0 && OccursAt(hay[1..], needle, i - 1)
        {
        }
      }
    } else {
      assert forall i :: OccursAt(hay, needle, i) ==> needle <= hay;
    }
  }

  /** `a` is obtained from `b` by deleting elements, keeping the order of the rest. */
  predicate IsSubsequence<T(==)>(a: seq<T>, b: seq<T>)
    decreases |b|
  {
    || |a| == 0
    || (|b| > 0 && ((a[0] == b[0] && IsSubsequence(a[1..], b[1..])) || IsSubsequence(a, b[1..])))
  }

  /** A subsequence holds no element its source does not hold. */
  lemma {:induction false} SubsequenceElements<T>(a: seq<T>, b: seq<T>, x: T)
    requires IsSubsequence(a, b) && x in a
    ensures x in b
    decreases |b|
  {
    if a[0] == b[0] && IsSubsequence(a[1..], b[1..]) {
      if x != a[0] {
        SubsequenceElements(a[1..], b[1..], x);
      }
    } else {
      SubsequenceElements(a, b[1..], x);
    }
  }

  /** Every prefix of `b` is a subsequence of `b`. */
  lemma {:induction false} PrefixSubsequence<T>(b: seq<T>, j: nat)
    requires j <= |b|
    ensures IsSubsequence(b[..j], b)
    decreases j
  {
    if j > 0 {
      assert b[..j][1..] == b[1..][..j - 1];
      PrefixSubsequence(b[1..], j - 1);
    }
  }

  /** A subsequence of a subsequence of `c` is a subsequence of `c`. */
  lemma {:induction false} SubsequenceTransitive<T>(a: seq<T>, b: seq<T>, c: seq<T>)
    requires IsSubsequence(a, b) && IsSubsequence(b, c)
    ensures IsSubsequence(a, c)
    decreases |c|
  {
    if |a| > 0 {
      if b[0] == c[0] && IsSubsequence(b[1..], c[1..]) {
        if a[0] == b[0] && IsSubsequence(a[1..], b[1..]) {
          SubsequenceTransitive(a[1..], b[1..], c[1..]);
        } else {
          SubsequenceTransitive(a, b[1..], c[1..]);
        }
      } else {
        SubsequenceTransitive(a, b, c[1..]);
      }
    }
  }

  function IndexOf<T(==)>(s: seq<T>, x: T): (i: nat)
    requires x in s
    ensures i < |s| && s[i] == x && x !in s[..i]
  {
    if s[0] == x then 0 else 1 + IndexOf(s[1..], x)
  }

  /** The first `x` after a prefix free of `x` sits right after that prefix. */
  lemma {:induction false} IndexOfAfter<T>(a: seq<T>, x: T, b: seq<T>)
    requires x !in a
    ensures x in a + [x] + b && IndexOf(a + [x] + b, x) == |a|
    decreases |a|
  {
    var s := a + [x] + b;
    assert s[|a|] == x;
    if |a| > 0 {
      assert s[1..] == a[1..] + [x] + b;
      IndexOfAfter(a[1..], x, b);
    }
  }

  /** JavaScript's `s.split(sep)` for a one-character separator: the pieces
      between separators, including empty ones at either end. */
  function Split(s: string, sep: char): (pieces: seq<string>)
    ensures |pieces| >= 1
    ensures forall i :: 0 <= i < |pieces| ==> sep !in pieces[i]
    ensures Join(pieces, sep) == s
    decreases |s|
  {
    if sep !in s then [s]
    else
      var i := IndexOf(s, sep);
      var rest := Split(s[i + 1..], sep);
      assert s == s[..i] + [sep] + s[i + 1..];
      [s[..i]] + rest
  }

  /** The pieces glued back together with `sep` between consecutive ones. */
  function Join(pieces: seq<string>, sep: char): string {
    if |pieces| == 0 then ""
    else if |pieces| == 1 then pieces[0]
    else pieces[0] + [sep] + Join(pieces[1..], sep)
  }

  /** Splitting recovers pieces that were joined, when no piece holds the separator. */
  lemma {:induction false} SplitJoin(pieces: seq<string>, sep: char)
    requires |pieces| >= 1
    requires forall i :: 0 <= i < |pieces| ==> sep !in pieces[i]
    ensures Split(Join(pieces, sep), sep) == pieces
    decreases |pieces|
  {
    var s := Join(pieces, sep);
    if |pieces| > 1 {
      var head := pieces[0];
      var tail := Join(pieces[1..], sep);
      assert s == head + [sep] + tail;
      IndexOfAfter(head, sep, tail);
      assert s[|head| + 1..] == tail;
      assert s[..|head|] == head;
      SplitJoin(pieces[1..], sep);
    }
  }

  predicate IsDigit(c: char) {
    '0' <= c <= '9'
  }

  predicate AllDigits(s: string) {
    forall i :: 0 <= i < |s| ==> IsDigit(s[i])
  }

  function DigitChar(d: nat): (c: char)
    requires d < 10
    ensures IsDigit(c) && c as int - '0' as int == d
  {
    ('0' as int + d) as char
  }

  function DigitValue(c: char): (d: nat)
    requires IsDigit(c)
    ensures d < 10 && DigitChar(d) == c
  {
    c as int - '0' as int
  }

  /** The number a run of decimal digits denotes (most significant first). */
  function DecimalValue(s: string): nat
    requires AllDigits(s)
  {
    if |s| == 0 then 0
    else 10 * DecimalValue(s[..|s| - 1]) + DigitValue(s[|s| - 1])
  }

  /** The decimal numeral of `n` as JavaScript's template literals and
      `String(n)` write it: at least one digit, no leading zero. */
  function Decimal(n: nat): (s: string)
    ensures |s| >= 1 && AllDigits(s)
    ensures |s| > 1 ==> s[0] != '0'
    ensures DecimalValue(s) == n
  {
    if n < 10 then [DigitChar(n)]
    else
      var front := Decimal(n / 10);
      var s := front + [DigitChar(n % 10)];
      assert s[..|s| - 1] == front;
      s
  }
}
