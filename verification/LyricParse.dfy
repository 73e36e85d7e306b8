/** `parseLyrics` of static/script.js: splits synced lyrics into lines and keeps
    the lines that start with a `[mm:ss.xx]` or `[mm:ss.xxx]` timestamp and carry
    some text after it.  The regular expression
    `^\[(\d{2}):(\d{2})\.(\d{2,3})\](.*)` is written out as a scan; times are
    integer milliseconds instead of the source's floating-point seconds. */
module LyricParse {
  import opened Wrappers
  import opened Text

  /** One timed line: its start in milliseconds and its text. */
  datatype LyricLine = LyricLine(time: nat, text: string)

  /** The largest time a timestamp can denote: 99 minutes, 99 seconds, 999 ms
      (the seconds field is not limited to 59). */
  const MaxTime: nat := 99 * 60000 + 99 * 1000 + 999

  /** Characters JavaScript's `.` does not match. */
  predicate IsLineTerminator(c: char) {
    c == '\n' || c == '\r' || c == '\U{2028}' || c == '\U{2029}'
  }

  predicate NoTerminator(s: string) {
    forall i :: 0 <= i < |s| ==> !IsLineTerminator(s[i])
  }

  /** What the group `(.*)` captures: everything up to the first line terminator. */
  function UpToTerminator(s: string): (r: string)
    ensures r <= s && NoTerminator(r)
    ensures |r| < |s| ==> IsLineTerminator(s[|r|])
  {
    if |s| == 0 || IsLineTerminator(s[0]) then []
    else
      var tail := UpToTerminator(s[1..]);
      assert forall i :: 1 <= i <= |tail| ==> ([s[0]] + tail)[i] == tail[i - 1];
      [s[0]] + tail
  }

  /** `line` starts with `[dd:dd.` followed by `width` digits and `]`. */
  predicate TagShape(line: string, width: nat) {
    && |line| >= 8 + width
    && line[0] == '[' && IsDigit(line[1]) && IsDigit(line[2]) && line[3] == ':'
    && IsDigit(line[4]) && IsDigit(line[5]) && line[6] == '.'
    && (forall k :: 7 <= k < 7 + width ==> IsDigit(line[k]))
    && line[7 + width] == ']'
  }

  /** A recognised timestamp: the time it denotes and the length of the tag. */
  datatype Stamp = Stamp(time: nat, length: nat)

  /** The time a tag of the given shape denotes: minutes times 60 plus seconds
      plus the fraction digits read as a decimal fraction of a second, so the
      first fraction digit counts hundreds of milliseconds. */
  function TagTime(line: string, width: nat): nat
    requires (width == 2 || width == 3) && TagShape(line, width)
  {
    (DigitValue(line[1]) * 10 + DigitValue(line[2])) * 60000
    + (DigitValue(line[4]) * 10 + DigitValue(line[5])) * 1000
    + DigitValue(line[7]) * 100 + DigitValue(line[8]) * 10
    + (if width == 3 then DigitValue(line[9]) else 0)
  }

  /** The timestamp part of the regular expression.  `\d{2,3}` is greedy: three
      fraction digits are tried first, then two. */
  function MatchStamp(line: string): (r: Option<Stamp>)
    ensures r.Some? <==> TagShape(line, 3) || TagShape(line, 2)
    ensures r.Some? && TagShape(line, 3) ==> r.value == Stamp(TagTime(line, 3), 11)
    ensures r.Some? && TagShape(line, 2) ==> r.value == Stamp(TagTime(line, 2), 10)
    ensures r.Some? ==> r.value.length <= |line| && r.value.time <= MaxTime
  {
    if && |line| >= 10
       && line[0] == '[' && IsDigit(line[1]) && IsDigit(line[2]) && line[3] == ':'
       && IsDigit(line[4]) && IsDigit(line[5]) && line[6] == '.'
       && IsDigit(line[7]) && IsDigit(line[8])
    then
      var minutes := DigitValue(line[1]) * 10 + DigitValue(line[2]);
      var seconds := DigitValue(line[4]) * 10 + DigitValue(line[5]);
      var hundredths := DigitValue(line[7]) * 10 + DigitValue(line[8]);
      if |line| >= 11 && IsDigit(line[9]) && line[10] == ']' then
        Some(Stamp(minutes * 60000 + seconds * 1000 + hundredths * 10 + DigitValue(line[9]), 11))
      else if line[9] == ']' then
        Some(Stamp(minutes * 60000 + seconds * 1000 + hundredths * 10, 10))
      else None
    else None
  }

  /** `match[4].trim()`: the text after a tag of either width, up to the first
      line terminator, without surrounding whitespace. */
  function TextAfterTag(line: string): string
    requires TagShape(line, 2) || TagShape(line, 3)
  {
    Trim(JavaScript, UpToTerminator(line[if TagShape(line, 3) then 11 else 10..]))
  }

  /** One line of `parseLyrics`: an entry when the timestamp matches and the
      captured text is not blank after `trim()`. */
  function ParseLine(line: string): (r: Option<LyricLine>)
    ensures r.Some? <==> (TagShape(line, 2) || TagShape(line, 3)) && TextAfterTag(line) != ""
    ensures r.Some? ==> r.value.time == (if TagShape(line, 3) then TagTime(line, 3) else TagTime(line, 2))
    ensures r.Some? ==> r.value.text == TextAfterTag(line) && Parsed(r.value)
  {
    match MatchStamp(line)
    case None => None
    case Some(stamp) =>
      var text := Trim(JavaScript, UpToTerminator(line[stamp.length..]));
      TrimKeepsNoTerminator(UpToTerminator(line[stamp.length..]));
      if text == "" then None else Some(LyricLine(stamp.time, text))
  }

  /** Trimming text without line terminators leaves none. */
  lemma TrimKeepsNoTerminator(u: string)
    requires NoTerminator(u)
    ensures NoTerminator(Trim(JavaScript, u))
  {
    var text := Trim(JavaScript, u);
    var i := TrimOffset(JavaScript, u);
    assert forall k :: 0 <= k < |text| ==> text[k] == u[i + k];
  }

  /** What every entry the parser produces looks like. */
  predicate Parsed(entry: LyricLine) {
    && entry.time <= MaxTime
    && entry.text != ""
    && Trimmed(JavaScript, entry.text)
    && NoTerminator(entry.text)
  }

  /** The entries of `lines`, in line order. */
  function ParseLines(lines: seq<string>): (r: seq<LyricLine>)
    ensures |r| <= |lines|
    ensures forall e :: e in r ==> Parsed(e)
  {
    if |lines| == 0 then []
    else
      var rest := ParseLines(lines[1..]);
      var first := ParseLine(lines[0]);
      if first.Some? then [first.value] + rest else rest
  }

  /** `parseLyrics(s)`: the entries of the lines of `s`. */
  function ParseLyrics(s: string): (r: seq<LyricLine>)
    ensures |r| <= |Split(s, '\n')|
    ensures forall e :: e in r ==> Parsed(e)
  {
    ParseLines(Split(s, '\n'))
  }

  /** Entries keep the order of their lines: parsing distributes over
      concatenation of line lists. */
  lemma {:induction false} ParseLinesAppend(a: seq<string>, b: seq<string>)
    ensures ParseLines(a + b) == ParseLines(a) + ParseLines(b)
    decreases |a|
  {
    if |a| == 0 {
      assert a + b == b;
    } else {
      assert (a + b)[0] == a[0] && (a + b)[1..] == a[1..] + b;
      ParseLinesAppend(a[1..], b);
    }
  }

  /** Two and three fraction digits denote the same time when the third digit
      is zero: `.50` and `.500` are both half a second. */
  lemma FractionWidthAgrees(line: string)
    requires TagShape(line, 2)
    ensures var padded := line[..9] + "0" + line[9..];
            TagShape(padded, 3) && TagTime(padded, 3) == TagTime(line, 2)
  {
  }

  /** The zero-padded decimal digits of `n`, most significant first. */
  function Digits(n: nat, width: nat): (s: string)
    ensures |s| == width
    ensures forall k :: 0 <= k < width ==> IsDigit(s[k])
  {
    if width == 0 then ""
    else Digits(n / 10, width - 1) + [DigitChar(n % 10)]
  }

  /** The timestamp tag `[mm:ss.xxx]` written for a time below 100 minutes. */
  function FormatStamp(time: nat): (s: string)
    requires time < 6000000
    ensures TagShape(s, 3) && |s| == 11
    ensures TagTime(s, 3) == time
  {
    var minutes, seconds, millis := time / 60000, time / 1000 % 60, time % 1000;
    var s := "[" + Digits(minutes, 2) + ":" + Digits(seconds, 2) + "." + Digits(millis, 3) + "]";
    assert s[1..3] == Digits(minutes, 2) && s[4..6] == Digits(seconds, 2) && s[7..10] == Digits(millis, 3);
    TimeParts(time);
    TwoDigits(minutes);
    TwoDigits(seconds);
    ThreeDigits(millis);
    s
  }

  /** Minutes, seconds and milliseconds of a time below 100 minutes. */
  lemma TimeParts(time: nat)
    requires time < 6000000
    ensures time / 60000 < 100 && time / 1000 % 60 < 100 && time % 1000 < 1000
    ensures time / 60000 * 60000 + time / 1000 % 60 * 1000 + time % 1000 == time
  {
    assert time / 1000 == time / 60000 * 60 + time / 1000 % 60;
  }

  lemma TwoDigits(n: nat)
    requires n < 100
    ensures DigitValue(Digits(n, 2)[0]) * 10 + DigitValue(Digits(n, 2)[1]) == n
  {
    assert Digits(n, 2) == [DigitChar(n / 10 % 10), DigitChar(n % 10)];
  }

  lemma ThreeDigits(n: nat)
    requires n < 1000
    ensures DigitValue(Digits(n, 3)[0]) * 100 + DigitValue(Digits(n, 3)[1]) * 10
            + DigitValue(Digits(n, 3)[2]) == n
  {
    assert Digits(n, 3) == [DigitChar(n / 100 % 10), DigitChar(n / 10 % 10), DigitChar(n % 10)];
  }

  /** A line the parser can produce, with a time a tag can write. */
  predicate Writable(entry: LyricLine) {
    Parsed(entry) && entry.time < 6000000
  }

  /** The line of lyrics file text that carries `entry`. */
  function FormatLine(entry: LyricLine): (line: string)
    requires Writable(entry)
    ensures '\n' !in line
  {
    var line := FormatStamp(entry.time) + entry.text;
    assert forall k :: 11 <= k < |line| ==> line[k] == entry.text[k - 11];
    line
  }

  /** The stamp of a written line is recognised with the written time. */
  lemma MatchFormatted(entry: LyricLine)
    requires Writable(entry)
    ensures MatchStamp(FormatLine(entry)) == Some(Stamp(entry.time, 11))
  {
    var line := FormatLine(entry);
    assert line[..11] == FormatStamp(entry.time);
    assert TagShape(line, 3);
    assert TagTime(line, 3) == TagTime(FormatStamp(entry.time), 3);
  }

  /** Parsing a written line gives back its time and text. */
  lemma ParseFormatLine(entry: LyricLine)
    requires Writable(entry)
    ensures ParseLine(FormatLine(entry)) == Some(entry)
  {
    var line := FormatLine(entry);
    MatchFormatted(entry);
    assert line[11..] == entry.text;
    UpToTerminatorWhole(entry.text);
    TrimFixedPoint(JavaScript, entry.text);
  }

  /** Text without terminators is captured whole. */
  lemma {:induction false} UpToTerminatorWhole(s: string)
    requires NoTerminator(s)
    ensures UpToTerminator(s) == s
  {
    if |s| > 0 {
      UpToTerminatorWhole(s[1..]);
    }
  }

  /** Entries written one per line. */
  function FormatLines(entries: seq<LyricLine>): (lines: seq<string>)
    requires forall i :: 0 <= i < |entries| ==> Writable(entries[i])
    ensures |lines| == |entries|
    ensures forall i :: 0 <= i < |lines| ==> '\n' !in lines[i]
  {
    if |entries| == 0 then []
    else [FormatLine(entries[0])] + FormatLines(entries[1..])
  }

  /** Writing entries one per line and parsing the text gives the entries back. */
  lemma ParseFormatted(entries: seq<LyricLine>)
    requires forall i :: 0 <= i < |entries| ==> Writable(entries[i])
    ensures ParseLyrics(Join(FormatLines(entries), '\n')) == entries
  {
    var lines := FormatLines(entries);
    if |lines| == 0 {
      assert Split("", '\n') == [""];
      assert ParseLine("") == None;
    } else {
      SplitJoin(lines, '\n');
      ParseFormattedLines(entries);
    }
  }

  lemma ParseLinesCons(line: string, rest: seq<string>)
    ensures ParseLines([line] + rest) ==
            (if ParseLine(line).Some? then [ParseLine(line).value] else []) + ParseLines(rest)
  {
    assert ([line] + rest)[1..] == rest;
  }

  lemma {:induction false} ParseFormattedLines(entries: seq<LyricLine>)
    requires forall i :: 0 <= i < |entries| ==> Writable(entries[i])
    ensures ParseLines(FormatLines(entries)) == entries
    decreases |entries|
  {
    if |entries| > 0 {
      var head, tail := entries[0], entries[1..];
      var rest := FormatLines(tail);
      assert FormatLines(entries) == [FormatLine(head)] + rest;
      ParseFormatLine(head);
      ParseFormattedLines(tail);
      ParseLinesCons(FormatLine(head), rest);
      ConsTail(entries);
    }
  }

  lemma ConsTail<T>(s: seq<T>)
    requires |s| > 0
    ensures [s[0]] + s[1..] == s
  {
  }
}
