/** The index loop of `syncLyrics` in static/script.js: the line to highlight
    at playback time `t` is the last one of the leading run of lines whose
    time is not after `t`; the scan stops at the first later line.  Times are
    integer milliseconds. */
module LyricSync {
  import opened LyricParse

  /** How many lines from the start have a time not after `t`. */
  function LeadingDue(lyrics: seq<LyricLine>, t: int): (n: nat)
    ensures n <= |lyrics|
  {
    if |lyrics| == 0 || lyrics[0].time > t then 0 else 1 + LeadingDue(lyrics[1..], t)
  }

  /** The index loop: `idx` is -1 when no line is due yet. */
  method ActiveIndex(lyrics: seq<LyricLine>, t: int) returns (idx: int)
    ensures -1 <= idx < |lyrics|
    ensures forall j :: 0 <= j <= idx ==> lyrics[j].time <= t
    ensures idx + 1 < |lyrics| ==> lyrics[idx + 1].time > t
    ensures idx == LeadingDue(lyrics, t) - 1
  {
    idx := -1;
    var i := 0;
    while i < |lyrics|
      invariant 0 <= i <= |lyrics| && idx == i - 1
      invariant forall j :: 0 <= j < i ==> lyrics[j].time <= t
    {
      if t >= lyrics[i].time {
        idx := i;
        i := i + 1;
      } else {
        break;
      }
    }
    LeadingDueUnique(lyrics, t, idx + 1);
  }

  /** The leading run is determined by where it stops. */
  lemma {:induction false} LeadingDueUnique(lyrics: seq<LyricLine>, t: int, n: nat)
    requires n <= |lyrics|
    requires forall j :: 0 <= j < n ==> lyrics[j].time <= t
    requires n < |lyrics| ==> lyrics[n].time > t
    ensures LeadingDue(lyrics, t) == n
    decreases n
  {
    if n > 0 {
      LeadingDueUnique(lyrics[1..], t, n - 1);
    }
  }

  predicate Ascending(lyrics: seq<LyricLine>) {
    forall i, j :: 0 <= i < j < |lyrics| ==> lyrics[i].time <= lyrics[j].time
  }

  /** With ascending times the highlighted line is the last one not after `t`. */
  lemma {:induction false} LastDue(lyrics: seq<LyricLine>, t: int)
    requires Ascending(lyrics)
    ensures var n := LeadingDue(lyrics, t);
            (forall j :: 0 <= j < n ==> lyrics[j].time <= t)
            && (forall j :: n <= j < |lyrics| ==> lyrics[j].time > t)
    decreases |lyrics|
  {
    if |lyrics| > 0 && lyrics[0].time <= t {
      LastDue(lyrics[1..], t);
      assert forall j :: 1 <= j < |lyrics| ==> lyrics[j] == lyrics[1..][j - 1];
    }
  }

  /** The highlighted index never moves back while playback moves forward. */
  lemma {:induction false} LeadingDueMonotone(lyrics: seq<LyricLine>, t1: int, t2: int)
    requires t1 <= t2
    ensures LeadingDue(lyrics, t1) <= LeadingDue(lyrics, t2)
    decreases |lyrics|
  {
    if |lyrics| > 0 && lyrics[0].time <= t1 {
      LeadingDueMonotone(lyrics[1..], t1, t2);
    }
  }
}
