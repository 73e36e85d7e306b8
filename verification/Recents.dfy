/** `addToRecents` of static/script.js: the recently played list drops any
    earlier entry of the song, puts the song first, and removes the last entry
    once the list is longer than ten. */
module Recents {
  import opened Songs

  /** The length the recently played list is cut back to. */
  const Capacity: nat := 10

  /** `addToRecents(s)` applied to the stored list `stored`. */
  function AddToRecents(stored: seq<Song>, s: Song): (r: seq<Song>)
    ensures |r| >= 1 && r[0] == s
    ensures forall i :: 1 <= i < |r| ==> r[i].id != s.id
    ensures r[1..] <= WithoutId(stored, s.id)
    ensures |WithoutId(stored, s.id)| < Capacity ==> r[1..] == WithoutId(stored, s.id)
    ensures |stored| <= Capacity ==> |r| <= Capacity
    ensures |r| >= |WithoutId(stored, s.id)|
    ensures var others := WithoutId(stored, s.id);
            |others| >= Capacity ==> r[1..] == others[..|others| - 1]
  {
    var others := WithoutId(stored, s.id);
    var kept := [s] + others;
    assert kept[1..] == others;
    if |kept| > Capacity then kept[..|kept| - 1] else kept
  }

  /** What the page relies on: at most ten entries, no id twice. */
  predicate Valid(recents: seq<Song>) {
    |recents| <= Capacity && UniqueIds(recents)
  }

  /** Adding a song keeps the list valid. */
  lemma AddToRecentsValid(stored: seq<Song>, s: Song)
    requires Valid(stored)
    ensures Valid(AddToRecents(stored, s))
  {
    var others := WithoutId(stored, s.id);
    WithoutIdKeepsUnique(stored, s.id);
    ConsUnique(s, others);
    PrefixUnique(AddToRecents(stored, s), [s] + others);
  }

  /** Playing the song that is already at the front again leaves the list
      unchanged, for any stored list of at most ten entries. */
  lemma AddToRecentsIdempotent(stored: seq<Song>, s: Song)
    requires |stored| <= Capacity
    ensures AddToRecents(AddToRecents(stored, s), s) == AddToRecents(stored, s)
  {
    var r := AddToRecents(stored, s);
    assert !HasId(r[1..], s.id);
    assert WithoutId(r, s.id) == r[1..] by {
      assert r == [r[0]] + r[1..];
      assert WithoutId(r, s.id) == WithoutId(r[1..], s.id);
    }
  }
}
