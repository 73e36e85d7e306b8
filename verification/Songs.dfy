/** The song records the client keeps in its lists (static/script.js): a
    numeric id, compared with `===`, and the fields it displays. */
module Songs {
  import opened Text

  datatype Song = Song(id: int, title: string, artist: string)

  /** Some entry of `songs` has id `id` (`songs.some(s => s.id === id)`). */
  predicate HasId(songs: seq<Song>, id: int) {
    exists i :: 0 <= i < |songs| && songs[i].id == id
  }

  /** No two entries share an id. */
  predicate UniqueIds(songs: seq<Song>) {
    forall i, j :: 0 <= i < j < |songs| ==> songs[i].id != songs[j].id
  }

  /** `songs.findIndex(s => s.id === id)`: the first position holding `id`,
      or -1. */
  function FindIndex(songs: seq<Song>, id: int): (i: int)
    ensures -1 <= i < |songs|
    ensures i >= 0 ==> songs[i].id == id && forall j :: 0 <= j < i ==> songs[j].id != id
    ensures i == -1 <==> !HasId(songs, id)
  {
    if |songs| == 0 then -1
    else if songs[0].id == id then 0
    else
      var k := FindIndex(songs[1..], id);
      assert forall j :: 1 <= j < |songs| ==> songs[j] == songs[1..][j - 1];
      if k == -1 then -1 else k + 1
  }

  /** `songs.filter(x => x.id !== id)`. */
  function WithoutId(songs: seq<Song>, id: int): (r: seq<Song>)
    ensures |r| <= |songs|
    ensures IsSubsequence(r, songs)
    ensures !HasId(r, id)
    ensures forall x :: x in r <==> x in songs && x.id != id
    ensures !HasId(songs, id) ==> r == songs
    decreases |songs|
  {
    if |songs| == 0 then []
    else
      var tail := WithoutId(songs[1..], id);
      assert songs == [songs[0]] + songs[1..];
      if songs[0].id == id then
        assert IsSubsequence(tail, songs) by {
          if |tail| > 0 {
            assert IsSubsequence(tail, songs[1..]);
          }
        }
        tail
      else
        var r := [songs[0]] + tail;
        assert forall j :: 1 <= j < |r| ==> r[j] == tail[j - 1];
        r
  }

  /** Filtering distributes over concatenation.  With the one-entry case of
      the contract above (an entry is kept exactly when its id differs), this
      fixes the result entry by entry, repeated entries included. */
  lemma {:induction false} WithoutIdAppend(a: seq<Song>, b: seq<Song>, id: int)
    ensures WithoutId(a + b, id) == WithoutId(a, id) + WithoutId(b, id)
    decreases |a|
  {
    if |a| == 0 {
      assert a + b == b;
    } else {
      assert (a + b)[0] == a[0] && (a + b)[1..] == a[1..] + b;
      WithoutIdAppend(a[1..], b, id);
    }
  }

  /** One entry is kept exactly when its id differs. */
  lemma WithoutIdSingle(x: Song, id: int)
    ensures WithoutId([x], id) == (if x.id == id then [] else [x])
  {
    var r := WithoutId([x], id);
    if x.id != id {
      assert x in r;
    }
  }

  /** Filtering a list with unique ids leaves unique ids. */
  lemma {:induction false} WithoutIdKeepsUnique(songs: seq<Song>, id: int)
    requires UniqueIds(songs)
    ensures UniqueIds(WithoutId(songs, id))
    decreases |songs|
  {
    if |songs| > 0 {
      WithoutIdKeepsUnique(songs[1..], id);
      var tail := WithoutId(songs[1..], id);
      if songs[0].id != id {
        var r := [songs[0]] + tail;
        forall j | 0 < j < |r|
          ensures r[0].id != r[j].id
        {
          assert r[j] in songs[1..];
          var k :| 0 <= k < |songs[1..]| && songs[1..][k] == r[j];
          assert songs[k + 1] == r[j];
        }
      }
    }
  }

  /** A song put in front of a list without its id keeps ids unique. */
  lemma ConsUnique(s: Song, songs: seq<Song>)
    requires UniqueIds(songs) && !HasId(songs, s.id)
    ensures UniqueIds([s] + songs)
  {
    var r := [s] + songs;
    forall i, j | 0 <= i < j < |r|
      ensures r[i].id != r[j].id
    {
      assert r[j] == songs[j - 1];
      if i > 0 {
        assert r[i] == songs[i - 1];
      }
    }
  }

  /** A prefix of a list with unique ids has unique ids. */
  lemma PrefixUnique(a: seq<Song>, b: seq<Song>)
    requires a <= b && UniqueIds(b)
    ensures UniqueIds(a)
  {
    assert forall i :: 0 <= i < |a| ==> a[i] == b[i];
  }
}
