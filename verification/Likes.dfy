/** The list update of `toggleLike` in static/script.js: a song already in
    the liked list is removed from it (its first entry), any other song is put
    at the front and a cache request is sent for it. */
module Likes {
  import opened Songs

  /** The updated list, and whether the song was newly liked, which is when
      the client asks the server to cache it. */
  datatype Toggled = Toggled(likes: seq<Song>, cacheRequested: bool)

  /** `toggleLike(song)` applied to the liked list `likes`. */
  function ToggleLike(likes: seq<Song>, song: Song): (r: Toggled)
    ensures r.cacheRequested <==> !HasId(likes, song.id)
    ensures !HasId(likes, song.id) ==> r.likes == [song] + likes
    ensures HasId(likes, song.id) ==>
              var i := FindIndex(likes, song.id);
              0 <= i < |likes| && likes[i].id == song.id
              && r.likes == likes[..i] + likes[i + 1..]
              && forall j :: 0 <= j < i ==> likes[j].id != song.id
  {
    var i := FindIndex(likes, song.id);
    if i != -1 then Toggled(likes[..i] + likes[i + 1..], false)
    else Toggled([song] + likes, true)
  }

  /** Liking a song and toggling it again gives back the original list. */
  lemma ToggleTwiceRestores(likes: seq<Song>, song: Song)
    requires !HasId(likes, song.id)
    ensures ToggleLike(ToggleLike(likes, song).likes, song).likes == likes
  {
    var liked := [song] + likes;
    assert liked[0].id == song.id;
    assert FindIndex(liked, song.id) == 0;
    assert liked[1..] == likes;
  }

  /** On a list without repeated ids, toggling flips whether the song is liked
      and keeps the ids unique. */
  lemma ToggleFlips(likes: seq<Song>, song: Song)
    requires UniqueIds(likes)
    ensures var r := ToggleLike(likes, song).likes;
            UniqueIds(r) && (HasId(r, song.id) <==> !HasId(likes, song.id))
  {
    var r := ToggleLike(likes, song).likes;
    if HasId(likes, song.id) {
      var i := FindIndex(likes, song.id);
      forall k | 0 <= k < |r|
        ensures r[k].id != song.id && exists m :: 0 <= m < |likes| && m != i && r[k] == likes[m]
      {
        if k < i {
          assert r[k] == likes[k];
        } else {
          assert r[k] == likes[k + 1];
        }
      }
      forall a, b | 0 <= a < b < |r|
        ensures r[a].id != r[b].id
      {
        var ma := if a < i then a else a + 1;
        var mb := if b < i then b else b + 1;
        assert r[a] == likes[ma] && r[b] == likes[mb];
      }
    } else {
      assert r[0].id == song.id;
      forall a, b | 0 <= a < b < |r|
        ensures r[a].id != r[b].id
      {
        if a > 0 {
          assert r[a] == likes[a - 1] && r[b] == likes[b - 1];
        } else {
          assert r[b] == likes[b - 1];
        }
      }
    }
  }
}
