/** The selection rule of `fetch_lyrics` in app.py.  The three HTTP requests to
    the lyrics search service are replaced by a `search` parameter mapping each
    query to the reply it gets; a reply that raised (network error, body that is
    not JSON) is the `Failed` variant, and every exception ends the lookup with
    no lyrics, as the function's bare `except` does. */
module LyricsLookup {
  import opened Wrappers
  import opened Text
  import CleanTitle

  /** One element of the JSON array a search returns.  `NonRecord` is an element
      that is not an object, on which `item.get` raises; a missing or non-string
      field is `None`. */
  datatype Item =
    | Record(syncedLyrics: Option<string>, artistName: Option<string>)
    | NonRecord

  /** What one search request yields once `resp.json()` has run. */
  datatype Reply = Failed | NotAList | Listing(items: seq<Item>)

  /** The query parameters of a search: by artist and track name, or free text. */
  datatype Query = ByTrack(artist: string, track: string) | FreeText(q: string)

  /** The outcome of scanning one reply. */
  datatype Scan = Found(lyrics: string) | Exhausted | Raised

  /** What `fetch_lyrics` returns, together with the queries it sent, in order. */
  datatype Lookup = Lookup(lyrics: Option<string>, queries: seq<Query>)

  /** `item.get('syncedLyrics')` is truthy: present and non-empty. */
  predicate HasSynced(item: Item) {
    item.Record? && item.syncedLyrics.Some? && item.syncedLyrics.value != ""
  }

  /** An item a scan for synced lyrics passes over without raising. */
  predicate Unsynced(item: Item) {
    item.Record? && !HasSynced(item)
  }

  /** The loop `for item in data: if item.get('syncedLyrics'): return ...`. */
  function FirstSynced(items: seq<Item>): (r: Scan)
    ensures r.Found? ==> exists i :: (0 <= i < |items| && HasSynced(items[i])
                          && items[i].syncedLyrics.value == r.lyrics
                          && forall j :: 0 <= j < i ==> Unsynced(items[j]))
    ensures r.Exhausted? <==> forall j :: 0 <= j < |items| ==> Unsynced(items[j])
    ensures r.Raised? ==> exists i :: (0 <= i < |items| && items[i].NonRecord?
                          && forall j :: 0 <= j < i ==> Unsynced(items[j]))
    decreases |items|
  {
    if |items| == 0 then Exhausted
    else if items[0].NonRecord? then Raised
    else if HasSynced(items[0]) then Found(items[0].syncedLyrics.value)
    else
      var r := FirstSynced(items[1..]);
      assert forall j :: 1 <= j < |items| ==> items[j] == items[1..][j - 1];
      r
  }

  /** The artist test of the free-text fallback: case-insensitive containment
      of either name in the other. */
  predicate ArtistMatches(artist: string, name: string)
    ensures ArtistMatches(artist, name) <==>
              (exists i :: OccursAt(Lower(name), Lower(artist), i))
              || (exists i :: OccursAt(Lower(artist), Lower(name), i))
  {
    ContainsAt(Lower(name), Lower(artist));
    ContainsAt(Lower(artist), Lower(name));
    Contains(Lower(name), Lower(artist)) || Contains(Lower(artist), Lower(name))
  }

  /** An item the free-text scan accepts. */
  predicate Accepted(artist: string, item: Item) {
    HasSynced(item) && item.artistName.Some? && ArtistMatches(artist, item.artistName.value)
  }

  /** An item the free-text scan passes over without raising. */
  predicate Skipped(artist: string, item: Item) {
    Unsynced(item) || (HasSynced(item) && item.artistName.Some? && !ArtistMatches(artist, item.artistName.value))
  }

  /** An item on which the fallback loop raises: not an object, or synced
      lyrics without an artist name to lower-case. */
  predicate Aborts(item: Item) {
    item.NonRecord? || (HasSynced(item) && item.artistName.None?)
  }

  /** The fallback loop: the first synced item whose artist name matches;
      reading the name of a synced item raises when it is missing. */
  function FirstMatching(artist: string, items: seq<Item>): (r: Scan)
    ensures r.Found? ==> exists i :: (0 <= i < |items| && Accepted(artist, items[i])
                          && items[i].syncedLyrics.value == r.lyrics
                          && forall j :: 0 <= j < i ==> Skipped(artist, items[j]))
    ensures r.Exhausted? <==> forall j :: 0 <= j < |items| ==> Skipped(artist, items[j])
    ensures r.Raised? ==> exists i :: (0 <= i < |items| && Aborts(items[i])
                           && forall j :: 0 <= j < i ==> Skipped(artist, items[j]))
    decreases |items|
  {
    if |items| == 0 then Exhausted
    else if items[0].NonRecord? then Raised
    else if HasSynced(items[0]) && items[0].artistName.None? then Raised
    else if Accepted(artist, items[0]) then Found(items[0].syncedLyrics.value)
    else
      var r := FirstMatching(artist, items[1..]);
      assert forall j :: 1 <= j < |items| ==> items[j] == items[1..][j - 1];
      r
  }

  /** One search of the first two steps: a reply that raised aborts the
      lookup, one that is not a list is passed over, and a list yields the
      lyrics of its first synced item. */
  function ScanReply(reply: Reply): (r: Scan)
    ensures reply.Failed? ==> r.Raised?
    ensures r.Exhausted? <==> reply.NotAList? || (reply.Listing? && forall j :: 0 <= j < |reply.items| ==> Unsynced(reply.items[j]))
    ensures r.Found? ==> reply.Listing? && exists i :: (0 <= i < |reply.items| && HasSynced(reply.items[i])
                          && reply.items[i].syncedLyrics.value == r.lyrics
                          && forall j :: 0 <= j < i ==> Unsynced(reply.items[j]))
    ensures r.Raised? && reply.Listing? ==> exists i :: (0 <= i < |reply.items| && reply.items[i].NonRecord?
                          && forall j :: 0 <= j < i ==> Unsynced(reply.items[j]))
  {
    match reply
    case Failed => Raised
    case NotAList => Exhausted
    case Listing(items) => FirstSynced(items)
  }

  /** The free-text search: as `ScanReply`, but a list yields the lyrics of
      its first synced item whose artist matches. */
  function ScanFallback(artist: string, reply: Reply): (r: Scan)
    ensures reply.Failed? ==> r.Raised?
    ensures r.Exhausted? <==> reply.NotAList? || (reply.Listing? && forall j :: 0 <= j < |reply.items| ==> Skipped(artist, reply.items[j]))
    ensures r.Found? ==> reply.Listing? && exists i :: (0 <= i < |reply.items| && Accepted(artist, reply.items[i])
                          && reply.items[i].syncedLyrics.value == r.lyrics
                          && forall j :: 0 <= j < i ==> Skipped(artist, reply.items[j]))
    ensures r.Raised? && reply.Listing? ==> exists i :: (0 <= i < |reply.items| && Aborts(reply.items[i])
                          && forall j :: 0 <= j < i ==> Skipped(artist, reply.items[j]))
  {
    match reply
    case Failed => Raised
    case NotAList => Exhausted
    case Listing(items) => FirstMatching(artist, items)
  }

  /** `fetch_lyrics(artist, title)` with its HTTP requests answered by `search`. */
  function FetchLyrics(artist: string, title: string, search: Query -> Reply): (r: Lookup)
    ensures 1 <= |r.queries| <= 3 && r.queries[0] == ByTrack(artist, title)
    ensures var first := ScanReply(search(ByTrack(artist, title)));
            !first.Exhausted? ==>
              r == Lookup(if first.Found? then Some(first.lyrics) else None, [ByTrack(artist, title)])
    ensures var clean := CleanTitle.CleanString(title);
            (|r.queries| >= 2 && r.queries[1] == ByTrack(artist, clean))
            <==> (ScanReply(search(ByTrack(artist, title))).Exhausted? && clean != title)
    ensures var clean := CleanTitle.CleanString(title);
            forall i :: 1 <= i < |r.queries| ==> r.queries[i] == ByTrack(artist, clean) || r.queries[i] == FreeText(clean)
    ensures r.lyrics.Some? ==> r.lyrics.value != ""
    ensures var clean := CleanTitle.CleanString(title);
            var second := ScanReply(search(ByTrack(artist, clean)));
            ScanReply(search(ByTrack(artist, title))).Exhausted? && clean != title && !second.Exhausted? ==>
              r == Lookup(if second.Found? then Some(second.lyrics) else None,
                          [ByTrack(artist, title), ByTrack(artist, clean)])
    ensures var clean := CleanTitle.CleanString(title);
            var second := ScanReply(search(ByTrack(artist, clean)));
            var third := ScanFallback(artist, search(FreeText(clean)));
            ScanReply(search(ByTrack(artist, title))).Exhausted? && (clean == title || second.Exhausted?) ==>
              && r.queries == [ByTrack(artist, title)] + (if clean != title then [ByTrack(artist, clean)] else [])
                              + [FreeText(clean)]
              && (r.lyrics.Some? <==> third.Found?)
              && (third.Found? ==> r.lyrics.value == third.lyrics)
  {
    var first := ByTrack(artist, title);
    var clean := CleanTitle.CleanString(title);
    match ScanReply(search(first))
    case Found(l) => Lookup(Some(l), [first])
    case Raised => Lookup(None, [first])
    case Exhausted => Retry(artist, title, clean, search)
  }

  /** Everything after the first query found nothing: the cleaned-title query,
      sent only when cleaning changed the title, then the free-text query. */
  function Retry(artist: string, title: string, clean: string, search: Query -> Reply): (r: Lookup)
    ensures 2 <= |r.queries| <= 3 && r.queries[0] == ByTrack(artist, title)
    ensures r.queries[1] == ByTrack(artist, clean) <==> clean != title
    ensures forall i :: 1 <= i < |r.queries| ==> r.queries[i] == ByTrack(artist, clean) || r.queries[i] == FreeText(clean)
    ensures FreeText(clean) in r.queries ==>
              (clean != title ==> ScanReply(search(ByTrack(artist, clean))).Exhausted?)
    ensures FreeText(clean) in r.queries && r.lyrics.Some? ==> FallbackFound(artist, search(FreeText(clean)), r.lyrics.value)
    ensures r.lyrics.Some? ==> r.lyrics.value != ""
    ensures var second := ScanReply(search(ByTrack(artist, clean)));
            clean != title && !second.Exhausted? ==>
              r == Lookup(if second.Found? then Some(second.lyrics) else None,
                          [ByTrack(artist, title), ByTrack(artist, clean)])
    ensures var second := ScanReply(search(ByTrack(artist, clean)));
            var third := ScanFallback(artist, search(FreeText(clean)));
            clean == title || second.Exhausted? ==>
              && r.queries == [ByTrack(artist, title)] + (if clean != title then [ByTrack(artist, clean)] else [])
                              + [FreeText(clean)]
              && (r.lyrics.Some? <==> third.Found?)
              && (third.Found? ==> r.lyrics.value == third.lyrics)
  {
    var first := ByTrack(artist, title);
    var retry := ByTrack(artist, clean);
    var asked := if clean != title then [first, retry] else [first];
    var second := if clean != title then ScanReply(search(retry)) else Exhausted;
    match second
    case Found(l) => Lookup(Some(l), asked)
    case Raised => Lookup(None, asked)
    case Exhausted =>
      var fallback := FreeText(clean);
      assert fallback !in asked;
      match ScanFallback(artist, search(fallback))
      case Found(l) => Lookup(Some(l), asked + [fallback])
      case _ => Lookup(None, asked + [fallback])
  }

  /** `lyrics` are the synced lyrics of an item of `reply` whose artist matches. */
  predicate FallbackFound(artist: string, reply: Reply, lyrics: string) {
    reply.Listing? && exists i :: 0 <= i < |reply.items| && Accepted(artist, reply.items[i])
                                  && reply.items[i].syncedLyrics == Some(lyrics)
  }

  /** Lyrics returned after the free-text query come from an item whose artist
      matches, and that query is only sent when the earlier ones found nothing
      without raising. */
  lemma FallbackRequiresMatch(artist: string, title: string, search: Query -> Reply)
    ensures var r := FetchLyrics(artist, title, search);
            var clean := CleanTitle.CleanString(title);
            FreeText(clean) in r.queries ==>
              && ScanReply(search(ByTrack(artist, title))).Exhausted?
              && (clean != title ==> ScanReply(search(ByTrack(artist, clean))).Exhausted?)
              && (r.lyrics.Some? ==> FallbackFound(artist, search(FreeText(clean)), r.lyrics.value))
  {
  }

  /** The artist test does not depend on which name is the search's. */
  lemma ArtistMatchSymmetric(a: string, b: string)
    ensures ArtistMatches(a, b) <==> ArtistMatches(b, a)
  {
  }

  /** Names equal up to case always match. */
  lemma ArtistMatchIgnoringCase(a: string, b: string)
    requires Lower(a) == Lower(b)
    ensures ArtistMatches(a, b)
  {
  }
}
