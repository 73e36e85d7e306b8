# PyMusic core logic in Dafny

PyMusic is a small self-hosted music player. The Flask server (`app.py`) searches
a music catalogue, resolves audio streams, fetches synced lyrics and relays audio
through `/stream_proxy`. The browser client (`static/script.js`) keeps the liked
list, the recently played list and the play queue, and parses and highlights
time-stamped lyrics.

This project models the decision logic of both halves as pure Dafny functions and
proves properties about it:

- **CleanTitle**: `clean_string`. It removes parenthesised and bracketed segments
  the way `re.sub` does, then strips whitespace.
- **LyricsLookup**: the three-step query strategy of `fetch_lyrics` and which
  search result it accepts at each step.
- **StreamProxy**: the login and `url` checks of `/stream_proxy`, the `Range`
  header forwarded upstream, the hop-by-hop headers filtered out of the answer,
  and the error response.
- **Songs, Recents, Likes, PlayQueue**: the client's list updates `addToRecents`,
  `toggleLike`, `addToQueue`, `playNextInQueue` and `removeFromQueue`.
- **LyricParse, LyricSync**: `parseLyrics` with its timestamp regular expression,
  and the index loop of `syncLyrics`.
- **TimeFormat**: `formatTime`.
- **Text, Wrappers**: shared helpers. These are the whitespace sets of Python's
  `str.strip` and JavaScript's `trim`, ASCII lower-casing, containment, `split`,
  decimal numerals and `Option`.

Side effects are replaced by explicit data:

- The HTTP requests of `fetch_lyrics` and `stream_proxy` are function parameters.
- Exceptions are explicit variants (`Failed`, `Raised`, `Unreachable`).
- The browser's `localStorage` and in-memory arrays are `seq<Song>` values that
  each operation maps to a new value.

Lyric times are integer milliseconds, and `formatTime` works on whole seconds.

The server code has no media cache, only the routes above. A cache request shows
up here only as the `cacheRequested` flag of `Likes.ToggleLike`, which stands for
the client's `triggerCache(song)` call.

## Model

| member | source | states |
|---|---|---|
| CleanTitle.RemoveGroups | app.py:81-82 | The result is a subsequence of the input with no `open … close` match left. It equals the input exactly when the input had no match. |
| CleanTitle.RemoveGroupsKeepsPrefix | app.py:81-82 | Text before the first opening character is kept unchanged. |
| CleanTitle.RemoveGroupsDropsSegment | app.py:81-82 | A segment `open m close` with no closing character inside `m` is removed entirely, and the scan continues after it. |
| CleanTitle.SubsequenceKeepsNoGroup | app.py:81-82 | Deleting characters from text without a match cannot create one, so the bracket pass cannot bring back a parenthesised group. |
| CleanTitle.SliceKeepsNoGroup | app.py:83 | Stripping the ends of text without a match cannot create one. |
| CleanTitle.TrimKeepsNoGroups | app.py:81-83 | After both substitutions and the strip, neither a parenthesised nor a bracketed group is left. |
| CleanTitle.CleanString | app.py:80-83 | The cleaned title is a subsequence of the input: characters are only deleted, never added or reordered. It has no surrounding Python whitespace and contains no `(…)` or `[…]` group. |
| CleanTitle.TrimSubsequence | app.py:83 | `strip()` keeps the remaining characters in their order. |
| CleanTitle.CleanStringIdempotent | app.py:80-83 | Cleaning a cleaned title changes nothing. |
| Text.Trim | app.py:83 | `str.strip()`: the result is a contiguous slice of the input with no whitespace at either end. Only whitespace was removed around it. |
| Text.TrimFixedPoint | static/script.js:431 | Trimming leaves a string unchanged exactly when it has no whitespace at its ends. |
| Text.TrimIdempotent | static/script.js:431 | Trimming twice is trimming once. |
| Text.Split | static/script.js:426 | `split('\n')` gives at least one piece, and no piece contains the separator. |
| Text.SplitJoin | static/script.js:426 | Joining pieces that contain no separator and splitting the result again gives back the pieces. |
| Text.Lower | app.py:109 | `lower()` keeps the length, leaves no ASCII capital, and changes a character only by mapping an ASCII capital to its small letter. |
| Text.LowerIdempotent | app.py:172 | Lower-casing twice is lower-casing once. |
| Text.Decimal | static/script.js:522 | The numeral JavaScript writes for `${m}` and `${sc}`: at least one digit, all digits, no leading zero, and it denotes the number. |
| Text.ContainsAt | app.py:109 | Python's `in` on strings holds exactly when the needle occurs at some offset of the haystack. |
| LyricsLookup.FirstSynced | app.py:92-94 | A scan finds the `syncedLyrics` of the first item that has some, after items without lyrics. It is exhausted exactly when every item is a record without lyrics, and it raises on a non-object item. |
| LyricsLookup.FirstMatching | app.py:106-110 | A fallback find is the first synced item whose artist name contains, or is contained in, the requested artist, ignoring case, after items that were skipped. It is exhausted exactly when every item is skipped. It raises only at a non-object item, or a synced item without an artist name, that comes after skipped items. |
| LyricsLookup.ScanReply | app.py:90-102 | A search that raised aborts. A reply that is not a list is passed over. A list yields the lyrics of its first synced item, is exhausted exactly when every item is an object without lyrics, and raises only at a non-object item before any synced one. |
| LyricsLookup.ScanFallback | app.py:104-110 | As the search above, but the list yields the lyrics of its first synced item whose artist matches. It is exhausted exactly when every item is skipped. |
| LyricsLookup.ArtistMatches | app.py:109 | The artist test holds exactly when the lowered requested artist occurs in the lowered result name, or the other way round. |
| LyricsLookup.Retry | app.py:95-111 | The cleaned-title query is sent exactly when cleaning changed the title. If that search finds lyrics or raises, the lookup ends with its result after two queries. Otherwise the free-text query on the cleaned title is sent exactly once, after the earlier queries and with nothing sent after it. The lookup returns lyrics exactly when that search finds them, and those lyrics. |
| LyricsLookup.FetchLyrics | app.py:85-113 | The first query is artist plus title. A found or raising first search ends the lookup after one query. The cleaned-title query is sent exactly when the first search was exhausted and cleaning changed the title. After an exhausted first search: a found or raising cleaned-title search ends the lookup with its result after two queries, and otherwise the free-text query is sent exactly once, as the last query, and decides the result. At most three queries are sent, and returned lyrics are never empty. |
| LyricsLookup.FallbackRequiresMatch | app.py:103-110 | The free-text query is sent only when the earlier searches were exhausted. Lyrics it yields belong to an item whose artist matches. |
| LyricsLookup.ArtistMatchSymmetric | app.py:109 | The artist test does not depend on which of the two names comes from the search result. |
| LyricsLookup.ArtistMatchIgnoringCase | app.py:109 | Names that differ only in case always match. |
| StreamProxy.Gate | app.py:155-158 | A request without a session gets 401 "Unauthorized". A logged-in request with a missing or empty `url` gets 400 "No URL". Exactly the logged-in requests with a non-empty `url` pass. |
| StreamProxy.HeaderValue | app.py:162-163 | The value is that of the first header whose name matches ignoring case. It is absent exactly when no header matches. |
| StreamProxy.ForwardedHeaders | app.py:160-163 | At most one header goes upstream. It is `Range`, with the client's value, and it is sent exactly when the client sent a `Range` header. |
| StreamProxy.HopByHop | app.py:170-172 | A header is hop-by-hop exactly when its name is `Content-Encoding`, `Content-Length`, `Transfer-Encoding` or `Connection`, ignoring ASCII case. |
| StreamProxy.EndToEnd | app.py:170-172 | The relayed headers are a subsequence of the upstream headers. A header is relayed exactly when it is upstream and its lower-cased name is not one of the four hop-by-hop names. |
| StreamProxy.EndToEndIdempotent | app.py:170-172 | Filtering already filtered headers changes nothing. |
| StreamProxy.EndToEndUnchanged | app.py:170-172 | The filter keeps the headers unchanged exactly when none of them is hop-by-hop. |
| StreamProxy.EndToEndAppend | app.py:171-172 | Filtering distributes over concatenation, so relayed headers keep their upstream order. |
| StreamProxy.Proxy | app.py:153-184 | A refused request sends nothing upstream. An accepted one sends exactly one request, to `url`, with the forwarded headers. The response is relayed exactly when upstream answered, and then carries the upstream status, the filtered headers and the upstream content type. An unreachable upstream gives 500 with `Error: ` followed by the reason. |
| Songs.FindIndex | static/script.js:89 | `findIndex` returns the first position holding the id, or -1 exactly when no entry has it. |
| Songs.WithoutId | static/script.js:205 | `filter(x => x.id !== s.id)` returns a subsequence holding no entry with the id and every other entry of the list. A list without the id is returned unchanged. |
| Songs.WithoutIdAppend | static/script.js:205 | Filtering distributes over concatenation. Together with the one-entry case, this keeps every entry with a different id, repeated entries included, in order. |
| Songs.WithoutIdSingle | static/script.js:205 | A one-entry list keeps its entry exactly when the id differs. |
| Songs.WithoutIdKeepsUnique | static/script.js:205 | Filtering keeps ids unique. |
| Recents.AddToRecents | static/script.js:205 | The song comes first, no later entry has its id, and the rest is the filtered old list, cut only when the list grew past ten. When the filtered list has ten or more entries, exactly its last entry is popped. A list of at most ten stays at most ten. |
| Recents.AddToRecentsValid | static/script.js:205 | A list of at most ten entries with unique ids stays so. |
| Recents.AddToRecentsIdempotent | static/script.js:205 | For a stored list of at most ten entries, playing the same song twice in a row leaves the list as after the first time. |
| Likes.ToggleLike | static/script.js:86-96 | A cache request is made exactly when the song was not liked. An unliked song is put at the front. A liked song's first entry is removed and nothing else changes. |
| Likes.ToggleTwiceRestores | static/script.js:86-96 | Liking then unliking a song restores the liked list. |
| Likes.ToggleFlips | static/script.js:86-96 | On a list with unique ids, toggling flips whether the song is liked and keeps ids unique. |
| PlayQueue.AddToQueue | static/script.js:255-258 | `push` appends the song at the end and keeps the earlier entries. |
| PlayQueue.PlayNext | static/script.js:265-271 | A non-empty queue plays its head and keeps its tail. An empty queue is unchanged, and asks for a recommendation exactly when the call is not a user action. |
| PlayQueue.Fifo | static/script.js:255-271 | Adding at the tail does not change the next song of a non-empty queue, and adding commutes with playing. |
| PlayQueue.DrainAll | static/script.js:265-271 | Playing a queue until it is empty plays exactly its songs, in order. |
| PlayQueue.DrainOrder | static/script.js:255-271 | Songs added one after another are played in the order they were added, after the queue's own songs. |
| PlayQueue.SpliceStart | static/script.js:274 | The start of `splice` is at most the length of the array. |
| PlayQueue.RemoveFromQueue | static/script.js:272-275 | An index in range removes exactly that entry, which is one copy of it in the multiset of entries. An index past the end changes nothing. A negative index counts from the end, clamped to the first entry. An empty queue stays empty. |
| LyricParse.UpToTerminator | static/script.js:427 | `(.*)` captures the longest prefix without a line terminator. |
| LyricParse.MatchStamp | static/script.js:427 | The tag matches exactly when the line starts with `[dd:dd.` followed by three or two digits and `]`, with three tried first. The time is minutes times 60000 plus seconds times 1000 plus the fraction in milliseconds. |
| LyricParse.FractionWidthAgrees | static/script.js:434 | `.xy` and `.xy0` denote the same time, because the fraction is read as a decimal fraction of a second. |
| LyricParse.ParseLine | static/script.js:430-436 | A line yields an entry exactly when its tag matches and the trimmed text after the tag is not empty. The entry carries the tag's time and that text. |
| LyricParse.ParseLines | static/script.js:429-437 | Every produced entry has a non-empty, trimmed text without line terminators and a time a tag can denote. There is at most one entry per line. |
| LyricParse.ParseLyrics | static/script.js:425-438 | The entries come from the `\n`-separated lines, at most one per line, each of the shape above. |
| LyricParse.ParseLinesAppend | static/script.js:429-437 | Entries keep the order of their lines. |
| LyricParse.ParseLinesCons | static/script.js:429-437 | A line contributes its entry, if any, in front of the entries of the following lines. |
| LyricParse.FormatStamp | static/script.js:427 | The source never writes lyrics. This inverse writer exists only for the round-trip lemmas. The written tag for a time below 100 minutes has the three-digit shape the expression accepts, and it denotes that time. |
| LyricParse.FormatLine | static/script.js:426 | An inverse writer, used only by the round-trip lemmas. A written line contains no line break. |
| LyricParse.FormatLines | static/script.js:426 | An inverse writer, used only by the round-trip lemmas. Writing gives one line per entry, none containing a line break. |
| LyricParse.MatchFormatted | static/script.js:427 | The tag of a written line is recognised with the written time. |
| LyricParse.ParseFormatLine | static/script.js:430-436 | Parsing a written line gives back the entry. |
| LyricParse.ParseFormattedLines | static/script.js:429-437 | Parsing written lines gives back the entries. |
| LyricParse.ParseFormatted | static/script.js:425-438 | Joining written lines with `\n` and parsing the text gives back the entries, for any entries the parser can produce whose times are below 100 minutes. |
| LyricSync.LeadingDue | static/script.js:459-462 | The leading run of due lines is no longer than the lyrics. |
| LyricSync.ActiveIndex | static/script.js:456-462 | The index is -1 or a line position. Every line up to it is due at `t`, and the next line, if any, is not. |
| LyricSync.LeadingDueUnique | static/script.js:459-462 | Where the run of due lines stops determines the index. |
| LyricSync.LastDue | static/script.js:459-462 | With ascending times, the lines after the highlighted one are exactly those not yet due. |
| LyricSync.LeadingDueMonotone | static/script.js:456-462 | The highlighted index never moves back as playback time grows. |
| TimeFormat.FormatTime | static/script.js:522 | The text is a minutes numeral without leading zero, a colon, and two seconds digits. They denote `s div 60` and `s mod 60`. |
| TimeFormat.ParseFormatTime | static/script.js:522 | Reading the text back gives the number of seconds. |
| TimeFormat.FormatTimeSameMinute | static/script.js:522 | Times within one minute share the minutes field, and the seconds field grows with the time. |
| TimeFormat.DecimalInjective | static/script.js:522 | Two minutes fields without leading zeros that denote the same number are the same text. |

## Left out

- The media cache is not modelled: the server code has none. Only the client's cache request on a new like (`triggerCache`) appears, as a flag.
- The catalogue search, charts, the stream URL lookup and the login route are left out. They are calls into Deezer and yt_dlp plus a password comparison, with no logic of their own to prove.
- The streamed audio body, chunking and `stream_with_context` are left out: they are I/O.
- The `User-Agent` header and the service URL of the lyrics search are left out. They are constants of the HTTP layer, and each query is modelled by its parameters only.
- Text.Lower: models ASCII lower-casing only. Python's `str.lower` also folds non-ASCII letters, so `ArtistMatches` may reject names that differ only in non-ASCII case.
- LyricsLookup.FetchLyrics: takes strings, so a missing `artist` or `title` argument (Python `None`) is not modelled. `requests` leaves a `None` parameter out of the query, so with a missing title the first search (app.py:88-94) can still return lyrics. Only when that search is exhausted does `clean_string` raise (app.py:95), and the lookup gives no lyrics. With a missing artist, the first two searches can still return lyrics. The free-text search raises at `artist.lower()` (app.py:109) on its first synced item, and gives no lyrics without raising when it has no synced item. A `syncedLyrics` value that is truthy but not a string is modelled as absent.
- StreamProxy.HeaderValue: the first of several headers with the same name stands for the value Werkzeug and requests report. Their joining of repeated headers is not modelled.
- StreamProxy.Proxy: the content type is passed on as the upstream value. Flask's defaulting when it is absent is not modelled.
- LyricParse.ParseLyrics: times are integer milliseconds. The source adds floating-point seconds (`min*60 + sec + parseFloat("0."+frac)`), whose rounding is not modelled.
- LyricSync.ActiveIndex: compares integer milliseconds, where the source compares floating-point seconds. For empty lyrics it returns -1, which the source treats the same as its early return.
- TimeFormat.FormatTime: takes whole non-negative seconds. `Math.floor` on fractional seconds, and the `NaN`/`Infinity` output for an unknown duration, are not modelled.
- Songs: ids are compared as integers. JavaScript's `===` on mixed types is not modelled.
- DOM updates are left out: icons, rendering and scrolling the active lyric line.
- The `localStorage` JSON round trip and the server's like list (`/api/likes`) are left out as I/O.
