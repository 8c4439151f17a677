# Deezer-to-Tidal favourites migrator, modelled in Dafny

`dtt.py` copies a Deezer user's favourite tracks and artists to the
favourites of a Tidal account, and can also empty a Tidal account's
favourites. This project models its decision logic and proves what that
logic does:

- **Pagination** (`Pagination`): the Deezer readers follow the `next`
  pointer of each page. They collect the items of every status-200 page in
  order and stop at the first page that fails or has no successor.
- **Query normalisation** (`Text`): a track title is cut at the first
  case-sensitive `"(feat."`, title and artist are lower-cased, and the query
  is `"<title> <artist>"`. An artist query is the lower-cased name.
- **Match resolution** (`Matcher`):
  - A non-empty primary search is answered by its rank-0 candidate, and the
    operator is not asked.
  - Otherwise the operator types one replacement query, then one reply:
    `s`/`S` skips, and a number is parsed as CPython's `int()` does and used
    as a 1-based index into the candidates. This includes the limit of 4300
    digits that Python 3.11 and later apply by default.
  - A non-numeric reply raises `ValueError`. An index out of range raises
    `IndexError`. The end of input raises `EOFError`. None of these is
    caught.
- **Favourites** (`Tidal`): the Tidal favourites are an object with an
  ordered, duplicate-free list of track ids and one of artist ids. It also
  keeps a log of every mutating call issued. The removal sweeps try each
  enumerated favourite once, in order; a refused removal is reported and
  the sweep goes on.
- **Transfers** (`Transfer`): the Deezer items are matched one by one, each
  match reading the operator input the previous ones left. Every id that is
  found and truthy (non-zero) is added, in order. `transfer_all` does the
  tracks first, then the artists.

The outside world comes in as parameters:
- `get`: the response served for each Deezer URL;
- `search`: what Tidal's search returns for each query;
- `stdin`: the lines the operator will type;
- `refused`: the ids whose removal the service refuses.

## Model

| member | source | states |
|---|---|---|
| Text.NormaliseTitleCases | dtt.py:64-67 | with no `"(feat."` in the title the query title is the whole title lower-cased; otherwise it is the lower-cased text before the first occurrence |
| Text.FeatSuffixDropped | dtt.py:65-67 | appending `"(feat." + x` to a title that has no marker leaves both the normalised title and the track query unchanged |
| Text.CapitalisedMarkerKept | dtt.py:65-67 | for any title and annotation that hold no `"(feat."`, the marker is matched case-sensitively: a `"(Feat."` annotation is kept whole, and after lower-casing it reads `"(feat."` in the normalised title |
| Text.TrackQueryCases | dtt.py:64-70 | with no `"(feat."` in the title the query is title, space, artist, all lower-cased; otherwise it is the lower-cased text before the first occurrence, a space, and the lower-cased artist |
| Text.ArtistCaseIgnored | dtt.py:104-106 | lower-casing the artist (or artist name) before the query is built changes nothing: both queries ignore its case |
| Text.LowerIdempotent | dtt.py:67-68 | a lower-cased text holds no upper-case letter, and lower-casing it again changes nothing |
| Text.NormaliseTitle | dtt.py:64-67 | the normalised title holds no upper-case letter and is no longer than the title; `NormaliseTitleCases` and `FeatSuffixDropped` give its value |
| Text.TrackQuery | dtt.py:70 | the query holds no upper-case letter and is as long as the normalised title, a space and the artist; `TrackQueryCases` and `FeatSuffixDropped` give its value |
| Text.ArtistQuery | dtt.py:104-106 | the artist query holds no upper-case letter and is as long as the name; `ArtistCaseIgnored` is its partner |
| Text.ParseInt | dtt.py:88 | `int()` of an empty or all-whitespace text raises `ValueError`; `ParseDecimalText`, `ParseDigits`, `TooManyDigits`, `ParseLoneNonDigit` and `SeparatorNotStripped` are its partners |
| Text.ParseLoneNonDigit | dtt.py:88 | a single character that is not whitespace, a sign or a digit raises `ValueError` in `int()` |
| Text.SeparatorNotStripped | dtt.py:88 | a number preceded by one of the control characters 0x1C-0x1F is rejected with `ValueError`, because `int()` skips only tab, line feed, vertical tab, form feed, carriage return and space |
| Text.ParseDecimalText | dtt.py:88 | `int()` of the decimal text of a natural number k gives back k when that text has at most 4300 digits, and raises `ValueError` when it has more |
| Text.ParseDigits | dtt.py:88 | a non-empty text of at most 4300 digits, leading zeros included, reads as its decimal value |
| Text.TooManyDigits | dtt.py:88 | a text of more than 4300 digits, leading zeros included, raises `ValueError`, whatever its value |
| Matcher.Choose | dtt.py:84-88 | the outcome is "no match" exactly when the reply lower-cases to `s`; any id returned is one of the candidates |
| Matcher.ResolveTrack | dtt.py:72-94 | at most two lines of input are read, from the front; a found id comes from the primary results or from the search for the first line typed |
| Matcher.ResolveArtist | dtt.py:108-126 | at most two lines of input are read, from the front; a found id comes from the primary artist results or from the search for the first line typed; `ArtistPolicyMatchesTrackPolicy` is its partner |
| Matcher.SearchTrackOnTidal | dtt.py:55-94 | the input left unread is a suffix of the input given |
| Matcher.SearchArtistOnTidal | dtt.py:96-126 | the input left unread is a suffix of the input given |
| Matcher.ArtistPolicyMatchesTrackPolicy | dtt.py:108-126 | the artist resolution, which reaches "no match" through a caught `IndexError`, decides exactly as the track resolution does on every input |
| Matcher.RankZeroWins | dtt.py:90-91 | with a non-empty primary track (or artist) search, the result is the id of candidate 0 and no input is read |
| Matcher.BothSearchesEmpty | dtt.py:72-79 | an empty primary search and an empty re-search give "no match" for tracks and artists, having read exactly one line |
| Matcher.Disambiguation | dtt.py:81-88 | after an empty primary search, a non-empty re-search is decided by exactly one reply, read once |
| Matcher.SkipReplies | dtt.py:85 | the skipping replies are exactly `s` and `S` |
| Matcher.SkipRepliesAreNotNumbers | dtt.py:85-88 | neither skip reply is a number for `int()` |
| Matcher.ChooseParsed | dtt.py:84-88 | a reply that `int()` reads as k selects index k-1 of the candidates, with Python's indexing rules: -n <= k-1 < n succeeds, a negative index counts from the end, anything else raises `IndexError` |
| Matcher.ChooseNumber | dtt.py:88 | replying k with 1 <= k <= n picks candidate k-1; if k has more than 4300 digits, `int()` raises `ValueError` instead |
| Matcher.ChooseBeyondEnd | dtt.py:88 | replying k with k > n raises `IndexError`; if k has more than 4300 digits, `int()` raises `ValueError` first |
| Matcher.LongReplyRaises | dtt.py:88 | a reply of more than 4300 digits raises an uncaught `ValueError`, whatever the candidates |
| Matcher.ChooseZeroPicksLast | dtt.py:88 | any reply that `int()` reads as 0 picks the last candidate, through Python's negative indexing |
| Text.ZeroText | dtt.py:88 | the reply `"0"` is the decimal text of zero, and `int()` reads it as 0 |
| Pagination.FetchPages | dtt.py:17-27 | the loop returns the items of the page chain from the start URL, as `Collect` defines them |
| Pagination.GetDeezerTracks | dtt.py:7-30 | the reader returns the collected items of the chain that starts at the user's tracks URL |
| Pagination.GetDeezerArtists | dtt.py:32-53 | the reader returns the collected items of the chain that starts at the user's artists URL |
| Pagination.VisitedIsChained | dtt.py:17-24 | each URL requested after the first is the `next` of a page that answered 200 |
| Pagination.VisitedEndsTheChain | dtt.py:17-27 | the last page requested either failed or had no truthy `next` |
| Pagination.CollectIsPageItems | dtt.py:17-27 | the result is the items of the status-200 pages among those requested, in page order; a failing page adds nothing |
| Pagination.FailingPageKeepsEarlierItems | dtt.py:25-30 | when the second page fails, the first page's items are returned, and nothing else |
| Pagination.CollectBoundIrrelevant | dtt.py:17-27 | the result and the URLs requested do not depend on the termination bound |
| Tidal.WithoutMembers | dtt.py:156 | a removal takes out the removed id and nothing else |
| Tidal.RetainedMembers | dtt.py:154-158 | what a sweep leaves is exactly the favourites whose removal was refused |
| Tidal.RetainedNothingRefused | dtt.py:154-158 | with no refusals, a sweep leaves nothing |
| Tidal.InsertAllMembers | dtt.py:196-199 | after the additions, the favourites are the old ones plus the added ones |
| Tidal.Favorites.AddTrack | dtt.py:135 | the track is among the favourites, nothing else changes, and one add call is logged |
| Tidal.Favorites.AddArtist | dtt.py:144 | the artist is among the favourites, nothing else changes, and one add call is logged |
| Tidal.Favorites.RemoveTrack | dtt.py:155-158 | a removal that is not refused takes the id out; a refused one changes nothing and is reported; either way one call is logged |
| Tidal.Favorites.RemoveArtist | dtt.py:170-173 | as for tracks, on the artists |
| Tidal.RemoveFavoriteTracks | dtt.py:146-159 | one removal call per enumerated track, in enumeration order; the tracks left, and those reported, are exactly the refused ones in order; the artists are untouched |
| Tidal.RemoveFavoriteArtists | dtt.py:161-174 | the same sweep over the artists, leaving the tracks untouched |
| Tidal.RemoveAllFavorites | dtt.py:177-184 | the log is all track removals, then all artist removals, whatever the first sweep reported; only refused items remain |
| Transfer.PassStopsAtFirstRaise | dtt.py:196-199 | an exception ends a pass: only the last outcome can be raised, and it is raised whenever items were left unsearched |
| Transfer.AddedIdsMembers | dtt.py:198-199 | an id is added exactly when the matcher found it and it is non-zero |
| Transfer.SummariseIsPass | dtt.py:196-199 | the loop's running state (ids added, input left, exception) agrees with the pass of the matcher over the items |
| Transfer.TransferTracks | dtt.py:186-200 | the add calls and the new tracks are the found non-zero ids of the pass over the Deezer tracks, in order; artists untouched; the input left and the uncaught exception are the pass's |
| Transfer.TransferArtists | dtt.py:202-216 | the same for artists, leaving the tracks untouched |
| Transfer.TransferAll | dtt.py:218-225 | the track transfer runs to completion first; the artist transfer runs on the input left over only when no exception escaped the first; in the calls it logs, every track add comes before every artist add |
| Transfer.MatchersReadFromFront | dtt.py:74 | a pass of either matcher reads the operator input from the front only: what is left is a suffix of what was given |
| Transfer.NoPromptWhenAllFound | dtt.py:196-199 | when every track has a primary result, no input is read and each track is matched to its rank-0 candidate |
| Transfer.AddedTracksComeFromSearch | dtt.py:196-199 | every found id was returned by Tidal, either for an item's query or for a query the operator typed |
| Transfer.AddedArtistsComeFromSearch | dtt.py:212-215 | every artist id found in a pass was returned by Tidal's artist search, either for a name's query or for a query the operator typed |
| Transfer.EndToEndExample | dtt.py:186-200 | two tracks, one found at rank 0 and one skipped by the operator, give exactly one add, and no exception |
| Transfer.TracksBeforeArtists | dtt.py:224-225 | for any earlier log, a run of track adds followed by a run of artist adds puts every track add before every artist add; `TransferAll` states this of its own log |

## Left out

- HTTP and JSON: `requests.get` and `response.json()` are one total function from URL to a response. That response holds the status, the items already projected to title/artist (or name), and the `next` field.
- Endless page chains: a chain of `next` URLs is assumed to end within a ghost bound `n` (a precondition). A cycle of `next` links, on which the source loops forever, is outside the model.
- The Tidal session and the OAuth login: `session.search` is a deterministic function from a query to the track and artist candidates, of which only the id is kept. The two transfers take the matcher with the session bound as a parameter; `transfer_all` binds it to that function.
- Printing and `logging` messages, including the candidate list shown to the operator and the `duration/60` figure in it (floating point, display only).
- `str.lower()` is modelled on ASCII letters only. `int()` is modelled on ASCII text: it skips the whitespace CPython's `int()` skips there (tab, line feed, vertical tab, form feed, carriage return and space, not the separators 0x1C-0x1F that `str.isspace()` also accepts), then reads an optional sign and digits with single underscores between them. It refuses more than 4300 digits, which is the default of `sys.get_int_max_str_digits()`; a program that changes that setting, and Python releases older than the limit, are not modelled. Non-ASCII digits and spaces, which `int()` maps to ASCII first, are not modelled.
- Failure of `add_track`/`add_artist`: adds always succeed, and Tidal keeps each favourite once, however often it is added.
- Removal failure: which removals the service refuses is given as a set of ids, not modelled from an exception.
- The type of Tidal ids: they are integers, and the transfer's `if track_id:` is modelled as "not 0".
- The command-line dispatch (`argparse`, dtt.py:227-282), including the prompt for the Deezer user id and the choice of operation.
