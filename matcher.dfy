/** The match decision of `search_track_on_tidal` and `search_artist_on_tidal`
    (dtt.py:55-126), with the Tidal search and the operator's terminal as
    inputs: `search` maps a query to what Tidal returns for it, and `stdin` is
    the list of lines the operator will type, read from the front by each
    `input()` call. */
module Matcher {
  import opened Common
  import opened Text

  /** What a search function returns, or the exception it lets escape. */
  datatype Outcome = Found(id: Id) | NoMatch | Raised(error: PyError)

  /** An outcome together with the operator input still unread. */
  datatype Resolution = Resolution(outcome: Outcome, stdin: seq<string>)

  /** The operator's reply that skips the item (dtt.py:85, dtt.py:117). */
  predicate IsSkip(reply: string) {
    Lower(reply) == "s"
  }

  /** Python's `results[i].id`, negative indices counting from the end. */
  function PyIndex(results: seq<Hit>, i: int): (r: Outcome)
    ensures r.Found? <==> -|results| <= i < |results|
    ensures r.Raised? <==> !(-|results| <= i < |results|)
    ensures 0 <= i < |results| ==> r == Found(results[i].id)
    ensures -|results| <= i < 0 ==> r == Found(results[|results| + i].id)
    ensures r.Raised? ==> r.error == IndexError
  {
    if 0 <= i < |results| then Found(results[i].id)
    else if -|results| <= i < 0 then Found(results[|results| + i].id)
    else Raised(IndexError)
  }

  /** One pass of the disambiguation loop: the loop body always returns, so
      the reply is read once and decides the outcome. */
  function Choose(results: seq<Hit>, reply: string): (r: Outcome)
    ensures r.Found? ==> r.id in Ids(results)
    ensures r == NoMatch <==> IsSkip(reply)
  {
    if IsSkip(reply) then NoMatch else Select(results, ParseInt(reply))
  }

  /** `search_results[int(user_choice) - 1].id` once `int()` has run: its
      `ValueError`, or the 1-based choice. */
  function Select(results: seq<Hit>, parsed: Option<int>): (r: Outcome)
    ensures r.Found? ==> r.id in Ids(results)
    ensures r != NoMatch
  {
    match parsed
    case None => Raised(ValueError)
    case Some(k) => PyIndex(results, k - 1)
  }

  /** The `try: return search_results[0].id except: return None` block. */
  function TryFirst(results: seq<Hit>): (r: Outcome)
    ensures results != [] ==> r == Found(results[0].id)
    ensures results == [] ==> r == NoMatch
  {
    if |results| > 0 then Found(results[0].id) else NoMatch
  }

  /** `input()`: the next line, or `None` at end of input (an `EOFError`). */
  function ReadLine(stdin: seq<string>): (r: Option<(string, seq<string>)>)
    ensures r.None? <==> stdin == []
    ensures r.Some? ==> r.value.0 == stdin[0] && r.value.1 == stdin[1..]
  {
    if stdin == [] then None else Some((stdin[0], stdin[1..]))
  }

  /** The decision of `search_track_on_tidal` once the primary results are known;
      `research` is the search issued for the operator's replacement query. */
  function ResolveTrack(primary: seq<Hit>, research: string -> seq<Hit>, stdin: seq<string>): (r: Resolution)
    ensures IsSuffix(r.stdin, stdin) && |stdin| - |r.stdin| <= 2
    ensures r.outcome.Found? ==>
      r.outcome.id in Ids(primary) || (stdin != [] && r.outcome.id in Ids(research(stdin[0])))
  {
    if primary == [] then
      match ReadLine(stdin)
      case None => Resolution(Raised(EOFError), stdin)
      case Some((query, rest)) =>
        var again := research(query);
        if again == [] then Resolution(NoMatch, rest)
        else
          match ReadLine(rest)
          case None => Resolution(Raised(EOFError), rest)
          case Some((reply, rest')) => Resolution(Choose(again, reply), rest')
    else
      Resolution(TryFirst(primary), stdin)
  }

  /** The decision of `search_artist_on_tidal`, following its own control flow:
      with an empty re-search the `while` is skipped and the `IndexError` of
      `search_results[0]` is caught instead of returning early. */
  function ResolveArtist(primary: seq<Hit>, research: string -> seq<Hit>, stdin: seq<string>): (r: Resolution)
    ensures IsSuffix(r.stdin, stdin) && |stdin| - |r.stdin| <= 2
    ensures r.outcome.Found? ==>
      r.outcome.id in Ids(primary) || (stdin != [] && r.outcome.id in Ids(research(stdin[0])))
  {
    if primary == [] then
      match ReadLine(stdin)
      case None => Resolution(Raised(EOFError), stdin)
      case Some((query, rest)) =>
        var again := research(query);
        if again != [] then
          match ReadLine(rest)
          case None => Resolution(Raised(EOFError), rest)
          case Some((reply, rest')) => Resolution(Choose(again, reply), rest')
        else
          Resolution(TryFirst(again), rest)
    else
      Resolution(TryFirst(primary), stdin)
  }

  /** `search_track_on_tidal(session, title, artist)`. */
  function SearchTrackOnTidal(search: string -> SearchResult, title: string, artist: string,
                              stdin: seq<string>): (r: Resolution)
    ensures IsSuffix(r.stdin, stdin)
  {
    ResolveTrack(search(TrackQuery(title, artist)).tracks, q => search(q).tracks, stdin)
  }

  /** `search_artist_on_tidal(session, name)`. */
  function SearchArtistOnTidal(search: string -> SearchResult, name: string,
                               stdin: seq<string>): (r: Resolution)
    ensures IsSuffix(r.stdin, stdin)
  {
    ResolveArtist(search(ArtistQuery(name)).artists, q => search(q).artists, stdin)
  }

  // ---------------------------------------------------------------------------
  // Properties of the resolution policy

  /** The two functions are written differently but decide alike on every input. */
  lemma ArtistPolicyMatchesTrackPolicy(primary: seq<Hit>, research: string -> seq<Hit>, stdin: seq<string>)
    ensures ResolveArtist(primary, research, stdin) == ResolveTrack(primary, research, stdin)
  {
  }

  /** Rank 0 wins: with any primary result its first candidate is taken and
      the operator is not asked. */
  lemma RankZeroWins(search: string -> SearchResult, title: string, artist: string, name: string,
                     stdin: seq<string>)
    ensures var p := search(TrackQuery(title, artist)).tracks;
      p != [] ==> SearchTrackOnTidal(search, title, artist, stdin) == Resolution(Found(p[0].id), stdin)
    ensures var p := search(ArtistQuery(name)).artists;
      p != [] ==> SearchArtistOnTidal(search, name, stdin) == Resolution(Found(p[0].id), stdin)
  {
  }

  /** Both the primary search and the operator's re-search empty: no match,
      one line of input consumed. */
  lemma BothSearchesEmpty(search: string -> SearchResult, title: string, artist: string, name: string,
                          query: string, stdin: seq<string>)
    ensures search(TrackQuery(title, artist)).tracks == [] && search(query).tracks == [] ==>
      SearchTrackOnTidal(search, title, artist, [query] + stdin) == Resolution(NoMatch, stdin)
    ensures search(ArtistQuery(name)).artists == [] && search(query).artists == [] ==>
      SearchArtistOnTidal(search, name, [query] + stdin) == Resolution(NoMatch, stdin)
  {
    assert ([query] + stdin)[1..] == stdin;
  }

  /** Disambiguation: after an empty primary search and a non-empty re-search,
      the single reply decides, skipping exactly on "s" or "S". */
  lemma {:induction false} Disambiguation(primary: seq<Hit>, research: string -> seq<Hit>,
                                          query: string, reply: string, stdin: seq<string>)
    requires primary == [] && research(query) != []
    ensures ResolveTrack(primary, research, [query, reply] + stdin)
         == Resolution(Choose(research(query), reply), stdin)
    ensures ResolveArtist(primary, research, [query, reply] + stdin)
         == Resolution(Choose(research(query), reply), stdin)
  {
    var input := [query, reply] + stdin;
    assert input[1..][1..] == stdin;
  }

  /** The skip reply is exactly "s" or "S". */
  lemma SkipReplies(reply: string)
    ensures IsSkip(reply) <==> reply == "s" || reply == "S"
  {
    if IsSkip(reply) {
      assert |reply| == 1 && LowerChar(reply[0]) == 's';
      assert reply == [reply[0]];
    }
  }

  /** A reply that `int()` reads as k is not a skip reply, so it selects
      index k - 1 of the candidates. */
  lemma ChooseParsed(results: seq<Hit>, reply: string, k: int)
    requires ParseInt(reply) == Some(k)
    ensures Choose(results, reply) == PyIndex(results, k - 1)
  {
    NumbersAreNotSkips(reply, k);
    ChooseNotSkipped(results, reply);
  }

  /** A reply that does not skip is handed to `int()`. */
  lemma ChooseNotSkipped(results: seq<Hit>, reply: string)
    requires !IsSkip(reply)
    ensures Choose(results, reply) == Select(results, ParseInt(reply))
  {
  }

  /** A reply that `int()` accepts is not a skip reply. */
  lemma NumbersAreNotSkips(reply: string, k: int)
    requires ParseInt(reply) == Some(k)
    ensures !IsSkip(reply)
  {
    if IsSkip(reply) {
      SkipRepliesAreNotNumbers(reply);
    }
  }

  /** `int()` rejects both skip replies. */
  lemma SkipRepliesAreNotNumbers(reply: string)
    requires IsSkip(reply)
    ensures ParseInt(reply) == None
  {
    SkipReplies(reply);
    assert !IsSpace(reply[0]) && !IsDigit(reply[0]);
    ParseLoneNonDigit(reply);
  }

  /** Typing k, for 1 <= k <= n, picks the k-th candidate, unless its decimal
      text is longer than `int()` accepts. */
  lemma {:induction false} ChooseNumber(results: seq<Hit>, k: nat)
    requires 1 <= k <= |results|
    ensures |DecimalText(k)| <= MaxStrDigits ==> Choose(results, DecimalText(k)) == Found(results[k - 1].id)
    ensures |DecimalText(k)| > MaxStrDigits ==> Choose(results, DecimalText(k)) == Raised(ValueError)
  {
    var reply := DecimalText(k);
    ParseDecimalText(k);
    if |reply| <= MaxStrDigits {
      ChooseParsed(results, reply, k);
    } else {
      LongReplyRaises(results, reply);
    }
  }

  /** Typing a number above n raises `IndexError`, uncaught; one too long for
      `int()` raises `ValueError` first. */
  lemma {:induction false} ChooseBeyondEnd(results: seq<Hit>, k: nat)
    requires k > |results|
    ensures |DecimalText(k)| <= MaxStrDigits ==> Choose(results, DecimalText(k)) == Raised(IndexError)
    ensures |DecimalText(k)| > MaxStrDigits ==> Choose(results, DecimalText(k)) == Raised(ValueError)
  {
    var reply := DecimalText(k);
    ParseDecimalText(k);
    if |reply| <= MaxStrDigits {
      ChooseParsed(results, reply, k);
    } else {
      LongReplyRaises(results, reply);
    }
  }

  /** A reply of more than `MaxStrDigits` digits raises `ValueError`, uncaught,
      whatever the candidates. */
  lemma LongReplyRaises(results: seq<Hit>, reply: string)
    requires |reply| > MaxStrDigits
    requires forall i :: 0 <= i < |reply| ==> IsDigit(reply[i])
    ensures Choose(results, reply) == Raised(ValueError)
  {
    TooManyDigits(reply);
    assert !IsSkip(reply) by {
      assert |Lower(reply)| == |reply|;
    }
    ChooseNotSkipped(results, reply);
  }

  /** A reply that `int()` reads as 0, such as `"0"` (`ZeroText`), reaches
      index -1 and picks the last candidate. */
  lemma ChooseZeroPicksLast(results: seq<Hit>, reply: string)
    requires results != [] && ParseInt(reply) == Some(0)
    ensures Choose(results, reply) == Found(results[|results| - 1].id)
  {
    ChooseParsed(results, reply, 0);
    LastIndex(results);
  }

  /** Index -1 is the last candidate. */
  lemma LastIndex(results: seq<Hit>)
    requires results != []
    ensures PyIndex(results, 0 - 1) == Found(results[|results| - 1].id)
  {
  }
}
