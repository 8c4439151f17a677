/** The transfer orchestration (`transfer_tracks`, `transfer_artists`,
    `transfer_all`, dtt.py:186-225): read every favourite from Deezer, match
    each on Tidal, add the matched ones. An exception raised by the matcher
    is not caught here, so it ends the run; the model returns it as `error`.
    The two transfers receive the matcher as `resolve`, the search function
    with the session already bound; `transfer_all` binds it to the search
    oracle through `TrackMatcher` and `ArtistMatcher`. */
module Transfer {
  import opened Common
  import opened Text
  import opened Matcher
  import opened Pagination
  import opened Tidal

  /** The outcomes of matching the items in order, up to and including the
      first raised exception, and the operator input still unread. */
  datatype Pass = Pass(outcomes: seq<Outcome>, stdin: seq<string>)

  /** Only the last outcome, if any, is an exception, and it is there whenever
      not every item was matched. */
  predicate StopsAtFirstRaise(outcomes: seq<Outcome>, count: nat) {
    && |outcomes| <= count
    && (forall i :: 0 <= i < |outcomes| - 1 ==> !outcomes[i].Raised?)
    && (|outcomes| < count ==> outcomes != [] && outcomes[|outcomes| - 1].Raised?)
  }

  /** The matcher run over the items read from Deezer, each call reading the
      operator input the previous ones left. */
  function MatchAll<I>(resolve: (I, seq<string>) -> Resolution, items: seq<I>, stdin: seq<string>): Pass
    decreases |items|
  {
    if items == [] then Pass([], stdin)
    else
      var m := resolve(items[0], stdin);
      if m.outcome.Raised? then Pass([m.outcome], m.stdin)
      else
        var rest := MatchAll(resolve, items[1..], m.stdin);
        Pass([m.outcome] + rest.outcomes, rest.stdin)
  }

  /** `search_track_on_tidal(session, title, artist)` as the track transfer calls it. */
  function TrackMatcher(search: string -> SearchResult): (TrackItem, seq<string>) -> Resolution {
    (t: TrackItem, stdin: seq<string>) => SearchTrackOnTidal(search, t.title, t.artist, stdin)
  }

  /** `search_artist_on_tidal(session, name)` as the artist transfer calls it. */
  function ArtistMatcher(search: string -> SearchResult): (string, seq<string>) -> Resolution {
    (name: string, stdin: seq<string>) => SearchArtistOnTidal(search, name, stdin)
  }

  /** One step of `MatchAll`, stated for the loops that compute it. */
  lemma MatchAllStep<I>(resolve: (I, seq<string>) -> Resolution, items: seq<I>, stdin: seq<string>)
    requires items != []
    ensures var m := resolve(items[0], stdin);
      m.outcome.Raised? ==> MatchAll(resolve, items, stdin) == Pass([m.outcome], m.stdin)
    ensures var m := resolve(items[0], stdin);
      var rest := MatchAll(resolve, items[1..], m.stdin);
      !m.outcome.Raised? ==> MatchAll(resolve, items, stdin) == Pass([m.outcome] + rest.outcomes, rest.stdin)
  {
  }

  /** An exception ends the pass: the items after it are never searched. */
  lemma {:induction false} PassStopsAtFirstRaise<I>(resolve: (I, seq<string>) -> Resolution, items: seq<I>,
                                                    stdin: seq<string>)
    ensures StopsAtFirstRaise(MatchAll(resolve, items, stdin).outcomes, |items|)
    decreases |items|
  {
    if items != [] {
      var m := resolve(items[0], stdin);
      MatchAllStep(resolve, items, stdin);
      if !m.outcome.Raised? {
        PassStopsAtFirstRaise(resolve, items[1..], m.stdin);
        var rest := MatchAll(resolve, items[1..], m.stdin).outcomes;
        var all := [m.outcome] + rest;
        forall i | 0 <= i < |all| - 1
          ensures !all[i].Raised?
        {
          if i > 0 {
            assert all[i] == rest[i - 1];
          }
        }
        if |all| < |items| {
          assert all[|all| - 1] == rest[|rest| - 1];
        }
      }
    }
  }

  /** The identifiers `if track_id:` lets through: found and non-zero, in order. */
  function AddedIds(outcomes: seq<Outcome>): (ids: seq<Id>)
    ensures |ids| <= |outcomes|
  {
    if outcomes == [] then []
    else (if outcomes[0].Found? && outcomes[0].id != 0 then [outcomes[0].id] else []) + AddedIds(outcomes[1..])
  }

  /** An identifier is added exactly when the matcher found it and it is not 0. */
  lemma {:induction false} AddedIdsMembers(outcomes: seq<Outcome>)
    ensures forall x :: x in AddedIds(outcomes) <==> x != 0 && Found(x) in outcomes
  {
    if outcomes != [] {
      AddedIdsMembers(outcomes[1..]);
      assert outcomes == [outcomes[0]] + outcomes[1..];
    }
  }

  /** The exception that ended a pass, if one did. */
  function RaisedIn(outcomes: seq<Outcome>): (e: Option<PyError>)
    ensures e.Some? <==> outcomes != [] && outcomes[|outcomes| - 1].Raised?
  {
    if outcomes != [] && outcomes[|outcomes| - 1].Raised? then Some(outcomes[|outcomes| - 1].error)
    else None
  }

  /** What one more outcome at the front of a pass contributes. */
  lemma PassCons(o: Outcome, rest: seq<Outcome>)
    ensures AddedIds([o] + rest) == (if o.Found? && o.id != 0 then [o.id] else []) + AddedIds(rest)
    ensures !o.Raised? ==> RaisedIn([o] + rest) == RaisedIn(rest)
    ensures RaisedIn([o]) == (if o.Raised? then Some(o.error) else None)
  {
    assert ([o] + rest)[1..] == rest;
  }

  /** The additions after one more identifier. */
  lemma InsertAllSnoc(s: seq<Id>, ids: seq<Id>, x: Id)
    ensures InsertAll(s, ids + [x]) == Insert(InsertAll(s, ids), x)
  {
    assert (ids + [x])[..|ids|] == ids;
  }

  lemma AddTrackCallsSnoc(log: seq<Call>, ids: seq<Id>, x: Id)
    ensures log + AddTrackCalls(ids + [x]) == (log + AddTrackCalls(ids)) + [AddTrackCall(x)]
  {
    assert AddTrackCalls(ids + [x]) == AddTrackCalls(ids) + [AddTrackCall(x)];
  }

  lemma AddArtistCallsSnoc(log: seq<Call>, ids: seq<Id>, x: Id)
    ensures log + AddArtistCalls(ids + [x]) == (log + AddArtistCalls(ids)) + [AddArtistCall(x)]
  {
    assert AddArtistCalls(ids + [x]) == AddArtistCalls(ids) + [AddArtistCall(x)];
  }

  /** What a transfer loop has to show for a pass: the identifiers it added,
      the operator input left, and the exception that stopped it. */
  datatype Summary = Summary(added: seq<Id>, stdin: seq<string>, error: Option<PyError>)

  /** The loop's view of a pass: `added` holds the identifiers added so far. */
  function Summarise<I>(resolve: (I, seq<string>) -> Resolution, items: seq<I>, stdin: seq<string>,
                        added: seq<Id>): Summary
    decreases |items|
  {
    if items == [] then Summary(added, stdin, None)
    else
      var m := resolve(items[0], stdin);
      if m.outcome.Raised? then Summary(added, m.stdin, Some(m.outcome.error))
      else if m.outcome.Found? && m.outcome.id != 0 then Summarise(resolve, items[1..], m.stdin, added + [m.outcome.id])
      else Summarise(resolve, items[1..], m.stdin, added)
  }

  /** What one unraised outcome at the front of a pass contributes, to the
      pass and to the loop's view of it. */
  lemma SummariseStep<I>(resolve: (I, seq<string>) -> Resolution, items: seq<I>, stdin: seq<string>,
                         added: seq<Id>)
    requires items != [] && !resolve(items[0], stdin).outcome.Raised?
    ensures var m := resolve(items[0], stdin);
      var x := if m.outcome.Found? && m.outcome.id != 0 then [m.outcome.id] else [];
      var p := MatchAll(resolve, items, stdin);
      var rest := MatchAll(resolve, items[1..], m.stdin);
      && Summarise(resolve, items, stdin, added) == Summarise(resolve, items[1..], m.stdin, added + x)
      && AddedIds(p.outcomes) == x + AddedIds(rest.outcomes)
      && RaisedIn(p.outcomes) == RaisedIn(rest.outcomes)
      && p.stdin == rest.stdin
  {
    var m := resolve(items[0], stdin);
    MatchAllStep(resolve, items, stdin);
    PassCons(m.outcome, MatchAll(resolve, items[1..], m.stdin).outcomes);
    if !(m.outcome.Found? && m.outcome.id != 0) {
      assert added + [] == added;
    }
  }

  /** A raised outcome at the front ends both the pass and the loop's view. */
  lemma SummariseRaised<I>(resolve: (I, seq<string>) -> Resolution, items: seq<I>, stdin: seq<string>,
                           added: seq<Id>)
    requires items != [] && resolve(items[0], stdin).outcome.Raised?
    ensures var p := MatchAll(resolve, items, stdin);
      Summarise(resolve, items, stdin, added) == Summary(added + AddedIds(p.outcomes), p.stdin, RaisedIn(p.outcomes))
  {
    MatchAllStep(resolve, items, stdin);
    var m := resolve(items[0], stdin);
    assert AddedIds([m.outcome]) == [];
    assert added + [] == added;
  }

  lemma AppendAssociates(a: seq<Id>, b: seq<Id>, c: seq<Id>)
    ensures (a + b) + c == a + (b + c)
  {
  }

  /** The loop's view agrees with the pass: it adds `AddedIds` of the outcomes,
      leaves the input the pass leaves, and stops with `RaisedIn`. */
  lemma {:induction false} SummariseIsPass<I>(resolve: (I, seq<string>) -> Resolution, items: seq<I>,
                                              stdin: seq<string>, added: seq<Id>)
    ensures var p := MatchAll(resolve, items, stdin);
      Summarise(resolve, items, stdin, added) == Summary(added + AddedIds(p.outcomes), p.stdin, RaisedIn(p.outcomes))
    decreases |items|
  {
    if items == [] {
      assert added + [] == added;
    } else {
      var m := resolve(items[0], stdin);
      if m.outcome.Raised? {
        SummariseRaised(resolve, items, stdin, added);
      } else {
        var x := if m.outcome.Found? && m.outcome.id != 0 then [m.outcome.id] else [];
        var rest := MatchAll(resolve, items[1..], m.stdin);
        var p := MatchAll(resolve, items, stdin);
        assert && Summarise(resolve, items, stdin, added) == Summarise(resolve, items[1..], m.stdin, added + x)
               && AddedIds(p.outcomes) == x + AddedIds(rest.outcomes)
               && RaisedIn(p.outcomes) == RaisedIn(rest.outcomes)
               && p.stdin == rest.stdin by {
          SummariseStep(resolve, items, stdin, added);
        }
        assert Summarise(resolve, items[1..], m.stdin, added + x)
            == Summary((added + x) + AddedIds(rest.outcomes), rest.stdin, RaisedIn(rest.outcomes)) by {
          SummariseIsPass(resolve, items[1..], m.stdin, added + x);
        }
        AppendAssociates(added, x, AddedIds(rest.outcomes));
      }
    }
  }

  /** The loop's view of the items from index `i` on, after one more call. */
  lemma SummariseNext<I>(resolve: (I, seq<string>) -> Resolution, items: seq<I>, i: nat, stdin: seq<string>,
                         added: seq<Id>)
    requires i < |items|
    ensures var m := resolve(items[i], stdin);
      Summarise(resolve, items[i..], stdin, added)
        == if m.outcome.Raised? then Summary(added, m.stdin, Some(m.outcome.error))
           else Summarise(resolve, items[i + 1..], m.stdin,
                          if m.outcome.Found? && m.outcome.id != 0 then added + [m.outcome.id] else added)
  {
    assert items[i..][0] == items[i] && items[i..][1..] == items[i + 1..];
  }

  /** A loop that starts with nothing added ends with the pass's additions. */
  lemma SummariseFromNothing<I>(resolve: (I, seq<string>) -> Resolution, items: seq<I>, stdin: seq<string>)
    ensures var p := MatchAll(resolve, items, stdin);
      Summarise(resolve, items, stdin, []) == Summary(AddedIds(p.outcomes), p.stdin, RaisedIn(p.outcomes))
  {
    SummariseIsPass(resolve, items, stdin, []);
    assert [] + AddedIds(MatchAll(resolve, items, stdin).outcomes) == AddedIds(MatchAll(resolve, items, stdin).outcomes);
  }

  /** `transfer_tracks(user_id, session)`; `resolve` is `search_track_on_tidal`
      with the session bound. */
  method TransferTracks(favs: Favorites, pages: string -> Response<TrackItem>, userId: string, ghost n: nat,
                        resolve: (TrackItem, seq<string>) -> Resolution, stdin: seq<string>)
    returns (rest: seq<string>, error: Option<PyError>)
    requires favs.Valid() && Ends(pages, Some(TracksUrl(userId)), n)
    modifies favs
    ensures favs.Valid()
    ensures var p := MatchAll(resolve, Collect(pages, Some(TracksUrl(userId)), n), stdin);
      && favs.log == old(favs.log) + AddTrackCalls(AddedIds(p.outcomes))
      && favs.tracks == InsertAll(old(favs.tracks), AddedIds(p.outcomes))
      && favs.artists == old(favs.artists)
      && rest == p.stdin
      && error == RaisedIn(p.outcomes)
  {
    var tracks := GetDeezerTracks(pages, userId, n);
    ghost var goal := Summarise(resolve, tracks, stdin, []);
    ghost var added: seq<Id> := [];
    rest, error := stdin, None;
    var i := 0;
    assert tracks[0..] == tracks;
    while i < |tracks|
      invariant 0 <= i <= |tracks|
      invariant favs.Valid()
      invariant Summarise(resolve, tracks[i..], rest, added) == goal
      invariant favs.log == old(favs.log) + AddTrackCalls(added)
      invariant favs.tracks == InsertAll(old(favs.tracks), added)
      invariant favs.artists == old(favs.artists)
    {
      var m := resolve(tracks[i], rest);
      SummariseNext(resolve, tracks, i, rest, added);
      if m.outcome.Raised? {
        rest, error := m.stdin, Some(m.outcome.error);
        break;
      }
      if m.outcome.Found? && m.outcome.id != 0 {
        InsertAllSnoc(old(favs.tracks), added, m.outcome.id);
        AddTrackCallsSnoc(old(favs.log), added, m.outcome.id);
        favs.AddTrack(m.outcome.id);
        added := added + [m.outcome.id];
      }
      rest := m.stdin;
      i := i + 1;
    }
    assert i == |tracks| ==> tracks[i..] == [];
    assert goal == Summary(added, rest, error);
    SummariseFromNothing(resolve, tracks, stdin);
  }

  /** `transfer_artists(user_id, session)`; `resolve` is `search_artist_on_tidal`
      with the session bound. */
  method TransferArtists(favs: Favorites, pages: string -> Response<string>, userId: string, ghost n: nat,
                        resolve: (string, seq<string>) -> Resolution, stdin: seq<string>)
    returns (rest: seq<string>, error: Option<PyError>)
    requires favs.Valid() && Ends(pages, Some(ArtistsUrl(userId)), n)
    modifies favs
    ensures favs.Valid()
    ensures var p := MatchAll(resolve, Collect(pages, Some(ArtistsUrl(userId)), n), stdin);
      && favs.log == old(favs.log) + AddArtistCalls(AddedIds(p.outcomes))
      && favs.artists == InsertAll(old(favs.artists), AddedIds(p.outcomes))
      && favs.tracks == old(favs.tracks)
      && rest == p.stdin
      && error == RaisedIn(p.outcomes)
  {
    var artists := GetDeezerArtists(pages, userId, n);
    ghost var goal := Summarise(resolve, artists, stdin, []);
    ghost var added: seq<Id> := [];
    rest, error := stdin, None;
    var i := 0;
    assert artists[0..] == artists;
    while i < |artists|
      invariant 0 <= i <= |artists|
      invariant favs.Valid()
      invariant Summarise(resolve, artists[i..], rest, added) == goal
      invariant favs.log == old(favs.log) + AddArtistCalls(added)
      invariant favs.artists == InsertAll(old(favs.artists), added)
      invariant favs.tracks == old(favs.tracks)
    {
      var m := resolve(artists[i], rest);
      SummariseNext(resolve, artists, i, rest, added);
      if m.outcome.Raised? {
        rest, error := m.stdin, Some(m.outcome.error);
        break;
      }
      if m.outcome.Found? && m.outcome.id != 0 {
        InsertAllSnoc(old(favs.artists), added, m.outcome.id);
        AddArtistCallsSnoc(old(favs.log), added, m.outcome.id);
        favs.AddArtist(m.outcome.id);
        added := added + [m.outcome.id];
      }
      rest := m.stdin;
      i := i + 1;
    }
    assert i == |artists| ==> artists[i..] == [];
    assert goal == Summary(added, rest, error);
    SummariseFromNothing(resolve, artists, stdin);
  }

  /** `transfer_all(user_id, session)`: the whole track transfer, then the
      artist transfer on the input left over; an exception in the first ends
      the run before the second starts. */
  method TransferAll(favs: Favorites, trackPages: string -> Response<TrackItem>,
                     artistPages: string -> Response<string>, userId: string, ghost nt: nat, ghost na: nat,
                     search: string -> SearchResult, stdin: seq<string>)
    returns (rest: seq<string>, error: Option<PyError>)
    requires favs.Valid()
    requires Ends(trackPages, Some(TracksUrl(userId)), nt) && Ends(artistPages, Some(ArtistsUrl(userId)), na)
    modifies favs
    ensures favs.Valid()
    ensures var t := MatchAll(TrackMatcher(search), Collect(trackPages, Some(TracksUrl(userId)), nt), stdin);
            var a := MatchAll(ArtistMatcher(search), Collect(artistPages, Some(ArtistsUrl(userId)), na), t.stdin);
      && favs.log == old(favs.log) + AddTrackCalls(AddedIds(t.outcomes))
                     + (if RaisedIn(t.outcomes).None? then AddArtistCalls(AddedIds(a.outcomes)) else [])
      && favs.tracks == InsertAll(old(favs.tracks), AddedIds(t.outcomes))
      && favs.artists == (if RaisedIn(t.outcomes).None? then InsertAll(old(favs.artists), AddedIds(a.outcomes))
                          else old(favs.artists))
      && rest == (if RaisedIn(t.outcomes).None? then a.stdin else t.stdin)
      && error == (if RaisedIn(t.outcomes).None? then RaisedIn(a.outcomes) else RaisedIn(t.outcomes))
    ensures TrackAddsFirst(favs.log, |old(favs.log)|)
  {
    ghost var log0 := favs.log;
    rest, error := TransferTracks(favs, trackPages, userId, nt, TrackMatcher(search), stdin);
    ghost var t := AddedIds(MatchAll(TrackMatcher(search), Collect(trackPages, Some(TracksUrl(userId)), nt), stdin).outcomes);
    if error.Some? {
      TracksBeforeArtists(log0, t, []);
      assert favs.log == log0 + AddTrackCalls(t) + AddArtistCalls([]);
      return;
    }
    ghost var mid := rest;
    rest, error := TransferArtists(favs, artistPages, userId, na, ArtistMatcher(search), rest);
    TracksBeforeArtists(log0, t, AddedIds(MatchAll(ArtistMatcher(search),
      Collect(artistPages, Some(ArtistsUrl(userId)), na), mid).outcomes));
  }

  // ---------------------------------------------------------------------------
  // Properties of the orchestration

  /** The operator's input is read from the front and never re-read: what a
      pass leaves unread is a suffix of what it was given. */
  lemma {:induction false} PassReadsFromFront<I>(resolve: (I, seq<string>) -> Resolution, items: seq<I>,
                                                 stdin: seq<string>)
    requires forall x, s :: IsSuffix(resolve(x, s).stdin, s)
    ensures IsSuffix(MatchAll(resolve, items, stdin).stdin, stdin)
    decreases |items|
  {
    if items != [] {
      var m := resolve(items[0], stdin);
      MatchAllStep(resolve, items, stdin);
      if !m.outcome.Raised? {
        PassReadsFromFront(resolve, items[1..], m.stdin);
        var r := MatchAll(resolve, items[1..], m.stdin).stdin;
        assert |r| <= |m.stdin| <= |stdin|;
        assert r == m.stdin[|m.stdin| - |r|..];
        assert m.stdin == stdin[|stdin| - |m.stdin|..];
        assert r == stdin[|stdin| - |r|..];
      }
    }
  }

  /** Both matchers read the operator's input from the front. */
  lemma MatchersReadFromFront(search: string -> SearchResult, tracks: seq<TrackItem>, names: seq<string>,
                              stdin: seq<string>)
    ensures IsSuffix(MatchAll(TrackMatcher(search), tracks, stdin).stdin, stdin)
    ensures IsSuffix(MatchAll(ArtistMatcher(search), names, stdin).stdin, stdin)
  {
    forall t, s ensures IsSuffix(TrackMatcher(search)(t, s).stdin, s) {
      assert TrackMatcher(search)(t, s) == SearchTrackOnTidal(search, t.title, t.artist, s);
    }
    forall x, s ensures IsSuffix(ArtistMatcher(search)(x, s).stdin, s) {
      assert ArtistMatcher(search)(x, s) == SearchArtistOnTidal(search, x, s);
    }
    PassReadsFromFront(TrackMatcher(search), tracks, stdin);
    PassReadsFromFront(ArtistMatcher(search), names, stdin);
  }

  /** The rank-0 candidate of each item's primary track search, in order. */
  function FirstCandidates(search: string -> SearchResult, items: seq<TrackItem>): seq<Outcome>
  {
    if items == [] then []
    else [TryFirst(search(TrackQuery(items[0].title, items[0].artist)).tracks)] + FirstCandidates(search, items[1..])
  }

  /** When every track has a primary result, the operator is never asked and
      each track is matched to its rank-0 candidate. */
  lemma {:induction false} NoPromptWhenAllFound(search: string -> SearchResult, items: seq<TrackItem>,
                                                stdin: seq<string>)
    requires forall t :: t in items ==> search(TrackQuery(t.title, t.artist)).tracks != []
    ensures MatchAll(TrackMatcher(search), items, stdin) == Pass(FirstCandidates(search, items), stdin)
    decreases |items|
  {
    if items != [] {
      var t := items[0];
      assert TrackMatcher(search)(t, stdin) == Resolution(TryFirst(search(TrackQuery(t.title, t.artist)).tracks), stdin) by {
        assert t in items;
        RankZeroWins(search, t.title, t.artist, "", stdin);
      }
      MatchAllStep(TrackMatcher(search), items, stdin);
      NoPromptWhenAllFound(search, items[1..], stdin);
    }
  }

  /** `id` is one Tidal returned for the query of one of `items`, or for a
      query the operator typed on one of the `stdin` lines. */
  predicate ReturnedBySearch(search: string -> SearchResult, items: seq<TrackItem>, stdin: seq<string>, id: Id) {
    || (exists t :: t in items && id in Ids(search(TrackQuery(t.title, t.artist)).tracks))
    || (exists q :: q in stdin && id in Ids(search(q).tracks))
  }

  /** What Tidal returned for the rest of the items and the rest of the input
      it also returned for all of them. */
  lemma ReturnedBySearchWidens(search: string -> SearchResult, items: seq<TrackItem>, stdin: seq<string>,
                               later: seq<string>, id: Id)
    requires items != [] && IsSuffix(later, stdin)
    requires ReturnedBySearch(search, items[1..], later, id)
    ensures ReturnedBySearch(search, items, stdin, id)
  {
    if exists q :: q in later && id in Ids(search(q).tracks) {
      var q :| q in later && id in Ids(search(q).tracks);
      var k :| 0 <= k < |later| && later[k] == q;
      assert stdin[|stdin| - |later| + k] == q;
    }
  }

  /** The first item's match: a found id is one Tidal returned, and the input
      left is a suffix of the input given. */
  lemma FirstTrackFromSearch(search: string -> SearchResult, items: seq<TrackItem>, stdin: seq<string>)
    requires items != []
    ensures var m := TrackMatcher(search)(items[0], stdin);
      && (m.outcome.Found? ==> ReturnedBySearch(search, items, stdin, m.outcome.id))
      && IsSuffix(m.stdin, stdin)
  {
    var m := TrackMatcher(search)(items[0], stdin);
    assert m == SearchTrackOnTidal(search, items[0].title, items[0].artist, stdin);
    assert items[0] in items;
    assert stdin != [] ==> stdin[0] in stdin;
  }

  /** No fabricated identifiers: every track id the pass finds is one that Tidal
      returned for an item's query or for a query the operator typed. */
  lemma {:induction false} AddedTracksComeFromSearch(search: string -> SearchResult, items: seq<TrackItem>,
                                                     stdin: seq<string>)
    ensures forall o :: o in MatchAll(TrackMatcher(search), items, stdin).outcomes && o.Found? ==>
      ReturnedBySearch(search, items, stdin, o.id)
    decreases |items|
  {
    if items != [] {
      var m := TrackMatcher(search)(items[0], stdin);
      FirstTrackFromSearch(search, items, stdin);
      MatchAllStep(TrackMatcher(search), items, stdin);
      assert IsSuffix(m.stdin, stdin);
      if !m.outcome.Raised? {
        AddedTracksComeFromSearch(search, items[1..], m.stdin);
        var rest := MatchAll(TrackMatcher(search), items[1..], m.stdin);
        forall o | o in rest.outcomes && o.Found?
          ensures ReturnedBySearch(search, items, stdin, o.id)
        {
          ReturnedBySearchWidens(search, items, stdin, m.stdin, o.id);
        }
      }
    }
  }

  /** `id` is one Tidal returned for the query of one of the artist `names`,
      or for a query the operator typed on one of the `stdin` lines. */
  predicate ArtistReturnedBySearch(search: string -> SearchResult, names: seq<string>, stdin: seq<string>, id: Id) {
    || (exists name :: name in names && id in Ids(search(ArtistQuery(name)).artists))
    || (exists q :: q in stdin && id in Ids(search(q).artists))
  }

  lemma ArtistReturnedBySearchWidens(search: string -> SearchResult, names: seq<string>, stdin: seq<string>,
                                     later: seq<string>, id: Id)
    requires names != [] && IsSuffix(later, stdin)
    requires ArtistReturnedBySearch(search, names[1..], later, id)
    ensures ArtistReturnedBySearch(search, names, stdin, id)
  {
    if exists q :: q in later && id in Ids(search(q).artists) {
      var q :| q in later && id in Ids(search(q).artists);
      var k :| 0 <= k < |later| && later[k] == q;
      assert stdin[|stdin| - |later| + k] == q;
    }
  }

  /** The first name's match: a found id is one Tidal returned, and the
      input left is a suffix of the input given. */
  lemma FirstArtistFromSearch(search: string -> SearchResult, names: seq<string>, stdin: seq<string>)
    requires names != []
    ensures var m := ArtistMatcher(search)(names[0], stdin);
      && (m.outcome.Found? ==> ArtistReturnedBySearch(search, names, stdin, m.outcome.id))
      && IsSuffix(m.stdin, stdin)
  {
    var m := ArtistMatcher(search)(names[0], stdin);
    assert m == SearchArtistOnTidal(search, names[0], stdin);
    assert names[0] in names;
    assert stdin != [] ==> stdin[0] in stdin;
  }

  /** No fabricated identifiers among artists either: every artist id the pass
      finds is one that Tidal returned for a name's query or for a query the
      operator typed. */
  lemma {:induction false} AddedArtistsComeFromSearch(search: string -> SearchResult, names: seq<string>,
                                                      stdin: seq<string>)
    ensures forall o :: o in MatchAll(ArtistMatcher(search), names, stdin).outcomes && o.Found? ==>
      ArtistReturnedBySearch(search, names, stdin, o.id)
    decreases |names|
  {
    if names != [] {
      var m := ArtistMatcher(search)(names[0], stdin);
      FirstArtistFromSearch(search, names, stdin);
      MatchAllStep(ArtistMatcher(search), names, stdin);
      assert IsSuffix(m.stdin, stdin);
      if !m.outcome.Raised? {
        AddedArtistsComeFromSearch(search, names[1..], m.stdin);
        var rest := MatchAll(ArtistMatcher(search), names[1..], m.stdin);
        forall o | o in rest.outcomes && o.Found?
          ensures ArtistReturnedBySearch(search, names, stdin, o.id)
        {
          ArtistReturnedBySearchWidens(search, names, stdin, m.stdin, o.id);
        }
      }
    }
  }

  /** The queries sent for the two tracks of the example below. */
  lemma ExampleQueries()
    ensures TrackQuery("A", "X") == "a x" && TrackQuery("B", "Y") == "b y"
  {
    assert NormaliseTitle("A") == "a";
    assert NormaliseTitle("B") == "b";
  }

  /** The end-to-end example: "A" by "X" is found as id 1 at rank 0, "B" by "Y"
      finds nothing and the operator's replacement search is skipped (or also
      finds nothing): exactly one add, of id 1. */
  lemma EndToEndExample(search: string -> SearchResult, query: string)
    requires search("a x").tracks == [Hit(1)] && search("b y").tracks == []
    ensures var p := MatchAll(TrackMatcher(search), [TrackItem("A", "X"), TrackItem("B", "Y")], [query, "s"]);
      AddedIds(p.outcomes) == [1] && RaisedIn(p.outcomes) == None
  {
    var items := [TrackItem("A", "X"), TrackItem("B", "Y")];
    var input := [query, "s"];
    var resolve := TrackMatcher(search);
    ExampleQueries();
    var m1 := resolve(items[0], input);
    assert m1 == Resolution(Found(1), input) by {
      RankZeroWins(search, "A", "X", "", input);
    }
    var m2 := resolve(items[1], input);
    assert m2.outcome == NoMatch by {
      assert input[1..] == ["s"] && input[1..][1..] == [];
      assert IsSkip("s");
    }
    assert items[1..][0] == items[1] && items[1..][1..] == [];
    MatchAllStep(resolve, items, input);
    MatchAllStep(resolve, items[1..], input);
    var p := MatchAll(resolve, items, input);
    assert p.outcomes == [Found(1), NoMatch];
    assert [Found(1), NoMatch][1..] == [NoMatch];
  }

  /** From index `from` on, every track addition in `log` precedes every
      artist addition. */
  predicate TrackAddsFirst(log: seq<Call>, from: nat) {
    forall i, j :: from <= i < |log| && from <= j < |log| && log[i].AddTrackCall? && log[j].AddArtistCall? ==> i < j
  }

  /** The calls `transfer_all` appends after `log0` put the track additions first. */
  lemma TracksBeforeArtists(log0: seq<Call>, t: seq<Id>, a: seq<Id>)
    ensures TrackAddsFirst(log0 + AddTrackCalls(t) + AddArtistCalls(a), |log0|)
  {
  }
}
