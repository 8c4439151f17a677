/** The destination side: the favourites of the logged-in Tidal user, mutated
    one item at a time (dtt.py:128-184). The object records, besides the two
    favourites lists, every mutating call issued to the service, so that the
    order of calls can be stated. */
module Tidal {
  import opened Common

  /** A mutating call issued to `session.user.favorites`. */
  datatype Call =
    | AddTrackCall(id: Id)
    | AddArtistCall(id: Id)
    | RemoveTrackCall(id: Id)
    | RemoveArtistCall(id: Id)

  // ---------------------------------------------------------------------------
  // Specification functions on identifier lists

  /** `s` after the service removed `x` from it. */
  function Without(s: seq<Id>, x: Id): seq<Id>
  {
    if s == [] then []
    else if s[0] == x then Without(s[1..], x)
    else [s[0]] + Without(s[1..], x)
  }

  /** The favourites whose removal the service refused, in enumeration order. */
  function Retained(s: seq<Id>, refused: set<Id>): seq<Id>
  {
    if s == [] then []
    else if s[0] in refused then [s[0]] + Retained(s[1..], refused)
    else Retained(s[1..], refused)
  }

  /** Removal takes out `x` and nothing else. */
  lemma {:induction false} WithoutMembers(s: seq<Id>, x: Id)
    ensures forall y :: y in Without(s, x) <==> y in s && y != x
  {
    if s != [] {
      WithoutMembers(s[1..], x);
      assert s == [s[0]] + s[1..];
    }
  }

  /** What a sweep leaves is exactly the favourites whose removal was refused. */
  lemma {:induction false} RetainedMembers(s: seq<Id>, refused: set<Id>)
    ensures forall y :: y in Retained(s, refused) <==> y in s && y in refused
  {
    if s != [] {
      RetainedMembers(s[1..], refused);
      assert s == [s[0]] + s[1..];
    }
  }

  lemma {:induction false} WithoutAbsent(s: seq<Id>, x: Id)
    requires x !in s
    ensures Without(s, x) == s
  {
    if s != [] {
      WithoutAbsent(s[1..], x);
    }
  }

  lemma {:induction false} WithoutDistinct(s: seq<Id>, x: Id)
    requires Distinct(s)
    ensures Distinct(Without(s, x))
  {
    if s != [] {
      WithoutDistinct(s[1..], x);
      WithoutMembers(s[1..], x);
      assert s[0] !in s[1..];
    }
  }

  /** Removing the one occurrence of `x` from a list leaves the rest in order. */
  lemma {:induction false} WithoutSingle(a: seq<Id>, x: Id, b: seq<Id>)
    requires x !in a && x !in b
    ensures Without(a + [x] + b, x) == a + b
  {
    if a == [] {
      assert a + [x] + b == [x] + b;
      assert ([x] + b)[1..] == b;
      WithoutAbsent(b, x);
    } else {
      assert (a + [x] + b)[0] == a[0];
      assert (a + [x] + b)[1..] == a[1..] + [x] + b;
      WithoutSingle(a[1..], x, b);
      assert a == [a[0]] + a[1..];
    }
  }

  lemma {:induction false} RetainedAppend(a: seq<Id>, b: seq<Id>, refused: set<Id>)
    ensures Retained(a + b, refused) == Retained(a, refused) + Retained(b, refused)
  {
    if a == [] {
      assert a + b == b;
    } else {
      assert (a + b)[0] == a[0] && (a + b)[1..] == a[1..] + b;
      RetainedAppend(a[1..], b, refused);
    }
  }

  /** `s` after the service added `x`; an id already present is not repeated. */
  function Insert(s: seq<Id>, x: Id): (r: seq<Id>)
    ensures x in r && |s| <= |r| && s == r[..|s|]
    ensures Distinct(s) ==> Distinct(r)
  {
    if x in s then s else s + [x]
  }

  /** `s` after the service added each of `ids`, in order. */
  function InsertAll(s: seq<Id>, ids: seq<Id>): (r: seq<Id>)
    ensures |s| <= |r| && s == r[..|s|]
    ensures Distinct(s) ==> Distinct(r)
  {
    if ids == [] then s else Insert(InsertAll(s, ids[..|ids| - 1]), ids[|ids| - 1])
  }

  /** After the additions the favourites are the old ones and the added ones. */
  lemma {:induction false} InsertAllMembers(s: seq<Id>, ids: seq<Id>)
    ensures forall y :: y in InsertAll(s, ids) <==> y in s || y in ids
  {
    if ids != [] {
      var init := ids[..|ids| - 1];
      InsertAllMembers(s, init);
      assert ids == init + [ids[|ids| - 1]];
    }
  }

  function RemoveTrackCalls(ids: seq<Id>): (r: seq<Call>)
    ensures |r| == |ids| && forall i :: 0 <= i < |ids| ==> r[i] == RemoveTrackCall(ids[i])
  {
    seq(|ids|, i requires 0 <= i < |ids| => RemoveTrackCall(ids[i]))
  }

  function RemoveArtistCalls(ids: seq<Id>): (r: seq<Call>)
    ensures |r| == |ids| && forall i :: 0 <= i < |ids| ==> r[i] == RemoveArtistCall(ids[i])
  {
    seq(|ids|, i requires 0 <= i < |ids| => RemoveArtistCall(ids[i]))
  }

  function AddTrackCalls(ids: seq<Id>): (r: seq<Call>)
    ensures |r| == |ids| && forall i :: 0 <= i < |ids| ==> r[i] == AddTrackCall(ids[i])
  {
    seq(|ids|, i requires 0 <= i < |ids| => AddTrackCall(ids[i]))
  }

  function AddArtistCalls(ids: seq<Id>): (r: seq<Call>)
    ensures |r| == |ids| && forall i :: 0 <= i < |ids| ==> r[i] == AddArtistCall(ids[i])
  {
    seq(|ids|, i requires 0 <= i < |ids| => AddArtistCall(ids[i]))
  }

  /** A sweep with no refusals leaves nothing behind. */
  lemma {:induction false} RetainedNothingRefused(s: seq<Id>)
    ensures Retained(s, {}) == []
  {
    if s != [] {
      RetainedNothingRefused(s[1..]);
    }
  }

  // ---------------------------------------------------------------------------
  // The favourites object

  class Favorites {
    /** `favorites.tracks()` and `favorites.artists()`, as identifiers in enumeration order. */
    var tracks: seq<Id>
    var artists: seq<Id>
    /** Every mutating call issued so far, failed ones included. */
    var log: seq<Call>

    /** Favourites are sets: no identifier is listed twice. */
    ghost predicate Valid()
      reads this
    {
      Distinct(tracks) && Distinct(artists)
    }

    constructor (tracks0: seq<Id>, artists0: seq<Id>)
      requires Distinct(tracks0) && Distinct(artists0)
      ensures Valid()
      ensures tracks == tracks0 && artists == artists0 && log == []
    {
      tracks, artists, log := tracks0, artists0, [];
    }

    /** `favorites.add_track(id)`. */
    method AddTrack(id: Id)
      requires Valid()
      modifies this
      ensures Valid()
      ensures tracks == Insert(old(tracks), id) && artists == old(artists)
      ensures log == old(log) + [AddTrackCall(id)]
    {
      tracks := Insert(tracks, id);
      log := log + [AddTrackCall(id)];
    }

    /** `favorites.add_artist(id)`. */
    method AddArtist(id: Id)
      requires Valid()
      modifies this
      ensures Valid()
      ensures artists == Insert(old(artists), id) && tracks == old(tracks)
      ensures log == old(log) + [AddArtistCall(id)]
    {
      artists := Insert(artists, id);
      log := log + [AddArtistCall(id)];
    }

    /** `favorites.remove_track(id)`; `ok` is false when the call raised, which
        the service does for the identifiers in `refused`. */
    method RemoveTrack(id: Id, refused: set<Id>) returns (ok: bool)
      requires Valid()
      modifies this
      ensures Valid()
      ensures ok == (id !in refused)
      ensures tracks == (if ok then Without(old(tracks), id) else old(tracks))
      ensures artists == old(artists)
      ensures log == old(log) + [RemoveTrackCall(id)]
    {
      ok := id !in refused;
      if ok {
        WithoutDistinct(tracks, id);
        tracks := Without(tracks, id);
      }
      log := log + [RemoveTrackCall(id)];
    }

    /** `favorites.remove_artist(id)`, failing for the identifiers in `refused`. */
    method RemoveArtist(id: Id, refused: set<Id>) returns (ok: bool)
      requires Valid()
      modifies this
      ensures Valid()
      ensures ok == (id !in refused)
      ensures artists == (if ok then Without(old(artists), id) else old(artists))
      ensures tracks == old(tracks)
      ensures log == old(log) + [RemoveArtistCall(id)]
    {
      ok := id !in refused;
      if ok {
        WithoutDistinct(artists, id);
        artists := Without(artists, id);
      }
      log := log + [RemoveArtistCall(id)];
    }
  }

  // ---------------------------------------------------------------------------
  // The removal sweeps

  /** One step of a sweep over a distinct snapshot `s`: removing `s[i]` from
      what is left keeps the invariant "refused part of s[..i], then s[i..]". */
  lemma SweepStep(s: seq<Id>, i: int, refused: set<Id>)
    requires Distinct(s) && 0 <= i < |s|
    ensures Retained(s[..i + 1], refused)
         == Retained(s[..i], refused) + (if s[i] in refused then [s[i]] else [])
    ensures s[i] !in refused ==>
      Without(Retained(s[..i], refused) + s[i..], s[i]) == Retained(s[..i + 1], refused) + s[i + 1..]
    ensures s[i] in refused ==>
      Retained(s[..i], refused) + s[i..] == Retained(s[..i + 1], refused) + s[i + 1..]
  {
    var x := s[i];
    assert s[..i + 1] == s[..i] + [x];
    assert s[i..] == [x] + s[i + 1..];
    RetainedAppend(s[..i], [x], refused);
    assert Retained([x], refused) == if x in refused then [x] else [];
    assert x !in s[..i];
    assert x !in s[i + 1..];
    assert Retained(s[..i], refused) + s[i..] == Retained(s[..i], refused) + [x] + s[i + 1..];
    if x !in refused {
      RetainedMembers(s[..i], refused);
      WithoutSingle(Retained(s[..i], refused), x, s[i + 1..]);
    }
  }

  lemma RemoveCallsStep(s: seq<Id>, i: int)
    requires 0 <= i < |s|
    ensures RemoveTrackCalls(s[..i + 1]) == RemoveTrackCalls(s[..i]) + [RemoveTrackCall(s[i])]
    ensures RemoveArtistCalls(s[..i + 1]) == RemoveArtistCalls(s[..i]) + [RemoveArtistCall(s[i])]
  {
  }

  /** `remove_favorite_tracks_from_tidal`: every enumerated favourite is tried
      once, in order; a refused removal is reported and the sweep goes on. */
  method RemoveFavoriteTracks(favs: Favorites, refused: set<Id>) returns (reported: seq<Id>)
    requires favs.Valid()
    modifies favs
    ensures favs.Valid()
    ensures favs.log == old(favs.log) + RemoveTrackCalls(old(favs.tracks))
    ensures favs.tracks == Retained(old(favs.tracks), refused)
    ensures reported == favs.tracks
    ensures favs.artists == old(favs.artists)
  {
    var favTracks := favs.tracks;
    reported := [];
    for i := 0 to |favTracks|
      invariant favs.Valid() && Distinct(favTracks)
      invariant favs.tracks == Retained(favTracks[..i], refused) + favTracks[i..]
      invariant reported == Retained(favTracks[..i], refused)
      invariant favs.log == old(favs.log) + RemoveTrackCalls(favTracks[..i])
      invariant favs.artists == old(favs.artists)
    {
      ghost var log0 := favs.log;
      var ok := favs.RemoveTrack(favTracks[i], refused);
      if !ok {
        reported := reported + [favTracks[i]];
      }
      assert favs.tracks == Retained(favTracks[..i + 1], refused) + favTracks[i + 1..] by {
        SweepStep(favTracks, i, refused);
      }
      assert reported == Retained(favTracks[..i + 1], refused) by {
        SweepStep(favTracks, i, refused);
      }
      assert favs.log == old(favs.log) + RemoveTrackCalls(favTracks[..i + 1]) by {
        assert favs.log == log0 + [RemoveTrackCall(favTracks[i])];
        RemoveCallsStep(favTracks, i);
      }
    }
    assert favTracks[..|favTracks|] == favTracks;
  }

  /** `remove_favorite_artists_from_tidal`, the same sweep over the artists. */
  method RemoveFavoriteArtists(favs: Favorites, refused: set<Id>) returns (reported: seq<Id>)
    requires favs.Valid()
    modifies favs
    ensures favs.Valid()
    ensures favs.log == old(favs.log) + RemoveArtistCalls(old(favs.artists))
    ensures favs.artists == Retained(old(favs.artists), refused)
    ensures reported == favs.artists
    ensures favs.tracks == old(favs.tracks)
  {
    var favArtists := favs.artists;
    reported := [];
    for i := 0 to |favArtists|
      invariant favs.Valid() && Distinct(favArtists)
      invariant favs.artists == Retained(favArtists[..i], refused) + favArtists[i..]
      invariant reported == Retained(favArtists[..i], refused)
      invariant favs.log == old(favs.log) + RemoveArtistCalls(favArtists[..i])
      invariant favs.tracks == old(favs.tracks)
    {
      ghost var log0 := favs.log;
      var ok := favs.RemoveArtist(favArtists[i], refused);
      if !ok {
        reported := reported + [favArtists[i]];
      }
      assert favs.artists == Retained(favArtists[..i + 1], refused) + favArtists[i + 1..] by {
        SweepStep(favArtists, i, refused);
      }
      assert reported == Retained(favArtists[..i + 1], refused) by {
        SweepStep(favArtists, i, refused);
      }
      assert favs.log == old(favs.log) + RemoveArtistCalls(favArtists[..i + 1]) by {
        assert favs.log == log0 + [RemoveArtistCall(favArtists[i])];
        RemoveCallsStep(favArtists, i);
      }
    }
    assert favArtists[..|favArtists|] == favArtists;
  }

  /** `remove_all_favorites_from_tidal`: the track sweep, then the artist sweep,
      whatever the first one reported. */
  method RemoveAllFavorites(favs: Favorites, refusedTracks: set<Id>, refusedArtists: set<Id>)
    returns (reportedTracks: seq<Id>, reportedArtists: seq<Id>)
    requires favs.Valid()
    modifies favs
    ensures favs.Valid()
    ensures favs.log == old(favs.log) + RemoveTrackCalls(old(favs.tracks)) + RemoveArtistCalls(old(favs.artists))
    ensures favs.tracks == reportedTracks == Retained(old(favs.tracks), refusedTracks)
    ensures favs.artists == reportedArtists == Retained(old(favs.artists), refusedArtists)
  {
    reportedTracks := RemoveFavoriteTracks(favs, refusedTracks);
    reportedArtists := RemoveFavoriteArtists(favs, refusedArtists);
  }
}
