/** The Deezer reader (`get_deezer_tracks`, `get_deezer_artists`, dtt.py:7-53):
    a cursor loop that follows `next` pointers. `get` stands for
    `requests.get(url)` followed by `response.json()`: it maps a URL to the
    response returned for it. The page items have already been projected to
    what the source keeps of each. */
module Pagination {
  import opened Common

  /** A response: HTTP status, the items in `data`, and `data.get("next")`. */
  datatype Response<T> = Response(status: int, items: seq<T>, next: Option<string>)

  /** A favourite track as the reader returns it: `(title, artist name)`. */
  datatype TrackItem = TrackItem(title: string, artist: string)

  /** Python's `while url:` — `None` and the empty string both stop the loop. */
  predicate Truthy(url: Option<string>) {
    url.Some? && url.value != ""
  }

  /** Following `next` from `url` ends within `n` requests. */
  predicate Ends<T>(get: string -> Response<T>, url: Option<string>, n: nat)
    decreases n
  {
    !Truthy(url) ||
    (n > 0 && (get(url.value).status != 200 || Ends(get, get(url.value).next, n - 1)))
  }

  /** The items the loop gathers from `url` on: those of each status-200 page,
      in order, up to the end of the chain or the first other status. */
  function Collect<T>(get: string -> Response<T>, url: Option<string>, n: nat): seq<T>
    requires Ends(get, url, n)
    decreases n
  {
    if !Truthy(url) then []
    else
      var r := get(url.value);
      if r.status != 200 then [] else r.items + Collect(get, r.next, n - 1)
  }

  /** The URLs the loop requests, in order. */
  function Visited<T>(get: string -> Response<T>, url: Option<string>, n: nat): (v: seq<string>)
    requires Ends(get, url, n)
    ensures Truthy(url) <==> v != []
    ensures v != [] ==> v[0] == url.value
    decreases n
  {
    if !Truthy(url) then []
    else
      var r := get(url.value);
      if r.status != 200 then [url.value] else [url.value] + Visited(get, r.next, n - 1)
  }

  /** The items of the status-200 pages among `urls`, concatenated in order. */
  function PageItems<T>(get: string -> Response<T>, urls: seq<string>): seq<T> {
    if urls == [] then []
    else
      var r := get(urls[0]);
      (if r.status == 200 then r.items else []) + PageItems(get, urls[1..])
  }

  /** The URL at index `i` was the `next` of a status-200 predecessor. */
  predicate LinkedAt<T>(get: string -> Response<T>, v: seq<string>, i: int)
    requires 0 < i < |v|
  {
    get(v[i - 1]).status == 200 && get(v[i - 1]).next == Some(v[i]) && v[i] != ""
  }

  /** Each URL after the first was the `next` of a status-200 predecessor. */
  predicate Chained<T>(get: string -> Response<T>, v: seq<string>) {
    forall i :: 0 < i < |v| ==> LinkedAt(get, v, i)
  }

  /** The loop shared by both readers: `while url: ... url = data.get("next")`. */
  method FetchPages<T>(get: string -> Response<T>, start: string, ghost n: nat) returns (items: seq<T>)
    requires Ends(get, Some(start), n)
    ensures items == Collect(get, Some(start), n)
  {
    var url := Some(start);
    items := [];
    ghost var k := n;
    while Truthy(url)
      invariant Ends(get, url, k)
      invariant items + Collect(get, url, k) == Collect(get, Some(start), n)
      decreases k
    {
      var response := get(url.value);
      if response.status == 200 {
        items := items + response.items;
        url := response.next;
        k := k - 1;
      } else {
        break;
      }
    }
  }

  function TracksUrl(userId: string): string {
    "https://api.deezer.com/user/" + userId + "/tracks"
  }

  function ArtistsUrl(userId: string): string {
    "https://api.deezer.com/user/" + userId + "/artists"
  }

  /** `get_deezer_tracks(user_id)`. */
  method GetDeezerTracks(get: string -> Response<TrackItem>, userId: string, ghost n: nat)
    returns (tracks: seq<TrackItem>)
    requires Ends(get, Some(TracksUrl(userId)), n)
    ensures tracks == Collect(get, Some(TracksUrl(userId)), n)
  {
    tracks := FetchPages(get, TracksUrl(userId), n);
  }

  /** `get_deezer_artists(user_id)`. */
  method GetDeezerArtists(get: string -> Response<string>, userId: string, ghost n: nat)
    returns (artists: seq<string>)
    requires Ends(get, Some(ArtistsUrl(userId)), n)
    ensures artists == Collect(get, Some(ArtistsUrl(userId)), n)
  {
    artists := FetchPages(get, ArtistsUrl(userId), n);
  }

  // ---------------------------------------------------------------------------
  // Properties of the reader

  /** The result does not depend on the bound used to prove termination. */
  lemma {:induction false} CollectBoundIrrelevant<T>(get: string -> Response<T>, url: Option<string>, n: nat, m: nat)
    requires Ends(get, url, n) && Ends(get, url, m)
    ensures Collect(get, url, n) == Collect(get, url, m)
    ensures Visited(get, url, n) == Visited(get, url, m)
    decreases n
  {
    if Truthy(url) && get(url.value).status == 200 {
      CollectBoundIrrelevant(get, get(url.value).next, n - 1, m - 1);
    }
  }

  /** The loop requests URLs chained by `next`: each one after the first was
      the `next` of a page that answered 200. */
  lemma {:induction false} VisitedIsChained<T>(get: string -> Response<T>, url: Option<string>, n: nat)
    requires Ends(get, url, n)
    ensures Chained(get, Visited(get, url, n))
    decreases n
  {
    if Truthy(url) && get(url.value).status == 200 {
      var next := get(url.value).next;
      VisitedIsChained(get, next, n - 1);
      var w := Visited(get, next, n - 1);
      var v := Visited(get, url, n);
      assert v == [url.value] + w;
      forall i | 0 < i < |v|
        ensures LinkedAt(get, v, i)
      {
        if i > 1 {
          assert LinkedAt(get, w, i - 1);
          assert v[i - 1] == w[i - 2] && v[i] == w[i - 1];
        }
      }
    }
  }

  /** The last page requested either failed or had no next page. */
  lemma {:induction false} VisitedEndsTheChain<T>(get: string -> Response<T>, url: Option<string>, n: nat)
    requires Ends(get, url, n)
    ensures var v := Visited(get, url, n);
      v != [] ==> get(v[|v| - 1]).status != 200 || !Truthy(get(v[|v| - 1]).next)
    decreases n
  {
    if Truthy(url) && get(url.value).status == 200 {
      var next := get(url.value).next;
      VisitedEndsTheChain(get, next, n - 1);
      var w := Visited(get, next, n - 1);
      assert Visited(get, url, n) == [url.value] + w;
    }
  }

  /** The result is the items of the status-200 pages among those requested,
      in page order: a failing page contributes nothing and everything
      gathered before it is kept. */
  lemma {:induction false} CollectIsPageItems<T>(get: string -> Response<T>, url: Option<string>, n: nat)
    requires Ends(get, url, n)
    ensures Collect(get, url, n) == PageItems(get, Visited(get, url, n))
    decreases n
  {
    if Truthy(url) {
      var r := get(url.value);
      if r.status == 200 {
        CollectIsPageItems(get, r.next, n - 1);
        var v := Visited(get, url, n);
        assert v[1..] == Visited(get, r.next, n - 1);
      } else {
        assert PageItems(get, [url.value]) == [];
      }
    }
  }

  /** A failing second page: the first page's items are returned, nothing more. */
  lemma FailingPageKeepsEarlierItems<T>(get: string -> Response<T>, start: string, n: nat)
    requires start != "" && Ends(get, Some(start), n)
    requires get(start).status == 200 && Truthy(get(start).next)
    requires get(get(start).next.value).status != 200
    ensures Collect(get, Some(start), n) == get(start).items
  {
    assert Collect(get, get(start).next, n - 1) == [];
  }
}
