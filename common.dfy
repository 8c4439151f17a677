/** Shared vocabulary of the Deezer-to-Tidal migrator: optional values, the
    destination's identifiers and search hits, and the Python exceptions that
    escape the matcher. */
module Common {

  datatype Option<+T> = None | Some(value: T)

  /** A Tidal track or artist identifier (an integer in tidalapi). */
  type Id = int

  /** One candidate of a Tidal search; only its identifier is used for decisions. */
  datatype Hit = Hit(id: Id)

  /** What `session.search(query)` returns, restricted to the two categories read. */
  datatype SearchResult = SearchResult(tracks: seq<Hit>, artists: seq<Hit>)

  /** The exceptions the matcher lets propagate to its caller. */
  datatype PyError =
    | ValueError   // `int()` of a reply that is not a decimal integer
    | IndexError   // a chosen index outside the candidate list
    | EOFError     // `input()` after the operator's input has ended

  /** The identifiers of a list of hits, in rank order. */
  function Ids(hits: seq<Hit>): (r: seq<Id>)
    ensures |r| == |hits|
    ensures forall i :: 0 <= i < |hits| ==> r[i] == hits[i].id
  {
    seq(|hits|, i requires 0 <= i < |hits| => hits[i].id)
  }

  /** `s` is what remains of `t` after some lines were read from its front. */
  predicate IsSuffix<T(==)>(s: seq<T>, t: seq<T>) {
    |s| <= |t| && s == t[|t| - |s|..]
  }

  /** No element occurs twice. */
  predicate Distinct<T(==)>(s: seq<T>) {
    forall i, j :: 0 <= i < j < |s| ==> s[i] != s[j]
  }
}
