/** String handling of the matcher: lower-casing, the `"(feat."` cut applied to
    track titles, the search queries built from them, and the decimal reading
    `int()` performs on the operator's disambiguation reply. */
module Text {
  import opened Common

  /** The collaborator marker cut off track titles (compared case-sensitively). */
  const FEAT: string := "(feat."

  // ---------------------------------------------------------------------------
  // Lower-casing (ASCII letters only)

  predicate IsUpper(c: char) { 'A' <= c <= 'Z' }

  function LowerChar(c: char): (r: char)
    ensures !IsUpper(r)
    ensures IsUpper(c) ==> r as int == c as int + 32
    ensures !IsUpper(c) ==> r == c
  {
    if IsUpper(c) then (c as int + 32) as char else c
  }

  /** `str.lower()` on letters A-Z; every other character is left as it is. */
  function Lower(s: string): (r: string)
    ensures |r| == |s|
    ensures forall i :: 0 <= i < |s| ==> r[i] == LowerChar(s[i])
  {
    seq(|s|, i requires 0 <= i < |s| => LowerChar(s[i]))
  }

  predicate NoUpper(s: string) {
    forall i :: 0 <= i < |s| ==> !IsUpper(s[i])
  }

  lemma LowerIdempotent(s: string)
    ensures NoUpper(Lower(s))
    ensures Lower(Lower(s)) == Lower(s)
  {
  }

  /** Lower-casing `f"{a} {b}"` lower-cases both parts and keeps the space. */
  lemma LowerJoin(a: string, b: string)
    ensures Lower(a + " " + b) == Lower(a) + " " + Lower(b)
  {
    var s := a + " " + b;
    forall i | 0 <= i < |s|
      ensures Lower(s)[i] == (Lower(a) + " " + Lower(b))[i]
    {
      if i < |a| {
        assert s[i] == a[i];
      } else if i > |a| {
        assert s[i] == b[i - |a| - 1];
      }
    }
  }

  // ---------------------------------------------------------------------------
  // Substring search and `str.split(sep)[0]`

  /** `pat` occurs in `s` starting at index `j`. */
  predicate OccursAt(s: string, pat: string, j: int) {
    0 <= j && j + |pat| <= |s| && s[j..j + |pat|] == pat
  }

  /** `j` is the first occurrence of `pat` in `s`. */
  predicate FirstOccurrence(s: string, pat: string, j: int) {
    OccursAt(s, pat, j) && forall k :: 0 <= k < j ==> !OccursAt(s, pat, k)
  }

  /** The first occurrence of `pat` at or after index `i`. */
  function FindFrom(s: string, pat: string, i: nat): (r: Option<nat>)
    requires i <= |s|
    ensures r.Some? ==> i <= r.value && OccursAt(s, pat, r.value)
    ensures r.Some? ==> forall k :: i <= k < r.value ==> !OccursAt(s, pat, k)
    ensures r.None? ==> forall k :: i <= k ==> !OccursAt(s, pat, k)
    decreases |s| - i
  {
    if i + |pat| > |s| then None
    else if s[i..i + |pat|] == pat then Some(i)
    else FindFrom(s, pat, i + 1)
  }

  /** The first occurrence of `pat` in `s`, if any. */
  function FindFirst(s: string, pat: string): (r: Option<nat>)
    ensures r.Some? ==> FirstOccurrence(s, pat, r.value)
    ensures r.None? <==> forall k :: !OccursAt(s, pat, k)
  {
    FindFrom(s, pat, 0)
  }

  /** Python's `pat in s`. */
  predicate Contains(s: string, pat: string) {
    FindFirst(s, pat).Some?
  }

  /** Python's `s.split(sep)[0]`: everything before the first `sep`, or all of `s`. */
  function SplitHead(s: string, sep: string): (r: string)
    requires sep != ""
    ensures |r| <= |s| && r == s[..|r|]
    ensures Contains(s, sep) <==> |r| < |s|
  {
    match FindFirst(s, sep)
    case Some(i) => s[..i]
    case None => s
  }

  // ---------------------------------------------------------------------------
  // Queries (dtt.py:64-70 and dtt.py:104-106)

  /** The title as searched for: cut at the first `"(feat."`, then lower-cased. */
  function NormaliseTitle(title: string): (r: string)
    ensures NoUpper(r) && |r| <= |title|
  {
    var cut := if Contains(title, FEAT) then SplitHead(title, FEAT) else title;
    Lower(cut)
  }

  /** The primary track query: `f"{track_title} {track_artist}"` after normalisation. */
  function TrackQuery(title: string, artist: string): (r: string)
    ensures NoUpper(r)
    ensures |r| == |NormaliseTitle(title)| + 1 + |artist|
  {
    NormaliseTitle(title) + " " + Lower(artist)
  }

  /** The primary artist query: the lower-cased name. */
  function ArtistQuery(name: string): (r: string)
    ensures NoUpper(r) && |r| == |name|
  {
    Lower(name)
  }

  /** The whole primary track query, in the two cases of the title. */
  lemma {:induction false} TrackQueryCases(title: string, artist: string)
    ensures (forall k :: !OccursAt(title, FEAT, k)) ==>
      TrackQuery(title, artist) == Lower(title + " " + artist)
    ensures forall i :: FirstOccurrence(title, FEAT, i) ==>
      TrackQuery(title, artist) == Lower(title[..i] + " " + artist)
  {
    NormaliseTitleCases(title);
    LowerJoin(title, artist);
    forall i | FirstOccurrence(title, FEAT, i)
      ensures TrackQuery(title, artist) == Lower(title[..i] + " " + artist)
    {
      LowerJoin(title[..i], artist);
    }
  }

  /** The case of the artist and of the artist name does not matter: both
      queries are the same for a lower-cased input. */
  lemma {:induction false} ArtistCaseIgnored(title: string, artist: string, name: string)
    ensures TrackQuery(title, Lower(artist)) == TrackQuery(title, artist)
    ensures ArtistQuery(Lower(name)) == ArtistQuery(name)
  {
    LowerIdempotent(artist);
    LowerIdempotent(name);
  }

  /** The normalised title is the lower-cased text before the first marker,
      or the whole lower-cased title when the marker does not occur. */
  lemma NormaliseTitleCases(title: string)
    ensures (forall k :: !OccursAt(title, FEAT, k)) ==> NormaliseTitle(title) == Lower(title)
    ensures forall i :: FirstOccurrence(title, FEAT, i) ==> NormaliseTitle(title) == Lower(title[..i])
  {
    forall i | FirstOccurrence(title, FEAT, i)
      ensures NormaliseTitle(title) == Lower(title[..i])
    {
      var f := FindFirst(title, FEAT);
      assert f.Some?;
      FirstOccurrenceUnique(title, FEAT, i, f.value);
    }
  }

  lemma FirstOccurrenceUnique(s: string, pat: string, i: int, j: int)
    requires FirstOccurrence(s, pat, i) && FirstOccurrence(s, pat, j)
    ensures i == j
  {
  }

  /** `"(feat."` cannot start inside a text that does not contain it and end
      inside a following `"(feat."`: its only `(` is its first character. */
  lemma NoStraddle(t: string, x: string)
    requires forall k :: !OccursAt(t, FEAT, k)
    ensures FirstOccurrence(t + FEAT + x, FEAT, |t|)
  {
    var s := t + FEAT + x;
    assert s[|t|..|t| + |FEAT|] == FEAT;
    forall k | 0 <= k < |t|
      ensures !OccursAt(s, FEAT, k)
    {
      if k + |FEAT| <= |t| {
        assert s[k..k + |FEAT|] == t[k..k + |FEAT|];
        assert !OccursAt(t, FEAT, k);
      } else if k + |FEAT| <= |s| {
        var d := |t| - k;
        assert s[k..k + |FEAT|][d] == s[|t|] == '(';
        assert FEAT[d] != '(';
      }
    }
  }

  /** A featuring annotation appended to a title that has none does not change
      the query: "Song (feat. X)" is searched for as "song". */
  lemma {:induction false} FeatSuffixDropped(t: string, x: string, artist: string)
    requires forall k :: !OccursAt(t, FEAT, k)
    ensures NormaliseTitle(t + FEAT + x) == Lower(t)
    ensures TrackQuery(t + FEAT + x, artist) == TrackQuery(t, artist)
  {
    NoStraddle(t, x);
    NormaliseTitleCases(t + FEAT + x);
    NormaliseTitleCases(t);
    assert (t + FEAT + x)[..|t|] == t;
  }

  /** `"(feat."` does not occur in a text made of two marker-free parts
      around `"(Feat."`: it could only start at that `(`, where `F` differs. */
  lemma NoMarkerAroundCapitalised(t: string, x: string)
    requires forall k :: !OccursAt(t, FEAT, k)
    requires forall k :: !OccursAt(x, FEAT, k)
    ensures forall k :: !OccursAt(t + "(Feat." + x, FEAT, k)
  {
    var s := t + "(Feat." + x;
    var n := |t| + 6;
    forall k | 0 <= k && k + |FEAT| <= |s|
      ensures !OccursAt(s, FEAT, k)
    {
      if k + |FEAT| <= |t| {
        assert s[k..k + |FEAT|] == t[k..k + |FEAT|];
        assert !OccursAt(t, FEAT, k);
      } else if k < |t| {
        var d := |t| - k;
        assert s[k..k + |FEAT|][d] == s[|t|] == '(';
        assert FEAT[d] != '(';
      } else if k == |t| {
        assert s[k..k + |FEAT|][1] == 'F';
      } else if k < n {
        assert s[k..k + |FEAT|][0] == s[k] == "(Feat."[k - |t|];
      } else {
        assert s[k..k + |FEAT|] == x[k - n..k - n + |FEAT|];
        assert !OccursAt(x, FEAT, k - n);
      }
    }
  }

  /** The marker is matched case-sensitively: a title carrying "(Feat." is not
      cut, and after lower-casing its query carries "(feat." itself. */
  lemma {:induction false} CapitalisedMarkerKept(t: string, x: string)
    requires forall k :: !OccursAt(t, FEAT, k)
    requires forall k :: !OccursAt(x, FEAT, k)
    ensures NormaliseTitle(t + "(Feat." + x) == Lower(t + "(Feat." + x)
    ensures OccursAt(NormaliseTitle(t + "(Feat." + x), FEAT, |t|)
  {
    var s := t + "(Feat." + x;
    NoMarkerAroundCapitalised(t, x);
    NormaliseTitleCases(s);
    assert Lower(s)[|t|..|t| + |FEAT|] == Lower(s[|t|..|t| + |FEAT|]);
    assert s[|t|..|t| + |FEAT|] == "(Feat.";
    LowerCapitalisedMarker();
  }

  lemma LowerCapitalisedMarker()
    ensures Lower("(Feat.") == FEAT
  {
    assert Lower("(Feat.")[1] == LowerChar('F') == 'f';
  }

  // ---------------------------------------------------------------------------
  // `int(reply)` for a decimal reply (CPython's str-to-int rules, base 10)

  /** The characters `int()` skips around the number: tab, line feed,
      vertical tab, form feed, carriage return and space. Code points below
      128 are not mapped, so the separators 0x1C-0x1F are not skipped. */
  predicate IsSpace(c: char) {
    9 <= c as int <= 13 || c as int == 32
  }

  predicate IsDigit(c: char) { '0' <= c <= '9' }

  function DigitValue(c: char): (r: nat)
    requires IsDigit(c)
    ensures r < 10
  {
    c as int - '0' as int
  }

  function LStrip(s: string): (r: string)
    ensures |r| <= |s| && r == s[|s| - |r|..]
    ensures r == [] || !IsSpace(r[0])
  {
    if s != [] && IsSpace(s[0]) then
      var r := LStrip(s[1..]);
      assert s[1..][|s| - 1 - |r|..] == s[|s| - |r|..];
      r
    else s
  }

  function RStrip(s: string): (r: string)
    ensures |r| <= |s| && r == s[..|r|]
    ensures r == [] || !IsSpace(r[|r| - 1])
  {
    if s != [] && IsSpace(s[|s| - 1]) then
      var r := RStrip(s[..|s| - 1]);
      assert s[..|s| - 1][..|r|] == s[..|r|];
      r
    else s
  }

  /** Only digits and underscores. */
  predicate DigitChars(b: string) {
    forall i :: 0 <= i < |b| ==> IsDigit(b[i]) || b[i] == '_'
  }

  /** Digits, with single underscores allowed between two digits. */
  predicate WellFormedDigits(b: string) {
    && DigitChars(b)
    && |b| > 0
    && IsDigit(b[0])
    && IsDigit(b[|b| - 1])
    && forall i :: 0 <= i < |b| - 1 && b[i] == '_' ==> IsDigit(b[i + 1])
  }

  /** The value of a digit string, underscores ignored. */
  function DigitsValue(b: string): nat
    requires DigitChars(b)
  {
    if b == [] then 0
    else if b[|b| - 1] == '_' then DigitsValue(b[..|b| - 1])
    else DigitsValue(b[..|b| - 1]) * 10 + DigitValue(b[|b| - 1])
  }

  /** The number of digits in a digit string; underscores do not count. */
  function DigitCount(b: string): (r: nat)
    ensures r <= |b|
  {
    if b == [] then 0
    else DigitCount(b[..|b| - 1]) + (if b[|b| - 1] == '_' then 0 else 1)
  }

  /** CPython's default `sys.get_int_max_str_digits()`: `int()` refuses a
      decimal text with more digits than this. */
  const MaxStrDigits: nat := 4300

  /** Only whitespace, or nothing at all. */
  predicate Blank(s: string) {
    forall i :: 0 <= i < |s| ==> IsSpace(s[i])
  }

  /** `int(s)`; `None` is the `ValueError`. */
  function ParseInt(s: string): (r: Option<int>)
    ensures Blank(s) ==> r.None?
  {
    var t := LStrip(RStrip(s));
    if t == [] then None
    else
      var negative := t[0] == '-';
      var body := if t[0] == '-' || t[0] == '+' then t[1..] else t;
      if !WellFormedDigits(body) || DigitCount(body) > MaxStrDigits then None
      else
        var v: int := DigitsValue(body);
        assert !Blank(s) by {
          if Blank(s) {
            RStripBlank(s);
          }
        }
        Some(if negative then -v else v)
  }

  /** Nothing is left of a blank text. */
  lemma {:induction false} RStripBlank(s: string)
    requires Blank(s)
    ensures RStrip(s) == []
    decreases |s|
  {
    if s != [] {
      RStripBlank(s[..|s| - 1]);
    }
  }

  /** A lone character that is neither blank, a sign nor a digit is not a
      number. */
  lemma ParseLoneNonDigit(s: string)
    requires |s| == 1 && !IsSpace(s[0]) && !IsDigit(s[0])
    requires s[0] != '-' && s[0] != '+'
    ensures ParseInt(s) == None
  {
    assert RStrip(s) == s;
    assert LStrip(s) == s;
  }

  /** The canonical decimal text of `k`, as the operator types it. */
  function DecimalText(k: nat): (r: string)
    ensures |r| > 0
    ensures forall i :: 0 <= i < |r| ==> IsDigit(r[i])
  {
    var d := ['0' + (k % 10) as char];
    if k < 10 then d else DecimalText(k / 10) + d
  }

  /** The operator types zero as `"0"`, which `int()` reads as 0. */
  lemma ZeroText()
    ensures DecimalText(0) == "0"
    ensures ParseInt("0") == Some(0)
  {
    assert DecimalText(0) == ['0' + (0 % 10) as char];
    ParseDecimalText(0);
  }

  lemma {:induction false} DecimalTextValue(k: nat)
    ensures DigitsValue(DecimalText(k)) == k
  {
    var d := ['0' + (k % 10) as char];
    if k >= 10 {
      DecimalTextValue(k / 10);
      var p := DecimalText(k / 10);
      assert (p + d)[..|p + d| - 1] == p;
    }
  }

  /** Reading back the decimal text of a natural number gives that number. */
  lemma {:induction false} ParseDecimalText(k: nat)
    ensures |DecimalText(k)| <= MaxStrDigits ==> ParseInt(DecimalText(k)) == Some(k)
    ensures |DecimalText(k)| > MaxStrDigits ==> ParseInt(DecimalText(k)) == None
  {
    var s := DecimalText(k);
    if |s| <= MaxStrDigits {
      ParseDigits(s);
      DecimalTextValue(k);
    } else {
      TooManyDigits(s);
    }
  }

  /** A non-empty text of at most `MaxStrDigits` digits reads as its value. */
  lemma ParseDigits(s: string)
    requires 0 < |s| <= MaxStrDigits
    requires forall i :: 0 <= i < |s| ==> IsDigit(s[i])
    ensures DigitChars(s) && ParseInt(s) == Some(DigitsValue(s))
  {
    assert !IsSpace(s[|s| - 1]) && !IsSpace(s[0]);
    assert RStrip(s) == s;
    assert LStrip(s) == s;
    assert s[0] != '-' && s[0] != '+';
    assert WellFormedDigits(s);
    DigitCountOfDigits(s);
  }

  /** In a text of digits only, every character counts towards the limit. */
  lemma {:induction false} DigitCountOfDigits(s: string)
    requires forall i :: 0 <= i < |s| ==> IsDigit(s[i])
    ensures DigitCount(s) == |s|
    decreases |s|
  {
    if s != [] {
      DigitCountOfDigits(s[..|s| - 1]);
    }
  }

  /** A reply of more than `MaxStrDigits` digits, leading zeros included, is
      refused with `ValueError`, whatever its value. */
  lemma {:induction false} TooManyDigits(s: string)
    requires |s| > MaxStrDigits
    requires forall i :: 0 <= i < |s| ==> IsDigit(s[i])
    ensures ParseInt(s) == None
  {
    assert !IsSpace(s[|s| - 1]) && !IsSpace(s[0]);
    assert RStrip(s) == s;
    assert LStrip(s) == s;
    assert s[0] != '-' && s[0] != '+';
    DigitCountOfDigits(s);
  }

  /** The information separators 0x1C-0x1F are not whitespace to `int()`: a
      number behind one is rejected. */
  lemma {:induction false} SeparatorNotStripped(k: nat, c: char)
    requires 28 <= c as int <= 31
    ensures ParseInt([c] + DecimalText(k)) == None
  {
    var s := [c] + DecimalText(k);
    assert !IsSpace(s[|s| - 1]) && !IsSpace(s[0]);
    assert RStrip(s) == s;
    assert LStrip(s) == s;
    assert !IsDigit(s[0]) && s[0] != '-' && s[0] != '+';
  }
}
