/**
 * The dashboard header's title (components/site-header.tsx): the last
 * non-empty segment of the pathname, or "Dashboard" when there is none, with
 * `-` and `_` turned into spaces and the first letter of every word
 * upper-cased.
 */
module SiteHeader {
  import opened Text

  const DefaultTitle: string := "Dashboard"

  /** The word separators of the title: the character class `[-_]`. */
  const WordSeparators: set<char> := {'-', '_'}

  /** `.filter(Boolean)` on strings: the non-empty ones, in order. */
  function NonEmpty(parts: seq<string>): seq<string>
  {
    if parts == [] then []
    else if parts[0] == "" then NonEmpty(parts[1..])
    else [parts[0]] + NonEmpty(parts[1..])
  }

  /** `pathname.split("/").filter(Boolean)`. */
  function Segments(pathname: string): seq<string>
  {
    NonEmpty(Split(pathname, {'/'}))
  }

  /** `segments[segments.length - 1] || "Dashboard"`. */
  function RawTitle(pathname: string): string
  {
    var segments := Segments(pathname);
    if segments == [] then DefaultTitle else segments[|segments| - 1]
  }

  /** `s.charAt(0).toUpperCase() + s.slice(1)`. */
  function Capitalize(s: string): string
  {
    if s == [] then [] else [Upper(s[0])] + s[1..]
  }

  function CapitalizeAll(words: seq<string>): (r: seq<string>)
    ensures |r| == |words|
  {
    if words == [] then [] else [Capitalize(words[0])] + CapitalizeAll(words[1..])
  }

  /** `raw.split(/[-_]/).map(capitalize).join(" ")`. */
  function Words(raw: string): string
  {
    Join(CapitalizeAll(Split(raw, WordSeparators)), ' ')
  }

  /** The header's title for `pathname`. */
  function Title(pathname: string): string
  {
    Words(RawTitle(pathname))
  }

  /*
   * The segments.
   */

  lemma {:induction false} NonEmptyConcat(a: seq<string>, b: seq<string>)
    ensures NonEmpty(a + b) == NonEmpty(a) + NonEmpty(b)
  {
    if a == [] {
      assert a + b == b;
    } else {
      assert (a + b)[0] == a[0] && (a + b)[1..] == a[1..] + b;
      NonEmptyConcat(a[1..], b);
    }
  }

  lemma {:induction false} NonEmptySpec(parts: seq<string>)
    ensures forall k :: 0 <= k < |NonEmpty(parts)| ==> NonEmpty(parts)[k] != ""
    ensures forall s :: s in NonEmpty(parts) <==> s in parts && s != ""
  {
    if parts != [] {
      NonEmptySpec(parts[1..]);
      assert forall s :: s in parts <==> s == parts[0] || s in parts[1..];
    }
  }

  /** A `/` splits the pathname into the segments of its two sides: repeated, leading and trailing `/` add none. */
  lemma SegmentsAround(a: string, b: string)
    ensures Segments(a + "/" + b) == Segments(a) + Segments(b)
  {
    SplitAround(a, '/', b, {'/'});
    NonEmptyConcat(Split(a, {'/'}), Split(b, {'/'}));
  }

  /** Every segment is a non-empty run of characters other than `/`. */
  lemma SegmentsShape(pathname: string)
    ensures forall k :: 0 <= k < |Segments(pathname)| ==>
      Segments(pathname)[k] != "" && NoneIn(Segments(pathname)[k], {'/'})
  {
    var parts := Split(pathname, {'/'});
    NonEmptySpec(parts);
    SplitPiecesHaveNoSeparator(pathname, {'/'});
    forall k | 0 <= k < |Segments(pathname)|
      ensures NoneIn(Segments(pathname)[k], {'/'})
    {
      var s := Segments(pathname)[k];
      assert s in parts;
      var m :| 0 <= m < |parts| && parts[m] == s;
    }
  }

  /** A pathname has no segment exactly when it is made of `/` only. */
  lemma {:induction false} NoSegments(pathname: string)
    ensures Segments(pathname) == [] <==> forall i :: 0 <= i < |pathname| ==> pathname[i] == '/'
  {
    if pathname != [] {
      var x, t := pathname[0], pathname[1..];
      NoSegments(t);
      SplitCons(x, t, {'/'});
      assert pathname == [x] + t;
      if x == '/' {
        SegmentsAround([], t);
        assert [] + "/" + t == pathname;
      }
    }
  }

  /** A run of characters other than `/` is a single segment. */
  lemma {:induction false} SingleSegment(w: string)
    requires w != [] && NoneIn(w, {'/'})
    ensures Segments(w) == [w]
  {
    SplitWithout(w, {'/'});
    assert NonEmpty([w]) == [w] + NonEmpty([]);
  }

  /*
   * The title.
   */

  /** A path made of `/` only, the empty one included, is titled "Dashboard". */
  lemma DefaultTitleWhenNoSegments(pathname: string)
    requires forall i :: 0 <= i < |pathname| ==> pathname[i] == '/'
    ensures Title(pathname) == DefaultTitle
  {
    NoSegments(pathname);
    DefaultTitleWords();
  }

  lemma DefaultTitleWords()
    ensures Words(DefaultTitle) == DefaultTitle
  {
    SingleWord(DefaultTitle);
  }

  /** Whatever comes before the last segment, even other segments, does not change the title. */
  lemma OnlyLastSegmentCounts(a: string, b: string)
    requires exists i :: 0 <= i < |b| && b[i] != '/'
    ensures Title(a + "/" + b) == Title(b)
  {
    SegmentsAround(a, b);
    NoSegments(b);
  }

  /** Trailing `/` characters do not change the title. */
  lemma TrailingSlashIgnored(pathname: string)
    ensures Title(pathname + "/") == Title(pathname)
  {
    SegmentsAround(pathname, "");
    assert pathname + "/" + "" == pathname + "/";
    assert Segments("") == [];
  }

  /** The title of a path ending in segment `w` is made from `w` alone. */
  lemma TitleOfLastSegment(a: string, w: string)
    requires w != [] && NoneIn(w, {'/'})
    ensures Title(a + "/" + w) == Words(w)
  {
    SegmentsAround(a, w);
    SingleSegment(w);
  }

  /**
   * An independent, character by character, reading of the title: a
   * separator becomes a space, a letter that starts a word is upper-cased,
   * and every other character is kept.
   */
  function TitleChars(raw: string, atStart: bool): (t: string)
    ensures |t| == |raw|
  {
    if raw == [] then []
    else if raw[0] in WordSeparators then " " + TitleChars(raw[1..], true)
    else [if atStart then Upper(raw[0]) else raw[0]] + TitleChars(raw[1..], false)
  }

  /** The words after the first, each behind a space. */
  function JoinedRest(pieces: seq<string>): string
    requires pieces != []
  {
    if |pieces| == 1 then [] else " " + Join(CapitalizeAll(pieces[1..]), ' ')
  }

  lemma JoinCapitalized(pieces: seq<string>)
    requires pieces != []
    ensures Join(CapitalizeAll(pieces), ' ') == Capitalize(pieces[0]) + JoinedRest(pieces)
  {
    var c := CapitalizeAll(pieces);
    assert c == [Capitalize(pieces[0])] + CapitalizeAll(pieces[1..]);
    JoinCons(Capitalize(pieces[0]), CapitalizeAll(pieces[1..]), ' ');
  }

  lemma {:induction false} TitleCharsSplit(raw: string)
    ensures TitleChars(raw, false) == Split(raw, WordSeparators)[0] + JoinedRest(Split(raw, WordSeparators))
    ensures TitleChars(raw, true) == Capitalize(Split(raw, WordSeparators)[0]) + JoinedRest(Split(raw, WordSeparators))
  {
    if raw != [] {
      var x, t := raw[0], raw[1..];
      var rt := Split(t, WordSeparators);
      TitleCharsSplit(t);
      SplitCons(x, t, WordSeparators);
      assert raw == [x] + t;
      JoinCapitalized(rt);
      if x !in WordSeparators {
        var r := Split(raw, WordSeparators);
        assert r[1..] == rt[1..];
      }
    }
  }

  /** The title is the character by character reading of the raw segment. */
  lemma WordsAreTitleChars(raw: string)
    ensures Words(raw) == TitleChars(raw, true)
  {
    TitleCharsSplit(raw);
    JoinCapitalized(Split(raw, WordSeparators));
  }

  lemma {:induction false} TitleCharAt(raw: string, atStart: bool, i: nat)
    requires i < |raw|
    ensures TitleChars(raw, atStart)[i]
      == if raw[i] in WordSeparators then ' '
         else if (if i == 0 then atStart else raw[i - 1] in WordSeparators) then Upper(raw[i])
         else raw[i]
  {
    if i > 0 {
      TitleCharAt(raw[1..], raw[0] in WordSeparators, i - 1);
      assert TitleChars(raw, atStart)[1..] == TitleChars(raw[1..], raw[0] in WordSeparators);
      assert raw[1..][i - 1] == raw[i];
      if i > 1 {
        assert raw[1..][i - 2] == raw[i - 1];
      }
    }
  }

  /**
   * The title has the length of the raw segment; each `-` or `_` becomes a
   * space, the first character and every character after a separator is
   * upper-cased, and the rest is kept.
   */
  lemma WordsChars(raw: string)
    ensures |Words(raw)| == |raw|
    ensures forall i :: 0 <= i < |raw| ==>
      Words(raw)[i]
      == if raw[i] in WordSeparators then ' '
         else if i == 0 || raw[i - 1] in WordSeparators then Upper(raw[i])
         else raw[i]
  {
    WordsAreTitleChars(raw);
    forall i | 0 <= i < |raw|
      ensures Words(raw)[i]
        == if raw[i] in WordSeparators then ' '
           else if i == 0 || raw[i - 1] in WordSeparators then Upper(raw[i])
           else raw[i]
    {
      TitleCharAt(raw, true, i);
    }
  }

  /** A segment without separators keeps all but its first character. */
  lemma SingleWord(raw: string)
    requires raw != [] && NoneIn(raw, WordSeparators)
    ensures Words(raw) == [Upper(raw[0])] + raw[1..]
  {
    WordsChars(raw);
    var t := [Upper(raw[0])] + raw[1..];
    forall i | 0 <= i < |raw| ensures Words(raw)[i] == t[i] {
      if i > 0 {
        assert raw[i - 1] !in WordSeparators;
      }
    }
  }

  lemma {:induction false} TitleCharsSpaces(raw: string, atStart: bool)
    requires NoneIn(raw, {' '})
    ensures CountIn(TitleChars(raw, atStart), {' '}) == CountIn(raw, WordSeparators)
  {
    if raw != [] {
      TitleCharsSpaces(raw[1..], raw[0] in WordSeparators);
      assert TitleChars(raw, atStart)[1..] == TitleChars(raw[1..], raw[0] in WordSeparators);
    }
  }

  /**
   * For a segment without spaces, the title has one word more than the
   * segment has separators: the words are those `split(/[-_]/)` produced.
   */
  lemma WordCount(raw: string)
    requires NoneIn(raw, {' '})
    ensures |Split(Words(raw), {' '})| == CountIn(raw, WordSeparators) + 1
    ensures |Split(Words(raw), {' '})| == |Split(raw, WordSeparators)|
  {
    WordsAreTitleChars(raw);
    TitleCharsSpaces(raw, true);
  }
}
