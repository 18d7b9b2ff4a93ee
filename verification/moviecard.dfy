/** The pure derivations of the `MovieCard` component: the short synopsis, the
    platform line, the poster fallback and the owner-only actions. Browser
    strings are sequences of UTF-16 code units, so the synopsis is encoded
    before it is measured and cut. */
module MovieCard {
  import opened Model

  newtype CodeUnit = x: int | 0 <= x < 0x1_0000

  predicate IsHighSurrogate(u: CodeUnit) { 0xD800 <= u < 0xDC00 }
  predicate IsLowSurrogate(u: CodeUnit) { 0xDC00 <= u < 0xE000 }

  /** The UTF-16 encoding of one Unicode scalar value: itself below 0x10000,
      otherwise a high/low surrogate pair that decodes back to it. */
  function EncodeChar(c: char): (u: seq<CodeUnit>)
    ensures 1 <= |u| <= 2
    ensures |u| == 1 <==> (c as int) < 0x1_0000
    ensures |u| == 1 ==> u[0] as int == c as int
    ensures |u| == 2 ==> IsHighSurrogate(u[0]) && IsLowSurrogate(u[1])
    ensures |u| == 2 ==> 0x1_0000 + (u[0] as int - 0xD800) * 0x400 + (u[1] as int - 0xDC00) == c as int
  {
    var v := c as int;
    if v < 0x1_0000 then [v as CodeUnit]
    else
      var w := v - 0x1_0000;
      [(0xD800 + w / 0x400) as CodeUnit, (0xDC00 + w % 0x400) as CodeUnit]
  }

  /** A JavaScript string's code units. */
  function Utf16(s: string): (u: seq<CodeUnit>)
    ensures |u| >= |s|
    ensures (forall i :: 0 <= i < |s| ==> (s[i] as int) < 0x1_0000) ==> |u| == |s|
  {
    if |s| == 0 then [] else EncodeChar(s[0]) + Utf16(s[1..])
  }

  const SynopsisLimit: nat := 100
  const Ellipsis: seq<CodeUnit> := [46, 46, 46]

  /** `synopsis.length > 100 ? synopsis.substring(0, 100) + '...' : synopsis`. */
  function ShortSynopsis(u: seq<CodeUnit>): (r: seq<CodeUnit>)
    ensures |u| <= SynopsisLimit ==> r == u
    ensures |u| > SynopsisLimit ==> |r| == SynopsisLimit + 3 && r[..SynopsisLimit] == u[..SynopsisLimit]
    ensures |u| > SynopsisLimit ==> r[SynopsisLimit..] == Ellipsis
    ensures |r| <= SynopsisLimit + 3
  {
    if |u| > SynopsisLimit then u[..SynopsisLimit] + Ellipsis else u
  }

  /** Shortening an already short synopsis changes nothing. */
  lemma ShortSynopsisIdempotent(u: seq<CodeUnit>)
    ensures ShortSynopsis(ShortSynopsis(u)) == ShortSynopsis(u)
  {
    if |u| > SynopsisLimit {
      var r := ShortSynopsis(u);
      assert r[..SynopsisLimit] + Ellipsis == r;
    }
  }

  /** A synopsis is shown unchanged exactly when it fits in 100 units, or when
      it already is 100 units followed by "...". */
  lemma ShortSynopsisUnchangedIff(u: seq<CodeUnit>)
    ensures ShortSynopsis(u) == u <==>
      |u| <= SynopsisLimit || (|u| == SynopsisLimit + 3 && u[SynopsisLimit..] == Ellipsis)
  {
    if |u| == SynopsisLimit + 3 && u[SynopsisLimit..] == Ellipsis {
      assert u[..SynopsisLimit] + u[SynopsisLimit..] == u;
    }
  }

  /** The limit counts code units, not characters: the cut can fall between
      the two halves of a surrogate pair, leaving a lone high surrogate before "...". */
  lemma CutCanSplitSurrogatePair(s: string)
    requires |Utf16(s)| > SynopsisLimit && IsHighSurrogate(Utf16(s)[SynopsisLimit - 1])
    ensures var r := ShortSynopsis(Utf16(s));
      IsHighSurrogate(r[SynopsisLimit - 1]) && !IsLowSurrogate(r[SynopsisLimit])
  {
  }

  /** Such a string exists: 99 ASCII letters followed by two emoji. */
  lemma SurrogatePairSplitExample()
    ensures var s := seq(99, _ => 'a') + "\U{1F600}\U{1F600}";
      |Utf16(s)| == 103 && IsHighSurrogate(Utf16(s)[99])
  {
    var a := seq(99, _ => 'a');
    var e := "\U{1F600}\U{1F600}";
    Utf16Append(a, e);
    assert |Utf16(a)| == 99;
    assert Utf16(e) == EncodeChar('\U{1F600}') + EncodeChar('\U{1F600}');
  }

  /** Encoding distributes over concatenation. */
  lemma {:induction false} Utf16Append(a: string, b: string)
    ensures Utf16(a + b) == Utf16(a) + Utf16(b)
  {
    if |a| > 0 {
      assert (a + b)[0] == a[0] && (a + b)[1..] == a[1..] + b;
      Utf16Append(a[1..], b);
      assert Utf16(a + b) == EncodeChar(a[0]) + (Utf16(a[1..]) + Utf16(b));
    } else {
      assert a + b == b;
    }
  }

  /** An array element as `join` renders it: null and undefined become "". */
  function Rendered(item: Option<string>): (r: string)
    ensures item.None? ==> r == ""
    ensures item.Some? ==> r == item.value
  {
    item.GetOr("")
  }

  /** The total length of the rendered elements. */
  function RenderedLength(items: seq<Option<string>>): nat {
    if |items| == 0 then 0 else |Rendered(items[0])| + RenderedLength(items[1..])
  }

  /** `items.join(', ')`: the first element's text comes first, the joined text
      is the rendered elements plus two units per separator, and it is empty
      exactly when there is no element, or one that renders empty. */
  function JoinPlatforms(items: seq<Option<string>>): (r: string)
    ensures |items| > 0 ==> Rendered(items[0]) <= r
    ensures |items| > 0 ==> |r| == RenderedLength(items) + 2 * (|items| - 1)
    ensures r == "" <==> |items| == 0 || (|items| == 1 && Rendered(items[0]) == "")
    decreases |items|
  {
    if |items| == 0 then ""
    else if |items| == 1 then Rendered(items[0])
    else Rendered(items[0]) + ", " + JoinPlatforms(items[1..])
  }

  /** The fallback applies: no platform, or one that joins to "". */
  predicate NoPlatform(p: Option<seq<Option<string>>>) {
    p.None? || |p.value| == 0 || (|p.value| == 1 && Rendered(p.value[0]) == "")
  }

  const NotAvailable := "N/A"

  /** `movie.platform?.join(', ') || 'N/A'`. */
  function PlatformText(p: Option<seq<Option<string>>>): (t: string)
    ensures NoPlatform(p) ==> t == NotAvailable
    ensures !NoPlatform(p) ==> t == JoinPlatforms(p.value) && t != ""
  {
    match p
    case None => NotAvailable
    case Some(items) =>
      var joined := JoinPlatforms(items);
      if joined == "" then NotAvailable else joined
  }

  const PlaceholderPoster := "/placeholder-poster.png"

  /** `movie.posterUrl || "/placeholder-poster.png"`. */
  function PosterSource(url: Option<string>): (src: string)
    ensures url.Some? && url.value != "" ==> src == url.value
    ensures url.None? || url.value == "" ==> src == PlaceholderPoster
  {
    if url.Some? && url.value != "" then url.value else PlaceholderPoster
  }

  datatype Action = Edit | Delete

  /** What a rendered card shows. */
  datatype Card = Card(poster: string, title: Option<string>, platform: string,
                       synopsis: seq<CodeUnit>, thumbsUp: Option<nat>, thumbsDown: Option<nat>,
                       actions: seq<Action>)

  /** The component: nothing for a missing movie; the full synopsis while
      hovered, the short one otherwise; Edit and Delete only for the owner. */
  function Render(movie: Option<Movie>, posterUrl: Option<string>, hovered: bool, isOwner: bool): (r: Option<Card>)
    ensures r.None? <==> movie.None?
    ensures r.Some? ==>
      var full := Utf16(movie.value.synopsis.GetOr(""));
      && (hovered ==> r.value.synopsis == full)
      && (!hovered ==> r.value.synopsis == ShortSynopsis(full))
      && (Edit in r.value.actions <==> isOwner)
      && (Delete in r.value.actions <==> isOwner)
      && r.value.platform == PlatformText(movie.value.platform)
      && r.value.poster == PosterSource(posterUrl)
      && r.value.title == movie.value.title
      && r.value.thumbsUp == movie.value.thumbsUp && r.value.thumbsDown == movie.value.thumbsDown
  {
    match movie
    case None => None
    case Some(m) =>
      var synopsis := Utf16(m.synopsis.GetOr(""));
      Some(Card(PosterSource(posterUrl), m.title, PlatformText(m.platform),
                if hovered then synopsis else ShortSynopsis(synopsis),
                m.thumbsUp, m.thumbsDown, if isOwner then [Edit, Delete] else []))
  }

  /** A movie added with the single platform name `name` shows that name. */
  lemma SinglePlatformShown(name: string)
    requires name != ""
    ensures PlatformText(Some([Some(name)])) == name
  {
  }
}
