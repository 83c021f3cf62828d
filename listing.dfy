/** The listing extraction of `searchMovies`: the anchors that point at a
    detail page are folded, in document order, into an insertion-ordered map
    keyed by title id, where the first anchor with an id wins. */
module Listing {
  import opened Wrappers
  import opened JsStrings
  import opened Types
  import Urls
  import opened FirstWins

  const SiteOrigin := "https://flzios.ir"
  const DetailMarker := "detiles.php"
  const TfaMarker := "tfa="

  /** What the scraper reads from one `<a>` element: its `href` and `title`
      attributes, its `innerText`, and the `alt` and `src` attributes of the
      first `<img>` inside it (None when the attribute or the image is
      missing). */
  datatype Anchor = Anchor(
    href: Option<string>,
    innerText: string,
    titleAttr: Option<string>,
    imgAlt: Option<string>,
    imgSrc: Option<string>)

  /** The first non-empty candidate, or "" when there is none. */
  function FirstNonEmpty(cs: seq<string>): (r: string)
    ensures r == "" <==> forall k :: 0 <= k < |cs| ==> cs[k] == ""
    ensures r != "" ==> r in cs
    ensures cs != [] && cs[0] != "" ==> r == cs[0]
    ensures r != "" ==> exists k :: 0 <= k < |cs| && cs[k] == r && forall j :: 0 <= j < k ==> cs[j] == ""
    decreases |cs|
  {
    if cs == [] then ""
    else if cs[0] != "" then cs[0]
    else
      var r := FirstNonEmpty(cs[1..]);
      assert forall k :: 1 <= k < |cs| ==> cs[k] == cs[1..][k - 1];
      r
  }

  /** Matched by the selector `a[href*="detiles.php"]`. */
  predicate Selected(a: Anchor) {
    a.href.Some? && Contains(a.href.value, DetailMarker)
  }

  /** The id an anchor contributes: selected, a truthy href, and an
      `i=<digits>` in it. */
  function AnchorId(a: Anchor): (r: Option<string>)
    ensures r.Some? ==> Selected(a) && IsDigitString(r.value)
  {
    if Selected(a) && a.href.value != "" then MatchId(a.href.value) else None
  }

  /** `href.split('?')[1]`: the text between the first and the second `?`,
      undefined when there is no `?`. */
  function QueryPart(href: string): Option<string> {
    var parts := Split(href, '?');
    if |parts| >= 2 then Some(parts[1]) else None
  }

  /** The `tfa` parameter when `href` contains `tfa=`; a missing query part
      gives an empty `URLSearchParams`, whose `get` is null. */
  function TfaValue(href: string, apis: Apis): Option<string> {
    if !Contains(href, TfaMarker) then None
    else
      match QueryPart(href)
      case None => None
      case Some(q) => apis.searchParam(q, "tfa")
  }

  /** The title before the `tfa` override: trimmed visible text, else the
      `title` attribute, else the image's `alt`, else `Film <id>`. */
  function BaseTitle(a: Anchor, id: string): string {
    var text := Trim(a.innerText);
    if text != "" then text
    else if Truthy(a.titleAttr) then a.titleAttr.value
    else if Truthy(a.imgAlt) then a.imgAlt.value
    else "Film " + id
  }

  function TitleOf(a: Anchor, href: string, id: string, apis: Apis): (r: string)
    ensures r != ""
  {
    var tfa := TfaValue(href, apis);
    if Truthy(tfa) then tfa.value else BaseTitle(a, id)
  }

  /** The title is the first non-empty candidate in the priority order
      `tfa` parameter, trimmed text, `title` attribute, image `alt`,
      `Film <id>`. */
  lemma TitlePriority(a: Anchor, href: string, id: string, apis: Apis)
    ensures TitleOf(a, href, id, apis) ==
      FirstNonEmpty([TfaValue(href, apis).GetOr(""), Trim(a.innerText),
                     a.titleAttr.GetOr(""), a.imgAlt.GetOr(""), "Film " + id])
  {
    PriorityOfFive(TfaValue(href, apis), Trim(a.innerText), a.titleAttr, a.imgAlt, "Film " + id);
  }

  /** The nested choices of `TitleOf`, on plain values. */
  lemma PriorityOfFive(tfa: Option<string>, text: string, attr: Option<string>, alt: Option<string>, fallback: string)
    ensures (if Truthy(tfa) then tfa.value
             else if text != "" then text
             else if Truthy(attr) then attr.value
             else if Truthy(alt) then alt.value
             else fallback)
      == FirstNonEmpty([tfa.GetOr(""), text, attr.GetOr(""), alt.GetOr(""), fallback])
  {
    var cs := [tfa.GetOr(""), text, attr.GetOr(""), alt.GetOr(""), fallback];
    var r := FirstNonEmpty(cs);
    if r != "" {
      var k :| 0 <= k < |cs| && cs[k] == r && forall j :: 0 <= j < k ==> cs[j] == "";
      assert k > 0 ==> cs[0] == "";
      assert k > 1 ==> cs[1] == "";
      assert k > 2 ==> cs[2] == "";
      assert k > 3 ==> cs[3] == "";
    } else {
      assert cs[0] == "" && cs[1] == "" && cs[2] == "" && cs[3] == "" && cs[4] == "";
    }
  }

  /** An anchor with an id, no `tfa=`, no visible text and no `title`
      attribute takes its title from the image's `alt`. */
  lemma TitleFromAlt(a: Anchor, apis: Apis)
    requires AnchorId(a).Some? && !Contains(a.href.value, TfaMarker)
    requires Trim(a.innerText) == "" && !Truthy(a.titleAttr) && Truthy(a.imgAlt)
    ensures Entry(a, apis).Some? && Entry(a, apis).value.title == a.imgAlt.value
  {
    TitlePriority(a, a.href.value, AnchorId(a).value, apis);
  }

  /** A non-empty `tfa` parameter overrides every other title candidate,
      the visible text included. */
  lemma TitleFromTfa(a: Anchor, apis: Apis, query: string)
    requires AnchorId(a).Some? && Contains(a.href.value, TfaMarker)
    requires QueryPart(a.href.value) == Some(query) && Truthy(apis.searchParam(query, "tfa"))
    ensures Entry(a, apis).Some? && Entry(a, apis).value.title == apis.searchParam(query, "tfa").value
  {
    TitlePriority(a, a.href.value, AnchorId(a).value, apis);
  }

  /** The `src` of the image made absolute against the listing site. */
  function AbsoluteImage(src: string, apis: Apis): string {
    if StartsWith(src, "http") then src else apis.resolveUrl(src, SiteOrigin)
  }

  /** The poster: the proxied image when the anchor has an image with a
      truthy `src`, otherwise the poster bucketed by id. */
  function PosterOf(a: Anchor, id: string, apis: Apis): (r: string)
    requires IsDigitString(id)
    ensures StartsWith(r, "https://wsrv.nl/?url=")
    ensures Truthy(a.imgSrc) ==> r == Urls.Wsrv(AbsoluteImage(a.imgSrc.value, apis), apis)
    ensures !Truthy(a.imgSrc) ==> r == Urls.MakePoster(id, apis)
  {
    if Truthy(a.imgSrc) then Urls.Wsrv(AbsoluteImage(a.imgSrc.value, apis), apis)
    else Urls.MakePoster(id, apis)
  }

  /** The detail link: absolute hrefs are kept, others are put under the
      site root. It always starts with `http` and always ends with the href. */
  function LinkOf(href: string): (r: string)
    ensures StartsWith(r, "http")
    ensures |href| <= |r| && r[|r| - |href|..] == href
    ensures StartsWith(href, "http") ==> r == href
    ensures !StartsWith(href, "http") ==> r == SiteOrigin + "/" + href
  {
    if StartsWith(href, "http") then href
    else
      var r := SiteOrigin + "/" + href;
      assert r[..4] == "http";
      r
  }

  /** The entry an anchor would add, if its id were new. */
  function Entry(a: Anchor, apis: Apis): (r: Option<MovieItem>)
    ensures r.Some? <==> AnchorId(a).Some?
    ensures r.Some? ==> r.value.id == AnchorId(a).value
  {
    match AnchorId(a)
    case None => None
    case Some(id) =>
      var href := a.href.value;
      Some(MovieItem(id, TitleOf(a, href, id, apis), LinkOf(href), PosterOf(a, id, apis)))
  }

  /** The entry of an anchor with an id, spelled out. */
  lemma EntryWhenMatched(a: Anchor, apis: Apis)
    requires Selected(a) && a.href.value != "" && MatchId(a.href.value).Some?
    ensures Entry(a, apis) == Some(MovieItem(MatchId(a.href.value).value,
                                             TitleOf(a, a.href.value, MatchId(a.href.value).value, apis),
                                             LinkOf(a.href.value),
                                             PosterOf(a, MatchId(a.href.value).value, apis)))
  {
  }

  /** Anchors skipped by the fold: no href, an href that is not a detail
      link, or one without `i=<digits>`. */
  lemma EntrySkips(a: Anchor, apis: Apis)
    ensures Entry(a, apis).None? <==>
      (a.href.None? || !Contains(a.href.value, DetailMarker) || MatchId(a.href.value).None?)
  {
    if a.href.Some? && a.href.value == "" {
      assert !Contains(a.href.value, DetailMarker);
    }
  }

  function EntryOf(apis: Apis): Anchor -> Option<MovieItem> {
    a => Entry(a, apis)
  }

  /** The entry each anchor would add, in document order. */
  function Entries(doc: seq<Anchor>, apis: Apis): (es: seq<Option<MovieItem>>)
    ensures |es| == |doc|
  {
    Map(EntryOf(apis), doc)
  }

  /** Each anchor's entry is its own. */
  lemma EntriesAt(doc: seq<Anchor>, apis: Apis, j: nat)
    requires j < |doc|
    ensures Entries(doc, apis)[j] == Entry(doc[j], apis)
  {
    MapAt(EntryOf(apis), doc, j);
  }

  /** The values of the `items` map after the fold, in insertion order. */
  function Listing(doc: seq<Anchor>, apis: Apis): seq<MovieItem> {
    Fold(Entries(doc, apis))
  }

  /** The `forEach` callback up to `items.has(id)`: the item one anchor
      yields, or nothing when it returns early. The title is first the
      trimmed text, replaced by the fallbacks when empty and then by a
      truthy `tfa` parameter; the poster is first the bucketed one,
      replaced by the proxied image when there is a truthy `src`. */
  method AnchorItem(a: Anchor, apis: Apis) returns (r: Option<MovieItem>)
    ensures r == Entry(a, apis)
  {
    r := None;
    EntrySkips(a, apis);
    if !Selected(a) || a.href.value == "" {
      return;
    }
    var href := a.href.value;
    var idMatch := MatchId(href);
    if idMatch.None? {
      return;
    }
    var id := idMatch.value;
    var title := Trim(a.innerText);
    if title == "" {
      title := if Truthy(a.titleAttr) then a.titleAttr.value
               else if Truthy(a.imgAlt) then a.imgAlt.value
               else "Film " + id;
    }
    if Contains(href, TfaMarker) {
      var tfa := match QueryPart(href)
        case None => None
        case Some(q) => apis.searchParam(q, "tfa");
      if Truthy(tfa) {
        title := tfa.value;
      }
    }
    var poster := Urls.MakePoster(id, apis);
    if Truthy(a.imgSrc) {
      var absImg := a.imgSrc.value;
      if !StartsWith(absImg, "http") {
        absImg := apis.resolveUrl(absImg, SiteOrigin);
      }
      poster := Urls.Wsrv(absImg, apis);
    }
    r := Some(MovieItem(id, title, LinkOf(href), poster));
    EntryWhenMatched(a, apis);
  }

  /** `links.forEach(...)` over the document's anchors, then
      `Array.from(items.values())`. */
  method ExtractListing(doc: seq<Anchor>, apis: Apis) returns (items: seq<MovieItem>)
    ensures items == Listing(doc, apis)
  {
    ghost var es := Entries(doc, apis);
    items := [];
    var seen: set<string> := {};
    var i := 0;
    while i < |doc|
      invariant 0 <= i <= |doc|
      invariant items == Fold(es[..i])
      invariant seen == IdsOf(items)
    {
      FoldStep(es, i);
      EntriesAt(doc, apis, i);
      var entry := AnchorItem(doc[i], apis);
      if entry.Some? && entry.value.id !in seen {
        var item := entry.value;
        items := items + [item];
        IdsOfSnoc(items[..|items| - 1], item);
        assert items[..|items| - 1] + [item] == items;
        seen := seen + {item.id};
      }
      i := i + 1;
    }
    assert es[..i] == es;
  }

  /** An anchor's entry carries `id` exactly when the anchor's id is `id`. */
  lemma EntryHasId(a: Anchor, apis: Apis, id: string)
    ensures HasId(Entry(a, apis), id) <==> AnchorId(a) == Some(id)
  {
  }

  lemma EntriesHasId(doc: seq<Anchor>, apis: Apis, j: nat, id: string)
    requires j < |doc|
    ensures HasId(Entries(doc, apis)[j], id) <==> AnchorId(doc[j]) == Some(id)
  {
    EntriesAt(doc, apis, j);
    EntryHasId(doc[j], apis, id);
  }

  /** Index of the first anchor carrying `id`, or `|doc|` when none does. */
  function FirstAnchor(doc: seq<Anchor>, apis: Apis, id: string): (k: nat)
    ensures k <= |doc|
    ensures k < |doc| ==> AnchorId(doc[k]) == Some(id)
    ensures forall j :: 0 <= j < k ==> AnchorId(doc[j]) != Some(id)
  {
    var es := Entries(doc, apis);
    var k := FirstIndex(es, id);
    assert k < |doc| ==> AnchorId(doc[k]) == Some(id) by {
      if k < |doc| { EntriesHasId(doc, apis, k, id); }
    }
    assert forall j :: 0 <= j < k ==> AnchorId(doc[j]) != Some(id) by {
      forall j | 0 <= j < k ensures AnchorId(doc[j]) != Some(id) {
        EntriesHasId(doc, apis, j, id);
      }
    }
    k
  }

  /** Deduplication: no two entries share an id. */
  lemma ListingDistinctIds(doc: seq<Anchor>, apis: Apis, p: nat, q: nat)
    requires p < q < |Listing(doc, apis)|
    ensures Listing(doc, apis)[p].id != Listing(doc, apis)[q].id
  {
    var es := Entries(doc, apis);
    FoldOnePerId(es);
    assert Listing(doc, apis) == Fold(es);
  }

  /** Skipping: an id is in the result exactly when some anchor carries it
      (so anchors without an href, without `detiles.php` or without
      `i=<digits>` contribute nothing). */
  lemma ListingIds(doc: seq<Anchor>, apis: Apis, id: string)
    ensures id in IdsOf(Listing(doc, apis)) <==> exists j :: 0 <= j < |doc| && AnchorId(doc[j]) == Some(id)
  {
    var es := Entries(doc, apis);
    FoldOnePerId(es);
    assert Listing(doc, apis) == Fold(es);
    if exists j :: 0 <= j < |doc| && AnchorId(doc[j]) == Some(id) {
      var j :| 0 <= j < |doc| && AnchorId(doc[j]) == Some(id);
      EntriesHasId(doc, apis, j, id);
      assert HasId(es[j], id);
    }
    if id in IdsOf(Fold(es)) {
      var j :| 0 <= j < |es| && HasId(es[j], id);
      EntriesHasId(doc, apis, j, id);
    }
  }

  /** First occurrence wins: each entry is the one built from the first
      anchor carrying its id. */
  lemma ListingFromFirstAnchor(doc: seq<Anchor>, apis: Apis, p: nat)
    requires p < |Listing(doc, apis)|
    ensures FirstAnchor(doc, apis, Listing(doc, apis)[p].id) < |doc|
    ensures Entry(doc[FirstAnchor(doc, apis, Listing(doc, apis)[p].id)], apis) == Some(Listing(doc, apis)[p])
  {
    var es := Entries(doc, apis);
    FoldFromFirst(es, p);
    assert Listing(doc, apis) == Fold(es);
    assert FirstAnchor(doc, apis, Fold(es)[p].id) == FirstIndex(es, Fold(es)[p].id);
    EntriesAt(doc, apis, FirstIndex(es, Fold(es)[p].id));
  }

  /** Entries come in the order in which their ids are first seen. */
  lemma ListingFirstSeenOrder(doc: seq<Anchor>, apis: Apis, p: nat, q: nat)
    requires p < q < |Listing(doc, apis)|
    ensures FirstAnchor(doc, apis, Listing(doc, apis)[p].id) < FirstAnchor(doc, apis, Listing(doc, apis)[q].id)
  {
    var es := Entries(doc, apis);
    FoldFirstSeenOrder(es);
    assert Listing(doc, apis) == Fold(es);
    assert FirstAnchor(doc, apis, Fold(es)[p].id) == FirstIndex(es, Fold(es)[p].id);
    assert FirstAnchor(doc, apis, Fold(es)[q].id) == FirstIndex(es, Fold(es)[q].id);
  }
}
