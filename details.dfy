/** The episode extraction of `fetchDetails`. With at least one `SessionBox`
    element, each box names a season whose episodes are the playable links
    among the siblings that follow it, up to the next box; with no box at
    all, every `vlc://` or `.mkv` link of the page goes into one season. */
module Details {
  import opened Wrappers
  import opened JsStrings
  import opened Types
  import opened Seasons
  import opened Grouping
  import Urls

  const OnlinePrefix := "پخش آنلاین :"
  const DefaultEpisodeName := "پخش"
  const FlatSeason := "فایل اصلی"
  const DefaultFlatName := "پخش فیلم"

  /** An element of the detail page, in document order: a `SessionBox`
      (with its `innerText`), an `<a>` (its `href` attribute and the
      `innerText` of the first `.LinkBox` inside it, when there is one), or
      anything else. */
  datatype Sibling =
    | SessionBox(text: string)
    | Link(href: Option<string>, linkBox: Option<string>)
    | Other

  /** The grouped strategy's test for a playable href. */
  predicate Playable(href: string) {
    StartsWith(href, "vlc://") || Contains(href, ".mkv") || Contains(href, ".mp4")
  }

  /** The flat strategy's selector `a[href^="vlc://"], a[href*=".mkv"]`;
      `.mp4` is not part of it. */
  predicate FlatPlayable(href: string) {
    StartsWith(href, "vlc://") || Contains(href, ".mkv")
  }

  predicate IsBox(s: Sibling) {
    s.SessionBox?
  }

  predicate GroupedLink(s: Sibling) {
    s.Link? && Truthy(s.href) && Playable(s.href.value)
  }

  /** Name: the `.LinkBox` text without the first `پخش آنلاین :`, trimmed,
      or `پخش` when there is no `.LinkBox`; url: the cleaned href. */
  function GroupedEpisode(s: Sibling): (e: Episode)
    requires s.Link? && s.href.Some?
    ensures s.href.value != "" ==> StartsWith(e.url, Urls.Https)
  {
    var name := match s.linkBox
      case None => DefaultEpisodeName
      case Some(t) => Trim(ReplaceFirst(t, OnlinePrefix, ""));
    Episode(name, Urls.CleanVideoUrl(s.href.value))
  }

  /** What the box loop reads from one element: a box's trimmed text, or
      the episode pushed for a playable link. */
  function View(s: Sibling): Mark {
    if IsBox(s) then Box(Trim(s.text))
    else if GroupedLink(s) then Item(Some(GroupedEpisode(s)))
    else Item(None)
  }

  function Views(elems: seq<Sibling>): (ms: seq<Mark>)
    ensures |ms| == |elems|
  {
    Map(View, elems)
  }

  /** The view of each element is its own. */
  lemma ViewsAt(elems: seq<Sibling>, i: nat)
    requires i < |elems|
    ensures Views(elems)[i] == View(elems[i])
  {
    MapAt(View, elems, i);
  }

  /** What the box loop needs of a view: boxes and their names. */
  lemma ViewsBox(elems: seq<Sibling>, i: nat)
    requires i < |elems|
    ensures Views(elems)[i].Box? <==> IsBox(elems[i])
    ensures IsBox(elems[i]) ==> Views(elems)[i].name == Trim(elems[i].text)
  {
    ViewsAt(elems, i);
  }

  /** What the sibling walk needs of a view: the episode of a playable link. */
  lemma ViewsItem(elems: seq<Sibling>, j: nat)
    requires j < |elems| && !IsBox(elems[j])
    ensures GroupedLink(elems[j]) ==> Views(elems)[j] == Item(Some(GroupedEpisode(elems[j])))
    ensures !GroupedLink(elems[j]) ==> Views(elems)[j] == Item(None)
  {
    ViewsAt(elems, j);
  }

  /** `sessionBoxes.forEach(...)`: each box in document order fills its
      season. */
  method ExtractGrouped(elems: seq<Sibling>) returns (results: SeasonData)
    ensures results == Grouped(Views(elems), |elems|)
  {
    ghost var ms := Views(elems);
    results := Empty;
    var i := 0;
    while i < |elems|
      invariant 0 <= i <= |elems|
      invariant results == Grouped(ms, i)
    {
      GroupedNext(ms, i);
      ViewsBox(elems, i);
      if IsBox(elems[i]) {
        results := FillSeason(elems, i, results);
      }
      i := i + 1;
    }
  }

  /** The body of the `forEach` for the box at `i`: `results[seasonName] = []`,
      then the walk over `nextElementSibling` up to the next box, pushing
      each playable link. */
  method FillSeason(elems: seq<Sibling>, i: nat, before: SeasonData) returns (results: SeasonData)
    requires i < |elems| && IsBox(elems[i])
    ensures results == Put(before, Trim(elems[i].text), Walk(Views(elems), i + 1))
  {
    ghost var ms := Views(elems);
    var seasonName := Trim(elems[i].text);
    ghost var walked: seq<Episode> := [];
    results := Put(before, seasonName, []);
    var j := i + 1;
    while j < |elems| && !IsBox(elems[j])
      invariant i + 1 <= j <= |elems|
      invariant results == Put(before, seasonName, walked)
      invariant walked + Walk(ms, j) == Walk(ms, i + 1)
      decreases |elems| - j
    {
      WalkAt(elems, j);
      if elems[j].Link? && Truthy(elems[j].href) && Playable(elems[j].href.value) {
        var e := GroupedEpisode(elems[j]);
        PushAfterPut(before, seasonName, walked, e);
        ConcatAssoc(walked, [e], Walk(ms, j + 1));
        results := Push(results, seasonName, e);
        walked := walked + [e];
      }
      j := j + 1;
    }
    assert j < |elems| ==> ms[j].Box? by {
      if j < |elems| {
        ViewsBox(elems, j);
      }
    }
    assert Walk(ms, j) == [];
    assert walked + [] == walked;
  }

  /** One step of the sibling walk, in terms of the element itself. */
  lemma WalkAt(elems: seq<Sibling>, j: nat)
    requires j < |elems| && !IsBox(elems[j])
    ensures GroupedLink(elems[j]) ==> Walk(Views(elems), j) == [GroupedEpisode(elems[j])] + Walk(Views(elems), j + 1)
    ensures !GroupedLink(elems[j]) ==> Walk(Views(elems), j) == Walk(Views(elems), j + 1)
  {
    ViewsBox(elems, j);
    ViewsItem(elems, j);
    WalkStep(Views(elems), j);
  }

  /** The links the flat strategy's selector matches, in document order. */
  function FlatLinks(elems: seq<Sibling>): (links: seq<Sibling>)
    ensures forall k :: 0 <= k < |links| ==>
      links[k].Link? && links[k].href.Some? && FlatPlayable(links[k].href.value)
    ensures |links| > 0 <==> exists i :: 0 <= i < |elems| && elems[i].Link? && elems[i].href.Some? && FlatPlayable(elems[i].href.value)
    decreases |elems|
  {
    if elems == [] then []
    else
      var init := elems[..|elems| - 1];
      var last := elems[|elems| - 1];
      var p := FlatLinks(init);
      assert forall i :: 0 <= i < |init| ==> init[i] == elems[i];
      p + if last.Link? && last.href.Some? && FlatPlayable(last.href.value) then [last] else []
  }

  /** A single element is selected exactly when it is a link whose href
      the selector matches. */
  lemma FlatLinksOne(x: Sibling)
    ensures FlatLinks([x]) == if x.Link? && x.href.Some? && FlatPlayable(x.href.value) then [x] else []
  {
    assert [x][..0] == [];
  }

  /** The selection of a concatenation is the concatenation of the
      selections: together with `FlatLinksOne`, the selector keeps exactly
      the matching links, in document order. */
  lemma {:induction false} FlatLinksAppend(a: seq<Sibling>, b: seq<Sibling>)
    ensures FlatLinks(a + b) == FlatLinks(a) + FlatLinks(b)
    decreases |b|
  {
    if b == [] {
      assert a + b == a;
    } else {
      var init := b[..|b| - 1];
      var last := b[|b| - 1];
      assert (a + b)[..|a + b| - 1] == a + init;
      assert (a + b)[|a + b| - 1] == last;
      FlatLinksAppend(a, init);
      var tail := if last.Link? && last.href.Some? && FlatPlayable(last.href.value) then [last] else [];
      assert FlatLinks(b) == FlatLinks(init) + tail;
      assert FlatLinks(a + b) == FlatLinks(a + init) + tail;
      assert FlatLinks(a) + FlatLinks(init) + tail == FlatLinks(a) + (FlatLinks(init) + tail);
    }
  }

  /** Name: the trimmed `.LinkBox` text or `پخش فیلم`; url: the cleaned href. */
  function FlatEpisode(s: Sibling): (e: Episode)
    requires s.Link? && s.href.Some?
    ensures s.href.value != "" ==> StartsWith(e.url, Urls.Https)
  {
    var name := match s.linkBox
      case None => DefaultFlatName
      case Some(t) => Trim(t);
    Episode(name, Urls.CleanVideoUrl(s.href.value))
  }

  /** What the flat `forEach` pushes for one selected link: its episode
      when the href is non-empty, nothing otherwise. */
  function FlatView(s: Sibling): Option<Episode> {
    if s.Link? && Truthy(s.href) then Some(FlatEpisode(s)) else None
  }

  /** The episodes pushed for the first `n` selected links. */
  function FlatEpisodes(links: seq<Sibling>, n: nat): seq<Episode>
    requires n <= |links|
  {
    Present(Map(FlatView, links), n)
  }

  /** The flat strategy: no season at all when nothing matches the selector. */
  function Flat(elems: seq<Sibling>): (r: SeasonData)
    ensures Valid(r)
    ensures (exists i :: 0 <= i < |elems| && elems[i].Link? && elems[i].href.Some? && FlatPlayable(elems[i].href.value))
      ==> r.keys == [FlatSeason]
    ensures !(exists i :: 0 <= i < |elems| && elems[i].Link? && elems[i].href.Some? && FlatPlayable(elems[i].href.value))
      ==> r == Empty
  {
    var links := FlatLinks(elems);
    if |links| > 0 then Put(Empty, FlatSeason, FlatEpisodes(links, |links|)) else Empty
  }

  /** The else-branch of `fetchDetails`. */
  method ExtractFlat(elems: seq<Sibling>) returns (results: SeasonData)
    ensures results == Flat(elems)
  {
    var links := FlatLinks(elems);
    results := Empty;
    if |links| > 0 {
      results := FillFlat(links);
    }
  }

  /** `results['فایل اصلی'] = []`, then `links.forEach(...)` pushing each
      link with a non-empty href. */
  method FillFlat(links: seq<Sibling>) returns (results: SeasonData)
    ensures results == Put(Empty, FlatSeason, FlatEpisodes(links, |links|))
  {
    results := Put(Empty, FlatSeason, []);
    var k := 0;
    while k < |links|
      invariant 0 <= k <= |links|
      invariant results == Put(Empty, FlatSeason, FlatEpisodes(links, k))
    {
      var pushed := LinkEpisode(links, k);
      PutPresentNext(FlatSeason, Map(FlatView, links), k);
      if pushed.Some? {
        results := Push(results, FlatSeason, pushed.value);
      }
      k := k + 1;
    }
  }

  /** The body of the `forEach` callback for the link at index `k`: the
      episode to push when its href is non-empty. */
  method LinkEpisode(links: seq<Sibling>, k: nat) returns (pushed: Option<Episode>)
    requires k < |links|
    ensures pushed == Map(FlatView, links)[k]
  {
    MapAt(FlatView, links, k);
    var link := links[k];
    if link.Link? && Truthy(link.href) {
      pushed := Some(FlatEpisode(link));
    } else {
      pushed := None;
    }
  }

  /** Regrouping the walk in `FillSeason`; kept as a lemma of its own so
      that the step is a separate, small proof obligation. */
  lemma ConcatAssoc<T>(a: seq<T>, b: seq<T>, c: seq<T>)
    ensures a + (b + c) == (a + b) + c
  {
  }

  predicate HasSessionBox(elems: seq<Sibling>) {
    exists i :: 0 <= i < |elems| && IsBox(elems[i])
  }

  /** What `fetchDetails` returns for a parsed page: the grouped strategy
      whenever a box exists, otherwise the flat one. */
  function Details(elems: seq<Sibling>): SeasonData {
    if HasSessionBox(elems) then Grouped(Views(elems), |elems|) else Flat(elems)
  }

  method ExtractDetails(elems: seq<Sibling>) returns (results: SeasonData)
    ensures results == Details(elems)
  {
    if HasSessionBox(elems) {
      results := ExtractGrouped(elems);
    } else {
      results := ExtractFlat(elems);
    }
  }

  /** Whatever the page, the result is a well-formed object. */
  lemma DetailsValid(elems: seq<Sibling>)
    ensures Valid(Details(elems))
  {
    GroupedValid(Views(elems), |elems|);
  }

  /** With boxes on the page, the season of the last box with a given
      trimmed text holds exactly the playable links after that box, up to
      the next box. */
  lemma LastBoxOfName(elems: seq<Sibling>, i: nat)
    requires i < |elems| && IsBox(elems[i])
    requires forall k :: i < k < |elems| && IsBox(elems[k]) ==> Trim(elems[k].text) != Trim(elems[i].text)
    ensures Lookup(Details(elems), Trim(elems[i].text)) == Some(Walk(Views(elems), i + 1))
  {
    var ms := Views(elems);
    assert HasSessionBox(elems);
    ViewsBox(elems, i);
    assert forall k :: i < k < |ms| ==> ms[k] != ms[i] by {
      forall k | i < k < |ms| ensures ms[k] != ms[i] {
        ViewsBox(elems, k);
      }
    }
    GroupedLastBoxWins(ms, i, |elems|);
  }

  /** The page of the two-box example below. */
  function TwoBoxesPage(a: string, b: string, h: string, g: string): seq<Sibling> {
    [SessionBox(a), Link(Some(h), None), Link(Some(g), None), SessionBox(b)]
  }

  lemma ViewOfBox(a: string)
    ensures View(SessionBox(a)) == Box(Trim(a))
  {
  }

  lemma ViewOfPlayable(h: string)
    requires h != "" && Playable(h)
    ensures View(Link(Some(h), None)) == Item(Some(Episode(DefaultEpisodeName, Urls.CleanVideoUrl(h))))
  {
  }

  lemma ViewOfUnplayable(g: string)
    requires !Playable(g)
    ensures View(Link(Some(g), None)) == Item(None)
  {
  }

  lemma TwoBoxesViews(a: string, b: string, h: string, g: string)
    requires h != "" && Playable(h)
    requires !Playable(g)
    ensures Views(TwoBoxesPage(a, b, h, g))
      == [Box(Trim(a)), Item(Some(Episode(DefaultEpisodeName, Urls.CleanVideoUrl(h)))), Item(None), Box(Trim(b))]
  {
    var elems := TwoBoxesPage(a, b, h, g);
    var ms := [Box(Trim(a)), Item(Some(Episode(DefaultEpisodeName, Urls.CleanVideoUrl(h)))), Item(None), Box(Trim(b))];
    MapOfFour(View, SessionBox(a), Link(Some(h), None), Link(Some(g), None), SessionBox(b));
    ViewOfBox(a);
    ViewOfPlayable(h);
    ViewOfUnplayable(g);
    ViewOfBox(b);
  }

  /** Two boxes with a playable and a non-playable link between them: two
      seasons in box order, the first with the one playable link under the
      default name, the second empty. */
  lemma TwoBoxesExample(a: string, b: string, h: string, g: string)
    requires Trim(a) != Trim(b)
    requires h != "" && Playable(h)
    requires !Playable(g)
    ensures Details(TwoBoxesPage(a, b, h, g))
      == SeasonData([Trim(a), Trim(b)],
                    map[Trim(a) := [Episode(DefaultEpisodeName, Urls.CleanVideoUrl(h))], Trim(b) := []])
  {
    var elems := TwoBoxesPage(a, b, h, g);
    TwoBoxesViews(a, b, h, g);
    assert HasSessionBox(elems) by { assert IsBox(elems[0]); }
    TwoBoxes(Trim(a), Trim(b), Episode(DefaultEpisodeName, Urls.CleanVideoUrl(h)));
  }

  /** No box and two links of the selector: one season `فایل اصلی` holding
      both links in document order. */
  lemma FlatViewOfLink(h: string)
    requires h != ""
    ensures FlatView(Link(Some(h), None)) == Some(Episode(DefaultFlatName, Urls.CleanVideoUrl(h)))
  {
  }

  lemma FlatTwoLinksExample(h1: string, h2: string)
    requires h1 != "" && FlatPlayable(h1)
    requires h2 != "" && FlatPlayable(h2)
    ensures Details([Link(Some(h1), None), Other, Link(Some(h2), None)])
      == SeasonData([FlatSeason], map[FlatSeason := [Episode(DefaultFlatName, Urls.CleanVideoUrl(h1)),
                                                    Episode(DefaultFlatName, Urls.CleanVideoUrl(h2))]])
  {
    var elems := [Link(Some(h1), None), Other, Link(Some(h2), None)];
    var links := [elems[0], elems[2]];
    assert !HasSessionBox(elems);
    assert FlatLinks(elems) == links by {
      assert elems[..2][..1] == elems[..1];
      assert elems[..|elems| - 1] == elems[..2];
      assert FlatLinks(elems[..1]) == [elems[0]];
      assert FlatLinks(elems[..2]) == [elems[0]];
    }
    var e1 := Episode(DefaultFlatName, Urls.CleanVideoUrl(h1));
    var e2 := Episode(DefaultFlatName, Urls.CleanVideoUrl(h2));
    assert FlatEpisodes(links, 2) == [e1, e2] by {
      MapOfTwo(FlatView, links[0], links[1]);
      FlatViewOfLink(h1);
      FlatViewOfLink(h2);
      var os := [Some(e1), Some(e2)];
      assert Present(os, 1) == [e1];
      assert Present(os, 2) == [e1, e2];
    }
  }

  /** An `.mp4` link that is neither `vlc://` nor `.mkv` is skipped by the
      flat strategy, so a page with only such links has no season at all. */
  lemma Mp4OnlyFlat(h: string)
    requires !FlatPlayable(h)
    ensures Details([Link(Some(h), None)]) == Empty
  {
    var flat := [Link(Some(h), None)];
    assert !HasSessionBox(flat);
    assert flat[..0] == [];
  }

  /** After a box, the grouped strategy takes the same `.mp4` link. */
  lemma Mp4Grouped(a: string, h: string)
    requires Contains(h, ".mp4")
    ensures Details([SessionBox(a), Link(Some(h), None)])
      == SeasonData([Trim(a)], map[Trim(a) := [Episode(DefaultEpisodeName, Urls.CleanVideoUrl(h))]])
  {
    var elems := [SessionBox(a), Link(Some(h), None)];
    assert HasSessionBox(elems) by { assert IsBox(elems[0]); }
    assert h != "" by { assert OccursAt(h, ".mp4", IndexOf(h, ".mp4").value); }
    var e := Episode(DefaultEpisodeName, Urls.CleanVideoUrl(h));
    var ms := [Box(Trim(a)), Item(Some(e))];
    MapOfTwo(View, SessionBox(a), Link(Some(h), None));
    ViewOfBox(a);
    ViewOfPlayable(h);
    assert Views(elems) == ms;
    OneBox(Trim(a), e);
  }

  /** "x.mp4" is such a link. */
  lemma Mp4IsGroupedOnly()
    ensures Contains("x.mp4", ".mp4") && !FlatPlayable("x.mp4")
  {
    var u := "x.mp4";
    assert OccursAt(u, ".mp4", 1);
    assert u[0] != 'v';
    assert forall j: nat :: !OccursAt(u, ".mkv", j) by {
      forall j: nat ensures !OccursAt(u, ".mkv", j) {
        if j == 1 {
          assert u[1..5][2] != ".mkv"[2];
        } else if j + 4 <= |u| {
          assert j == 0;
          assert u[0..4][0] != '.';
        }
      }
    }
  }
}
