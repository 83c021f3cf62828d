/** The two exported operations, `searchMovies` and `fetchDetails`: build
    the request URL, fetch it through the proxies, parse the page (a
    parameter here) and extract the items or the episodes. Any failure to
    fetch becomes one fixed message. */
module Scraper {
  import opened Wrappers
  import opened JsStrings
  import opened Types
  import opened Relay
  import Listing
  import Details
  import Seasons

  const SearchBase := "https://flzios.ir/list.php?q="
  const SearchSuffix := "&send=%D8%AC%D8%B3%D8%AA%D8%AC%D9%88+%DA%A9%D9%86"
  const SearchFailed := "Failed to fetch results."
  const DetailsFailed := "Could not extract episodes."

  /** The search page for `query`, its text percent-encoded between the
      fixed prefix and the fixed `send` parameter. */
  function SearchUrl(query: string, apis: Apis): (u: string)
    ensures StartsWith(u, SearchBase)
    ensures |u| >= |SearchBase| + |SearchSuffix| && u[|u| - |SearchSuffix|..] == SearchSuffix
    ensures u[|SearchBase|..|u| - |SearchSuffix|] == apis.encodeUriComponent(query)
  {
    var u := SearchBase + apis.encodeUriComponent(query) + SearchSuffix;
    assert u[..|SearchBase|] == SearchBase;
    u
  }

  /** True when every proxy fails for `target`. */
  predicate AllFail(target: string, apis: Apis, respond: string -> Response) {
    forall j :: 0 <= j < |Proxies| ==> !Succeeds(Proxies, j, target, apis, respond)
  }

  /** `searchMovies(query)`: the listing of the first page a proxy returns,
      or `Failed to fetch results.` when no proxy returns one. */
  method SearchMovies(query: string, apis: Apis, respond: string -> Response, parse: string -> seq<Listing.Anchor>)
    returns (r: Result<seq<MovieItem>, string>)
    ensures r.Err? <==> AllFail(SearchUrl(query, apis), apis, respond)
    ensures r.Err? ==> r.error == SearchFailed
    ensures r.Ok? ==> FirstSuccess(Proxies, SearchUrl(query, apis), apis, respond).Ok?
    ensures r.Ok? ==> r.value == Listing.Listing(parse(FirstSuccess(Proxies, SearchUrl(query, apis), apis, respond).value), apis)
  {
    var target := SearchUrl(query, apis);
    var html, _ := FetchWithFallback(target, apis, respond);
    match html
    case Err(_) =>
      r := Err(SearchFailed);
    case Ok(page) =>
      var items := Listing.ExtractListing(parse(page), apis);
      r := Ok(items);
  }

  /** No two characters of `s` are both `&`. */
  predicate AtMostOneAmp(s: string) {
    forall i, j :: 0 <= i < j < |s| && s[i] == '&' ==> s[j] != '&'
  }

  lemma {:induction false} JoinStartsWith(parts: seq<string>, sep: char)
    requires |parts| >= 1
    ensures |parts[0]| <= |Join(parts, sep)| && Join(parts, sep)[..|parts[0]|] == parts[0]
  {
  }

  /** Joining at least two fields begins with the first two and the
      separator between them; with three or more, another separator
      follows. */
  lemma JoinTwo(parts: seq<string>, sep: char)
    requires |parts| >= 2
    ensures var t := parts[0] + [sep] + parts[1];
      |t| <= |Join(parts, sep)| && Join(parts, sep)[..|t|] == t
    ensures |parts| == 2 ==> Join(parts, sep) == parts[0] + [sep] + parts[1]
    ensures |parts| > 2 ==> |parts[0] + [sep] + parts[1]| < |Join(parts, sep)| && Join(parts, sep)[|parts[0] + [sep] + parts[1]|] == sep
  {
    JoinStartsWith(parts[1..], sep);
    var rest := Join(parts[1..], sep);
    assert Join(parts, sep) == parts[0] + [sep] + rest;
    if |parts| > 2 {
      assert rest == parts[1] + [sep] + Join(parts[2..], sep);
    }
  }

  /** The URL actually fetched by `fetchDetails`: `url` itself when it
      parses as a URL (the `searchParams.has('i')` test keeps it either
      way); otherwise its first two `&`-separated fields. */
  function DetailRequestUrl(url: string, apis: Apis): (r: string)
    ensures apis.parsesAsUrl(url) ==> r == url
    ensures |r| <= |url| && url[..|r|] == r
    ensures !apis.parsesAsUrl(url) ==> AtMostOneAmp(r)
    ensures !apis.parsesAsUrl(url) ==> (r == url <==> AtMostOneAmp(url))
    ensures !apis.parsesAsUrl(url) && !AtMostOneAmp(url) ==> '&' in r && |r| < |url| && url[|r|] == '&'
  {
    if apis.parsesAsUrl(url) then url
    else
      var parts := Split(url, '&');
      if |parts| >= 2 then
        var r := parts[0] + "&" + parts[1];
        JoinTwo(parts, '&');
        assert forall i :: 0 <= i < |r| && i != |parts[0]| ==> r[i] != '&' by {
          assert '&' !in parts[0] && '&' !in parts[1];
        }
        assert |parts| > 2 ==> !AtMostOneAmp(url) by {
          if |parts| > 2 {
            assert url[|parts[0]|] == '&' && url[|r|] == '&';
          }
        }
        assert r[|parts[0]|] == '&';
        r
      else
        assert '&' !in parts[0];
        parts[0]
  }

  /** `fetchDetails(url)`: the episodes of the first page a proxy returns
      for the request URL, or `Could not extract episodes.` when no proxy
      returns one. An empty result is not an error. */
  method FetchDetails(url: string, apis: Apis, respond: string -> Response, parse: string -> seq<Details.Sibling>)
    returns (r: Result<Seasons.SeasonData, string>)
    ensures r.Err? <==> AllFail(DetailRequestUrl(url, apis), apis, respond)
    ensures r.Err? ==> r.error == DetailsFailed
    ensures r.Ok? ==> FirstSuccess(Proxies, DetailRequestUrl(url, apis), apis, respond).Ok?
    ensures r.Ok? ==> r.value == Details.Details(parse(FirstSuccess(Proxies, DetailRequestUrl(url, apis), apis, respond).value))
  {
    var cleanUrl := DetailRequestUrl(url, apis);
    var html, _ := FetchWithFallback(cleanUrl, apis, respond);
    match html
    case Err(_) =>
      r := Err(DetailsFailed);
    case Ok(page) =>
      var results := Details.ExtractDetails(parse(page));
      r := Ok(results);
  }
}
