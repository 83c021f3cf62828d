/** The two pure URL builders of the scraper: `cleanVideoUrl`, which turns a
    playable link into an `https://` URL, and `makePoster`, which derives a
    poster address from a numeric title id. */
module Urls {
  import opened Wrappers
  import opened JsStrings
  import opened Types

  const Vlc := "vlc://"
  const Http := "http://"
  const Https := "https://"

  /** `cleanVideoUrl`: "" stays ""; otherwise the leftmost `vlc://` is
      removed, then the leftmost `http://` becomes `https://`, and `https://`
      is put in front if the text does not start with it by then. */
  function CleanVideoUrl(url: string): (r: string)
    ensures url == "" <==> r == ""
    ensures url != "" ==> StartsWith(r, Https)
  {
    if url == "" then ""
    else
      var clean := ReplaceFirst(ReplaceFirst(url, Vlc, ""), Http, Https);
      if StartsWith(clean, Https) then clean else Https + clean
  }

  /** A `vlc://` link whose remainder holds no `http://` and does not start
      with `https://` becomes the same link over `https://`; only the
      leading `vlc://` is removed, whatever follows. */
  lemma CleanVlcLink(rest: string)
    requires !Contains(rest, Http) && !StartsWith(rest, Https)
    ensures CleanVideoUrl(Vlc + rest) == Https + rest
  {
    ReplaceFirstAtStart(Vlc, rest, "");
    assert ReplaceFirst(Vlc + rest, Vlc, "") == rest;
    ReplaceFirstAbsent(rest, Http, Https);
  }

  /** An `http://` link without `vlc://` in it is upgraded to `https://`,
      keeping everything after the scheme. */
  lemma CleanHttpLink(rest: string)
    requires !Contains(Http + rest, Vlc)
    ensures CleanVideoUrl(Http + rest) == Https + rest
  {
    ReplaceFirstAbsent(Http + rest, Vlc, "");
    ReplaceFirstAtStart(Http, rest, Https);
    assert (Https + rest)[..|Https|] == Https;
  }

  /** An `https://` URL with neither `vlc://` nor `http://` anywhere in it
      passes through unchanged. */
  lemma CleanKeepsHttps(url: string)
    requires StartsWith(url, Https) && !Contains(url, Vlc) && !Contains(url, Http)
    ensures CleanVideoUrl(url) == url
  {
    ReplaceFirstAbsent(url, Vlc, "");
    ReplaceFirstAbsent(url, Http, Https);
  }

  /** Cleaning a second time changes nothing when the first result holds no
      `vlc://` and no `http://`. */
  lemma CleanIdempotentWhenNoSchemeLeft(url: string)
    requires !Contains(CleanVideoUrl(url), Vlc) && !Contains(CleanVideoUrl(url), Http)
    ensures CleanVideoUrl(CleanVideoUrl(url)) == CleanVideoUrl(url)
  {
    if url != "" {
      CleanKeepsHttps(CleanVideoUrl(url));
    }
  }

  /** An occurrence of `pat` in `pre + rest` that starts inside `rest` is
      one in `rest`. */
  lemma OccursShift(pre: string, rest: string, pat: string, j: nat)
    requires |pre| <= j && OccursAt(pre + rest, pat, j)
    ensures OccursAt(rest, pat, j - |pre|)
  {
    assert (pre + rest)[j..j + |pat|] == rest[j - |pre|..j - |pre| + |pat|];
  }

  /** `pre + rest` holds no `pat` when `rest` holds none and none starts
      inside `pre`. */
  lemma NotContainsAfter(pre: string, rest: string, pat: string)
    requires !Contains(rest, pat)
    requires forall j: nat :: j < |pre| ==> !OccursAt(pre + rest, pat, j)
    ensures !Contains(pre + rest, pat)
  {
    forall j: nat ensures !OccursAt(pre + rest, pat, j) {
      if |pre| <= j && OccursAt(pre + rest, pat, j) {
        OccursShift(pre, rest, pat, j);
      }
    }
  }

  /** `pat` does not occur at `j` when one of its characters differs from
      the character of `s` it would cover. */
  lemma Mismatch(s: string, pat: string, j: nat, m: nat)
    requires m < |pat| && j + m < |s| && s[j + m] != pat[m]
    ensures !OccursAt(s, pat, j)
  {
    if j + |pat| <= |s| {
      assert s[j..j + |pat|][m] == s[j + m];
    }
  }

  lemma NoHttpAfterVlc(rest: string)
    requires !Contains(rest, Http)
    ensures !Contains(Vlc + rest, Http)
    ensures !StartsWith(Vlc + rest, Https)
  {
    var u := Vlc + rest;
    assert u[0] == Vlc[0];
    forall j: nat | j < |Vlc| ensures !OccursAt(u, Http, j) {
      Mismatch(u, Http, j, 0);
    }
    NotContainsAfter(Vlc, rest, Http);
  }

  lemma NoHttpAfterHttps(rest: string)
    requires !Contains(rest, Http)
    ensures !Contains(Https + rest, Http)
  {
    var u := Https + rest;
    forall j: nat | j < |Https| ensures !OccursAt(u, Http, j) {
      if j == 0 {
        Mismatch(u, Http, j, 4);
      } else {
        Mismatch(u, Http, j, 0);
      }
    }
    NotContainsAfter(Https, rest, Http);
  }

  /** In `https://vlc://...` the leftmost `vlc://` is the one after the
      scheme. */
  lemma VlcAfterHttps(rest: string)
    ensures IndexOf(Https + Vlc + rest, Vlc) == Some(|Https|)
  {
    var u := Https + Vlc + rest;
    assert u[|Https|..|Https| + |Vlc|] == Vlc;
    assert OccursAt(u, Vlc, |Https|);
    forall j: nat | j < |Https| ensures !OccursAt(u, Vlc, j) {
      Mismatch(u, Vlc, j, 0);
    }
    ContainsWitness(u, Vlc, |Https|);
  }

  /** `vlc://vlc://` + r cleans to `https://vlc://` + r: only the first
      `vlc://` is removed. */
  lemma CleanVlcVlc(rest: string)
    requires !Contains(rest, Http)
    ensures CleanVideoUrl(Vlc + (Vlc + rest)) == Https + (Vlc + rest)
  {
    NoHttpAfterVlc(rest);
    CleanVlcLink(Vlc + rest);
  }

  /** `https://vlc://` + r cleans to `https://` + r. */
  lemma CleanHttpsVlc(rest: string)
    requires !Contains(rest, Http)
    ensures CleanVideoUrl(Https + (Vlc + rest)) == Https + rest
  {
    var u := Https + (Vlc + rest);
    assert u == Https + Vlc + rest;
    VlcAfterHttps(rest);
    assert ReplaceFirst(u, Vlc, "") == Https + rest by {
      assert u[..|Https|] == Https;
      assert u[|Https| + |Vlc|..] == rest;
    }
    NoHttpAfterHttps(rest);
    ReplaceFirstAbsent(Https + rest, Http, Https);
    assert (Https + rest)[..|Https|] == Https;
  }

  /** Cleaning is not idempotent in general: `vlc://vlc://` + r cleans to
      `https://vlc://` + r, and cleaning that again gives `https://` + r
      (for example with r = `a`). */
  lemma CleanNotIdempotent(rest: string)
    requires !Contains(rest, Http)
    ensures CleanVideoUrl(CleanVideoUrl(Vlc + (Vlc + rest))) == Https + rest
    ensures CleanVideoUrl(CleanVideoUrl(Vlc + (Vlc + rest))) != CleanVideoUrl(Vlc + (Vlc + rest))
  {
    CleanVlcVlc(rest);
    CleanHttpsVlc(rest);
    assert |Https + rest| < |Https + (Vlc + rest)|;
  }

  const PosterList := "http://vd1.findmylinkes.ir/pic-list/lists/"

  /** First id of the thousand-wide bucket holding `n`:
      `Math.floor((n - 1) / 1000) * 1000 + 1`. Dafny's `/` rounds down for
      a positive divisor, as `Math.floor` of the quotient does. */
  function BucketLow(n: nat): (low: int)
    ensures n >= 1 ==> 1 <= low <= n <= low + 999
    ensures (low - 1) % 1000 == 0
    ensures n == 0 ==> low == -999
  {
    ((n - 1) / 1000) * 1000 + 1
  }

  /** The image-proxy address that resizes `src` to a 400x600 cover. */
  function Wsrv(src: string, apis: Apis): (r: string)
    ensures StartsWith(r, "https://wsrv.nl/?url=")
  {
    var r := "https://wsrv.nl/?url=" + apis.encodeUriComponent(src) + "&w=400&h=600&fit=cover";
    assert r[..|"https://wsrv.nl/?url="|] == "https://wsrv.nl/?url=";
    r
  }

  /** The poster image of title `id` on the listing site, filed under the
      bucket `low-(low+999)`. */
  function PosterSource(id: string): string
    requires IsDigitString(id)
  {
    var low := BucketLow(ParseDigits(id));
    PosterList + IntToString(low) + "-" + IntToString(low + 999) + "/" + id + ".jpg"
  }

  /** `makePoster`: the poster source wrapped by the image proxy. The id is
      always the digits matched by `\d+`. */
  function MakePoster(id: string, apis: Apis): (r: string)
    requires IsDigitString(id)
    ensures StartsWith(r, "https://wsrv.nl/?url=")
  {
    Wsrv(PosterSource(id), apis)
  }

  /** The bucket in the poster path contains the id it is made for. */
  lemma PosterBucketHoldsId(id: string)
    requires IsDigitString(id) && ParseDigits(id) >= 1
    ensures var low := BucketLow(ParseDigits(id));
      PosterSource(id) == PosterList + NatToString(low) + "-" + NatToString(low + 999) + "/" + id + ".jpg"
      && ParseDigits(NatToString(low)) <= ParseDigits(id) <= ParseDigits(NatToString(low + 999))
  {
    PosterSourceText(id);
    var low := BucketLow(ParseDigits(id));
    ParseNatToString(low);
    ParseNatToString(low + 999);
  }

  /** For a positive id the poster path prints both bounds as natural
      numbers, with no minus sign. */
  lemma PosterSourceText(id: string)
    requires IsDigitString(id) && ParseDigits(id) >= 1
    ensures var low := BucketLow(ParseDigits(id));
      PosterSource(id) == PosterList + NatToString(low) + "-" + NatToString(low + 999) + "/" + id + ".jpg"
  {
    var low := BucketLow(ParseDigits(id));
    assert IntToString(low) == NatToString(low) && IntToString(low + 999) == NatToString(low + 999);
  }

  lemma ParseDigits2500()
    ensures ParseDigits("2500") == 2500
  {
    assert "2500"[..3] == "250" && "250"[..2] == "25" && "25"[..1] == "2" && "2"[..0] == "";
  }

  lemma BucketBoundsText2500()
    ensures IntToString(2001) == "2001" && IntToString(3000) == "3000"
  {
    assert NatToString(20) == "20";
    assert NatToString(200) == "200";
    assert NatToString(30) == "30";
    assert NatToString(300) == "300";
  }

  lemma BucketLow2500()
    ensures BucketLow(2500) == 2001
  {
  }

  /** Id 2500 is filed under the bucket `2001-3000`. */
  lemma Poster2500()
    ensures PosterSource("2500") == PosterList + "2001-3000/2500.jpg"
  {
    ParseDigits2500();
    BucketLow2500();
    BucketBoundsText2500();
  }
}
