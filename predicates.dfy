/** The category rules of `ChatScraper`: site directories, path markers, keyword
    fingerprints and the marketplace product-page probes, each a total test of
    a link's display text and URL. */
module Predicates {
  import opened Types
  import opened Strings

  const ROTTEN_TOMATOES := "www.rottentomatoes.com"
  const ABC_AUSTRALIA := "www.abc.net.au"

  const BOOK_SITES: seq<string> := [
    "www.booktopia.com",
    "www.booktopia.com.au",
    "www.bookdepository.com",
    "www.bookdepository.com.au",
    "www.readings.com.au"
  ]

  const AMAZON_SITES: seq<string> := ["www.amazon.com", "www.amazon.com.au"]

  const FILM_SITES: seq<string> := ["www.imdb.com", ROTTEN_TOMATOES]

  const TV_SHOW_SITES: seq<string> := [
    "www.stan.com.au",
    "www.netflix.com",
    "iview.abc.net.au",
    "tenplay.com.au",
    "www.funnyordie.com",
    "www.sbs.com.au"
  ]

  const PODCAST_SITES: seq<string> := [
    "itunes.apple.com",
    "www.wbez.org",
    "www.npr.org",
    "libsyn.com",
    "www.thisamericanlife.org",
    "www.gimletmedia.com",
    "www.wnycstudios.org",
    "thedollop.net",
    "thedollop.libsyn.com",
    "www.mydadwroteaporno.com",
    "revisionisthistory.com"
  ]

  const WEB_CLIP_SITES: seq<string> := ["www.youtube.com", "www.vimeo.com", "www.dailymotion.com"]

  const PODCAST_FINGERPRINTS: seq<string> := ["podcast", "radio"]

  /** Sponsor links in every episode's footer, compared as whole URL strings. */
  const FOOTER_URLS: seq<string> := [
    "https://www.twenty07.com/",
    "https://www.boxerandco.com.au/",
    "https://www.stephenblake.com.au/",
    "https://diamantina.com.au/"
  ]

  /** The URL's host is, verbatim, one of `sites`. */
  predicate IsOnKnownSite(url: string, sites: seq<string>, web: Web)
  {
    web.parse(url).host in sites
  }

  predicate IsFilm(text: string, url: string, web: Web)
  {
    var parts := web.parse(url);
    if parts.host == ROTTEN_TOMATOES then Contains(parts.path, "/m/")
    else IsOnKnownSite(url, FILM_SITES, web) || IsAmazonFilm(text, url, web)
  }

  predicate IsTvShow(text: string, url: string, web: Web)
  {
    var parts := web.parse(url);
    if parts.host in [ROTTEN_TOMATOES, ABC_AUSTRALIA] then Contains(parts.path, "/tv/")
    else IsOnKnownSite(url, TV_SHOW_SITES, web) || IsAmazonTvShow(text, url, web)
  }

  predicate IsAmazonTvShow(text: string, url: string, web: Web)
  {
    IsOnKnownSite(url, AMAZON_SITES, web) && web.page(url).subPageType == Some("TVSeason")
  }

  predicate IsAmazonFilm(text: string, url: string, web: Web)
  {
    IsOnKnownSite(url, AMAZON_SITES, web) &&
    var page := web.page(url);
    page.subPageType == Some("Movie") || page.storeId == Some("movies-tv")
  }

  predicate IsAmazonBook(text: string, url: string, web: Web)
  {
    IsOnKnownSite(url, AMAZON_SITES, web) &&
    var page := web.page(url);
    page.storeId == Some("books") || page.hasBooksTitle || page.hasAuthorImage
  }

  predicate IsAmazonMusic(text: string, url: string, web: Web)
  {
    IsOnKnownSite(url, AMAZON_SITES, web) &&
    var page := web.page(url);
    page.storeId.Some? && page.storeId.value in ["music", "dmusic"]
  }

  predicate IsBook(text: string, url: string, web: Web)
  {
    IsOnKnownSite(url, BOOK_SITES, web) || IsAmazonBook(text, url, web)
  }

  /** One fingerprint, lower-cased, occurs in the lower-cased path, host or display text. */
  predicate FingerprintIn(fingerprint: string, parts: UrlParts, text: string)
  {
    var f := Lower(fingerprint);
    Contains(Lower(parts.path), f) || Contains(Lower(parts.host), f) || Contains(Lower(text), f)
  }

  predicate IsPodcast(text: string, url: string, web: Web)
  {
    IsOnKnownSite(url, PODCAST_SITES, web) ||
    exists k :: 0 <= k < |PODCAST_FINGERPRINTS| && FingerprintIn(PODCAST_FINGERPRINTS[k], web.parse(url), text)
  }

  /** The podcast test as the source runs it: the directory, then each fingerprint in turn,
      returning at the first hit. */
  method MatchesPodcast(text: string, url: string, web: Web) returns (b: bool)
    ensures b == IsPodcast(text, url, web)
  {
    if IsOnKnownSite(url, PODCAST_SITES, web) {
      return true;
    }
    var parts := web.parse(url);
    var k := 0;
    while k < |PODCAST_FINGERPRINTS|
      invariant 0 <= k <= |PODCAST_FINGERPRINTS|
      invariant forall j :: 0 <= j < k ==> !FingerprintIn(PODCAST_FINGERPRINTS[j], parts, text)
    {
      var fingerprint := Lower(PODCAST_FINGERPRINTS[k]);
      if Contains(Lower(parts.path), fingerprint) || Contains(Lower(parts.host), fingerprint)
         || Contains(Lower(text), fingerprint)
      {
        return true;
      }
      k := k + 1;
    }
    return false;
  }

  predicate IsWebClip(text: string, url: string, web: Web)
  {
    IsOnKnownSite(url, WEB_CLIP_SITES, web)
  }

  predicate IsMusic(text: string, url: string, web: Web)
  {
    IsAmazonMusic(text, url, web)
  }

  predicate IsBoringFooterLink(text: string, url: string)
  {
    url in FOOTER_URLS
  }

  // ----- Properties of the rules -----

  /** On Rotten Tomatoes the film and TV tests are decided by the path markers alone,
      whatever the directories or the product pages say. */
  lemma RottenTomatoesByPath(text: string, url: string, web: Web)
    requires web.parse(url).host == ROTTEN_TOMATOES
    ensures IsFilm(text, url, web) <==> Occurs(web.parse(url).path, "/m/")
    ensures IsTvShow(text, url, web) <==> Occurs(web.parse(url).path, "/tv/")
  {
    ContainsIff(web.parse(url).path, "/m/");
    ContainsIff(web.parse(url).path, "/tv/");
  }

  /** On the ABC's main site the TV test is decided by the `/tv/` marker alone. */
  lemma AbcByPath(text: string, url: string, web: Web)
    requires web.parse(url).host == ABC_AUSTRALIA
    ensures IsTvShow(text, url, web) <==> Occurs(web.parse(url).path, "/tv/")
    ensures !IsFilm(text, url, web) && !IsBook(text, url, web) && !IsWebClip(text, url, web)
    ensures !IsMusic(text, url, web)
  {
    ContainsIff(web.parse(url).path, "/tv/");
  }

  /** Away from the two marketplace hosts no product page is consulted and every probe fails. */
  lemma ProbesOnlyOnAmazon(text: string, url: string, web: Web)
    requires web.parse(url).host !in AMAZON_SITES
    ensures !IsAmazonFilm(text, url, web) && !IsAmazonTvShow(text, url, web)
    ensures !IsAmazonBook(text, url, web) && !IsAmazonMusic(text, url, web)
    ensures !IsMusic(text, url, web)
  {
  }

  /** On a marketplace host each media test is exactly its product-page probe. */
  lemma AmazonByPage(text: string, url: string, web: Web)
    requires web.parse(url).host in AMAZON_SITES
    ensures var page := web.page(url);
      && (IsFilm(text, url, web) <==> page.subPageType == Some("Movie") || page.storeId == Some("movies-tv"))
      && (IsTvShow(text, url, web) <==> page.subPageType == Some("TVSeason"))
      && (IsBook(text, url, web) <==> page.storeId == Some("books") || page.hasBooksTitle || page.hasAuthorImage)
      && (IsMusic(text, url, web) <==> page.storeId == Some("music") || page.storeId == Some("dmusic"))
      && !IsWebClip(text, url, web)
  {
  }

  /** The podcast test holds exactly when the host is a podcast directory, or "podcast" or
      "radio" occurs, in any letter case, in the path, the host or the display text. */
  lemma PodcastIff(text: string, url: string, web: Web)
    ensures IsPodcast(text, url, web) <==>
      var parts := web.parse(url);
      || parts.host in PODCAST_SITES
      || (exists w :: w in ["podcast", "radio"] &&
            (OccursIgnoringCase(parts.path, w) || OccursIgnoringCase(parts.host, w) || OccursIgnoringCase(text, w)))
  {
    var parts := web.parse(url);
    forall w | w in ["podcast", "radio"]
      ensures FingerprintIn(w, parts, text) <==>
        OccursIgnoringCase(parts.path, w) || OccursIgnoringCase(parts.host, w) || OccursIgnoringCase(text, w)
    {
      ContainsLowerIff(parts.path, w);
      ContainsLowerIff(parts.host, w);
      ContainsLowerIff(text, w);
    }
    assert PODCAST_FINGERPRINTS[0] == "podcast" && PODCAST_FINGERPRINTS[1] == "radio";
  }

  /** Directory-only tests are plain host equality against their lists. */
  lemma DirectoryTests(text: string, url: string, web: Web)
    ensures IsWebClip(text, url, web) <==>
      web.parse(url).host == "www.youtube.com" || web.parse(url).host == "www.vimeo.com"
      || web.parse(url).host == "www.dailymotion.com"
    ensures web.parse(url).host in BOOK_SITES ==> IsBook(text, url, web)
    ensures web.parse(url).host !in BOOK_SITES ==> (IsBook(text, url, web) <==> IsAmazonBook(text, url, web))
  {
  }

  /** Away from Rotten Tomatoes, the ABC and the marketplace, the film and TV-show tests are
      plain host equality against their directory lists. */
  lemma MediaDirectories(text: string, url: string, web: Web)
    ensures var host := web.parse(url).host;
      host != ROTTEN_TOMATOES && host !in AMAZON_SITES ==> (IsFilm(text, url, web) <==> host in FILM_SITES)
    ensures var host := web.parse(url).host;
      host != ROTTEN_TOMATOES && host != ABC_AUSTRALIA && host !in AMAZON_SITES
      ==> (IsTvShow(text, url, web) <==> host in TV_SHOW_SITES)
  {
  }

  /** A footer link is recognised by its exact URL string and nothing else. */
  lemma FooterIsExactUrl(text: string, text': string, url: string)
    ensures IsBoringFooterLink(text, url) <==>
      url == "https://www.twenty07.com/" || url == "https://www.boxerandco.com.au/"
      || url == "https://www.stephenblake.com.au/" || url == "https://diamantina.com.au/"
    ensures IsBoringFooterLink(text, url) == IsBoringFooterLink(text', url)
  {
  }
}
