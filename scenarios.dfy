/** How particular kinds of link are classified: the priority tie-break, the path
    disambiguation on Rotten Tomatoes, the marketplace probes and the `Misc` default,
    including the links the project's own tests use. */
module Scenarios {
  import opened Types
  import opened Strings
  import opened Predicates
  import opened Classifier

  /** A book-directory link is a book even when its text or path carries a podcast
      fingerprint: book is tried before podcast. */
  lemma BookSiteWins(link: Link, web: Web)
    requires web.parse(link.url).host in BOOK_SITES
    ensures Classify(link, web) == Book
  {
    assert !Holds(Film, link, web);
    FirstMatchAt(PRIORITY, link, web, 1);
  }

  /** A Rotten Tomatoes film page (`/m/` in the path) is a film, never a TV show. */
  lemma RottenTomatoesFilm(link: Link, web: Web)
    requires web.parse(link.url).host == ROTTEN_TOMATOES
    requires Occurs(web.parse(link.url).path, "/m/")
    ensures Classify(link, web) == Film
  {
    RottenTomatoesByPath(link.text, link.url, web);
    FirstMatchAt(PRIORITY, link, web, 0);
  }

  /** A Rotten Tomatoes or ABC TV page (`/tv/` in the path, no `/m/`) is a TV show unless a
      podcast fingerprint claims it first. */
  lemma TvPageIsTvShow(link: Link, web: Web)
    requires web.parse(link.url).host in [ROTTEN_TOMATOES, ABC_AUSTRALIA]
    requires Occurs(web.parse(link.url).path, "/tv/") && !Occurs(web.parse(link.url).path, "/m/")
    requires !IsPodcast(link.text, link.url, web)
    ensures Classify(link, web) == TvShow
  {
    ContainsIff(web.parse(link.url).path, "/m/");
    ContainsIff(web.parse(link.url).path, "/tv/");
    assert !Holds(Film, link, web) && !Holds(Book, link, web) && !Holds(Podcast, link, web);
    assert !Holds(WebClip, link, web) && !Holds(Music, link, web);
    FirstMatchAt(PRIORITY, link, web, 5);
  }

  /** A marketplace product page is filed by what the page reports: a "Movie" page is a film,
      any other "books" store page a book; when the podcast test does not fire and there are
      no book markers, any other "music" store page is music and a "TVSeason" page with no
      store identifier a TV show. */
  lemma MarketplaceByPage(link: Link, web: Web)
    requires web.parse(link.url).host in AMAZON_SITES
    ensures web.page(link.url).subPageType == Some("Movie") ==> Classify(link, web) == Film
    ensures web.page(link.url).storeId == Some("books") && web.page(link.url).subPageType != Some("Movie")
      ==> Classify(link, web) == Book
    ensures !IsPodcast(link.text, link.url, web)
      && web.page(link.url).storeId == Some("music") && web.page(link.url).subPageType != Some("Movie")
      && !web.page(link.url).hasBooksTitle && !web.page(link.url).hasAuthorImage
      ==> Classify(link, web) == Music
    ensures !IsPodcast(link.text, link.url, web)
      && web.page(link.url).subPageType == Some("TVSeason") && web.page(link.url).storeId == None
      && !web.page(link.url).hasBooksTitle && !web.page(link.url).hasAuthorImage
      ==> Classify(link, web) == TvShow
  {
    var page := web.page(link.url);
    AmazonByPage(link.text, link.url, web);
    if page.subPageType == Some("Movie") {
      FirstMatchAt(PRIORITY, link, web, 0);
    } else if page.storeId == Some("books") {
      FirstMatchAt(PRIORITY, link, web, 1);
    } else if !IsPodcast(link.text, link.url, web) && !page.hasBooksTitle && !page.hasAuthorImage {
      if page.storeId == Some("music") {
        FirstMatchAt(PRIORITY, link, web, 4);
      } else if page.subPageType == Some("TVSeason") && page.storeId == None {
        FirstMatchAt(PRIORITY, link, web, 5);
      }
    }
  }

  /** A link on no directory, not on Rotten Tomatoes, the ABC or the marketplace, and free of
      podcast fingerprints falls through to `Misc`. */
  lemma UnknownIsMisc(link: Link, web: Web)
    requires var host := web.parse(link.url).host;
      host !in FILM_SITES + BOOK_SITES + PODCAST_SITES + WEB_CLIP_SITES + TV_SHOW_SITES + AMAZON_SITES
      && host != ABC_AUSTRALIA
    requires !IsPodcast(link.text, link.url, web)
    ensures Classify(link, web) == Misc
  {
    ClassifyIff(link, web, Misc);
  }

  // ----- The links of the project's tests -----
  // Each path is written as the marker the rule looks for spliced between the rest of the path.

  lemma DepartedIsFilm(web: Web)
    requires web.parse("https://www.rottentomatoes.com/m/departed/")
      == UrlParts("www.rottentomatoes.com", "" + "/m/" + "departed/")
    ensures IsFilm("The Departed", "https://www.rottentomatoes.com/m/departed/", web)
  {
    MatchAtSplice("", "/m/", "departed/");
    RottenTomatoesByPath("The Departed", "https://www.rottentomatoes.com/m/departed/", web);
  }

  /** The path holds no `v`, so it cannot hold `/tv/`. */
  lemma DepartedIsNotTvShow(web: Web)
    requires web.parse("https://www.rottentomatoes.com/m/departed/")
      == UrlParts("www.rottentomatoes.com", "/m/departed/")
    ensures !IsTvShow("The Departed", "https://www.rottentomatoes.com/m/departed/", web)
  {
    AbsentChar("/m/departed/", "/tv/", 'v');
  }

  lemma HandmaidsTaleIsTvShow(web: Web)
    requires web.parse("https://www.rottentomatoes.com/tv/the_handmaid_s_tale/s01/")
      == UrlParts("www.rottentomatoes.com", "" + "/tv/" + "the_handmaid_s_tale/s01/")
    ensures IsTvShow("The Handmaid's Tale", "https://www.rottentomatoes.com/tv/the_handmaid_s_tale/s01/", web)
  {
    MatchAtSplice("", "/tv/", "the_handmaid_s_tale/s01/");
    RottenTomatoesByPath("The Handmaid's Tale", "https://www.rottentomatoes.com/tv/the_handmaid_s_tale/s01/", web);
  }

  lemma HandmaidsTaleEpisodeIsTvShow(web: Web)
    requires web.parse("https://www.rottentomatoes.com/tv/the_handmaid_s_tale/s01/e01")
      == UrlParts("www.rottentomatoes.com", "" + "/tv/" + "the_handmaid_s_tale/s01/e01")
    ensures IsTvShow("The Handmaid's Tale S01 Ep01", "https://www.rottentomatoes.com/tv/the_handmaid_s_tale/s01/e01", web)
  {
    MatchAtSplice("", "/tv/", "the_handmaid_s_tale/s01/e01");
    RottenTomatoesByPath("The Handmaid's Tale S01 Ep01", "https://www.rottentomatoes.com/tv/the_handmaid_s_tale/s01/e01", web);
  }

  lemma MadAsHellIsTvShow(web: Web)
    requires web.parse("http://www.abc.net.au/tv/programs/shaun-micallefs-mad-as-hell/")
      == UrlParts("www.abc.net.au", "" + "/tv/" + "programs/shaun-micallefs-mad-as-hell/")
    ensures IsTvShow("Mad as Hell", "http://www.abc.net.au/tv/programs/shaun-micallefs-mad-as-hell/", web)
  {
    MatchAtSplice("", "/tv/", "programs/shaun-micallefs-mad-as-hell/");
    AbcByPath("Mad as Hell", "http://www.abc.net.au/tv/programs/shaun-micallefs-mad-as-hell/", web);
  }

  /** The book-directory links are books on their host alone. */
  lemma DirectoryBooks(web: Web)
    requires web.parse("https://www.booktopia.com.au/the-great-gatsby-f-scott-fitzgerald/prod9780199536405.html").host
      == "www.booktopia.com.au"
    requires web.parse("https://www.bookdepository.com/Midnights-Children-Salman-Rushdie/9780099511892").host
      == "www.bookdepository.com"
    ensures IsBook("The Great Gatsby",
      "https://www.booktopia.com.au/the-great-gatsby-f-scott-fitzgerald/prod9780199536405.html", web)
    ensures IsBook("Midnight's Children",
      "https://www.bookdepository.com/Midnights-Children-Salman-Rushdie/9780099511892", web)
  {
    assert BOOK_SITES[1] == "www.booktopia.com.au" && BOOK_SITES[2] == "www.bookdepository.com";
  }

  lemma FidlerIsPodcast(web: Web)
    requires web.parse("http://www.abc.net.au/radio/programs/conversations/conversations-george-saunders-(r)/9045402")
      == UrlParts("www.abc.net.au", "/" + "radio" + "/programs/conversations/conversations-george-saunders-(r)/9045402")
    ensures IsPodcast("Richard Fidler",
      "http://www.abc.net.au/radio/programs/conversations/conversations-george-saunders-(r)/9045402", web)
  {
    var path := "/" + "radio" + "/programs/conversations/conversations-george-saunders-(r)/9045402";
    MatchAtIgnoringCaseSplice("/", "radio", "/programs/conversations/conversations-george-saunders-(r)/9045402");
    assert OccursIgnoringCase(path, "radio");
    assert "radio" in ["podcast", "radio"];
    PodcastIff("Richard Fidler",
      "http://www.abc.net.au/radio/programs/conversations/conversations-george-saunders-(r)/9045402", web);
  }
}
