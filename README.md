# chatscraper — a Dafny model of the link classifier

The scraper reads the show notes of an episode of the "Chat 10 Looks 3" podcast and
collects every link, keyed by its text. It then files each link under one media category:
film, book, podcast, web clip, music, TV show, or misc when no rule accepts it. This project
models the core of `ChatScraper` and proves properties of it:

- **the link-collection loop** (`Extractor`). Every show-notes anchor whose `href` is a
  well-formed URL is stored under its text in an ordered dictionary. The stored URL is the
  one a redirect ends at, or the `href` itself when the request fails with a connection
  error, a reset or a timeout. A later anchor with the same text overwrites an earlier one.
- **the category rules** (`Predicates`): `_is_on_known_site`, the `_is_*` rules,
  the marketplace page probes and `_is_boring_footer_link`. The site lists and
  fingerprints are exactly the source's.
- **`categorise_links`** (`Classifier`). Footer links are dropped. Each other link goes to
  the first category, in the fixed order film, book, podcast, web clip, music, TV show,
  whose rule accepts it. The rest go to `misc`. It is modelled as the source's loop (with
  its `categorised` flag and `break`) and proved equal to a specification function. The
  seven lists are proved to partition the kept links.
- **`_sorted_category_items`** (`Sorting`): Python's stable `sorted` by link text, under
  Python's string order.
- **the "Category" column label** (`Labels`), as `print_list` builds it with
  `category.replace('_', ' ').capitalize().replace('Tv ', 'TV ')`.
- **the links of the project's unit tests** (`Scenarios`).

`Types` holds the shared data, and `Strings` the Python `str` operations the code relies on
(`in`, `lower`, `capitalize`, `replace`, `<`).

The outside world is a pair of oracles:
- `Web.parse` is `urllib.parse.urlparse`, reduced to host and path.
- `Web.page` gives the facts the marketplace probes read from a product page: the
  `data-sub-page-type` attribute, the `storeID` value, the `booksTitle` element and the
  author image.
- `Extractor.Resolver` answers `validators.url`, and gives the final URL of a `GET`, or
  `None` when the request fails with one of the three caught exceptions.

## Model

| member | source | states |
|---|---|---|
| Strings.ContainsIff | chatscraper.py:134 | The scanning substring test behind `in` holds exactly when some window of the haystack equals the needle. |
| Strings.ContainsLowerIff | chatscraper.py:240-243 | `f.lower() in s.lower()` holds exactly when `f` occurs in `s` ignoring letter case. |
| Strings.CapitalizeOnlyCase | chatscraper.py:321 | `capitalize()` keeps the length and changes nothing but letter case. |
| Strings.ReplaceOnlyCase | chatscraper.py:321 | Replacing `Tv ` by `TV ` keeps the length and changes nothing but letter case. |
| Strings.ReplaceCharPointwise | chatscraper.py:321 | `replace('_', ' ')` turns every underscore into a space and leaves every other character. |
| Strings.BelowIrreflexive | chatscraper.py:293 | Python's `<` on strings is irreflexive. |
| Strings.BelowAsymmetric | chatscraper.py:293 | Python's `<` on strings is asymmetric. |
| Strings.BelowTransitive | chatscraper.py:293 | Python's `<` on strings is transitive. |
| Strings.BelowTotal | chatscraper.py:293 | Any two different strings are ordered by `<` one way or the other. |
| Predicates.MatchesPodcast | chatscraper.py:234-246 | The podcast test as written returns true exactly when the host is a podcast directory or some fingerprint, lower-cased, occurs in the lower-cased path, host or link text. |
| Predicates.RottenTomatoesByPath | chatscraper.py:131-153 | On Rotten Tomatoes, the film test holds exactly when `/m/` occurs in the path and the TV test exactly when `/tv/` does. The directories and page probes are never consulted. |
| Predicates.AbcByPath | chatscraper.py:143-148 | On the ABC site, the TV test holds exactly when `/tv/` occurs in the path. The film, book, web-clip and music tests all fail there. |
| Predicates.ProbesOnlyOnAmazon | chatscraper.py:155-225 | Off the two marketplace hosts, every product-page probe fails, and so does the music test. |
| Predicates.AmazonByPage | chatscraper.py:155-225 | On a marketplace host, each media test is exactly its probe: film is "Movie" or store `movies-tv`; TV show is "TVSeason"; book is store `books`, a books title or an author image; music is store `music` or `dmusic`. It is never a web clip. |
| Predicates.PodcastIff | chatscraper.py:234-246 | A link is a podcast exactly when its host is a podcast directory, or "podcast" or "radio" occurs, in any letter case, in its path, host or text. |
| Predicates.DirectoryTests | chatscraper.py:227-251 | The web-clip test is host equality with one of its three sites. A book-directory host is a book; any other host is a book exactly when the marketplace probe says so. |
| Predicates.MediaDirectories | chatscraper.py:131-153 | Away from Rotten Tomatoes and the marketplace, a link is a film exactly when its host is a film directory; away from Rotten Tomatoes, the ABC and the marketplace, a link is a TV show exactly when its host is a TV-show directory. |
| Predicates.FooterIsExactUrl | chatscraper.py:263-269 | A footer link is recognised by its URL being exactly one of four strings, whatever its text. |
| Classifier.InCategories | chatscraper.py:272-289 | Every category is a key of the result: the six rule categories and `misc`. |
| Classifier.Rank | chatscraper.py:272-274 | Each rule category has its position in the order in which the rules are tried. |
| Classifier.FirstMatchAt | chatscraper.py:279-284 | The loop's answer is the first category in order whose rule accepts the link. |
| Classifier.FirstMatchFound | chatscraper.py:278-287 | The answer is `misc` exactly when every rule fails. Otherwise it is a category whose rule holds, and every earlier rule fails. |
| Classifier.ClassifyIff | chatscraper.py:278-287 | A link goes to category `c` exactly when `c`'s rule holds and every earlier rule fails. It goes to `misc` exactly when all six rules fail. |
| Classifier.FindCategory | chatscraper.py:278-287 | The inner loop with `break` sets `categorised` exactly when some rule accepts the link. When set, the category it reports is the priority answer. |
| Classifier.FileLink | chatscraper.py:277-287 | One outer iteration appends the link to its category's list, or to the not-sure list, unless it is a footer link. The key set stays the six rule categories. |
| Classifier.CategoriseLinks | chatscraper.py:271-290 | The result has all seven keys. Each list is the non-footer links of that category, in input order. |
| Classifier.BucketMembers | chatscraper.py:271-290 | A link is in the list of `c` exactly when it is an input link, not a footer link, and classified as `c`. |
| Classifier.GatherKept | chatscraper.py:271-290 | When every link's category is in the list of categories, those categories' lists together hold each link as often as the kept links do. |
| Classifier.GatherAll | chatscraper.py:271-290 | Concatenating the result lists in the order of the category list gives the Film, Book, Podcast, WebClip, Music, TvShow and Misc lists one after the other. |
| Classifier.GatherIsKept | chatscraper.py:271-290 | The lists of all categories together hold each kept link exactly as often as the input does. |
| Classifier.Partition | chatscraper.py:271-290 | The seven lists of the result, concatenated, are a permutation of the kept links: no link is lost or duplicated, and their total length is the number of kept links. |
| Classifier.ExactlyOne | chatscraper.py:271-290 | A kept input link is in exactly one list. A footer link is in none. |
| Sorting.InsertSorted | chatscraper.py:292-293 | Inserting into a sorted list keeps it sorted by text. |
| Sorting.InsertPermutes | chatscraper.py:292-293 | Inserting adds exactly the one link. |
| Sorting.InsertStable | chatscraper.py:292-293 | Inserting puts the new link after the links with the same text. |
| Sorting.SortIsSorted | chatscraper.py:292-293 | No item of the result is followed by one whose text sorts before its own. |
| Sorting.SortPermutes | chatscraper.py:292-293 | The result holds exactly the input items, each as often as the input does. |
| Sorting.SortIsStable | chatscraper.py:292-293 | Items with equal text keep their input order. |
| Sorting.SortExample | tests.py:47-59 | The items B, C, A sort to A, B, C, with their URLs. |
| Labels.LabelOnlyCase | chatscraper.py:321 | A label has its key's length and holds no underscore. Up to letter case, it equals the key with underscores turned into spaces. |
| Labels.PlainLabel | chatscraper.py:321 | A key without underscores, `T` or a leading `t` is only capitalised. |
| Labels.CategoryLabels | chatscraper.py:321 | The seven labels are "Film", "Book", "Podcast", "Web clip", "Music", "TV show" and "Misc". |
| Labels.TvShowLabel | chatscraper.py:321 | `tv_show` becomes "TV show": the last replacement fixes the capitalised "Tv ". |
| Labels.WebClipLabel | chatscraper.py:321 | `web_clip` becomes "Web clip". |
| Extractor.CollectShowNotes | chatscraper.py:113-125 | The loop over the anchors builds the dictionary that `ShowNotes` describes. |
| Extractor.LookupPut | chatscraper.py:120-122 | After `d[text] = url`, reading `text` gives `url` and every other key reads as before. |
| Extractor.LookupFound | chatscraper.py:113-125 | A key is found exactly when some entry has it. |
| Extractor.PutTexts | chatscraper.py:120-122 | Storing under an existing key leaves the key order unchanged. A new key goes at the end. |
| Extractor.PutUnique | chatscraper.py:120-122 | A store never duplicates a key. |
| Extractor.ShowNotesUnique | chatscraper.py:113-125 | The result never has two entries with the same text. |
| Extractor.ShowNotesMissing | chatscraper.py:113-125 | A text is absent from the result exactly when no anchor with that text has a well-formed `href`. |
| Extractor.ShowNotesLastWins | chatscraper.py:113-125 | A text maps to the URL from the last anchor with that text and a well-formed `href`. That URL is the redirect target, or the `href` when the request fails. |
| Extractor.ShowNotesOrder | chatscraper.py:113-125 | The keys are the texts of the anchors with a well-formed `href`, in the order each first appears. |
| Scenarios.BookSiteWins | chatscraper.py:278-284 | A book-directory link is filed as a book, even if a podcast fingerprint matches, because book comes before podcast. |
| Scenarios.RottenTomatoesFilm | chatscraper.py:131-136 | A Rotten Tomatoes page with `/m/` in its path is filed as a film. |
| Scenarios.TvPageIsTvShow | chatscraper.py:143-148 | A Rotten Tomatoes or ABC page with `/tv/` and no `/m/` in its path is filed as a TV show, unless it is a podcast. |
| Scenarios.MarketplaceByPage | chatscraper.py:155-225 | A marketplace page is filed by what the page reports: a "Movie" page as a film; any other page of the `books` store as a book; and, when the podcast test does not fire and the page has no book markers, any other page of the `music` store as music and a "TVSeason" page with no store identifier as a TV show. |
| Scenarios.UnknownIsMisc | chatscraper.py:286-289 | A link on no known host and with no podcast fingerprint is filed under `misc`. |
| Scenarios.DepartedIsFilm | chatscraper.py:133-136 | The Departed's Rotten Tomatoes page is a film. |
| Scenarios.DepartedIsNotTvShow | tests.py:98-101 | The Departed's Rotten Tomatoes page is not a TV show. |
| Scenarios.HandmaidsTaleIsTvShow | tests.py:86 | The Handmaid's Tale season page is a TV show. |
| Scenarios.HandmaidsTaleEpisodeIsTvShow | tests.py:87 | The Handmaid's Tale episode page is a TV show. |
| Scenarios.MadAsHellIsTvShow | tests.py:88 | Mad as Hell on the ABC site is a TV show. |
| Scenarios.DirectoryBooks | tests.py:63-65 | The Booktopia and Book Depository links of the test are books. |
| Scenarios.FidlerIsPodcast | tests.py:105 | The Richard Fidler link is a podcast because its path holds "radio". |

## Left out

- Fetching the RSS feed and episode pages, and parsing HTML, are not modelled; page content reaches the model only through the `Web.page` oracle.
- The search for the show-notes anchors is not modelled (the `h3` sibling, then the first `ul`, then the pre-wrap paragraphs, at chatscraper.py:90-111); the model starts from the list of anchors it yields.
- `Web.page` is a pure function: the source fetches the product page again for every probe, and the model takes those fetches to agree. A fetch error inside a probe is not modelled. The source lets it propagate out of `categorise_links`, and the model gives every probe an answer.
- A page element that is there but lacks the attribute a probe reads makes the probe raise `KeyError`, which nothing catches; such pages are not modelled. In the page facts, `None` means the element is absent, the case where the probe catches the `TypeError` and answers no.
- In the link-collection loop, only the three caught exceptions fall back to the `href`. Any other exception from `requests.get`, and a missing `href` attribute, would abort the loop and are not modelled.
- Strings.Lower: case mapping covers the ASCII letters only, whereas Python's `lower()` and `capitalize()` are Unicode-aware; every constant the rules compare against is ASCII.
- Printing (`print_category_items`), CSV output (`print_list` beyond the label) and the command line are not modelled.
- `_is_seven_thirty_interview` is never called by `categorise_links` (it is not a result key) and is not modelled.
- Sorting.SortByText: Python's `sorted` is Timsort; the model uses a stable insertion sort and proves of it what `sorted` guarantees (ordered, a permutation, stable), not that it is the same algorithm.
- The marketplace links of the unit tests (the Amazon books, films, TV shows and music) depend on live pages; they are covered by Scenarios.MarketplaceByPage and Predicates.AmazonByPage for any page answer rather than one lemma per link.
