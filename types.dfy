/** Shared values of the scraper: links, the pieces of a parsed URL, the facts read off a
    marketplace product page, and the oracle standing for the network and the URL parser. */
module Types {

  datatype Option<+T> = None | Some(value: T)

  /** One show-notes link: the anchor's display text and its (resolved) URL.
      The same record is a dictionary entry `text -> url` and a categorised item
      `{'link_text': text, 'url': url}`. */
  datatype Link = Link(text: string, url: string)

  /** What `urllib.parse.urlparse` yields that the rules look at: `netloc` and `path`. */
  datatype UrlParts = UrlParts(host: string, path: string)

  /** What the marketplace probes read off a fetched product page.
      `subPageType` is the `data-sub-page-type` attribute of the element with id `pageData`,
      `storeId` the `value` attribute of the element with id `storeID`; `None` stands for
      "no such element", where reading the attribute fails with the `TypeError` the probes
      catch and treat as no match. An element that is there but lacks the attribute makes
      the probe raise `KeyError`, which nothing catches; such pages are not modelled.
      `hasBooksTitle` says an element with id `booksTitle` exists, `hasAuthorImage` that an
      `img` of class `ap-author-image` exists. */
  datatype PageFacts = PageFacts(
    subPageType: Option<string>,
    storeId: Option<string>,
    hasBooksTitle: bool,
    hasAuthorImage: bool)

  /** The world outside the classifier: the URL parser and the product-page fetcher.
      Both are deterministic here: fetching the same URL twice gives the same facts. */
  datatype Web = Web(parse: string -> UrlParts, page: string -> PageFacts)
}
