/** What the bot reads from the outside world, as plain values: HTTP requests,
    parsed HTML pages reduced to the lookups the bot makes on them, and the
    movie database's search responses. */
module Net {
  import opened Py

  /** A GET request: the URL and its query parameters. */
  datatype Request = Request(url: string, params: map<string, string>)

  /** The request for a page addressed by a full link, with no query parameters. */
  function PageRequest(link: string): Request {
    Request(link, map[])
  }

  /** A node of a parsed HTML page: its text content, its attributes, and for
      each tag name the first node with that tag below it (what `node.find(tag)`
      returns). */
  datatype Element = Element(text: string, attrs: map<string, string>, firstByTag: map<string, Element>) {

    /** `node.find(tag)`: the first node below with that tag, or `None`. */
    function FindTag(tag: string): Option<Element> {
      if tag in firstByTag then Some(firstByTag[tag]) else None
    }

    /** `node.get(attr)`: the attribute's value, or `None`. */
    function Get(attr: string): Option<string> {
      if attr in attrs then Some(attrs[attr]) else None
    }
  }

  /** A parsed page: for each (tag, class) pair, the first node that matches it. */
  datatype Page = Page(firstByClass: map<(string, string), Element>)

  /** `soup.find(tag, attrs={'class': cls})`: the first matching node, or `None`. */
  function Find(page: Page, tag: string, cls: string): Option<Element> {
    if (tag, cls) in page.firstByClass then Some(page.firstByClass[(tag, cls)]) else None
  }

  /** One entry of a movie-database search result. `voteAverage` is the rating
      as `str()` renders it; a missing or null path is `None`. */
  datatype TmdbResult = TmdbResult(
    title: string,
    voteAverage: string,
    overview: string,
    posterPath: Option<string>,
    backdropPath: Option<string>)

  /** A movie-database search response: `total_results` and `results`. */
  datatype SearchResponse = SearchResponse(totalResults: int, results: seq<TmdbResult>)

  /** Everything the bot's requests can return: the parsed page for an HTML
      request, the decoded search response for a movie-database request, and the
      outcome of the "watch online" lookup for a title (a link, `None` when the
      link has no `href`, or the exception it raised). */
  datatype Web = Web(
    html: Request -> Page,
    json: Request -> SearchResponse,
    watchOnline: string -> Outcome<Option<string>>)
}
