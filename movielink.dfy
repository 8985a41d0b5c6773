/** `fetch_movie_link`: the search request sent to IMDb or Kinopoisk for a
    title, and the link to the first result's page read from the answer. */
module MovieLink {
  import opened Py
  import opened PyStrings
  import opened Net

  /** The two sites a tagged message can name. */
  datatype Source = Imdb | Kinopoisk

  const ImdbFindUrl := "https://www.imdb.com/find"
  const ImdbSite := "https://www.imdb.com"
  const KpFindUrl := "https://www.kinopoisk.ru/level=7&m_act[what]=content&m_act[find]="
  const KpSite := "https://www.kinopoisk.ru"

  /** The `params` dictionary: where to search, with which query parameters, the
      site the found `href` is relative to, and how to find the first result
      (a container by tag and class, then an anchor in it and its attribute). */
  datatype LinkParams = LinkParams(
    url: string,
    request: map<string, string>,
    site: string,
    firstTag: string,
    firstClass: string,
    secondTag: string,
    secondAttr: string)

  /** The site the found link points into. */
  function SiteOf(source: Source): string {
    if source == Imdb then ImdbSite else KpSite
  }

  /** The title as it goes into a Kinopoisk search URL: spaces become `+`. */
  function KpQuery(movieName: string): (q: string)
    ensures |q| == |movieName| && ' ' !in q
    ensures forall i :: 0 <= i < |q| ==> q[i] == if movieName[i] == ' ' then '+' else movieName[i]
  {
    ReplaceChar(movieName, ' ', '+')
  }

  /** The dictionary as it stands when the request is sent. */
  function SearchParams(movieName: string, source: Source): (p: LinkParams)
    ensures p.site == SiteOf(source) && p.secondTag == "a" && p.secondAttr == "href"
    ensures source == Imdb ==>
      p.url == ImdbFindUrl && p.request == map["s" := "tt", "q" := movieName]
      && p.firstTag == "tr" && p.firstClass == "findResult odd"
    ensures source == Kinopoisk ==>
      p.url == KpFindUrl + KpQuery(movieName) && p.request == map[]
      && p.firstTag == "div" && p.firstClass == "info"
  {
    match source
    case Imdb =>
      LinkParams(ImdbFindUrl, map["s" := "tt", "q" := movieName], ImdbSite, "tr", "findResult odd", "a", "href")
    case Kinopoisk =>
      LinkParams(KpFindUrl + KpQuery(movieName), map[], KpSite, "div", "info", "a", "href")
  }

  /** The search request: for Kinopoisk the title is in the URL itself and
      there are no query parameters; for IMDb the URL is fixed and the title is
      the `q` parameter of a title search (`s=tt`). */
  function SearchRequest(movieName: string, source: Source): (r: Request)
    ensures source == Imdb ==> r == Request(ImdbFindUrl, map["s" := "tt", "q" := movieName])
    ensures source == Kinopoisk ==>
      && r.params == map[]
      && KpFindUrl <= r.url
      && r.url[|KpFindUrl|..] == KpQuery(movieName)
  {
    var p := SearchParams(movieName, source);
    Request(p.url, p.request)
  }

  /** What the search page yields: no link when the first-result container is
      missing, the site followed by the anchor's `href` when there is one, and
      the exception Python raises when the anchor (`None.get`) or its `href`
      (`str + None`) is missing. */
  function LinkFromPage(page: Page, p: LinkParams): (r: Outcome<Option<string>>)
    ensures r == Ok(None) <==> Find(page, p.firstTag, p.firstClass) == None
    ensures Find(page, p.firstTag, p.firstClass).Some? ==>
      var anchor := Find(page, p.firstTag, p.firstClass).value.FindTag(p.secondTag);
      r == if anchor.None? then Raised(AttributeError)
           else if anchor.value.Get(p.secondAttr).None? then Raised(TypeError)
           else Ok(Some(p.site + anchor.value.Get(p.secondAttr).value))
    ensures r.Ok? && r.value.Some? ==>
      var first := Find(page, p.firstTag, p.firstClass).value;
      first.FindTag(p.secondTag).Some?
      && p.site <= r.value.value
      && first.FindTag(p.secondTag).value.Get(p.secondAttr) == Some(r.value.value[|p.site|..])
  {
    match Find(page, p.firstTag, p.firstClass)
    case None => Ok(None)
    case Some(first) =>
      match first.FindTag(p.secondTag)
      case None => Raised(AttributeError)
      case Some(anchor) =>
        match anchor.Get(p.secondAttr)
        case None => Raised(TypeError)
        case Some(href) => Ok(Some(p.site + href))
  }

  /** `fetch_movie_link` as a function of what the web returns. */
  function MovieLink(web: Web, movieName: string, source: Source): (r: Outcome<Option<string>>)
    ensures var p := SearchParams(movieName, source);
      r == Ok(None) <==> Find(web.html(SearchRequest(movieName, source)), p.firstTag, p.firstClass).None?
    ensures r.Ok? && r.value.Some? ==> SiteOf(source) <= r.value.value
  {
    LinkFromPage(web.html(SearchRequest(movieName, source)), SearchParams(movieName, source))
  }

  /** `fetch_movie_link`: starts from the IMDb dictionary and, for Kinopoisk,
      overwrites its entries one by one before sending the request. */
  method FetchMovieLink(web: Web, movieName: string, source: Source) returns (link: Outcome<Option<string>>)
    ensures link == MovieLink(web, movieName, source)
    ensures link.Ok? && link.value.Some? ==> SiteOf(source) <= link.value.value
  {
    var params := LinkParams(ImdbFindUrl, map["s" := "tt", "q" := movieName], ImdbSite,
                             "tr", "findResult odd", "a", "href");
    var name := movieName;
    if source == Kinopoisk {
      name := ReplaceChar(name, ' ', '+');
      params := params.(url := KpFindUrl + name);
      params := params.(firstTag := "div");
      params := params.(firstClass := "info");
      params := params.(request := map[]);
      params := params.(site := KpSite);
    }
    assert params == SearchParams(movieName, source);
    var page := web.html(Request(params.url, params.request));
    var firstSearch := Find(page, params.firstTag, params.firstClass);
    if firstSearch.None? {
      return Ok(None);
    }
    var anchor := firstSearch.value.FindTag(params.secondTag);
    if anchor.None? {
      return Raised(AttributeError);
    }
    var href := anchor.value.Get(params.secondAttr);
    if href.None? {
      return Raised(TypeError);
    }
    link := Ok(Some(params.site + href.value));
  }

  /** A Kinopoisk search for a title without `+` names the title exactly: the
      part of the URL after the search prefix, with `+` read back as a space,
      is the title. */
  lemma KpSearchNamesTitle(movieName: string)
    requires '+' !in movieName
    ensures var url := SearchRequest(movieName, Kinopoisk).url;
      KpFindUrl <= url && ReplaceChar(url[|KpFindUrl|..], '+', ' ') == movieName
  {
    var url := SearchRequest(movieName, Kinopoisk).url;
    assert url[|KpFindUrl|..] == KpQuery(movieName);
    ReplaceCharRoundTrip(movieName, ' ', '+');
  }
}
