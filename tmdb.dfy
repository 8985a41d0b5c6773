/** `fetch_movie_tmdb`: a title looked up in the movie database, first among
    movies and then among TV shows, and the first hit turned into a name, an
    info text and a poster link. */
module Tmdb {
  import opened Py
  import opened Net

  const SearchUrl := "https://api.themoviedb.org/3/search/"
  const PosterBase := "https://image.tmdb.org/t/p/w500"
  /** The categories searched, in order. */
  const Categories: seq<string> := ["movie", "tv"]
  const RatingLabel := ":\nОценка: "
  const RatingScale := " (10)\n"
  const PlotLabel := "Сюжет: "

  /** The triple returned for a hit: the title, the info text and the poster
      link, which may be `None`. */
  datatype Found = Found(name: string, info: string, posterUrl: Option<string>)

  /** The search request for one category, in Russian, with the API key. */
  function SearchRequest(apiKey: string, movieName: string, category: string): (r: Request)
    ensures SearchUrl <= r.url && r.url[|SearchUrl|..] == category
    ensures r.params.Keys == {"query", "api_key", "language"}
    ensures r.params["query"] == movieName && r.params["api_key"] == apiKey
    ensures r.params["language"] == "ru-RU"
  {
    Request(SearchUrl + category, map["query" := movieName, "api_key" := apiKey, "language" := "ru-RU"])
  }

  /** The responses to the searches of every category, in order. */
  function Responses(web: Web, apiKey: string, movieName: string): (rs: seq<SearchResponse>)
    ensures |rs| == |Categories|
    ensures forall i :: 0 <= i < |rs| ==> rs[i] == web.json(SearchRequest(apiKey, movieName, Categories[i]))
  {
    [web.json(SearchRequest(apiKey, movieName, Categories[0])),
     web.json(SearchRequest(apiKey, movieName, Categories[1]))]
  }

  /** The first response that reports any results, if there is one. */
  function FirstNonEmpty(rs: seq<SearchResponse>): (k: Option<nat>)
    ensures k.None? <==> forall i :: 0 <= i < |rs| ==> rs[i].totalResults == 0
    ensures k.Some? ==>
      k.value < |rs| && rs[k.value].totalResults != 0
      && forall i :: 0 <= i < k.value ==> rs[i].totalResults == 0
  {
    if rs == [] then None
    else if rs[0].totalResults != 0 then Some(0)
    else
      match FirstNonEmpty(rs[1..])
      case None => None
      case Some(k) => Some(k + 1)
  }

  /** The first line of the info text: title, rating and the scale. */
  function Heading(m: TmdbResult): (h: string)
    ensures |h| == |m.title| + |RatingLabel| + |m.voteAverage| + |RatingScale|
    ensures h[..|m.title|] == m.title
    ensures h[|m.title|..|m.title| + |RatingLabel|] == RatingLabel
    ensures h[|m.title| + |RatingLabel|..|h| - |RatingScale|] == m.voteAverage
    ensures h[|h| - |RatingScale|..] == RatingScale
  {
    m.title + RatingLabel + m.voteAverage + RatingScale
  }

  /** The info text: the heading, followed by the plot only when the overview
      is not empty. The text is never empty and starts with the title. */
  function MovieInfo(m: TmdbResult): (info: string)
    ensures info != [] && m.title <= info && Heading(m) <= info
    ensures info[|Heading(m)|..] == if m.overview != "" then PlotLabel + m.overview else ""
  {
    var info := Heading(m);
    assert m.title <= info by {
      assert info == m.title + (RatingLabel + m.voteAverage + RatingScale);
    }
    if m.overview != "" then info + PlotLabel + m.overview else info
  }

  /** The poster link: the poster path if it is a non-empty string, else the
      backdrop path if that is, else none; a link is always the image base
      followed by a non-empty path. */
  function PosterUrl(m: TmdbResult): (url: Option<string>)
    ensures Truthy(m.posterPath) ==> url == Some(PosterBase + m.posterPath.value)
    ensures !Truthy(m.posterPath) && Truthy(m.backdropPath) ==> url == Some(PosterBase + m.backdropPath.value)
    ensures url.None? <==> !Truthy(m.posterPath) && !Truthy(m.backdropPath)
    ensures url.Some? ==> PosterBase < url.value
  {
    if Truthy(m.posterPath) then Some(PosterBase + m.posterPath.value)
    else if Truthy(m.backdropPath) then Some(PosterBase + m.backdropPath.value)
    else None
  }

  /** The triple for one search result. */
  function Shape(m: TmdbResult): (f: Found)
    ensures f.name == m.title && m.title <= f.info && f.info != ""
    ensures f.posterUrl.None? <==> !Truthy(m.posterPath) && !Truthy(m.backdropPath)
    ensures f.posterUrl.Some? ==> PosterBase < f.posterUrl.value
  {
    Found(m.title, MovieInfo(m), PosterUrl(m))
  }

  /** `fetch_movie_tmdb` as a function of what the web returns: nothing found
      exactly when every category reports zero results; otherwise the first
      result of the first category that reports any (so a movie hit wins over a
      TV hit), or `IndexError` when that category's result list is empty. */
  function TmdbLookup(web: Web, apiKey: string, movieName: string): (r: Outcome<Option<Found>>)
    ensures var rs := Responses(web, apiKey, movieName);
      && (r == Ok(None) <==> rs[0].totalResults == 0 && rs[1].totalResults == 0)
      && (rs[0].totalResults != 0 ==>
            r == if rs[0].results == [] then Raised(IndexError) else Ok(Some(Shape(rs[0].results[0]))))
      && (r.Ok? && r.value.Some? ==> r.value.value.info != "")
      && (rs[0].totalResults == 0 && rs[1].totalResults != 0 ==>
            r == if rs[1].results == [] then Raised(IndexError) else Ok(Some(Shape(rs[1].results[0]))))
  {
    var rs := Responses(web, apiKey, movieName);
    match FirstNonEmpty(rs)
    case None => Ok(None)
    case Some(k) =>
      if rs[k].results == [] then Raised(IndexError) else Ok(Some(Shape(rs[k].results[0])))
  }

  /** `fetch_movie_tmdb`: searches the categories in order, skipping (`continue`)
      one that reports no results and returning from the first that does. */
  method FetchMovieTmdb(web: Web, apiKey: string, movieName: string) returns (r: Outcome<Option<Found>>)
    ensures r == TmdbLookup(web, apiKey, movieName)
  {
    ghost var rs := Responses(web, apiKey, movieName);
    var i := 0;
    while i < |Categories|
      invariant 0 <= i <= |Categories|
      invariant forall j :: 0 <= j < i ==> rs[j].totalResults == 0
    {
      var resp := web.json(SearchRequest(apiKey, movieName, Categories[i]));
      if resp.totalResults == 0 {
        i := i + 1;
        continue;
      }
      if resp.results == [] {
        return Raised(IndexError);
      }
      var movie := resp.results[0];
      var movieInfo := movie.title + RatingLabel + movie.voteAverage + RatingScale;
      if movie.overview != "" {
        movieInfo := movieInfo + PlotLabel + movie.overview;
      }
      var posterUrl: Option<string>;
      if Truthy(movie.posterPath) {
        posterUrl := Some(PosterBase + movie.posterPath.value);
      } else if Truthy(movie.backdropPath) {
        posterUrl := Some(PosterBase + movie.backdropPath.value);
      } else {
        posterUrl := None;
      }
      return Ok(Some(Found(movie.title, movieInfo, posterUrl)));
    }
    return Ok(None);
  }
}
