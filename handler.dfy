/** `echo`, the handler for every text message: it decides from the text which
    lookup to run and sends the replies, in order, until the lookup is done or
    an exception ends the handler. */
module Handler {
  import opened Py
  import opened PyStrings
  import opened Net
  import opened MovieLink
  import Imdb
  import Kinopoisk
  import Tmdb

  const BadName := "Please write the correct Film or TV show name"
  const BadNameOrSource := "Please write the correct Film or TV show name or change source"
  const WatchOnline := "Watch it online:\n"

  /** A call the handler makes on the chat: a text answer, or a photo answer
      with whatever value it was given (a link, `''`, or `None`). */
  datatype Reply = Text(body: string) | Photo(photo: Option<string>)

  /** The calls made, in order, and the exception that ended the handler, if any. */
  datatype Transcript = Transcript(sent: seq<Reply>, raised: Option<PyError>)

  /** What the text asks for: the default movie-database lookup of the whole
      text, a lookup on the site a tag names, or nothing (an unknown tag). */
  datatype Route = DefaultLookup(query: string) | TaggedLookup(source: Source, title: string) | UnknownTag

  /** The two letters that name a site after `#`. */
  function Tag(source: Source): string {
    if source == Imdb then "im" else "kp"
  }

  /** The routing of `echo`. A text that does not start with `#` is looked up as
      a whole. A `#` followed by a known tag looks up everything from index 4 on
      (the character at index 3, normally a space, is dropped unseen). Any
      other text starting with `#` is an unknown tag. */
  function RouteMessage(text: string): (r: Route)
    ensures r.DefaultLookup? <==> text == [] || text[0] != '#'
    ensures r.DefaultLookup? ==> r.query == text
    ensures r.TaggedLookup? ==>
      |text| >= 3 && text[..3] == "#" + Tag(r.source)
      && r.title == if |text| <= 4 then "" else text[4..]
    ensures r == UnknownTag <==>
      text != [] && text[0] == '#' && (|text| < 3 || (text[1..3] != "im" && text[1..3] != "kp"))
  {
    if Slice(text, 0, 1) == "#" then
      var otherSourceType := Slice(text, 1, 3);
      if otherSourceType == "im" then TaggedLookup(Imdb, Slice(text, 4, |text|))
      else if otherSourceType == "kp" then TaggedLookup(Kinopoisk, Slice(text, 4, |text|))
      else UnknownTag
    else
      DefaultLookup(text)
  }

  /** A tagged message is routed to its site with its title, whatever
      character separates the tag from the title. */
  lemma TaggedMessageRoundTrip(source: Source, sep: char, title: string)
    ensures RouteMessage("#" + Tag(source) + [sep] + title) == TaggedLookup(source, title)
  {
    var text := "#" + Tag(source) + [sep] + title;
    assert text[..3] == "#" + Tag(source) && text[1..3] == Tag(source);
    assert text[4..] == title;
  }

  /** The end of a lookup that found something: the "watch online" line for the
      name, then the photo when there is one to send. A watch lookup that
      raises, or that gives `None` (`str + None`), ends the handler. */
  function WatchAndPhoto(web: Web, first: seq<Reply>, name: string, photo: seq<Reply>): (t: Transcript)
    ensures first <= t.sent
    ensures t.raised == None <==> web.watchOnline(name).Ok? && web.watchOnline(name).value.Some?
    ensures t.raised.Some? ==> t.sent == first
    ensures t.raised == None ==> t.sent == first + [Text(WatchOnline + web.watchOnline(name).value.value)] + photo
  {
    match web.watchOnline(name)
    case Raised(e) => Transcript(first, Some(e))
    case Ok(None) => Transcript(first, Some(TypeError))
    case Ok(Some(link)) => Transcript(first + [Text(WatchOnline + link)] + photo, None)
  }

  /** The default lookup: the movie-database triple, or the "correct name" reply
      when the info text is missing or empty. */
  function DefaultReplies(web: Web, apiKey: string, query: string): (t: Transcript)
    ensures |t.sent| <= 3
    ensures t.raised == None ==> t.sent != []
    ensures t == Transcript([Text(BadName)], None) <==> Tmdb.TmdbLookup(web, apiKey, query) == Ok(None)
    ensures Tmdb.TmdbLookup(web, apiKey, query).Raised? ==>
      t == Transcript([], Some(Tmdb.TmdbLookup(web, apiKey, query).error))
    ensures Tmdb.TmdbLookup(web, apiKey, query).Ok? && Tmdb.TmdbLookup(web, apiKey, query).value.Some? ==>
      var f := Tmdb.TmdbLookup(web, apiKey, query).value.value;
      t == match web.watchOnline(f.name)
           case Raised(e) => Transcript([Text(f.info)], Some(e))
           case Ok(None) => Transcript([Text(f.info)], Some(TypeError))
           case Ok(Some(link)) =>
             Transcript([Text(f.info), Text(WatchOnline + link)] + (if Truthy(f.posterUrl) then [Photo(f.posterUrl)] else []), None)
  {
    match Tmdb.TmdbLookup(web, apiKey, query)
    case Raised(e) => Transcript([], Some(e))
    case Ok(found) =>
      if found.None? || found.value.info == "" then Transcript([Text(BadName)], None)
      else
        var f := found.value;
        WatchAndPhoto(web, [Text(f.info)], f.name,
                      if Truthy(f.posterUrl) then [Photo(f.posterUrl)] else [])
  }

  /** The answer text for a site's three-entry list: the stripped name, a colon,
      the stripped description. */
  function SiteAnswer(name: string, descr: string): (answer: string)
    ensures |answer| == |Strip(name)| + |Strip(descr)| + 3
    ensures answer[..|Strip(name)|] == Strip(name)
    ensures answer[|Strip(name)|..|Strip(name)| + 2] == ":\n"
    ensures answer[|Strip(name)| + 2..|answer| - 1] == Strip(descr)
    ensures answer[|answer| - 1] == '\n'
  {
    Strip(name) + ":\n" + Strip(descr) + "\n"
  }

  /** A tagged lookup: the "correct name or change source" reply when no link is
      found, otherwise the site's answer, the watch line for the stripped name,
      and the poster entry as a photo, whatever it holds. */
  function TaggedReplies(web: Web, source: Source, title: string): (t: Transcript)
    ensures |t.sent| <= 3
    ensures t.raised == None ==> t.sent != []
    ensures t == Transcript([Text(BadNameOrSource)], None) <==> MovieLink.MovieLink(web, title, source) == Ok(None)
    ensures MovieLink.MovieLink(web, title, source).Raised? ==>
      t == Transcript([], Some(MovieLink.MovieLink(web, title, source).error))
    ensures var link := MovieLink.MovieLink(web, title, source);
      link.Ok? && link.value.Some? && SiteEntries(web, source, link.value.value).Raised? ==>
        t == Transcript([], Some(SiteEntries(web, source, link.value.value).error))
  {
    match MovieLink.MovieLink(web, title, source)
    case Raised(e) => Transcript([], Some(e))
    case Ok(link) =>
      if !Truthy(link) then Transcript([Text(BadNameOrSource)], None)
      else
        match SiteEntries(web, source, link.value)
        case Raised(e) => Transcript([], Some(e))
        case Ok(entries) =>
          WatchAndPhoto(web, [Text(SiteAnswer(entries[0].value, entries[2].value))],
                        Strip(entries[0].value), [Photo(entries[1])])
  }

  /** `echo` as a function of the message text and what the web returns. */
  function Echo(web: Web, apiKey: string, text: string): (t: Transcript)
    ensures |t.sent| <= 3
    ensures t.raised == None ==> t.sent != []
    ensures RouteMessage(text) == UnknownTag ==> t == Transcript([Text(BadName)], None)
  {
    match RouteMessage(text)
    case UnknownTag => Transcript([Text(BadName)], None)
    case DefaultLookup(query) => DefaultReplies(web, apiKey, query)
    case TaggedLookup(source, title) => TaggedReplies(web, source, title)
  }

  /** An unknown tag gets exactly the "correct name" reply, whatever the web
      would have answered: no lookup is made. */
  lemma UnknownTagAnswer(web: Web, apiKey: string, text: string)
    requires text != [] && text[0] == '#'
    requires |text| < 3 || (text[1..3] != "im" && text[1..3] != "kp")
    ensures Echo(web, apiKey, text) == Transcript([Text(BadName)], None)
  {
  }

  /** A message that does not start with `#` is searched in the movie database
      as a whole, and gets exactly the "correct name" reply when neither
      category has a result. */
  lemma DefaultNotFound(web: Web, apiKey: string, text: string)
    requires text == [] || text[0] != '#'
    requires web.json(Tmdb.SearchRequest(apiKey, text, "movie")).totalResults == 0
    requires web.json(Tmdb.SearchRequest(apiKey, text, "tv")).totalResults == 0
    ensures Echo(web, apiKey, text) == Transcript([Text(BadName)], None)
  {
    var rs := Tmdb.Responses(web, apiKey, text);
    assert rs[0].totalResults == 0 && rs[1].totalResults == 0;
  }

  /** A movie hit for the whole text is answered with its info text (title,
      rating and plot), then the watch line, then its poster when it has one. */
  lemma DefaultMovieFound(web: Web, apiKey: string, text: string, link: string)
    requires text == [] || text[0] != '#'
    requires var movies := web.json(Tmdb.SearchRequest(apiKey, text, "movie"));
      movies.totalResults != 0 && movies.results != []
    requires web.watchOnline(web.json(Tmdb.SearchRequest(apiKey, text, "movie")).results[0].title) == Ok(Some(link))
    ensures var m := web.json(Tmdb.SearchRequest(apiKey, text, "movie")).results[0];
      var t := Echo(web, apiKey, text);
      && t.raised == None
      && t.sent[..2] == [Text(Tmdb.MovieInfo(m)), Text(WatchOnline + link)]
      && Tmdb.Heading(m) <= t.sent[0].body
      && (m.overview != "" ==> t.sent[0].body == Tmdb.Heading(m) + Tmdb.PlotLabel + m.overview)
      && (t.sent[2..] == if Tmdb.PosterUrl(m).Some? then [Photo(Tmdb.PosterUrl(m))] else [])
  {
    var rs := Tmdb.Responses(web, apiKey, text);
    assert rs[0] == web.json(Tmdb.SearchRequest(apiKey, text, "movie"));
  }

  /** A tagged message whose search finds no result container gets exactly the
      "correct name or change source" reply. */
  lemma TaggedNotFound(web: Web, source: Source, sep: char, title: string)
    requires Find(web.html(SearchRequest(title, source)),
                  SearchParams(title, source).firstTag, SearchParams(title, source).firstClass).None?
    ensures forall apiKey :: Echo(web, apiKey, "#" + Tag(source) + [sep] + title) == Transcript([Text(BadNameOrSource)], None)
  {
    TaggedMessageRoundTrip(source, sep, title);
  }

  /** A Kinopoisk title page without a title (the site blocking the bot) is not
      reported as such: the "Banned by kp" list goes through the normal answer,
      so the reply is "Banned by kp:" and an empty description, the watch line
      is looked up for "Banned by kp", and the photo sent is the empty string. */
  lemma KpBannedAnswer(web: Web, apiKey: string, text: string, link: string, watch: string)
    requires RouteMessage(text).TaggedLookup? && RouteMessage(text).source == Kinopoisk
    requires MovieLink.MovieLink(web, RouteMessage(text).title, Kinopoisk) == Ok(Some(link)) && link != ""
    requires Find(web.html(PageRequest(link)), "h1", "moviename-big").None?
    requires web.watchOnline(Kinopoisk.BannedByKp) == Ok(Some(watch))
    ensures Echo(web, apiKey, text)
         == Transcript([Text("Banned by kp:\n\n"), Text(WatchOnline + watch), Photo(Some(""))], None)
  {
    var entries := Kinopoisk.BannedList;
    assert SiteEntries(web, Kinopoisk, link) == Ok(entries);
    assert entries[0].value == Kinopoisk.BannedByKp && entries[1] == Some("") && entries[2].value == "";
    BannedAnswerText();
    EchoTagged(web, apiKey, text);
    TaggedFound(web, Kinopoisk, RouteMessage(text).title, link);
    assert TaggedReplies(web, Kinopoisk, RouteMessage(text).title)
        == WatchAndPhoto(web, [Text("Banned by kp:\n\n")], Kinopoisk.BannedByKp, [Photo(Some(""))]);
    var t := WatchAndPhoto(web, [Text("Banned by kp:\n\n")], Kinopoisk.BannedByKp, [Photo(Some(""))]);
    assert t.raised == None;
    ThreeReplies(Text("Banned by kp:\n\n"), Text(WatchOnline + watch), Photo(Some("")));
  }

  lemma ThreeReplies(a: Reply, b: Reply, c: Reply)
    ensures [a] + [b] + [c] == [a, b, c]
  {
  }

  /** The answer text for the "Banned by kp" list. */
  lemma BannedAnswerText()
    ensures SiteAnswer(Kinopoisk.BannedByKp, "") == "Banned by kp:\n\n"
    ensures Strip(Kinopoisk.BannedByKp) == Kinopoisk.BannedByKp
  {
    StripUntrimmed(Kinopoisk.BannedByKp);
    StripUntrimmed("");
  }

  /** The site's entries for a found link, when its title page yields a list. */
  function SiteEntries(web: Web, source: Source, link: string): (r: Outcome<seq<Entry>>)
    ensures r.Ok? ==> |r.value| == 3 && r.value[0].Some? && r.value[2].Some?
    ensures r.Raised? ==> r.error == AttributeError
    ensures source == Kinopoisk && Find(web.html(PageRequest(link)), "h1", "moviename-big").None? ==>
      r == Ok(Kinopoisk.BannedList)
    ensures source == Imdb && Find(web.html(PageRequest(link)), "div", "title_block").None? ==>
      r == Raised(AttributeError)
  {
    var page := web.html(PageRequest(link));
    Imdb.ImdbInfoComplete(page);
    if source == Imdb then Imdb.ImdbInfo(page) else Kinopoisk.KpInfo(page)
  }

  /** A site lookup whose title page yields a list answers with the stripped
      name and description, and looks up the watch link for the stripped name.
      When that lookup raises or gives `None`, the answer is the only reply;
      otherwise the watch line and the poster entry (as a photo) follow it. */
  lemma TaggedAnswer(web: Web, apiKey: string, text: string, source: Source, link: string)
    requires RouteMessage(text).TaggedLookup? && RouteMessage(text).source == source
    requires MovieLink.MovieLink(web, RouteMessage(text).title, source) == Ok(Some(link)) && link != ""
    requires SiteEntries(web, source, link).Ok?
    ensures var entries := SiteEntries(web, source, link).value;
      var name := Strip(entries[0].value);
      var answer := Text(name + ":\n" + Strip(entries[2].value) + "\n");
      Echo(web, apiKey, text) ==
        match web.watchOnline(name)
        case Raised(e) => Transcript([answer], Some(e))
        case Ok(None) => Transcript([answer], Some(TypeError))
        case Ok(Some(watch)) => Transcript([answer, Text(WatchOnline + watch), Photo(entries[1])], None)
  {
    var entries := SiteEntries(web, source, link).value;
    var name := Strip(entries[0].value);
    var answer := Text(SiteAnswer(entries[0].value, entries[2].value));
    assert answer == Text(name + ":\n" + Strip(entries[2].value) + "\n");
    EchoTagged(web, apiKey, text);
    TaggedFound(web, source, RouteMessage(text).title, link);
    match web.watchOnline(name)
    case Raised(_) =>
    case Ok(None) =>
    case Ok(Some(watch)) => ThreeReplies(answer, Text(WatchOnline + watch), Photo(entries[1]));
  }

  /** A tagged message is answered by the tagged lookup alone. */
  lemma EchoTagged(web: Web, apiKey: string, text: string)
    requires RouteMessage(text).TaggedLookup?
    ensures Echo(web, apiKey, text) == TaggedReplies(web, RouteMessage(text).source, RouteMessage(text).title)
  {
  }

  /** A tagged lookup whose link leads to a list answers with that list: the
      site answer first, then what the watch lookup for the stripped name gives. */
  lemma TaggedFound(web: Web, source: Source, title: string, link: string)
    requires MovieLink.MovieLink(web, title, source) == Ok(Some(link)) && link != ""
    requires SiteEntries(web, source, link).Ok?
    ensures var entries := SiteEntries(web, source, link).value;
      TaggedReplies(web, source, title)
        == WatchAndPhoto(web, [Text(SiteAnswer(entries[0].value, entries[2].value))],
                         Strip(entries[0].value), [Photo(entries[1])])
  {
  }
}
