/** `fetch_movie_info_kp`: the Kinopoisk title page reduced to a three-entry
    list of name, poster link and description, or the "Banned by kp" list when
    the page has no title (the site's answer to a bot it has blocked). */
module Kinopoisk {
  import opened Py
  import opened PyStrings
  import opened Net

  const BannedByKp := "Banned by kp"
  const NoDescription := "No description"
  const Nbsp: char := '\U{a0}'
  const Nel: char := '\U{85}'

  /** The list returned when the title node is missing. */
  const BannedList: seq<Entry> := [Some(BannedByKp), Some(""), Some("")]

  /** The synopsis with each no-break space and each NEL control character
      turned into a plain space: same length, neither character left, and every
      other character kept where it was. */
  function CleanDescription(s: string): (r: string)
    ensures |r| == |s|
    ensures Nbsp !in r && Nel !in r
    ensures forall i :: 0 <= i < |s| ==> r[i] == if s[i] == Nbsp || s[i] == Nel then ' ' else s[i]
  {
    var r := ReplaceChar(ReplaceChar(s, Nbsp, ' '), Nel, ' ');
    assert forall i :: 0 <= i < |r| ==> r[i] != Nbsp && r[i] != Nel;
    r
  }

  /** What the title page yields: the banned list when the title node is
      missing; otherwise the title, the sidebar image's `src` (which may be
      `None`) and the cleaned synopsis, or "No description" when there is no
      synopsis node. A missing sidebar or image raises, as `None.find` and
      `None.get` do, since only the title and synopsis lookups are guarded. */
  function KpInfo(page: Page): (r: Outcome<seq<Entry>>)
    ensures Find(page, "h1", "moviename-big").None? ==> r == Ok(BannedList)
    ensures r.Ok? ==> |r.value| == 3 && r.value[0].Some? && r.value[2].Some?
    ensures r.Raised? ==> r.error == AttributeError
    ensures r.Ok? ==> Nbsp !in r.value[2].value && Nel !in r.value[2].value
    ensures Find(page, "h1", "moviename-big").Some? ==>
      (r.Ok? <==> (var sidebar := Find(page, "div", "movie-info__sidebar");
                   sidebar.Some? && sidebar.value.FindTag("img").Some?))
    ensures Find(page, "h1", "moviename-big").Some? && r.Ok? ==>
      r.value[0] == Some(Find(page, "h1", "moviename-big").value.text)
      && r.value[1] == Find(page, "div", "movie-info__sidebar").value.FindTag("img").value.Get("src")
      && (Find(page, "div", "brand_words film-synopsys").None? ==> r.value[2] == Some(NoDescription))
      && (Find(page, "div", "brand_words film-synopsys").Some? ==>
            r.value[2] == Some(CleanDescription(Find(page, "div", "brand_words film-synopsys").value.text)))
  {
    match Find(page, "h1", "moviename-big")
    case None => Ok(BannedList)
    case Some(title) =>
      match Find(page, "div", "movie-info__sidebar")
      case None => Raised(AttributeError)
      case Some(sidebar) =>
        match sidebar.FindTag("img")
        case None => Raised(AttributeError)
        case Some(img) =>
          var descr :=
            match Find(page, "div", "brand_words film-synopsys")
            case None => NoDescription
            case Some(synopsis) => CleanDescription(synopsis.text);
          Ok([Some(title.text), img.Get("src"), Some(descr)])
  }
}
