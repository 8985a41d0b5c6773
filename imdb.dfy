/** `fetch_movie_info_imdb`: the IMDb title page reduced to a three-entry list
    of name, poster link and description. */
module Imdb {
  import opened Py
  import opened Net

  const NoPoster := "No Poster"
  const NoDescription := "No description"

  /** What a lookup is for: the title (`get_name`) or the poster (`get_info`). */
  datatype Kind = GetName | GetInfo

  /** One entry of the `params` list: a container by tag and class, a node in it
      by tag, and the attribute read from that node. */
  datatype ScrapeParam = ScrapeParam(firstTag: string, firstClass: string, secondTag: string, secondAttr: string, kind: Kind)

  const Params: seq<ScrapeParam> := [
    ScrapeParam("div", "title_block", "a", "title", GetName),
    ScrapeParam("div", "poster", "img", "src", GetInfo)
  ]

  /** The description: "No description" when the summary holds a link (the
      page's "Add a Plot" placeholder), its text otherwise; a missing summary
      raises, as `None.find` does. */
  function Description(page: Page): (r: Outcome<Entry>)
    ensures r.Ok? <==> Find(page, "div", "summary_text").Some?
    ensures r.Raised? ==> r.error == AttributeError
    ensures r.Ok? ==> r.value.Some?
    ensures r.Ok? && Find(page, "div", "summary_text").value.FindTag("a").Some? ==> r.value == Some(NoDescription)
    ensures r.Ok? && Find(page, "div", "summary_text").value.FindTag("a").None? ==>
      r.value == Some(Find(page, "div", "summary_text").value.text)
  {
    match Find(page, "div", "summary_text")
    case None => Raised(AttributeError)
    case Some(descr) => Ok(Some(if descr.FindTag("a").Some? then NoDescription else descr.text))
  }

  /** The name: the anchor's `title` attribute, a space and the heading's text
      when the attribute is a non-empty string, the heading's text alone
      otherwise. */
  function ComposeName(second: Option<string>, heading: string): (name: string)
    ensures |heading| <= |name| && name[|name| - |heading|..] == heading
    ensures Truthy(second) ==> second.value + " " <= name && |name| == |second.value| + 1 + |heading|
    ensures !Truthy(second) ==> name == heading
  {
    if Truthy(second) then second.value + " " + heading else heading
  }

  /** What one pass of the loop appends for `param`, or the exception it raises.
      A name pass appends the name and skips the description (`continue`); a
      poster pass appends the poster (or "No Poster" when its container is
      missing) and then the description. */
  function Step(page: Page, param: ScrapeParam): (r: Outcome<seq<Entry>>)
    ensures r.Ok? ==> |r.value| == if param.kind == GetName then 1 else 2
    ensures r.Raised? ==> r.error == AttributeError
    ensures r.Ok? && param.kind == GetName ==> r.value[0].Some?
    ensures r.Ok? && param.kind == GetInfo ==> Description(page) == Ok(r.value[1])
    ensures Find(page, param.firstTag, param.firstClass).None? && param.kind == GetName ==> r == Raised(AttributeError)
    ensures Find(page, param.firstTag, param.firstClass).None? && param.kind == GetInfo ==>
      r == match Description(page) case Raised(e) => Raised(e) case Ok(d) => Ok([Some(NoPoster), d])
  {
    var first := Find(page, param.firstTag, param.firstClass);
    if first.None? && param.kind == GetInfo then
      match Description(page)
      case Raised(e) => Raised(e)
      case Ok(d) => Ok([Some(NoPoster), d])
    else if first.None? then
      Raised(AttributeError)
    else
      match first.value.FindTag(param.secondTag)
      case None => Raised(AttributeError)
      case Some(node) =>
        var second := node.Get(param.secondAttr);
        if param.kind == GetName then
          match first.value.FindTag("h1")
          case None => Raised(AttributeError)
          case Some(h1) => Ok([Some(ComposeName(second, h1.text))])
        else
          match Description(page)
          case Raised(e) => Raised(e)
          case Ok(d) => Ok([second, d])
  }

  /** The list after the passes for `params`, in order; the first exception ends it. */
  function Steps(page: Page, params: seq<ScrapeParam>): (r: Outcome<seq<Entry>>)
    ensures r.Ok? ==> |params| <= |r.value| <= 2 * |params|
    ensures r.Raised? ==> r.error == AttributeError
  {
    if params == [] then Ok([])
    else
      match Steps(page, params[..|params| - 1])
      case Raised(e) => Raised(e)
      case Ok(acc) =>
        match Step(page, params[|params| - 1])
        case Raised(e) => Raised(e)
        case Ok(more) => Ok(acc + more)
  }

  /** What the title page yields. When nothing raises it is always three entries:
      a name, the poster entry ("No Poster" when the poster container is
      missing) and a description ("No description" when the summary holds a
      link). A missing title block always raises. */
  function ImdbInfo(page: Page): (r: Outcome<seq<Entry>>)
    ensures r.Ok? ==> |r.value| == 3 && r.value[0].Some? && r.value[2].Some?
    ensures r.Ok? && Find(page, "div", "poster").None? ==> r.value[1] == Some(NoPoster)
    ensures r.Ok? ==> Description(page) == Ok(r.value[2])
    ensures Find(page, "div", "title_block").None? ==> r == Raised(AttributeError)
  {
    StepsOfParams(page);
    Steps(page, Params)
  }

  /** The two passes of the loop, unfolded. */
  lemma StepsOfParams(page: Page)
    ensures Steps(page, Params) ==
      match Step(page, Params[0])
      case Raised(e) => Raised(e)
      case Ok(a) =>
        match Step(page, Params[1])
        case Raised(e) => Raised(e)
        case Ok(b) => Ok(a + b)
  {
    var first := Params[..1];
    assert first[..0] == [] && first[0] == Params[0];
    assert Steps(page, first) ==
      match Step(page, Params[0])
      case Raised(e) => Raised(e)
      case Ok(a) => Ok([] + a);
    assert Params[..|Params| - 1] == first && Params[|Params| - 1] == Params[1];
    assert Steps(page, Params) ==
      match Steps(page, first)
      case Raised(e) => Raised(e)
      case Ok(a) =>
        match Step(page, Params[1])
        case Raised(e) => Raised(e)
        case Ok(b) => Ok(a + b);
    match Step(page, Params[0])
    case Raised(_) =>
    case Ok(a) => assert [] + a == a;
  }

  /** One more pass extends the list, or raises. */
  lemma StepsExtend(page: Page, params: seq<ScrapeParam>, i: nat)
    requires i < |params|
    ensures Steps(page, params[..i + 1]) ==
      match Steps(page, params[..i])
      case Raised(e) => Raised(e)
      case Ok(acc) =>
        match Step(page, params[i])
        case Raised(e) => Raised(e)
        case Ok(more) => Ok(acc + more)
  {
    assert params[..i + 1][..i] == params[..i];
  }

  /** An exception in an early pass ends the loop: the later passes change nothing. */
  lemma {:induction false} StepsRaisedEarly(page: Page, params: seq<ScrapeParam>, k: nat)
    requires k <= |params| && Steps(page, params[..k]).Raised?
    ensures Steps(page, params) == Steps(page, params[..k])
    decreases |params|
  {
    if k < |params| {
      var init := params[..|params| - 1];
      assert init[..k] == params[..k];
      StepsRaisedEarly(page, init, k);
    } else {
      assert params[..k] == params;
    }
  }

  lemma AppendPair(s: seq<Entry>, x: Entry, y: Entry)
    ensures s + [x] + [y] == s + [x, y]
  {
  }

  /** One pass of the loop in `fetch_movie_info_imdb`, appending to `acc` as
      the loop body does; the `continue` after the name is the early return of
      the name branch, and a `None` dereference is the `AttributeError` that
      leaves the loop. */
  method ScrapePass(page: Page, param: ScrapeParam, acc: seq<Entry>) returns (r: Outcome<seq<Entry>>)
    ensures r == match Step(page, param) case Raised(e) => Raised(e) case Ok(more) => Ok(acc + more)
  {
    var result := acc;
    var firstSearch := Find(page, param.firstTag, param.firstClass);
    if firstSearch.None? && param.kind == GetInfo {
      result := result + [Some(NoPoster)];
    } else {
      if firstSearch.None? {
        return Raised(AttributeError);
      }
      var node := firstSearch.value.FindTag(param.secondTag);
      if node.None? {
        return Raised(AttributeError);
      }
      var second := node.value.Get(param.secondAttr);
      if param.kind == GetName {
        var h1 := firstSearch.value.FindTag("h1");
        if h1.None? {
          return Raised(AttributeError);
        }
        result := result + [Some(ComposeName(second, h1.value.text))];
        return Ok(result);
      }
      result := result + [second];
    }
    ghost var poster := result[|result| - 1];
    assert result == acc + [poster];
    var movieDescr := Find(page, "div", "summary_text");
    if movieDescr.None? {
      return Raised(AttributeError);
    }
    ghost var withPoster := result;
    if movieDescr.value.FindTag("a").Some? {
      result := result + [Some(NoDescription)];
    } else {
      result := result + [Some(movieDescr.value.text)];
    }
    ghost var descr := result[|result| - 1];
    assert result == withPoster + [descr];
    AppendPair(acc, poster, descr);
    return Ok(result);
  }

  /** `fetch_movie_info_imdb`: fetches the title page and runs the passes over
      `params` in order; the first exception ends the loop. */
  method FetchMovieInfoImdb(web: Web, movieLink: string) returns (result: Outcome<seq<Entry>>)
    ensures result == ImdbInfo(web.html(PageRequest(movieLink)))
  {
    var page := web.html(PageRequest(movieLink));
    var acc: seq<Entry> := [];
    var i := 0;
    while i < |Params|
      invariant 0 <= i <= |Params|
      invariant Steps(page, Params[..i]) == Ok(acc)
    {
      StepsExtend(page, Params, i);
      var r := ScrapePass(page, Params[i], acc);
      if r.Raised? {
        StepsRaisedEarly(page, Params, i + 1);
        return r;
      }
      acc := r.value;
      i := i + 1;
    }
    assert Params[..|Params|] == Params;
    return Ok(acc);
  }

  /** Which pages produce a list rather than an exception: a title block with an
      anchor and a heading, a poster container that is missing or holds an
      image, and a summary. */
  predicate Complete(page: Page) {
    var title := Find(page, "div", "title_block");
    var poster := Find(page, "div", "poster");
    title.Some? && title.value.FindTag("a").Some? && title.value.FindTag("h1").Some?
    && (poster.None? || poster.value.FindTag("img").Some?)
    && Find(page, "div", "summary_text").Some?
  }

  /** The page yields a list exactly when it is complete, and then the list is
      the composed name, the poster's `src` (which may be `None`) or "No Poster",
      and the description. */
  lemma ImdbInfoComplete(page: Page)
    ensures ImdbInfo(page).Ok? <==> Complete(page)
    ensures ImdbInfo(page).Raised? ==> ImdbInfo(page).error == AttributeError
    ensures Complete(page) ==>
      var title := Find(page, "div", "title_block").value;
      var poster := Find(page, "div", "poster");
      ImdbInfo(page) == Ok([
        Some(ComposeName(title.FindTag("a").value.Get("title"), title.FindTag("h1").value.text)),
        if poster.None? then Some(NoPoster) else poster.value.FindTag("img").value.Get("src"),
        Description(page).value])
  {
    StepsOfParams(page);
    if Complete(page) {
      var a := Step(page, Params[0]).value;
      var b := Step(page, Params[1]).value;
      assert |a| == 1 && |b| == 2;
      assert a + b == [a[0], b[0], b[1]];
    }
  }
}
