# CinemaBot lookup layer

CinemaBot is a Telegram bot. You send it a movie or TV-show title and it replies with a short description, a "watch online" link and a poster. This project models the deterministic layer of `cinemabot.py` that sits around the bot's network calls, and proves its properties:

- **Routing** (`echo`). A message that does not start with `#` is searched in the movie database (TMDB) as a whole. `#im` and `#kp` select IMDb or Kinopoisk for the text from index 4 on. Any other `#` text gets the "correct name" reply.
- **Search links** (`fetch_movie_link`). This builds the IMDb or Kinopoisk search request. For Kinopoisk, spaces become `+` in the URL. It then reads the first result's link from the search page.
- **TMDB selection** (`fetch_movie_tmdb`). Movies are searched before TV shows. The first result of the first category with a non-zero `total_results` wins. The info text and the poster link (with a fallback to the backdrop) are built from that result.
- **Title pages** (`fetch_movie_info_imdb`, `fetch_movie_info_kp`). Each title page is reduced to a three-entry list: a name, a poster entry and a description. The lists carry the sentinels "No Poster", "No description" and "Banned by kp".
- **Replies**. For each message, the model gives the sequence of answer calls made and the exception that ends the handler, if any.

The network is abstracted into a `Web` value (`Net.Web`):

- HTML requests return a `Page`. A page is a table from each `(tag, class)` pair to the first node that matches it. A node has its text, its attributes and, for each tag, the first node with that tag below it.
- TMDB requests return a `SearchResponse`, which holds `total_results` and the list of results.
- The "watch online" lookup is an outcome per title.

The model keeps the Python exceptions the code lets escape. It models `None.find`/`None.get` as `AttributeError`, `str + None` as `TypeError` and `results[0]` on an empty list as `IndexError`. Replies already sent stay sent when an exception ends the handler.

Behaviours of the code that the model keeps as written:

- The code has no distinct "blocked" reply. The `['Banned by kp', '', '']` list goes through the normal answer (`cinemabot.py:127`, `218-224`), as `Handler.KpBannedAnswer` shows.
- A failed "watch online" lookup ends the handler: its exception escapes `echo`, so the watch line and the poster are never sent (`cinemabot.py:221-224`, `235-239`).
- On a Kinopoisk title page, a missing sidebar or image raises `AttributeError` (`cinemabot.py:128-129`). An image without `src` passes through as `None`.
- TV results are read through their `title` field, just like movie results (`cinemabot.py:157`).

Modules:

- `Py`: `Option`, the exceptions and Python slicing.
- `PyStrings`: `str.strip()` with Python's exact whitespace set, and one-character `str.replace()`.
- `Net`: requests, pages and TMDB responses.
- `MovieLink`, `Imdb`, `Kinopoisk` and `Tmdb`: one per lookup function.
- `Handler`: `echo`.

The source mutates data in three functions, and each of these is a method proved equal to the function that specifies it:

- `FetchMovieLink` overwrites the `params` record.
- `FetchMovieTmdb` loops over the categories with `continue` and an early return.
- `FetchMovieInfoImdb` appends to its list in a loop over the lookup descriptors. Each pass of the loop body is the method `ScrapePass`, proved against the function `Step`.

`Handler.Echo` composes those specification functions.

## Model

| member | source | states |
|---|---|---|
| `Py.Slice` | cinemabot.py:204-207 | Python slicing with clamped bounds: the exact sub-sequence when both bounds lie inside the string, the suffix when the end is past it, empty when the start is past the string or past the end |
| `PyStrings.Strip` | cinemabot.py:218-219 | `strip()` returns the part of the string after its leading whitespace. Everything after that part is whitespace, and the result neither starts nor ends with whitespace |
| `PyStrings.StripUntrimmed` | cinemabot.py:218-221 | a string without outer whitespace is unchanged by `strip()` |
| `PyStrings.StripIdempotent` | cinemabot.py:218-221 | stripping twice gives the same string as stripping once |
| `PyStrings.StripPadding` | cinemabot.py:218-219 | whitespace padding around a string with non-space ends is exactly what `strip()` removes |
| `PyStrings.ReplaceChar` | cinemabot.py:46 | `replace(a, b)` keeps the length, turns each `a` into `b` and keeps every other character in place |
| `PyStrings.ReplaceCharRoundTrip` | cinemabot.py:46 | replacing `a` by `b` and then `b` by `a` restores a string that held no `b` |
| `MovieLink.KpQuery` | cinemabot.py:46 | the Kinopoisk query has the title's length and no space, with each space turned into `+` |
| `MovieLink.SearchRequest` | cinemabot.py:39-54 | the IMDb request is `https://www.imdb.com/find` with query parameters exactly `{s: tt, q: title}`. The Kinopoisk request has no query parameters and a URL made of the search prefix followed by the `+`-encoded title |
| `MovieLink.SearchParams` | cinemabot.py:39-52 | IMDb: URL `https://www.imdb.com/find`, params exactly `{s: tt, q: title}`, result container `tr.findResult odd`. Kinopoisk: the search prefix followed by the `+`-encoded title, empty params, container `div.info`. Both read the anchor's `href` relative to the site |
| `MovieLink.LinkFromPage` | cinemabot.py:57-62 | no link exactly when the first-result container is missing. With a container: `AttributeError` when it has no anchor, `TypeError` when the anchor has no `href`, otherwise the site followed by the `href` |
| `MovieLink.MovieLink` | cinemabot.py:33-62 | the page fetched for `SearchRequest` yields no link exactly when its first-result container is missing, and a found link starts with the source's site |
| `MovieLink.FetchMovieLink` | cinemabot.py:33-62 | the in-place updates of the params dictionary give the link that `MovieLink` specifies, and a found link starts with the source's site |
| `MovieLink.KpSearchNamesTitle` | cinemabot.py:45-48 | a Kinopoisk search URL for a title without `+` decodes back to that title after the search prefix |
| `Imdb.ImdbInfo` | cinemabot.py:73-108 | a result is always three entries, with the name and the description present. The poster is "No Poster" when its container is missing, and the description is the summary's. A missing title block raises `AttributeError` |
| `Imdb.Description` | cinemabot.py:102-106 | the description exists exactly when the summary does, and its absence raises `AttributeError`. It is "No description" when the summary holds a link, else the summary's text |
| `Imdb.ComposeName` | cinemabot.py:91-96 | the name ends with the heading's text. It is prefixed by the `title` attribute and a space exactly when that attribute is a non-empty string |
| `Imdb.Step` | cinemabot.py:84-106 | a name pass appends one present entry, a poster pass two, the second being the description. A missing container raises in a name pass and gives "No Poster" then the description in a poster pass. Every exception a pass raises is `AttributeError` |
| `Imdb.Steps` | cinemabot.py:84-107 | the passes for a list of descriptors append at least one and at most two entries each, and any exception they raise is `AttributeError` |
| `Imdb.StepsOfParams` | cinemabot.py:84-106 | the loop over the two descriptors is the name pass followed by the poster-and-description pass |
| `Imdb.StepsRaisedEarly` | cinemabot.py:84-108 | an exception in one pass ends the loop: later passes do not change the outcome |
| `Imdb.ScrapePass` | cinemabot.py:85-106 | one pass of the loop body, appending to the list as the code does (with the `continue` after the name), gives the list extended by `Step`, or `Step`'s exception |
| `Imdb.FetchMovieInfoImdb` | cinemabot.py:65-108 | the loop that appends to `result` computes `ImdbInfo` of the fetched page |
| `Imdb.ImdbInfoComplete` | cinemabot.py:84-106 | the page yields a list if and only if it has a title block with an anchor and `h1`, a poster container that is missing or has an image, and a summary. The list is then the composed name, the poster entry and the description. Every exception the page causes is `AttributeError` |
| `Kinopoisk.CleanDescription` | cinemabot.py:132 | the cleaned synopsis has the same length, no `\xa0` and no `\x85`, and every other character in place |
| `Kinopoisk.KpInfo` | cinemabot.py:120-136 | a missing title gives `['Banned by kp', '', '']`. Otherwise the page yields a list exactly when the sidebar image exists. The list is the title's text, the image's `src` (possibly `None`), and the synopsis text cleaned by `CleanDescription` (so of the same length) or "No description" when the synopsis is missing. The description never contains `\xa0` or `\x85`. Every exception the page causes is `AttributeError` |
| `Tmdb.SearchRequest` | cinemabot.py:146-151 | the search URL is the TMDB search base followed by the category, and the query parameters are exactly `query`, `api_key` and `language`, holding the title, the key and `ru-RU` |
| `Tmdb.FirstNonEmpty` | cinemabot.py:149-156 | the chosen index is the first response with non-zero `total_results`. None is chosen exactly when every response reports zero |
| `Tmdb.Heading` | cinemabot.py:157-158 | the heading is the title, then `:\nОценка: `, then the rating, then ` (10)\n`, with nothing else |
| `Tmdb.MovieInfo` | cinemabot.py:157-161 | the info text is never empty and starts with the title. After the `title:\nОценка: rating (10)\n` heading comes `Сюжет: overview` exactly when the overview is non-empty |
| `Tmdb.PosterUrl` | cinemabot.py:162-167 | the w500 base followed by `poster_path` if that is non-empty, else by `backdrop_path` if that is non-empty, else none. A link always extends the base |
| `Tmdb.Shape` | cinemabot.py:157-168 | the returned triple names the result's title, its info text starts with that title and is never empty, and the poster link is absent exactly when both image paths are empty or `None`; a link extends the w500 base |
| `Tmdb.TmdbLookup` | cinemabot.py:149-170 | nothing is found if and only if both categories report zero. A movie hit wins over TV. TV is used only when movies report zero. The result is the first entry, or `IndexError` when the list is empty |
| `Tmdb.FetchMovieTmdb` | cinemabot.py:139-170 | the loop over `movie`, `tv` with `continue` and an early return computes `TmdbLookup` |
| `Handler.Echo` | cinemabot.py:198-239 | at most three replies per message, at least one when no exception ends the handler, and exactly the "correct name" reply for an unknown tag |
| `Handler.DefaultReplies` | cinemabot.py:228-239 | at most three replies. The transcript is exactly the one "correct name" reply if and only if neither category has a result. An exception in the TMDB lookup ends the handler with no reply. For a hit the whole transcript is given: the info text, then (if the watch lookup for the title gives a link) the watch line and the poster when there is one; a watch lookup that raises or gives `None` leaves the info text as the only reply and ends the handler with that exception (`TypeError` for `None`) |
| `Handler.TaggedReplies` | cinemabot.py:207-224 | at most three replies. The transcript is exactly the one "or change source" reply if and only if the search finds no result container. An exception in the search, or in reading the title page of a found link, ends the handler with no reply |
| `Handler.SiteEntries` | cinemabot.py:213-216 | the title page of the chosen site yields three entries with the name and description present, or `AttributeError`. A Kinopoisk page without a title gives the "Banned by kp" list; an IMDb page without a title block raises |
| `Handler.SiteAnswer` | cinemabot.py:218-219 | the answer is the stripped name, then `:\n`, then the stripped description, then a newline, and nothing else |
| `Handler.TaggedFound` | cinemabot.py:212-224 | a tagged lookup whose link leads to a list answers with the site answer and then what the watch lookup for the stripped name gives, with the poster entry as the photo |
| `Handler.EchoTagged` | cinemabot.py:204-224 | a tagged message is answered by the tagged lookup for its site and title alone |
| `Handler.WatchAndPhoto` | cinemabot.py:221-224 | the replies already sent come first. The handler ends normally if and only if the watch lookup gives a link, and then the watch line and the photo follow. Otherwise nothing is added |
| `Handler.RouteMessage` | cinemabot.py:204-229 | text not starting with `#` is looked up whole. `#im`/`#kp` select the site, with the title from index 4 on. Every other `#` text is an unknown tag |
| `Handler.TaggedMessageRoundTrip` | cinemabot.py:204-208 | `#` + tag + any separator + title routes to that site with exactly that title |
| `Handler.UnknownTagAnswer` | cinemabot.py:204-227 | an unknown tag gets exactly the one reply "Please write the correct Film or TV show name", whatever the web holds |
| `Handler.DefaultNotFound` | cinemabot.py:229-231 | plain text with zero movie and zero TV results gets exactly the "correct name" reply |
| `Handler.DefaultMovieFound` | cinemabot.py:229-239 | a movie hit is answered with its info text, then the watch line, then its poster when it has one, and nothing raises |
| `Handler.TaggedNotFound` | cinemabot.py:207-211 | a tagged search without a result container gets exactly "Please write the correct Film or TV show name or change source" |
| `Handler.KpBannedAnswer` | cinemabot.py:213-224 | a blocked Kinopoisk page is answered "Banned by kp:\n\n", the watch line for "Banned by kp" and an empty-string photo |
| `Handler.TaggedAnswer` | cinemabot.py:212-224 | a site's list gives the whole transcript. The first reply is `strip(name) + ':\n' + strip(descr) + '\n'`. If the watch lookup for the stripped name raises or gives `None`, it is the only reply and the handler ends with that exception (`TypeError` for `None`). Otherwise exactly three replies are sent: the answer, `Watch it online:\n` + link, and the poster entry as a photo |

## Left out

- HTTP: the `aiohttp` sessions, the request headers and the printing of response statuses. Every response is a value of `Net.Web`.
- HTML parsing: BeautifulSoup's parser and its class matching are not modelled. A page is the table of first matches that the code's `find` calls read.
- `fetch_online_watch`: its one lookup chain is the `watchOnline` outcome of `Net.Web`.
- Telegram: the bot, the dispatcher, the `/start` and `/help` handlers and polling. An answer call is recorded as a `Reply`. What Telegram does with an empty or `None` photo, and errors raised by the answer calls themselves, are not modelled.
- Configuration: the API key file and the proxy variables. The key is a parameter.
- The rating: `str()` of the float `vote_average` is an opaque string.
- Async scheduling: the handler is sequential.
- TMDB responses always carry `total_results` and `results`, so the `KeyError` that an error response would cause is not modelled.
- Every TMDB result has a `title`. For TV results TMDB sends `name`, so the code as written would raise `KeyError` there; the model reads `title` as the code does.
- `message.text` is always a string, because the handler receives text messages only.
