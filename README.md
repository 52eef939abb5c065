# Travel research pipeline — Dafny model

This project models the research path of the travel backend. `POST /api/research` takes a
`ResearchRequest` and works in six steps:

1. It searches with the Tavily service (`search_travel_research`).
2. It reduces the raw payload to a list of result dicts (`format_results`).
3. It scrapes the first three result URLs with the Firecrawl service (`scrape`). The image
   targets are found by the regex `!\[.*?\]\((.*?)\)`.
4. It asks the chat model for one synthesised answer, using a French, Vietnamese or English
   prompt template.
5. It keeps the first five scraped image URLs that mention a query word.
6. It builds a `ResearchResponse` whose sources are `ResearchResult` records.

Any exception is turned into HTTP 500 with detail `"Research error: ..."`. The pydantic request
and response records, with their field constraints and defaults, are modelled as well.

Modules:

- `Wrappers`: `Option` and `Result`.
- `PyValues`: Python values as a JSON-shaped datatype (`None`, bool, int, float, str, list, dict).
  Also holds `dict.get`, the exceptions the code can raise (`Fault`), and the interpreter
  behaviour the model takes as given (`Runtime`).
- `PyStrings`: `str.split()` with Python's whitespace set, `str.join`, and substring `in`.
- `MarkdownImages`: the regex as a leftmost, lazy, non-overlapping scanner. Its matches are
  characterised by the predicate `Fits`.
- `FirecrawlService`: `_to_dict`, the markdown choice, and `scrape` with its two payload shapes.
- `TavilyService`: the search call with its error wrapping, and `format_results`. The latter is an
  imperative loop, proved equal to a recursive specification.
- `Schemas`: construction of `ChatRequest`, `AnalysisRequest`, `ResearchRequest` and
  `ResearchResult`, each succeeding exactly when the constraints hold.
- `Research`: the route.
  - The scrape loop is a method, `ScrapeTop`, proved against `Payloads`, `AfterScrape`,
    `AllImages` and `TextBlocks`.
  - The whole handler is a method, `SearchTravelResearch`, proved equal to `ResearchOutcome`.
  - The lemmas about the route are stated on `ResearchOutcome`.

The three remote services are parameters of the model (`Research.Services`):

- the search SDK call;
- the scrape SDK call, whose result is a `ScrapedObject` or the text of the exception it raised;
- `get_chat_response`.

The clock reading `datetime.now()` is a parameter too.

Behaviour of the code that a reader might not expect, and that the model follows:

- `format_results` (`backend/app/services/tavily_service.py:54-61`) can raise:
  - an entry that is not a dict raises `AttributeError` on `.get`;
  - a `content` of `None`, a number or a dict raises on the `[:500]` slice;
  - a `results` value that cannot be iterated raises.

  The model returns the `Fault` in each case, and the route turns it into a 500
  (`ResearchOutcome`).
- The `.get(key, default)` calls there default only an absent key. A key that is present with
  value `None` keeps `None` (`DefaultsApplied`).
- `language` is a free string in `backend/app/models/schemas.py:65`; only the field description of
  `ChatRequest` (`schemas.py:19`) mentions "en/fr/vi". `"fr"` and `"vi"` pick their templates, and
  every other value picks English (`TemplateFor`).
- The route adds a titled text block only when a scrape payload has a `"content"` key
  (`research.py:43-44`). No payload built at `firecrawl_service.py:74-83` has one, so the prompt
  always embeds an empty results text (`NoTextBlocks`, `ChatFailure`, `ResponseContents`).
- A scrape failure never ends the request, but a result whose `ResearchResult` cannot be built
  does: the whole request fails (`Sources`, `ResponseContents`).

## Model

| member | source | states |
|---|---|---|
| PyStrings.Split | backend/app/routes/research.py:75 | the words of `str.split()` are non-empty and contain no Python whitespace character |
| PyStrings.SplitEmptyIffBlank | backend/app/routes/research.py:75 | splitting gives no word exactly when the string consists of whitespace only (or is empty) |
| PyStrings.SplitJoinRoundTrip | backend/app/routes/research.py:75 | split is the inverse of joining with a space: for non-empty, whitespace-free words, `" ".join(words).split() == words` |
| PyStrings.SplitSkipsBlank | backend/app/routes/research.py:75 | leading whitespace, of any kind and length, does not change the words |
| PyStrings.SplitWordBefore | backend/app/routes/research.py:75 | a word followed by nothing or by whitespace is the first word |
| PyStrings.LayoutSplit | backend/app/routes/research.py:75 | whenever a string is whitespace runs around non-empty, space-free words (runs between words non-empty), `split()` gives exactly those words |
| PyStrings.SplitLayout | backend/app/routes/research.py:75 | every string is such a layout around the words `split()` returns; with `LayoutSplit` this fixes `split()` on every input |
| PyStrings.ContainsIff | backend/app/routes/research.py:78 | `needle in hay` holds exactly when the needle occurs in the haystack at some index |
| MarkdownImages.CloseParen | backend/app/services/firecrawl_service.py:71 | finds the first `)` after the lazy `(.*?)`, exactly when one exists before the next newline |
| MarkdownImages.AltScan | backend/app/services/firecrawl_service.py:71 | the lazy `.*?` alt text ends at the first `](` that is followed by a closing `)`; with no such `](` there is no match |
| MarkdownImages.MatchAt | backend/app/services/firecrawl_service.py:71 | a match at a position is the shortest-alt, shortest-target `Fits` span; no match means no span fits there |
| MarkdownImages.Scan | backend/app/services/firecrawl_service.py:71 | `re.findall` proceeds left to right: every returned span is the match at its `!` position, and the spans do not overlap and are in order |
| MarkdownImages.ScanCovers | backend/app/services/firecrawl_service.py:71 | nothing is skipped: every position where the pattern fits is a match or lies inside an earlier match |
| MarkdownImages.ImageUrls | backend/app/services/firecrawl_service.py:68-71 | one URL per match of the scan |
| MarkdownImages.ImageUrlsAreTargets | backend/app/services/firecrawl_service.py:68-71 | each URL is the text between `](` and `)` of a fitting span, and never contains `)` or a newline |
| MarkdownImages.ImageUrlInMarkdown | backend/app/services/firecrawl_service.py:68-71 | each returned URL occurs in the markdown as `](url)` |
| MarkdownImages.EmptyTarget | backend/app/services/firecrawl_service.py:71 | an image with empty parentheses yields the empty URL, because `(.*?)` may match nothing |
| FirecrawlService.ToDict | backend/app/services/firecrawl_service.py:12-35 | a dict is returned unchanged; an object that cannot be converted becomes `{"raw": str(obj)}` |
| FirecrawlService.SelectMarkdown | backend/app/services/firecrawl_service.py:62-66 | a top-level string `markdown` wins; otherwise the nested `data["markdown"]` of any type; when neither applies, `None`, whatever a non-string top-level `markdown` holds; a value that is not `None` always comes from one of those two keys |
| FirecrawlService.Scrape | backend/app/services/firecrawl_service.py:44-83 | the SDK is called with `formats=["markdown"]` and `max_age=3600000`; on an exception the payload is `{"error": "Scraping error: " + str(e), "image_urls": []}`; otherwise it is `{"markdown", "image_urls", "raw"}`, with `raw` the normalised dict and images taken from the markdown only when it is a string |
| FirecrawlService.ImageUrlsKey | backend/app/services/firecrawl_service.py:74-83 | both payload shapes carry `image_urls`, a list of exactly the extracted strings |
| FirecrawlService.NoContentKey | backend/app/services/firecrawl_service.py:74-83 | no payload has a `content` key |
| TavilyService.SearchTravelResearch | backend/app/services/tavily_service.py:17-40 | searches with depth `"advanced"`, the given `max_results` and images included; the response passes through unchanged; an exception becomes `"Research search error: " + str(e)` |
| TavilyService.Items | backend/app/services/tavily_service.py:54 | a list is iterated over its items; an empty string or dict gives no entry; a non-empty one fails on the first `.get`; any other type fails with `NotIterable` of its type name, the `TypeError: '…' object is not iterable` |
| TavilyService.Normalize | backend/app/services/tavily_service.py:55-61 | succeeds exactly for a dict whose `content` can be sliced; present keys are copied and absent ones defaulted; string content is cut to its first 500 characters; a dict whose content cannot be sliced fails with the fault slicing it raises; a non-dict raises `AttributeError` on `.get` |
| TavilyService.NormalizeAllAppend | backend/app/services/tavily_service.py:54-61 | formatting a concatenation formats the first part, then the second, and fails if either part fails |
| TavilyService.NormalizeAllSingle | backend/app/services/tavily_service.py:55-61 | formatting a single entry formats that entry |
| TavilyService.NormalizeAllPointwise | backend/app/services/tavily_service.py:54-61 | the list is formatted exactly when every entry is; the result then has one record per entry, in order |
| TavilyService.NormalizeAllFailsAtFirst | backend/app/services/tavily_service.py:54-61 | a failure is the exception of the first entry that cannot be formatted |
| TavilyService.FormatResultsShape | backend/app/services/tavily_service.py:42-63 | without `results` the list is empty; with a list it succeeds exactly when every entry formats, one record per entry in order |
| TavilyService.FormatResults | backend/app/services/tavily_service.py:42-63 | the appending loop computes `Normalized(raw)`: the same records, or the exception of the first failing entry |
| Schemas.NewChatRequest | backend/app/models/schemas.py:16-19 | valid exactly when the message has 1 to 1000 characters; `language` defaults to `"en"` |
| Schemas.NewAnalysisRequest | backend/app/models/schemas.py:29-33 | valid exactly when the text is non-empty; `context` defaults to `""` and `language` to `"en"` |
| Schemas.NewResearchRequest | backend/app/models/schemas.py:61-65 | valid exactly when the query has 3 to 200 characters and a given `max_results` is in 1..10; defaults are 5 and `"en"`; the error names exactly the violating fields |
| Schemas.InvalidFields | backend/app/models/schemas.py:68-74 | names a field exactly when its value does not have the declared type |
| Schemas.NewResearchResult | backend/app/models/schemas.py:68-74 | built exactly when title, url and content are strings, score is a number and `image_url` is a string or `None`; fields are copied; otherwise one validation error listing every bad field |
| Research.AfterScrape | backend/app/routes/research.py:40-47 | only the scraped results that returned images change, and only their `image_url` changes, to the first image; later results are untouched |
| Research.ScrapeTop | backend/app/routes/research.py:38-47 | the loop scrapes the first `min(3, n)` results in order and returns exactly the updated results, the text blocks and the concatenated images of those payloads |
| Research.ScrapeStep | backend/app/routes/research.py:40-47 | one more scraped result updates that result, appends its images and appends its text block |
| Research.AllImagesAppend | backend/app/routes/research.py:46 | `all_image_urls` of a concatenation is the concatenation, so order is preserved and duplicates are kept |
| Research.ErrorPayloadAddsNoImage | backend/app/routes/research.py:45-47 | an error payload adds no image and leaves the others in place |
| Research.FailedScrapeContributesNothing | backend/app/routes/research.py:40-47 | a failing scrape is absorbed: that source adds no image and keeps its `image_url`, and the other sources contribute as before |
| Research.NoTextBlocks | backend/app/routes/research.py:43-44 | the `content` branch is never taken, so `scraped_contents` stays empty |
| Research.TemplateFor | backend/app/routes/research.py:52-69 | French exactly for `"fr"`, Vietnamese exactly for `"vi"`, English for every other language |
| Research.FillEmbeds | backend/app/routes/research.py:52-69 | the prompt is the template with the query and the results text at fixed, recoverable positions |
| Research.AnyTokenIff | backend/app/routes/research.py:78 | `any(keyword in url ...)` holds exactly when some keyword is a substring |
| Research.KeepMatching | backend/app/routes/research.py:76-78 | keeps a URL exactly when its lower-cased form contains a keyword; never more URLs than given; nothing without keywords |
| Research.KeepMatchingAppend | backend/app/routes/research.py:76-78 | the filter preserves order: keeping from a concatenation concatenates what is kept |
| Research.FilterImages | backend/app/routes/research.py:75-79 | at most 5 URLs: the first `min(5, k)` of the `k` matching URLs, in order; none for a query without words |
| Research.FilteredContainKeyword | backend/app/routes/research.py:75-79 | every returned URL, lower-cased, contains a non-empty lower-cased query word |
| Research.FilterExtremes | backend/app/routes/research.py:75-79 | a query whose lower-cased form (as the `lower` oracle gives it) is blank keeps no image; five or fewer matches are all returned |
| Research.Sources | backend/app/routes/research.py:82-91 | one `ResearchResult` per formatted result, in order, exactly when every one validates |
| Research.SourcesFailsAtFirst | backend/app/routes/research.py:82-91 | a failure is the validation error of the first formatted result that does not validate, all earlier ones validating |
| Research.ResearchOutcome | backend/app/routes/research.py:101-102 | every failure is a single HTTP 500 whose detail starts with `"Research error: "`; a failing search gives `"Research error: " + msg`, and a failing `format_results` gives `"Research error: " + str(e)` of its exception |
| Research.SearchTravelResearch | backend/app/routes/research.py:15-102 | the handler computes `ResearchOutcome`: search, format, scrape the top three, prompt, chat, filter, sources, response |
| Research.SearchFailure | backend/app/routes/research.py:29-32 | a failing search ends the request with detail `"Research error: Research search error: " + str(e)` |
| Research.ChatFailure | backend/app/routes/research.py:50-72 | the chat is asked the template filled in with an empty results text; when it raises, the request fails with `"Research error: " + str(e)` |
| Research.ResponseContents | backend/app/routes/research.py:72-102 | once search, formatting and chat succeed, the request succeeds exactly when every source validates, and otherwise fails with `"Research error: " + str(e)` of the validation error; a response echoes query and clock, carries the reply, the sources of the updated results and the filtered images of the first three scrapes |
| Research.SourceFields | backend/app/routes/research.py:45-91 | one source per result, in order, with title, url and content copied; a scraped result whose payload had images shows the first one, and every other source shows the result's own `image_url` when it is a string |

## Left out

- `_to_dict` conversions: the `model_dump` / `dict` / `json` introspection of SDK objects is not
  modelled step by step. `ScrapedObject.SdkObject` stands for an object that one of them converts,
  and `Unconvertible` for one none of them converts.
- The remote calls are parameters, not models: the Tavily, Firecrawl and chat SDKs, the
  LangChain chains in `backend/app/chains/` and the HTTP server in `main.py`.
- The `print` at `research.py:42` is not modelled. Writing to stdout can itself raise (for
  example `UnicodeEncodeError` for the emoji on a stdout that is not UTF-8), which the handler
  would turn into a 500; the model assumes the write succeeds.
- The wording of built-in exception messages, `str()` of non-string values and the Unicode
  case table of `str.lower` are oracles in `PyValues.Runtime`, since they belong to the
  interpreter.
- Schemas.NewResearchResult: the validation error is modelled from the model name and the names of
  the bad fields alone (`Invalid(model, fields)`). Pydantic's `str(ValidationError)` also prints each
  bad field's input value and type, which the `describe` oracle does not see.
- Floats are `real`, so IEEE rounding is not modelled.
- Schemas.NewResearchResult: pydantic's lax-mode coercions are not modelled. A numeric string or a
  bool given for `score`, and similar coercions, are rejected by the model but accepted by
  pydantic.
- Schemas: `HealthCheckResponse`, `ChatResponse`, `TravelAnalysis`, `AnalysisResponse` and
  `ImageAnalysisResponse` are not part of this model, since the route does not use them.
- Construction of the `ResearchResponse` is not validated. The chat reply is typed as a string,
  so it cannot fail in the model.
- `async` concurrency: the handler never awaits, so it runs as one sequential computation.
- The three services are deterministic functions of their arguments in the model. A URL repeated
  among the first three results therefore always gets the same payload, and the services' side
  effects and time-dependence are not captured.
