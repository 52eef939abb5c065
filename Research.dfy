/**
 * The `POST /api/research` route: search, format, scrape the first three results for images,
 * ask the chat model for one synthesised answer, keep the images whose URL mentions a query
 * word, and assemble the response; any exception becomes one HTTP 500 error.
 */
module Research {
  import opened Wrappers
  import opened PyValues
  import opened PyStrings
  import opened Schemas
  import FS = FirecrawlService
  import TS = TavilyService

  /** `get_chat_response(message, language)`; `Failure` carries `str(e)` of what it raised. */
  type ChatApi = (string, string) -> Result<string, string>

  /** The three remote services the route reaches. */
  datatype Services = Services(search: TS.SearchApi, scrape: FS.ScrapeApi, chat: ChatApi)

  /** `HTTPException(status_code, detail)`. */
  datatype HttpError = HttpError(status: int, detail: string)

  /** Only this many search results are scraped. */
  const ScrapeLimit: nat := 3

  /** At most this many images are returned. */
  const ImageLimit: nat := 5

  function Min(a: nat, b: nat): nat
  {
    if a <= b then a else b
  }

  /** The `HTTPException` the route raises for an exception with message `msg`. */
  function ResearchFailure(msg: string): HttpError
  {
    HttpError(500, "Research error: " + msg)
  }

  // ---------------------------------------------------------------------------
  // The scrape loop over `formatted_results[:3]`

  /** The payloads of scraping each of `rs`, in order. */
  function Payloads(api: FS.ScrapeApi, rs: seq<TS.Formatted>): (ps: seq<FS.ScrapePayload>)
    ensures |ps| == |rs|
  {
    seq(|rs|, i requires 0 <= i < |rs| => FS.Scrape(api, rs[i].url))
  }

  /** Result `r` once its payload `p` is known: `r["image_url"]` becomes the first image, if there is one. */
  function WithFirstImage(r: TS.Formatted, p: FS.ScrapePayload): TS.Formatted
  {
    if |FS.ImageUrlsOf(p)| > 0 then r.(imageUrl := VStr(FS.ImageUrlsOf(p)[0])) else r
  }

  /** The text block added for `r` when its payload `p` has a `"content"` key. */
  function TextBlock(rt: Runtime, r: TS.Formatted, p: FS.ScrapePayload): seq<string>
  {
    if "content" in FS.AsDict(p) then ["Source: " + Str(rt, r.title) + "\n" + Str(rt, FS.AsDict(p)["content"])] else []
  }

  /** `all_image_urls` after the payloads `ps`: every payload's image list, in order. */
  function AllImages(ps: seq<FS.ScrapePayload>): seq<string>
    decreases |ps|
  {
    if ps == [] then []
    else FS.ImageUrlsOf(ps[0]) + AllImages(ps[1..])
  }

  /** `scraped_contents` after the results `rs` were scraped into the payloads `ps`. */
  function TextBlocks(rt: Runtime, rs: seq<TS.Formatted>, ps: seq<FS.ScrapePayload>): seq<string>
    requires |rs| == |ps|
    decreases |rs|
  {
    if rs == [] then []
    else TextBlocks(rt, rs[..|rs| - 1], ps[..|ps| - 1]) + TextBlock(rt, rs[|rs| - 1], ps[|ps| - 1])
  }

  /**
   * `formatted_results` after the loop, given the payloads `ps` of its first results: those with
   * at least one image have the first as `image_url`; nothing else changes.
   */
  function AfterScrape(rs: seq<TS.Formatted>, ps: seq<FS.ScrapePayload>): (out: seq<TS.Formatted>)
    ensures |out| == |rs|
    ensures forall i :: 0 <= i < |rs| ==>
      && out[i].title == rs[i].title && out[i].url == rs[i].url
      && out[i].content == rs[i].content && out[i].score == rs[i].score
    ensures forall i :: |ps| <= i < |rs| ==> out[i] == rs[i]
    ensures forall i :: 0 <= i < |ps| && i < |rs| ==>
      && (|FS.ImageUrlsOf(ps[i])| > 0 ==> out[i].imageUrl == VStr(FS.ImageUrlsOf(ps[i])[0]))
      && (|FS.ImageUrlsOf(ps[i])| == 0 ==> out[i] == rs[i])
  {
    seq(|rs|, i requires 0 <= i < |rs| => if i < |ps| then WithFirstImage(rs[i], ps[i]) else rs[i])
  }

  /**
   * The loop of the route over `formatted_results[:3]`: it scrapes each of those results in order
   * (`Payloads`, whose SDK arguments `FirecrawlService.Scrape` states).
   */
  method ScrapeTop(rt: Runtime, api: FS.ScrapeApi, results: seq<TS.Formatted>)
    returns (updated: seq<TS.Formatted>, blocks: seq<string>, images: seq<string>)
    ensures var top := results[..Min(ScrapeLimit, |results|)];
      && updated == AfterScrape(results, Payloads(api, top))
      && images == AllImages(Payloads(api, top))
      && blocks == TextBlocks(rt, top, Payloads(api, top))
  {
    var n := Min(ScrapeLimit, |results|);
    updated, blocks, images := results, [], [];
    ghost var ps: seq<FS.ScrapePayload> := [];
    var i := 0;
    while i < n
      invariant 0 <= i <= n
      invariant ps == Payloads(api, results[..i])
      invariant updated == AfterScrape(results, ps)
      invariant images == AllImages(ps)
      invariant blocks == TextBlocks(rt, results[..i], ps)
    {
      var r := updated[i];
      var payload := FS.Scrape(api, r.url);
      blocks := blocks + TextBlock(rt, r, payload);
      FS.ImageUrlsKey(payload);
      var urls := FS.ImageUrlsOf(payload);
      if "image_urls" in FS.AsDict(payload) && |urls| > 0 {
        images := images + urls;
        updated := updated[i := r.(imageUrl := VStr(urls[0]))];
      }
      PayloadsSnoc(api, results, i);
      ScrapeStep(rt, results, ps, payload);
      ps := ps + [payload];
      i := i + 1;
    }
    assert results[..n] == results[..Min(ScrapeLimit, |results|)];
  }

  /** How one more payload extends the three things the loop builds. */
  lemma ScrapeStep(rt: Runtime, results: seq<TS.Formatted>, ps: seq<FS.ScrapePayload>, p: FS.ScrapePayload)
    requires |ps| < |results|
    ensures AfterScrape(results, ps + [p]) == AfterScrape(results, ps)[|ps| := WithFirstImage(results[|ps|], p)]
    ensures AllImages(ps + [p]) == AllImages(ps) + FS.ImageUrlsOf(p)
    ensures TextBlocks(rt, results[..|ps| + 1], ps + [p]) == TextBlocks(rt, results[..|ps|], ps) + TextBlock(rt, results[|ps|], p)
  {
    AllImagesAppend(ps, [p]);
    AllImagesSingle(p);
    var i := |ps|;
    assert (ps + [p])[..i] == ps;
    assert results[..i + 1][..i] == results[..i];
  }

  lemma PayloadsSnoc(api: FS.ScrapeApi, rs: seq<TS.Formatted>, i: nat)
    requires i < |rs|
    ensures Payloads(api, rs[..i + 1]) == Payloads(api, rs[..i]) + [FS.Scrape(api, rs[i].url)]
  {
  }

  /** Images of a concatenation of payloads: those of the first part, then those of the second. */
  lemma {:induction false} AllImagesAppend(ps: seq<FS.ScrapePayload>, qs: seq<FS.ScrapePayload>)
    ensures AllImages(ps + qs) == AllImages(ps) + AllImages(qs)
  {
    if ps == [] {
      assert ps + qs == qs;
    } else {
      assert (ps + qs)[1..] == ps[1..] + qs;
      AllImagesAppend(ps[1..], qs);
    }
  }

  /** The images of one payload are its own image list. */
  lemma AllImagesSingle(p: FS.ScrapePayload)
    ensures AllImages([p]) == FS.ImageUrlsOf(p)
  {
  }

  /** An error payload at position `k` adds no image: the images are those before it, then those after. */
  lemma {:induction false} ErrorPayloadAddsNoImage(ps: seq<FS.ScrapePayload>, k: nat)
    requires k < |ps| && ps[k].ScrapeError?
    ensures AllImages(ps) == AllImages(ps[..k]) + AllImages(ps[k + 1..])
  {
    var a, b, c := ps[..k], [ps[k]], ps[k + 1..];
    assert ps == (a + b) + c;
    AllImagesSingle(ps[k]);
    AllImagesAppend(a + b, c);
    AllImagesAppend(a, b);
  }

  /**
   * A failing scrape is absorbed: that source contributes no image and keeps its `image_url`,
   * and the images of the other sources are collected as before.
   */
  lemma FailedScrapeContributesNothing(api: FS.ScrapeApi, rs: seq<TS.Formatted>, k: nat)
    requires k < |rs| && api(FS.ScrapeCall(rs[k].url)).Failure?
    ensures AllImages(Payloads(api, rs)) == AllImages(Payloads(api, rs[..k])) + AllImages(Payloads(api, rs[k + 1..]))
    ensures AfterScrape(rs, Payloads(api, rs))[k] == rs[k]
  {
    var ps := Payloads(api, rs);
    assert ps[k].ScrapeError?;
    assert ps[..k] == Payloads(api, rs[..k]);
    assert ps[k + 1..] == Payloads(api, rs[k + 1..]);
    ErrorPayloadAddsNoImage(ps, k);
  }

  /** No scrape payload has a `"content"` key, so the loop never adds a text block. */
  lemma {:induction false} NoTextBlocks(rt: Runtime, rs: seq<TS.Formatted>, ps: seq<FS.ScrapePayload>)
    requires |rs| == |ps|
    ensures TextBlocks(rt, rs, ps) == []
    decreases |rs|
  {
    if rs != [] {
      NoTextBlocks(rt, rs[..|rs| - 1], ps[..|ps| - 1]);
      FS.NoContentKey(ps[|ps| - 1]);
    }
  }

  // ---------------------------------------------------------------------------
  // The synthesis prompt

  /** A prompt template: `opening + query + bridge + results_text + closing`. */
  datatype Template = Template(opening: string, bridge: string, closing: string)

  // Each opening is written as two literals so that the character telling the templates apart
  // sits in a short literal, which keeps the verifier's reasoning about it cheap.
  const French: Template := Template(
    "Basé " + "sur les informations de voyage suivantes, rédigez une réponse complète et engageante pour la requête de l'utilisateur '",
    "'. Intégrez les détails clés dans un récit cohérent.\n\n",
    "\n\nVotre réponse doit être bien structurée, informative et facile à lire.")

  const Vietnamese: Template := Template(
    "Dựa " + "trên thông tin du lịch sau đây, hãy viết một câu trả lời tổng hợp đầy đủ và hấp dẫn cho truy vấn của người dùng '",
    "'. Tích hợp các chi tiết chính vào một bài tường thuật mạch lạc.\n\n",
    "\n\nCâu trả lời của bạn phải có cấu trúc tốt, nhiều thông tin và dễ đọc.")

  const English: Template := Template(
    "Based " + "on the following travel information, write a comprehensive and engaging synthesized response for the user's query '",
    "'. Integrate the key details into a coherent narrative.\n\n",
    "\n\nYour response should be well-structured, informative, and easy to read.")

  /** `"fr"` selects French, `"vi"` Vietnamese, and every other language English. */
  function TemplateFor(language: string): (t: Template)
    ensures t == French <==> language == "fr"
    ensures t == Vietnamese <==> language == "vi"
    ensures t == English <==> language != "fr" && language != "vi"
  {
    assert French.opening[3] == 'é' && English.opening[3] == 'e' && Vietnamese.opening[0] == 'D';
    if language == "fr" then French
    else if language == "vi" then Vietnamese
    else English
  }

  /** Template `t` filled in with the query and the results text. */
  function Fill(t: Template, query: string, resultsText: string): string
  {
    t.opening + query + t.bridge + resultsText + t.closing
  }

  function SynthesisPrompt(language: string, query: string, resultsText: string): string
  {
    Fill(TemplateFor(language), query, resultsText)
  }

  /** A filled template embeds the query and the results text, each at a fixed place. */
  lemma FillEmbeds(t: Template, query: string, resultsText: string)
    ensures var prompt := Fill(t, query, resultsText);
      var q := |t.opening|;
      var r := q + |query| + |t.bridge|;
      && |prompt| == r + |resultsText| + |t.closing|
      && prompt[..q] == t.opening
      && prompt[q..q + |query|] == query
      && prompt[q + |query|..r] == t.bridge
      && prompt[r..r + |resultsText|] == resultsText
      && prompt[r + |resultsText|..] == t.closing
  {
  }

  // ---------------------------------------------------------------------------
  // The image filter

  /** `any(keyword in hay for keyword in tokens)`. */
  function AnyToken(tokens: seq<string>, hay: string): bool
  {
    |tokens| > 0 && (Contains(hay, tokens[0]) || AnyToken(tokens[1..], hay))
  }

  lemma {:induction false} AnyTokenIff(tokens: seq<string>, hay: string)
    ensures AnyToken(tokens, hay) <==> exists k :: 0 <= k < |tokens| && Contains(hay, tokens[k])
  {
    if |tokens| > 0 {
      AnyTokenIff(tokens[1..], hay);
      if exists k :: 0 <= k < |tokens| && Contains(hay, tokens[k]) {
        var k :| 0 <= k < |tokens| && Contains(hay, tokens[k]);
        if k > 0 { assert tokens[1..][k - 1] == tokens[k]; }
      }
      if AnyToken(tokens[1..], hay) {
        var k :| 0 <= k < |tokens[1..]| && Contains(hay, tokens[1..][k]);
        assert tokens[k + 1] == tokens[1..][k];
      }
    }
  }

  /** `[url for url in urls if any(keyword in url.lower() for keyword in tokens)]`. */
  function KeepMatching(lower: string -> string, tokens: seq<string>, urls: seq<string>): (kept: seq<string>)
    ensures |kept| <= |urls|
    ensures forall u :: u in kept ==> u in urls && AnyToken(tokens, lower(u))
    ensures forall u :: u in urls && AnyToken(tokens, lower(u)) ==> u in kept
    ensures tokens == [] ==> kept == []
  {
    if urls == [] then []
    else (if AnyToken(tokens, lower(urls[0])) then [urls[0]] else []) + KeepMatching(lower, tokens, urls[1..])
  }

  /** The filter keeps source order: it maps a concatenation to the concatenation of the kept parts. */
  lemma {:induction false} KeepMatchingAppend(lower: string -> string, tokens: seq<string>, xs: seq<string>, ys: seq<string>)
    ensures KeepMatching(lower, tokens, xs + ys) == KeepMatching(lower, tokens, xs) + KeepMatching(lower, tokens, ys)
  {
    if xs == [] {
      assert xs + ys == ys;
    } else {
      assert (xs + ys)[0] == xs[0];
      assert (xs + ys)[1..] == xs[1..] + ys;
      KeepMatchingAppend(lower, tokens, xs[1..], ys);
    }
  }

  /** The tokens of the query: `query.lower().split()`. */
  function QueryKeywords(lower: string -> string, query: string): seq<string>
  {
    Split(lower(query))
  }

  /**
   * `filtered_image_urls`: the first five of the URLs, in order, that contain some lower-cased
   * query word once lower-cased themselves.
   */
  function FilterImages(lower: string -> string, urls: seq<string>, query: string): (r: seq<string>)
    ensures |r| <= ImageLimit && |r| <= |urls|
    ensures var kept := KeepMatching(lower, QueryKeywords(lower, query), urls);
      |r| == Min(ImageLimit, |kept|) && r == kept[..|r|]
    ensures forall u :: u in r ==> u in urls && AnyToken(QueryKeywords(lower, query), lower(u))
    ensures QueryKeywords(lower, query) == [] ==> r == []
  {
    var kept := KeepMatching(lower, QueryKeywords(lower, query), urls);
    if |kept| <= ImageLimit then kept else kept[..ImageLimit]
  }

  /** Every retained URL, lower-cased, contains one of the lower-cased query words as a substring. */
  lemma FilteredContainKeyword(lower: string -> string, urls: seq<string>, query: string, u: string)
    requires u in FilterImages(lower, urls, query)
    ensures exists k :: (0 <= k < |QueryKeywords(lower, query)|
      && QueryKeywords(lower, query)[k] != [] && Contains(lower(u), QueryKeywords(lower, query)[k]))
  {
    AnyTokenIff(QueryKeywords(lower, query), lower(u));
  }

  /** A query made of whitespace only keeps no image; fewer than five matches are all kept. */
  lemma FilterExtremes(lower: string -> string, urls: seq<string>, query: string)
    ensures Blank(lower(query)) ==> FilterImages(lower, urls, query) == []
    ensures var kept := KeepMatching(lower, QueryKeywords(lower, query), urls);
      |kept| <= ImageLimit ==> FilterImages(lower, urls, query) == kept
  {
    SplitEmptyIffBlank(lower(query));
  }

  // ---------------------------------------------------------------------------
  // Sources and the route

  /** `ResearchResult(title=r["title"], ..., image_url=r.get("image_url"))`. */
  function Source(r: TS.Formatted): Result<ResearchResult, Fault>
  {
    NewResearchResult(r.title, r.url, r.content, r.score, Some(r.imageUrl))
  }

  /** The `sources` list: one record per result, in order, or the validation error of the first that fails. */
  function Sources(rs: seq<TS.Formatted>): (r: Result<seq<ResearchResult>, Fault>)
    ensures r.Success? <==> forall i :: 0 <= i < |rs| ==> Source(rs[i]).Success?
    ensures r.Success? ==> |r.value| == |rs| && forall i :: 0 <= i < |rs| ==> Source(rs[i]) == Success(r.value[i])
  {
    if rs == [] then Success([])
    else
      match Source(rs[0])
      case Failure(f) => Failure(f)
      case Success(x) =>
        match Sources(rs[1..])
        case Failure(f) =>
          assert !Source(rs[1..][0]).Success? || exists i :: 0 <= i < |rs[1..]| && !Source(rs[1..][i]).Success?;
          Failure(f)
        case Success(xs) =>
          assert forall i :: 1 <= i < |rs| ==> rs[i] == rs[1..][i - 1];
          Success([x] + xs)
  }

  /** `k` is the first result whose `ResearchResult` cannot be built. */
  ghost predicate FirstInvalid(rs: seq<TS.Formatted>, k: int)
  {
    && 0 <= k < |rs|
    && Source(rs[k]).Failure?
    && forall i :: 0 <= i < k ==> Source(rs[i]).Success?
  }

  /** A failure is the validation error of the first result that cannot be built. */
  lemma {:induction false} SourcesFailsAtFirst(rs: seq<TS.Formatted>)
    requires Sources(rs).Failure?
    ensures exists k :: FirstInvalid(rs, k) && Source(rs[k]).error == Sources(rs).error
  {
    if Source(rs[0]).Failure? {
      assert FirstInvalid(rs, 0);
    } else {
      SourcesFailsAtFirst(rs[1..]);
      var k :| FirstInvalid(rs[1..], k) && Source(rs[1..][k]).error == Sources(rs[1..]).error;
      forall i | 0 <= i < k + 1 ensures Source(rs[i]).Success? {
        if i > 0 { assert rs[i] == rs[1..][i - 1]; }
      }
      assert rs[k + 1] == rs[1..][k];
      assert FirstInvalid(rs, k + 1);
    }
  }

  /**
   * What the route returns for `request`, with the services and the clock reading `now`. Every
   * failure is a single HTTP 500 whose detail is `"Research error: "` followed by the message; a
   * failing search or `format_results` ends the request with its own message.
   */
  function ResearchOutcome(env: Services, rt: Runtime, request: ResearchRequest, now: Timestamp): (outcome: Result<ResearchResponse, HttpError>)
    ensures outcome.Failure? ==>
      && outcome.error.status == 500
      && |outcome.error.detail| >= |"Research error: "|
      && outcome.error.detail[..|"Research error: "|] == "Research error: "
    ensures var searched := TS.SearchTravelResearch(env.search, request.query, request.maxResults);
      && (searched.Failure? ==> outcome == Failure(ResearchFailure(searched.error)))
      && (searched.Success? && TS.Normalized(searched.value).Failure? ==>
            outcome == Failure(ResearchFailure(rt.describe(TS.Normalized(searched.value).error))))
  {
    match TS.SearchTravelResearch(env.search, request.query, request.maxResults)
    case Failure(msg) => Failure(ResearchFailure(msg))
    case Success(raw) =>
      match TS.Normalized(raw)
      case Failure(f) => Failure(ResearchFailure(rt.describe(f)))
      case Success(formatted) =>
        var top := formatted[..Min(ScrapeLimit, |formatted|)];
        var payloads := Payloads(env.scrape, top);
        var resultsText := Join("\n\n", TextBlocks(rt, top, payloads));
        match env.chat(SynthesisPrompt(request.language, request.query, resultsText), request.language)
        case Failure(msg) => Failure(ResearchFailure(msg))
        case Success(reply) =>
          var images := FilterImages(rt.lower, AllImages(payloads), request.query);
          match Sources(AfterScrape(formatted, payloads))
          case Failure(f) => Failure(ResearchFailure(rt.describe(f)))
          case Success(sources) => Success(ResearchResponse(request.query, reply, images, sources, now))
  }

  /** `search_travel_research(request)`, the `POST /api/research` handler. */
  method SearchTravelResearch(env: Services, rt: Runtime, request: ResearchRequest, now: Timestamp)
    returns (outcome: Result<ResearchResponse, HttpError>)
    ensures outcome == ResearchOutcome(env, rt, request, now)
  {
    var raw := TS.SearchTravelResearch(env.search, request.query, request.maxResults);
    if raw.Failure? {
      return Failure(ResearchFailure(raw.error));
    }
    var formatted := TS.FormatResults(raw.value);
    if formatted.Failure? {
      return Failure(ResearchFailure(rt.describe(formatted.error)));
    }
    var updated, blocks, images := ScrapeTop(rt, env.scrape, formatted.value);
    var resultsText := Join("\n\n", blocks);
    var prompt := SynthesisPrompt(request.language, request.query, resultsText);
    var reply := env.chat(prompt, request.language);
    if reply.Failure? {
      return Failure(ResearchFailure(reply.error));
    }
    var filtered := FilterImages(rt.lower, images, request.query);
    var sources := Sources(updated);
    if sources.Failure? {
      return Failure(ResearchFailure(rt.describe(sources.error)));
    }
    return Success(ResearchResponse(request.query, reply.value, filtered, sources.value, now));
  }

  /** A failing search ends the request with its message wrapped twice; nothing else is attempted. */
  lemma SearchFailure(env: Services, rt: Runtime, request: ResearchRequest, now: Timestamp, msg: string)
    requires env.search(TS.SearchArgs(request.query, "advanced", request.maxResults, true)) == Failure(msg)
    ensures ResearchOutcome(env, rt, request, now) == Failure(HttpError(500, "Research error: Research search error: " + msg))
  {
    assert TS.SearchTravelResearch(env.search, request.query, request.maxResults) == Failure("Research search error: " + msg);
    var detail := "Research error: " + ("Research search error: " + msg);
    assert detail == "Research error: Research search error: " + msg by {
      assert "Research error: " + "Research search error: " == "Research error: Research search error: ";
    }
  }

  /**
   * Once search and formatting succeed, the chat model is asked the template filled in with an
   * empty results text, and a chat failure ends the request with its message.
   */
  lemma ChatFailure(env: Services, rt: Runtime, request: ResearchRequest, now: Timestamp,
                    raw: map<string, Value>, formatted: seq<TS.Formatted>, msg: string)
    requires env.search(TS.SearchArgs(request.query, "advanced", request.maxResults, true)) == Success(raw)
    requires TS.Normalized(raw) == Success(formatted)
    requires env.chat(SynthesisPrompt(request.language, request.query, ""), request.language) == Failure(msg)
    ensures ResearchOutcome(env, rt, request, now) == Failure(ResearchFailure(msg))
  {
    var top := formatted[..Min(ScrapeLimit, |formatted|)];
    NoTextBlocks(rt, top, Payloads(env.scrape, top));
  }

  /**
   * Once search, formatting and the chat (asked with an empty results text) succeed, the request
   * succeeds exactly when every source validates. The response then echoes the query and the
   * clock, carries the reply, the sources built from the updated results, and the filtered images
   * of the first three scrapes.
   */
  lemma ResponseContents(env: Services, rt: Runtime, request: ResearchRequest, now: Timestamp,
                         raw: map<string, Value>, formatted: seq<TS.Formatted>, reply: string)
    requires env.search(TS.SearchArgs(request.query, "advanced", request.maxResults, true)) == Success(raw)
    requires TS.Normalized(raw) == Success(formatted)
    requires env.chat(SynthesisPrompt(request.language, request.query, ""), request.language) == Success(reply)
    ensures var outcome := ResearchOutcome(env, rt, request, now);
      var payloads := Payloads(env.scrape, formatted[..Min(ScrapeLimit, |formatted|)]);
      var sources := Sources(AfterScrape(formatted, payloads));
      && (outcome.Success? <==> sources.Success?)
      && (outcome.Failure? ==> outcome.error == ResearchFailure(rt.describe(sources.error)))
      && (outcome.Success? ==>
          && outcome.value.query == request.query
          && outcome.value.response == reply
          && outcome.value.timestamp == now
          && outcome.value.sources == sources.value
          && outcome.value.imageUrls == FilterImages(rt.lower, AllImages(payloads), request.query))
  {
    var top := formatted[..Min(ScrapeLimit, |formatted|)];
    NoTextBlocks(rt, top, Payloads(env.scrape, top));
  }

  /**
   * The sources built from the results after the scrape loop: one per result, in order, with the
   * text fields copied; a result among the scraped ones whose payload had images shows the first
   * of them, and every other result shows its own `image_url` when that is a string.
   */
  lemma SourceFields(rs: seq<TS.Formatted>, ps: seq<FS.ScrapePayload>, sources: seq<ResearchResult>, i: nat)
    requires Sources(AfterScrape(rs, ps)) == Success(sources)
    requires i < |rs|
    ensures |sources| == |rs|
    ensures rs[i].title == VStr(sources[i].title) && rs[i].url == VStr(sources[i].url)
    ensures rs[i].content == VStr(sources[i].content)
    ensures i < |ps| && |FS.ImageUrlsOf(ps[i])| > 0 ==> sources[i].imageUrl == Some(FS.ImageUrlsOf(ps[i])[0])
    ensures !(i < |ps| && |FS.ImageUrlsOf(ps[i])| > 0) ==>
      && (sources[i].imageUrl.Some? <==> rs[i].imageUrl.VStr?)
      && (sources[i].imageUrl.Some? ==> sources[i].imageUrl.value == rs[i].imageUrl.s)
  {
  }
}
