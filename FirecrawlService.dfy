/**
 * `FirecrawlService.scrape`: one call to the remote scrape SDK, normalisation of what it
 * returns to a dict, choice of the markdown text, extraction of the image targets, and the
 * error payload that replaces any exception.
 */
module FirecrawlService {
  import opened Wrappers
  import opened PyValues
  import MarkdownImages

  /** The arguments the service passes to the SDK's `scrape`. */
  datatype ScrapeArgs = ScrapeArgs(url: Value, formats: seq<string>, maxAge: int)

  /** Accept content cached for up to an hour (in milliseconds). */
  const MaxAge: int := 3600000

  /**
   * What the SDK's `scrape` returns, as `_to_dict` sees it: a plain dict, an SDK object whose
   * `model_dump`, `dict` or `json` conversion yields a dict, or an object none of them converts,
   * known only by its `str`.
   */
  datatype ScrapedObject =
    | PlainDict(fields: map<string, Value>)
    | SdkObject(converted: map<string, Value>)
    | Unconvertible(text: string)

  /** The remote scrape call; `Failure` carries `str(e)` of the exception it raised. */
  type ScrapeApi = ScrapeArgs -> Result<ScrapedObject, string>

  /** `_to_dict`: a dict is passed through, a convertible object gives its conversion, anything else `{"raw": str(obj)}`. */
  function ToDict(obj: ScrapedObject): (d: map<string, Value>)
    ensures obj.PlainDict? ==> d == obj.fields
    ensures obj.Unconvertible? ==> d.Keys == {"raw"} && d["raw"] == VStr(obj.text)
  {
    match obj
    case PlainDict(fields) => fields
    case SdkObject(converted) => converted
    case Unconvertible(text) => map["raw" := VStr(text)]
  }

  /**
   * The markdown text. The top-level `markdown` is taken only when it is a string; otherwise
   * `data["markdown"]`, whatever its type, when `data` is a dict holding that key; otherwise `None`.
   */
  function SelectMarkdown(data: map<string, Value>): (md: Value)
    ensures ("markdown" in data && data["markdown"].VStr?) ==> md == data["markdown"]
    ensures (!("markdown" in data && data["markdown"].VStr?) && "data" in data && data["data"].VDict?
             && "markdown" in data["data"].fields) ==> md == data["data"].fields["markdown"]
    ensures md != VNone ==>
      || ("markdown" in data && md == data["markdown"])
      || ("data" in data && data["data"].VDict? && "markdown" in data["data"].fields
          && md == data["data"].fields["markdown"])
    ensures md.VStr? && !("markdown" in data && data["markdown"].VStr?) ==>
      "data" in data && data["data"].VDict? && "markdown" in data["data"].fields
    ensures (!("markdown" in data && data["markdown"].VStr?)
             && !("data" in data && data["data"].VDict? && "markdown" in data["data"].fields)) ==> md == VNone
  {
    if "markdown" in data && data["markdown"].VStr? then data["markdown"]
    else if "data" in data && data["data"].VDict? && "markdown" in data["data"].fields then data["data"].fields["markdown"]
    else VNone
  }

  /** The dict `scrape` returns, by its two shapes. */
  datatype ScrapePayload =
    | Scraped(markdown: Value, imageUrls: seq<string>, raw: map<string, Value>)
    | ScrapeError(error: string)

  /** `payload["image_urls"]`, present in both shapes. */
  function ImageUrlsOf(p: ScrapePayload): seq<string>
  {
    if p.Scraped? then p.imageUrls else []
  }

  function Strs(xs: seq<string>): (vs: seq<Value>)
    ensures |vs| == |xs| && forall i :: 0 <= i < |xs| ==> vs[i] == VStr(xs[i])
  {
    seq(|xs|, i requires 0 <= i < |xs| => VStr(xs[i]))
  }

  /** The payload as the Python dict the route receives. */
  function AsDict(p: ScrapePayload): map<string, Value>
  {
    match p
    case Scraped(markdown, imageUrls, raw) =>
      map["markdown" := markdown, "image_urls" := VList(Strs(imageUrls)), "raw" := VDict(raw)]
    case ScrapeError(error) =>
      map["error" := VStr(error), "image_urls" := VList([])]
  }

  /** The arguments `scrape(url)` passes to the SDK: markdown only, cached content up to an hour old. */
  function ScrapeCall(url: Value): ScrapeArgs
  {
    ScrapeArgs(url, ["markdown"], MaxAge)
  }

  /**
   * `FirecrawlService.scrape(url)`. It never raises. On success the payload has exactly the keys
   * `markdown`, `image_urls`, `raw`, with `raw` the normalised dict and the image list the scan of
   * the markdown when it is a string (empty otherwise); a failing SDK call gives exactly `error`
   * and an empty `image_urls`.
   */
  function Scrape(api: ScrapeApi, url: Value): (p: ScrapePayload)
    ensures match api(ScrapeCall(url))
      case Failure(msg) =>
        && p == ScrapeError("Scraping error: " + msg)
        && AsDict(p).Keys == {"error", "image_urls"}
        && ImageUrlsOf(p) == []
      case Success(obj) =>
        && p.Scraped? && p.raw == ToDict(obj) && p.markdown == SelectMarkdown(ToDict(obj))
        && AsDict(p).Keys == {"markdown", "image_urls", "raw"}
        && AsDict(p)["raw"] == VDict(ToDict(obj))
        && (p.markdown.VStr? ==> ImageUrlsOf(p) == MarkdownImages.ImageUrls(p.markdown.s))
        && (!p.markdown.VStr? ==> ImageUrlsOf(p) == [])
  {
    match api(ScrapeCall(url))
    case Failure(msg) => ScrapeError("Scraping error: " + msg)
    case Success(obj) =>
      var data := ToDict(obj);
      var markdown := SelectMarkdown(data);
      Scraped(markdown, if markdown.VStr? then MarkdownImages.ImageUrls(markdown.s) else [], data)
  }

  /** The route reads `image_urls` from the dict: it is always a list holding exactly `ImageUrlsOf(p)`. */
  lemma ImageUrlsKey(p: ScrapePayload)
    ensures "image_urls" in AsDict(p)
    ensures AsDict(p)["image_urls"] == VList(Strs(ImageUrlsOf(p)))
  {
  }

  /** No payload `scrape` can return has a `"content"` key. */
  lemma NoContentKey(p: ScrapePayload)
    ensures "content" !in AsDict(p)
  {
  }
}
