/**
 * The pydantic request and response records of the API, with the field constraints and
 * defaults pydantic enforces when one is constructed.
 */
module Schemas {
  import opened Wrappers
  import opened PyValues

  /** A wall-clock instant, taken as input (the route reads `datetime.now()`). */
  datatype Timestamp = Timestamp(microseconds: int)

  datatype ChatRequest = ChatRequest(message: string, language: string)

  datatype AnalysisRequest = AnalysisRequest(text: string, context: string, language: string)

  datatype ResearchRequest = ResearchRequest(query: string, maxResults: int, language: string)

  /** `ResearchResult`; `image_url` is optional. */
  datatype ResearchResult = ResearchResult(title: string, url: string, content: string, score: real, imageUrl: Option<string>)

  datatype ResearchResponse = ResearchResponse(
    query: string,
    response: string,
    imageUrls: seq<string>,
    sources: seq<ResearchResult>,
    timestamp: Timestamp)

  const DefaultLanguage: string := "en"
  const DefaultMaxResults: int := 5

  /** The constraints every `ResearchRequest` satisfies; `language` is free text. */
  predicate ValidResearchRequest(r: ResearchRequest)
  {
    3 <= |r.query| <= 200 && 1 <= r.maxResults <= 10
  }

  /** The value of an optional field, or its default when it was not supplied. */
  function OrDefault<T>(given: Option<T>, default: T): T
  {
    if given.Some? then given.value else default
  }

  /**
   * `ResearchRequest(query=..., max_results=..., language=...)` with the optional fields possibly
   * omitted; a failure names the fields that violate their constraints.
   */
  function NewResearchRequest(query: string, maxResults: Option<int>, language: Option<string>): (r: Result<ResearchRequest, seq<string>>)
    ensures r.Success? <==> 3 <= |query| <= 200 && (maxResults.Some? ==> 1 <= maxResults.value <= 10)
    ensures r.Success? ==>
      && ValidResearchRequest(r.value)
      && r.value.query == query
      && (maxResults.None? ==> r.value.maxResults == 5)
      && (maxResults.Some? ==> r.value.maxResults == maxResults.value)
      && (language.None? ==> r.value.language == "en")
      && (language.Some? ==> r.value.language == language.value)
    ensures r.Failure? ==>
      && ("query" in r.error <==> !(3 <= |query| <= 200))
      && ("max_results" in r.error <==> maxResults.Some? && !(1 <= maxResults.value <= 10))
  {
    var bad :=
      (if 3 <= |query| <= 200 then [] else ["query"]) +
      (if maxResults.None? || 1 <= maxResults.value <= 10 then [] else ["max_results"]);
    if bad == [] then
      Success(ResearchRequest(query, OrDefault(maxResults, DefaultMaxResults), OrDefault(language, DefaultLanguage)))
    else
      Failure(bad)
  }

  /** `ChatRequest`: a message of 1 to 1000 characters; language defaults to `"en"`. */
  function NewChatRequest(message: string, language: Option<string>): (r: Result<ChatRequest, seq<string>>)
    ensures r.Success? <==> 1 <= |message| <= 1000
    ensures r.Success? ==> r.value.message == message && r.value.language == (if language.Some? then language.value else "en")
    ensures r.Failure? ==> r.error == ["message"]
  {
    if 1 <= |message| <= 1000 then Success(ChatRequest(message, OrDefault(language, DefaultLanguage)))
    else Failure(["message"])
  }

  /** `AnalysisRequest`: a non-empty text; context defaults to `""` and language to `"en"`. */
  function NewAnalysisRequest(text: string, context: Option<string>, language: Option<string>): (r: Result<AnalysisRequest, seq<string>>)
    ensures r.Success? <==> |text| >= 1
    ensures r.Success? ==>
      && r.value.text == text
      && r.value.context == (if context.Some? then context.value else "")
      && r.value.language == (if language.Some? then language.value else "en")
    ensures r.Failure? ==> r.error == ["text"]
  {
    if |text| >= 1 then Success(AnalysisRequest(text, OrDefault(context, ""), OrDefault(language, DefaultLanguage)))
    else Failure(["text"])
  }

  /** A value pydantic accepts for a `float` field (a JSON number), and the float it becomes. */
  predicate IsNumber(v: Value)
  {
    v.VInt? || v.VFloat?
  }

  function AsReal(v: Value): real
    requires IsNumber(v)
  {
    if v.VInt? then v.i as real else v.f
  }

  /** A value pydantic accepts for `str | None`. */
  predicate IsOptionalStr(v: Value)
  {
    v.VStr? || v.VNone?
  }

  /** The names of the fields whose values do not have the declared type, in declaration order. */
  function InvalidFields(title: Value, url: Value, content: Value, score: Value, imageUrl: Option<Value>): (bad: seq<string>)
    ensures bad == [] <==>
      title.VStr? && url.VStr? && content.VStr? && IsNumber(score) && (imageUrl.Some? ==> IsOptionalStr(imageUrl.value))
    ensures "title" in bad <==> !title.VStr?
    ensures "url" in bad <==> !url.VStr?
    ensures "content" in bad <==> !content.VStr?
    ensures "score" in bad <==> !IsNumber(score)
    ensures "image_url" in bad <==> imageUrl.Some? && !IsOptionalStr(imageUrl.value)
  {
    var b1 := if title.VStr? then [] else ["title"];
    var b2 := if url.VStr? then [] else ["url"];
    var b3 := if content.VStr? then [] else ["content"];
    var b4 := if IsNumber(score) then [] else ["score"];
    var b5 := if imageUrl.None? || IsOptionalStr(imageUrl.value) then [] else ["image_url"];
    assert "title" != "url" && "title" != "content" && "title" != "score" && "title" != "image_url";
    assert "url" != "content" && "url" != "score" && "url" != "image_url";
    assert "content" != "score" && "content" != "image_url" && "score" != "image_url";
    b1 + b2 + b3 + b4 + b5
  }

  /**
   * `ResearchResult(title=..., url=..., content=..., score=..., image_url=...)` from Python values,
   * `image_url` possibly omitted. It succeeds exactly when every field has its declared type, and
   * otherwise raises one validation error naming every field that does not, in declaration order.
   */
  function NewResearchResult(title: Value, url: Value, content: Value, score: Value, imageUrl: Option<Value>): (r: Result<ResearchResult, Fault>)
    ensures r.Success? <==>
      title.VStr? && url.VStr? && content.VStr? && IsNumber(score) && (imageUrl.Some? ==> IsOptionalStr(imageUrl.value))
    ensures r.Success? ==>
      && r.value.title == title.s && r.value.url == url.s && r.value.content == content.s
      && r.value.score == AsReal(score)
      && (r.value.imageUrl.Some? <==> imageUrl.Some? && imageUrl.value.VStr?)
      && (r.value.imageUrl.Some? ==> r.value.imageUrl.value == imageUrl.value.s)
    ensures r.Failure? ==> r.error == Invalid("ResearchResult", InvalidFields(title, url, content, score, imageUrl))
  {
    var bad := InvalidFields(title, url, content, score, imageUrl);
    if bad == [] then
      Success(ResearchResult(
        title.s, url.s, content.s, AsReal(score),
        if imageUrl.Some? && imageUrl.value.VStr? then Some(imageUrl.value.s) else None))
    else
      Failure(Invalid("ResearchResult", bad))
  }
}
