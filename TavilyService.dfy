/**
 * `TavilyService`: the search call with its error wrapping, and `format_results`, which turns
 * the raw search payload into one record per result, filling defaults and cutting the content.
 */
module TavilyService {
  import opened Wrappers
  import opened PyValues

  /** The arguments the service passes to the SDK's `search`. */
  datatype SearchArgs = SearchArgs(query: string, searchDepth: string, maxResults: int, includeImages: bool)

  /** The remote search call; `Failure` carries `str(e)` of the exception it raised. */
  type SearchApi = SearchArgs -> Result<map<string, Value>, string>

  /**
   * `search_travel_research`: an advanced-depth search with images; the SDK's payload is passed
   * on unchanged, and its exception is re-raised with the message prefixed.
   */
  function SearchTravelResearch(api: SearchApi, query: string, maxResults: int): (r: Result<map<string, Value>, string>)
    ensures match api(SearchArgs(query, "advanced", maxResults, true))
      case Success(raw) => r == Success(raw)
      case Failure(msg) => r == Failure("Research search error: " + msg)
  {
    match api(SearchArgs(query, "advanced", maxResults, true))
    case Success(raw) => Success(raw)
    case Failure(msg) => Failure("Research search error: " + msg)
  }

  /** One formatted result: the dict `{"title", "url", "content", "score", "image_url"}`. */
  datatype Formatted = Formatted(title: Value, url: Value, content: Value, score: Value, imageUrl: Value)

  /** Hard cut applied to `content`. */
  const ContentLimit: nat := 500

  /**
   * The entries `for result in v` visits, or the exception the loop raises. Iterating a
   * non-empty string or dict yields strings, on which the first `.get` already fails.
   */
  function Items(v: Value): (r: Result<seq<Value>, Fault>)
    ensures v.VList? ==> r == Success(v.items)
    ensures r.Success? <==> v.VList? || (v.VStr? && |v.s| == 0) || (v.VDict? && |v.fields| == 0)
    ensures r.Success? && !v.VList? ==> r.value == []
    ensures r.Failure? && (v.VStr? || v.VDict?) ==> r.error == NoAttribute("str", "get")
    ensures r.Failure? && !(v.VStr? || v.VDict?) ==> r.error == NotIterable(TypeName(v))
  {
    match v
    case VList(xs) => Success(xs)
    case VStr(s) => if s == [] then Success([]) else Failure(NoAttribute("str", "get"))
    case VDict(m) => if |m| == 0 then Success([]) else Failure(NoAttribute("str", "get"))
    case _ => Failure(NotIterable(TypeName(v)))
  }

  /** `v[:n]`. */
  function Cut(v: Value, n: nat): Result<Value, Fault>
  {
    match v
    case VStr(s) => Success(VStr(if |s| <= n then s else s[..n]))
    case VList(xs) => Success(VList(if |xs| <= n then xs else xs[..n]))
    case VDict(_) => Failure(SliceOfDict)
    case _ => Failure(NotSubscriptable(TypeName(v)))
  }

  /** `cut` is the longest prefix of the string `raw` that has at most `ContentLimit` characters. */
  ghost predicate IsContentCut(raw: string, cut: string)
  {
    && |cut| <= ContentLimit
    && |cut| <= |raw| && cut == raw[..|cut|]
    && (|raw| <= ContentLimit ==> cut == raw)
    && (|raw| > ContentLimit ==> |cut| == ContentLimit)
  }

  /** Each field is the entry's own value when the key is present and the default only when it is absent. */
  ghost predicate DefaultsApplied(m: map<string, Value>, f: Formatted)
  {
    && (if "title" in m then f.title == m["title"] else f.title == VStr("Untitled"))
    && (if "url" in m then f.url == m["url"] else f.url == VStr(""))
    && (if "score" in m then f.score == m["score"] else f.score == VFloat(0.0))
    && (if "image" in m then f.imageUrl == m["image"] else f.imageUrl == VNone)
    && ("content" !in m ==> f.content == VStr(""))
  }

  /** The type of `content` admits the `[:500]` slice. */
  predicate Sliceable(m: map<string, Value>)
  {
    "content" !in m || m["content"].VStr? || m["content"].VList?
  }

  /** The dict literal built for one raw entry. */
  function Normalize(entry: Value): (r: Result<Formatted, Fault>)
    ensures r.Success? <==> entry.VDict? && Sliceable(entry.fields)
    ensures !entry.VDict? ==> r == Failure(NoAttribute(TypeName(entry), "get"))
    ensures r.Success? ==> DefaultsApplied(entry.fields, r.value)
    ensures r.Success? && "content" in entry.fields && entry.fields["content"].VStr? ==>
      r.value.content.VStr? && IsContentCut(entry.fields["content"].s, r.value.content.s)
    ensures r.Success? ==> r.value.content.VStr? || r.value.content.VList?
    ensures entry.VDict? && !Sliceable(entry.fields) ==>
      r == Failure(if entry.fields["content"].VDict? then SliceOfDict else NotSubscriptable(TypeName(entry.fields["content"])))
  {
    if !entry.VDict? then Failure(NoAttribute(TypeName(entry), "get"))
    else
      var m := entry.fields;
      match Cut(Get(m, "content", VStr("")), ContentLimit)
      case Failure(f) => Failure(f)
      case Success(content) =>
        Success(Formatted(
          Get(m, "title", VStr("Untitled")),
          Get(m, "url", VStr("")),
          content,
          Get(m, "score", VFloat(0.0)),
          Get(m, "image", VNone)))
  }

  /** The formatted list for `entries`, or the exception of the first entry that cannot be formatted. */
  function NormalizeAll(entries: seq<Value>): Result<seq<Formatted>, Fault>
  {
    if entries == [] then Success([])
    else
      match Normalize(entries[0])
      case Failure(f) => Failure(f)
      case Success(x) =>
        match NormalizeAll(entries[1..])
        case Failure(f) => Failure(f)
        case Success(xs) => Success([x] + xs)
  }

  /** What `format_results(raw)` returns or raises. */
  function Normalized(raw: map<string, Value>): Result<seq<Formatted>, Fault>
  {
    match Items(Get(raw, "results", VList([])))
    case Failure(f) => Failure(f)
    case Success(entries) => NormalizeAll(entries)
  }

  /** Formatting a concatenation formats the first part, then the second. */
  lemma {:induction false} NormalizeAllAppend(xs: seq<Value>, ys: seq<Value>)
    ensures NormalizeAll(xs + ys) ==
      match NormalizeAll(xs)
      case Failure(f) => Failure(f)
      case Success(a) =>
        match NormalizeAll(ys)
        case Failure(f) => Failure(f)
        case Success(b) => Success(a + b)
  {
    if xs == [] {
      assert xs + ys == ys;
      if NormalizeAll(ys).Success? {
        assert [] + NormalizeAll(ys).value == NormalizeAll(ys).value;
      }
    } else {
      assert (xs + ys)[0] == xs[0];
      assert (xs + ys)[1..] == xs[1..] + ys;
      NormalizeAllAppend(xs[1..], ys);
      if Normalize(xs[0]).Success? && NormalizeAll(xs[1..]).Success? && NormalizeAll(ys).Success? {
        var x, a, b := Normalize(xs[0]).value, NormalizeAll(xs[1..]).value, NormalizeAll(ys).value;
        assert [x] + (a + b) == ([x] + a) + b;
      }
    }
  }

  lemma NormalizeAllSingle(x: Value)
    ensures NormalizeAll([x]) == match Normalize(x) case Failure(f) => Failure(f) case Success(y) => Success([y])
  {
    assert [x][1..] == [];
    if Normalize(x).Success? {
      assert [Normalize(x).value] + [] == [Normalize(x).value];
    }
  }

  /**
   * The list is formatted exactly when every entry is, and then it has one record per entry,
   * the i-th built from the i-th entry.
   */
  lemma {:induction false} NormalizeAllPointwise(entries: seq<Value>)
    ensures NormalizeAll(entries).Success? <==> forall i :: 0 <= i < |entries| ==> Normalize(entries[i]).Success?
    ensures NormalizeAll(entries).Success? ==>
      && |NormalizeAll(entries).value| == |entries|
      && forall i :: 0 <= i < |entries| ==> Normalize(entries[i]) == Success(NormalizeAll(entries).value[i])
  {
    if entries != [] {
      NormalizeAllPointwise(entries[1..]);
      if NormalizeAll(entries).Success? {
        var rest := NormalizeAll(entries[1..]).value;
        var all := NormalizeAll(entries).value;
        forall i | 0 <= i < |entries| ensures Normalize(entries[i]) == Success(all[i]) {
          if i > 0 { assert entries[i] == entries[1..][i - 1]; assert all[i] == rest[i - 1]; }
        }
      } else if Normalize(entries[0]).Success? {
        var i :| 0 <= i < |entries[1..]| && !Normalize(entries[1..][i]).Success?;
        assert entries[1..][i] == entries[i + 1];
      }
    }
  }

  /** `k` is the first entry that cannot be formatted. */
  ghost predicate FirstFailing(entries: seq<Value>, k: int)
  {
    && 0 <= k < |entries|
    && Normalize(entries[k]).Failure?
    && forall i :: 0 <= i < k ==> Normalize(entries[i]).Success?
  }

  /** A failure is the exception raised by the first entry that cannot be formatted. */
  lemma {:induction false} NormalizeAllFailsAtFirst(entries: seq<Value>)
    requires NormalizeAll(entries).Failure?
    ensures exists k :: FirstFailing(entries, k) && Normalize(entries[k]).error == NormalizeAll(entries).error
  {
    if Normalize(entries[0]).Failure? {
      assert FirstFailing(entries, 0);
    } else {
      NormalizeAllFailsAtFirst(entries[1..]);
      var k :| FirstFailing(entries[1..], k) && Normalize(entries[1..][k]).error == NormalizeAll(entries[1..]).error;
      forall i | 0 <= i < k + 1 ensures Normalize(entries[i]).Success? {
        if i > 0 { assert entries[i] == entries[1..][i - 1]; }
      }
      assert entries[k + 1] == entries[1..][k];
      assert FirstFailing(entries, k + 1);
    }
  }

  /**
   * `format_results`: on a payload whose `results` is a list, success exactly when every entry can be
   * formatted, with one record per entry in order; a payload without `results` gives the empty list.
   */
  lemma FormatResultsShape(raw: map<string, Value>)
    ensures "results" !in raw ==> Normalized(raw) == Success([])
    ensures "results" in raw && raw["results"].VList? ==>
      var entries := raw["results"].items;
      && (Normalized(raw).Success? <==> forall i :: 0 <= i < |entries| ==> Normalize(entries[i]).Success?)
      && (Normalized(raw).Success? ==>
          && |Normalized(raw).value| == |entries|
          && forall i :: 0 <= i < |entries| ==> Normalize(entries[i]) == Success(Normalized(raw).value[i]))
  {
    if "results" in raw && raw["results"].VList? {
      NormalizeAllPointwise(raw["results"].items);
    }
  }

  /** `format_results(raw_results)`: the loop that appends one formatted dict per entry. */
  method FormatResults(raw: map<string, Value>) returns (r: Result<seq<Formatted>, Fault>)
    ensures r == Normalized(raw)
  {
    var items := Items(Get(raw, "results", VList([])));
    if items.Failure? {
      return Failure(items.error);
    }
    var entries := items.value;
    var formatted: seq<Formatted> := [];
    var i := 0;
    while i < |entries|
      invariant 0 <= i <= |entries|
      invariant NormalizeAll(entries[..i]) == Success(formatted)
    {
      var n := Normalize(entries[i]);
      assert entries[..i + 1] == entries[..i] + [entries[i]];
      assert entries == entries[..i + 1] + entries[i + 1..];
      NormalizeAllAppend(entries[..i], [entries[i]]);
      NormalizeAllAppend(entries[..i + 1], entries[i + 1..]);
      NormalizeAllSingle(entries[i]);
      if n.Failure? {
        return Failure(n.error);
      }
      assert NormalizeAll(entries[..i + 1]) == Success(formatted + [n.value]);
      formatted := formatted + [n.value];
      i := i + 1;
    }
    assert entries[..i] == entries;
    return Success(formatted);
  }
}
