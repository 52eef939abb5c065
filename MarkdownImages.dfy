/**
 * The image scan of the scrape service: `re.findall(r'!\[.*?\]\((.*?)\)', markdown)`.
 *
 * A match starts at a `!` followed by `[`; the alt text `.*?` is the shortest run of
 * non-newline characters after which `](` and a complete target follow; the target
 * `(.*?)` runs to the first `)`, and must not cross a newline. `findall` tries the
 * starting positions from left to right and resumes after the end of each match, so
 * matches never overlap. Only the target group is returned.
 */
module MarkdownImages {
  import opened Wrappers
  import PyStrings

  /** A match: the index of `!`, of the `]` that closes the alt text, and of the `)` that closes the target. */
  datatype Span = Span(bang: nat, bracket: nat, close: nat)

  /** `s[j]` is the first `)` at or after `q`, and no newline comes before it. */
  ghost predicate Closes(s: string, q: int, j: int)
  {
    && 0 <= q <= j < |s|
    && s[j] == ')'
    && forall i :: q <= i < j ==> s[i] != '\n' && s[i] != ')'
  }

  /** The pattern matches `s[p..j + 1]` with the alt text ending just before index `a`. */
  ghost predicate Fits(s: string, p: int, a: int, j: int)
  {
    && 0 <= p && p + 2 <= a && a + 1 < |s|
    && s[p] == '!' && s[p + 1] == '['
    && (forall i :: p + 2 <= i < a ==> s[i] != '\n')
    && s[a] == ']' && s[a + 1] == '('
    && Closes(s, a + 2, j)
  }

  /** The lazy `(.*?)\)`: the index of the `)` that ends a target begun at `q`, if the line has one. */
  function CloseParen(s: string, q: nat): (r: Option<nat>)
    ensures r.Some? ==> Closes(s, q, r.value)
    ensures r.None? ==> forall j :: !Closes(s, q, j)
    decreases |s| - q
  {
    if q >= |s| || s[q] == '\n' then None
    else if s[q] == ')' then Some(q)
    else
      var r := CloseParen(s, q + 1);
      assert forall j :: Closes(s, q, j) ==> Closes(s, q + 1, j);
      r
  }

  /**
   * The lazy `.*?\]\(`: having consumed the alt text `s[p + 2..i]`, try to close it at `i`,
   * and otherwise take one more character, unless it is a newline or the text has ended.
   */
  function AltScan(s: string, p: nat, i: nat): (r: Option<Span>)
    requires p + 2 <= i <= |s|
    requires s[p] == '!' && s[p + 1] == '['
    requires forall k :: p + 2 <= k < i ==> s[k] != '\n'
    ensures r.Some? ==>
      && r.value.bang == p && i <= r.value.bracket
      && Fits(s, p, r.value.bracket, r.value.close)
      && (forall a, j :: i <= a < r.value.bracket ==> !Fits(s, p, a, j))
    ensures r.None? ==> forall a, j :: i <= a ==> !Fits(s, p, a, j)
    decreases |s| - i
  {
    if i + 1 < |s| && s[i] == ']' && s[i + 1] == '(' && CloseParen(s, i + 2).Some? then
      Some(Span(p, i, CloseParen(s, i + 2).value))
    else if i < |s| && s[i] != '\n' then
      AltScan(s, p, i + 1)
    else
      None
  }

  /** The match that starts at `p`, if any: the one with the shortest alt text. */
  function MatchAt(s: string, p: nat): (r: Option<Span>)
    ensures r.Some? ==>
      && r.value.bang == p && Fits(s, p, r.value.bracket, r.value.close)
      && (forall a, j :: a < r.value.bracket ==> !Fits(s, p, a, j))
    ensures r.None? ==> forall a, j :: !Fits(s, p, a, j)
  {
    if p + 1 < |s| && s[p] == '!' && s[p + 1] == '[' then AltScan(s, p, p + 2) else None
  }

  /** The matches `findall` reports when it starts searching at `from`. */
  function Scan(s: string, from: nat): (spans: seq<Span>)
    ensures forall k :: 0 <= k < |spans| ==> from <= spans[k].bang && MatchAt(s, spans[k].bang) == Some(spans[k])
    ensures forall k :: 0 <= k < |spans| - 1 ==> spans[k].close < spans[k + 1].bang
    decreases |s| - from
  {
    if from >= |s| then []
    else
      match MatchAt(s, from)
      case Some(sp) => [sp] + Scan(s, sp.close + 1)
      case None => Scan(s, from + 1)
  }

  /** The target group of a match. */
  function Target(s: string, sp: Span): string
    requires sp.bracket + 2 <= sp.close <= |s|
  {
    s[sp.bracket + 2..sp.close]
  }

  /** `re.findall(r'!\[.*?\]\((.*?)\)', s)`. */
  function ImageUrls(s: string): (urls: seq<string>)
    ensures |urls| == |Scan(s, 0)|
  {
    var spans := Scan(s, 0);
    seq(|spans|, k requires 0 <= k < |spans| => Target(s, spans[k]))
  }

  /** Index `p` lies inside one of the matches `spans`. */
  ghost predicate Covered(spans: seq<Span>, p: int)
  {
    exists k :: 0 <= k < |spans| && spans[k].bang <= p <= spans[k].close
  }

  /**
   * No match is missed: every place where the pattern could start, at or after `from`,
   * lies inside one of the reported matches (it is either reported or overlapped by one).
   */
  lemma {:induction false} ScanCovers(s: string, from: nat, p: nat, a: nat, j: nat)
    requires from <= p && Fits(s, p, a, j)
    ensures Covered(Scan(s, from), p)
    decreases |s| - from
  {
    assert p < |s|;
    var m := MatchAt(s, from);
    if m.Some? {
      var sp := m.value;
      var rest := Scan(s, sp.close + 1);
      assert Scan(s, from) == [sp] + rest;
      if p <= sp.close {
        assert Scan(s, from)[0] == sp;
      } else {
        ScanCovers(s, sp.close + 1, p, a, j);
        CoveredCons(sp, rest, p);
      }
    } else {
      assert p != from;
      assert Scan(s, from) == Scan(s, from + 1);
      ScanCovers(s, from + 1, p, a, j);
    }
  }

  lemma CoveredCons(sp: Span, rest: seq<Span>, p: int)
    requires Covered(rest, p)
    ensures Covered([sp] + rest, p)
  {
    var k :| 0 <= k < |rest| && rest[k].bang <= p <= rest[k].close;
    assert ([sp] + rest)[k + 1] == rest[k];
  }

  /**
   * What `ImageUrls` returns: for each match, in order, exactly the text between its `](` and
   * the `)` that ends it; that text has no `)` and no newline.
   */
  lemma ImageUrlsAreTargets(s: string)
    ensures var spans := Scan(s, 0);
      forall k :: 0 <= k < |ImageUrls(s)| ==>
        && Fits(s, spans[k].bang, spans[k].bracket, spans[k].close)
        && ImageUrls(s)[k] == s[spans[k].bracket + 2..spans[k].close]
        && ')' !in ImageUrls(s)[k] && '\n' !in ImageUrls(s)[k]
  {
  }

  /** Every extracted URL occurs in the markdown, as `](url)`. */
  lemma ImageUrlInMarkdown(s: string, k: nat)
    requires k < |ImageUrls(s)|
    ensures PyStrings.Contains(s, "](" + ImageUrls(s)[k] + ")")
    ensures PyStrings.Contains(s, ImageUrls(s)[k])
  {
    ImageUrlsAreTargets(s);
    var sp := Scan(s, 0)[k];
    var url := ImageUrls(s)[k];
    var w := "](" + url + ")";
    assert s[sp.bracket..sp.close + 1] == w;
    assert PyStrings.OccursAt(s, w, sp.bracket);
    assert PyStrings.OccursAt(s, url, sp.bracket + 2);
    PyStrings.ContainsIff(s, w);
    PyStrings.ContainsIff(s, url);
  }

  /** An image with an empty target is still reported, as the empty string. */
  lemma EmptyTarget()
    ensures ImageUrls("![a]()") == [""]
  {
    var s := "![a]()";
    assert CloseParen(s, 5) == Some(5);
    assert AltScan(s, 0, 3) == Some(Span(0, 3, 5));
    assert AltScan(s, 0, 2) == Some(Span(0, 3, 5));
    assert MatchAt(s, 0) == Some(Span(0, 3, 5));
    assert Scan(s, 6) == [];
    assert Scan(s, 0) == [Span(0, 3, 5)];
  }
}
