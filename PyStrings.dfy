/** The string operations of Python that the research route relies on: `str.split()`, `in`, `str.join`. */
module PyStrings {

  /** `c.isspace()`: the characters `str.split()` with no argument splits on. */
  predicate IsSpace(c: char)
  {
    || ('\t' <= c <= '\r')
    || ('\U{1C}' <= c <= '\U{1F}')
    || c == ' ' || c == '\U{85}' || c == '\U{A0}' || c == '\U{1680}'
    || ('\U{2000}' <= c <= '\U{200A}')
    || c == '\U{2028}' || c == '\U{2029}' || c == '\U{202F}' || c == '\U{205F}' || c == '\U{3000}'
  }

  predicate NoSpace(w: string)
  {
    forall i :: 0 <= i < |w| ==> !IsSpace(w[i])
  }

  predicate Blank(s: string)
  {
    forall i :: 0 <= i < |s| ==> IsSpace(s[i])
  }

  /** The end of the run of non-space characters that starts at `i`. */
  function WordEnd(s: string, i: nat): (e: nat)
    requires i <= |s|
    ensures i <= e <= |s|
    ensures forall k :: i <= k < e ==> !IsSpace(s[k])
    ensures e == |s| || IsSpace(s[e])
    decreases |s| - i
  {
    if i == |s| || IsSpace(s[i]) then i else WordEnd(s, i + 1)
  }

  /** `s.split()`: the maximal runs of non-space characters, in order. */
  function Split(s: string): (words: seq<string>)
    ensures forall k :: 0 <= k < |words| ==> words[k] != [] && NoSpace(words[k])
    decreases |s|
  {
    if s == [] then []
    else if IsSpace(s[0]) then Split(s[1..])
    else
      var e := WordEnd(s, 0);
      [s[..e]] + Split(s[e..])
  }

  /** `sep.join(parts)`. */
  function Join(sep: string, parts: seq<string>): string
  {
    if |parts| == 0 then ""
    else if |parts| == 1 then parts[0]
    else parts[0] + sep + Join(sep, parts[1..])
  }

  /** `needle` occurs in `hay` starting at index `i`. */
  ghost predicate OccursAt(hay: string, needle: string, i: int)
  {
    0 <= i && i + |needle| <= |hay| && hay[i..i + |needle|] == needle
  }

  /** `needle in hay` for two strings, decided by trying every starting index in turn. */
  predicate Contains(hay: string, needle: string)
    decreases |hay|
  {
    && |needle| <= |hay|
    && (hay[..|needle|] == needle || (|hay| > 0 && Contains(hay[1..], needle)))
  }

  /** `Contains` agrees with the definition of substring by an occurrence index. */
  lemma {:induction false} ContainsIff(hay: string, needle: string)
    ensures Contains(hay, needle) <==> exists i :: OccursAt(hay, needle, i)
    decreases |hay|
  {
    if Contains(hay, needle) {
      if hay[..|needle|] == needle {
        assert OccursAt(hay, needle, 0);
      } else {
        ContainsIff(hay[1..], needle);
        var i :| OccursAt(hay[1..], needle, i);
        assert hay[1..][i..i + |needle|] == hay[i + 1..i + 1 + |needle|];
        assert OccursAt(hay, needle, i + 1);
      }
    }
    if exists i :: OccursAt(hay, needle, i) {
      var i :| OccursAt(hay, needle, i);
      if i == 0 {
        assert hay[..|needle|] == needle;
      } else {
        assert hay[1..][i - 1..i - 1 + |needle|] == hay[i..i + |needle|];
        assert OccursAt(hay[1..], needle, i - 1);
        ContainsIff(hay[1..], needle);
      }
    }
  }

  /** A string has no words exactly when it is all whitespace. */
  lemma {:induction false} SplitEmptyIffBlank(s: string)
    ensures Split(s) == [] <==> Blank(s)
    decreases |s|
  {
    if s != [] {
      if IsSpace(s[0]) {
        SplitEmptyIffBlank(s[1..]);
        if Blank(s[1..]) {
          forall i | 0 <= i < |s| ensures IsSpace(s[i]) {
            if i > 0 { assert s[i] == s[1..][i - 1]; }
          }
        } else {
          var i :| 0 <= i < |s[1..]| && !IsSpace(s[1..][i]);
          assert !IsSpace(s[i + 1]);
        }
      } else {
        assert !IsSpace(s[0]);
      }
    }
  }

  /** Splitting `w + " " + rest` peels off the word `w`. */
  lemma SplitWordThen(w: string, sep: string, rest: string)
    requires w != [] && NoSpace(w)
    requires |sep| == 1 && IsSpace(sep[0])
    ensures Split(w + sep + rest) == [w] + Split(rest)
  {
    var s := w + sep + rest;
    var e := WordEnd(s, 0);
    assert forall k :: 0 <= k < |w| ==> s[k] == w[k];
    assert s[|w|] == sep[0];
    assert e == |w|;
    assert s[..e] == w;
    assert s[e..] == sep + rest;
    assert (sep + rest)[1..] == rest;
  }

  /** Splitting a single word gives back that word. */
  lemma SplitWord(w: string)
    requires w != [] && NoSpace(w)
    ensures Split(w) == [w]
  {
    var e := WordEnd(w, 0);
    assert e == |w|;
    assert w[..e] == w;
    assert w[e..] == [];
  }

  /** `" ".join(words).split()` gives back `words` when each word is non-empty and space-free. */
  lemma {:induction false} SplitJoinRoundTrip(words: seq<string>)
    requires forall k :: 0 <= k < |words| ==> words[k] != [] && NoSpace(words[k])
    ensures Split(Join(" ", words)) == words
  {
    if |words| == 1 {
      SplitWord(words[0]);
    } else if |words| > 1 {
      SplitJoinRoundTrip(words[1..]);
      SplitWordThen(words[0], " ", Join(" ", words[1..]));
      assert words == [words[0]] + words[1..];
    }
  }

  /** `gaps[0] + words[0] + gaps[1] + ... + words[n-1] + gaps[n]`. */
  function Interleave(gaps: seq<string>, words: seq<string>): string
    requires |gaps| == |words| + 1
    decreases |words|
  {
    if words == [] then gaps[0] else gaps[0] + words[0] + Interleave(gaps[1..], words[1..])
  }

  /**
   * `s` is laid out as whitespace runs `gaps` around the non-empty, space-free `words`: the leading
   * and trailing runs may be empty, the runs between two words may not.
   */
  ghost predicate Layout(s: string, words: seq<string>, gaps: seq<string>)
  {
    && |gaps| == |words| + 1
    && (forall k :: 0 <= k < |words| ==> words[k] != [] && NoSpace(words[k]))
    && (forall k :: 0 <= k < |gaps| ==> Blank(gaps[k]))
    && (forall k :: 0 < k < |words| ==> gaps[k] != [])
    && s == Interleave(gaps, words)
  }

  /** Leading whitespace does not change the words. */
  lemma {:induction false} SplitSkipsBlank(b: string, t: string)
    requires Blank(b)
    ensures Split(b + t) == Split(t)
    decreases |b|
  {
    if b != [] {
      assert (b + t)[0] == b[0] && IsSpace(b[0]);
      assert (b + t)[1..] == b[1..] + t;
      assert Split(b + t) == Split(b[1..] + t);
      assert forall i :: 0 <= i < |b[1..]| ==> b[1..][i] == b[i + 1];
      SplitSkipsBlank(b[1..], t);
    } else {
      assert b + t == t;
    }
  }

  /** A word followed by nothing or by whitespace is the first word. */
  lemma SplitWordBefore(w: string, t: string)
    requires w != [] && NoSpace(w)
    requires t == [] || IsSpace(t[0])
    ensures Split(w + t) == [w] + Split(t)
  {
    var s := w + t;
    assert forall k :: 0 <= k < |w| ==> s[k] == w[k];
    assert t != [] ==> s[|w|] == t[0];
    assert WordEnd(s, 0) == |w|;
    assert s[..|w|] == w;
    assert s[|w|..] == t;
  }

  /** Every layout of `s` has exactly the words of `s.split()`. */
  lemma {:induction false} LayoutSplit(s: string, words: seq<string>, gaps: seq<string>)
    requires Layout(s, words, gaps)
    ensures Split(s) == words
    decreases |words|
  {
    if words == [] {
      SplitSkipsBlank(gaps[0], []);
      SplitEmptyIffBlank([]);
      assert gaps[0] + [] == gaps[0];
    } else {
      var t := Interleave(gaps[1..], words[1..]);
      assert s == gaps[0] + (words[0] + t);
      SplitSkipsBlank(gaps[0], words[0] + t);
      assert Layout(t, words[1..], gaps[1..]);
      LayoutSplit(t, words[1..], gaps[1..]);
      if |words| > 1 {
        assert gaps[1] != [] && IsSpace(gaps[1][0]);
        assert t == gaps[1] + (words[1] + Interleave(gaps[2..], words[2..]));
        assert t[0] == gaps[1][0];
      } else {
        assert t == gaps[1];
        assert t != [] ==> IsSpace(t[0]);
      }
      SplitWordBefore(words[0], t);
      assert words == [words[0]] + words[1..];
    }
  }

  /** Prepending `c` to the leading whitespace run prepends it to the whole string. */
  lemma ExtendFirstGap(c: string, gaps: seq<string>, words: seq<string>)
    requires |gaps| == |words| + 1
    ensures Interleave([c + gaps[0]] + gaps[1..], words) == c + Interleave(gaps, words)
  {
    var gaps' := [c + gaps[0]] + gaps[1..];
    assert gaps'[1..] == gaps[1..];
  }

  /** A layout with an empty leading run starts with the first character of its first word. */
  lemma StartsWithWord(gaps: seq<string>, words: seq<string>)
    requires |gaps| == |words| + 1
    ensures (words != [] && gaps[0] == [] && words[0] != []) ==>
      Interleave(gaps, words) != [] && Interleave(gaps, words)[0] == words[0][0]
  {
    if words != [] && gaps[0] == [] {
      assert Interleave(gaps, words) == words[0] + Interleave(gaps[1..], words[1..]);
    }
  }

  /** A whitespace character in front of a layout joins its leading run. */
  lemma LayoutConsSpace(c: char, t: string, words: seq<string>, gaps: seq<string>)
    requires IsSpace(c) && Layout(t, words, gaps)
    ensures Layout([c] + t, words, [[c] + gaps[0]] + gaps[1..])
  {
    var gaps' := [[c] + gaps[0]] + gaps[1..];
    ExtendFirstGap([c], gaps, words);
    assert forall i :: 0 <= i < |gaps[0]| ==> ([c] + gaps[0])[i + 1] == gaps[0][i];
    assert Blank([c] + gaps[0]);
    assert forall k :: 0 < k < |gaps'| ==> gaps'[k] == gaps[k];
  }

  /** A word in front of a layout that starts with whitespace (or is empty) becomes its first word. */
  lemma LayoutConsWord(w: string, t: string, words: seq<string>, gaps: seq<string>)
    requires w != [] && NoSpace(w) && (t == [] || IsSpace(t[0])) && Layout(t, words, gaps)
    ensures Layout(w + t, [w] + words, [[]] + gaps)
  {
    StartsWithWord(gaps, words);
    assert words != [] ==> gaps[0] != [];
    var gaps' := [[]] + gaps;
    assert gaps'[1..] == gaps;
    assert ([w] + words)[1..] == words;
    assert Interleave(gaps', [w] + words) == [] + w + Interleave(gaps, words);
    assert [] + w + t == w + t;
    assert forall k :: 0 < k < |gaps'| ==> gaps'[k] == gaps[k - 1];
    assert forall k :: 0 < k < |words| + 1 ==> ([w] + words)[k] == words[k - 1];
  }

  /** Every string has a layout around the words of `s.split()`. */
  lemma {:induction false} SplitLayout(s: string)
    ensures exists gaps :: Layout(s, Split(s), gaps)
    decreases |s|
  {
    if s == [] {
      assert Interleave([[]], []) == [];
      assert Layout(s, Split(s), [[]]);
    } else if IsSpace(s[0]) {
      SplitLayout(s[1..]);
      var gaps :| Layout(s[1..], Split(s[1..]), gaps);
      LayoutConsSpace(s[0], s[1..], Split(s[1..]), gaps);
      assert s == [s[0]] + s[1..];
      assert Layout(s, Split(s), [[s[0]] + gaps[0]] + gaps[1..]);
    } else {
      var e := WordEnd(s, 0);
      var w, t := s[..e], s[e..];
      SplitLayout(t);
      var gaps :| Layout(t, Split(t), gaps);
      assert t != [] ==> t[0] == s[e];
      LayoutConsWord(w, t, Split(t), gaps);
      assert s == w + t;
      assert Layout(s, Split(s), [[]] + gaps);
    }
  }
}
