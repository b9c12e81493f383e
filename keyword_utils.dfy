/**
 * Keyword extraction from a free-text request (utils/keyword_utils.py): the
 * lower-cased text is cut into maximal runs of Hangul syllables and ASCII
 * letters, runs shorter than two characters and stop-words are dropped, and
 * duplicates are removed.
 */
module KeywordUtils {
  import opened Strings
  import opened Seqs

  /** `COMMON_STOPWORDS`: particles and generic request verbs. */
  const CommonStopwords: set<string> := {
    "을", "를", "이", "가", "은", "는", "에", "에서", "으로", "로",
    "해줘", "해라", "하기", "중", "같은", "있는", "해", "줘", "좀", "해줘요"
  }

  /** The character class `[가-힣a-zA-Z]`. */
  predicate IsWordChar(c: char)
  {
    ('가' <= c <= '힣') || ('a' <= c <= 'z') || ('A' <= c <= 'Z')
  }

  /** The length of the run of word characters `s` starts with. */
  function RunLength(s: string): (n: nat)
    ensures n <= |s|
    ensures forall k :: 0 <= k < n ==> IsWordChar(s[k])
    ensures n < |s| ==> !IsWordChar(s[n])
  {
    if s == [] || !IsWordChar(s[0]) then 0 else 1 + RunLength(s[1..])
  }

  /** `s[i..j]` is a run of word characters that cannot be extended on either side. */
  predicate MaximalRun(s: string, i: int, j: int)
  {
    && 0 <= i < j <= |s|
    && (forall k :: i <= k < j ==> IsWordChar(s[k]))
    && (i == 0 || !IsWordChar(s[i - 1]))
    && (j == |s| || !IsWordChar(s[j]))
  }

  /**
   * `re.findall(r"[가-힣a-zA-Z]{2,}", s)`: the greedy, non-overlapping, leftmost
   * matches, in order of their position.
   */
  function Tokens(s: string): seq<string>
    decreases |s|
  {
    if s == [] then []
    else if !IsWordChar(s[0]) then Tokens(s[1..])
    else
      var n := RunLength(s);
      (if n >= 2 then [s[..n]] else []) + Tokens(s[n..])
  }

  /** A maximal run of a suffix `s[d..]` is one of `s` when it does not touch a word character before `d`. */
  lemma RunShift(s: string, d: int, i: int, j: int)
    requires 0 <= d <= |s| && MaximalRun(s[d..], i, j)
    requires i > 0 || d == 0 || !IsWordChar(s[d - 1])
    ensures MaximalRun(s, i + d, j + d) && s[i + d..j + d] == s[d..][i..j]
  {
    forall k | i + d <= k < j + d ensures IsWordChar(s[k]) {
      assert s[k] == s[d..][k - d];
    }
    if i > 0 {
      assert s[i + d - 1] == s[d..][i - 1];
    }
    if j + d < |s| {
      assert s[j + d] == s[d..][j];
    }
  }

  /** A maximal run of `s` that starts at or after `d` is one of `s[d..]`. */
  lemma RunUnshift(s: string, d: int, i: int, j: int)
    requires MaximalRun(s, i, j) && 0 <= d <= i
    ensures MaximalRun(s[d..], i - d, j - d) && s[d..][i - d..j - d] == s[i..j]
  {
    forall k | i - d <= k < j - d ensures IsWordChar(s[d..][k]) {
      assert s[d..][k] == s[k + d];
    }
    if i - d > 0 {
      assert s[d..][i - d - 1] == s[i - 1];
    }
    if j - d < |s[d..]| {
      assert s[d..][j - d] == s[j];
    }
  }

  /** Soundness of `Tokens`: every token is a maximal run of at least two word characters. */
  lemma {:induction false} TokensSound(s: string, t: string)
    requires t in Tokens(s)
    ensures exists i, j :: MaximalRun(s, i, j) && j - i >= 2 && s[i..j] == t
    decreases |s|
  {
    if !IsWordChar(s[0]) {
      TokensSound(s[1..], t);
      var i, j :| MaximalRun(s[1..], i, j) && j - i >= 2 && s[1..][i..j] == t;
      RunShift(s, 1, i, j);
    } else {
      var n := RunLength(s);
      if n >= 2 && t == s[..n] {
        assert MaximalRun(s, 0, n);
        assert s[0..n] == t;
      } else {
        assert t in Tokens(s[n..]);
        TokensSound(s[n..], t);
        var i, j :| MaximalRun(s[n..], i, j) && j - i >= 2 && s[n..][i..j] == t;
        RunShift(s, n, i, j);
      }
    }
  }

  /** `RunLength(s)` is at most the index of any non-word character. */
  lemma {:induction false} RunLengthAtMost(s: string, k: int)
    requires 0 <= k < |s| && !IsWordChar(s[k])
    ensures RunLength(s) <= k
    decreases |s|
  {
    if k > 0 && IsWordChar(s[0]) {
      RunLengthAtMost(s[1..], k - 1);
    }
  }

  /** `RunLength(s)` is at least the length of any prefix of word characters. */
  lemma {:induction false} RunLengthAtLeast(s: string, j: int)
    requires 0 <= j <= |s| && forall k :: 0 <= k < j ==> IsWordChar(s[k])
    ensures RunLength(s) >= j
    decreases |s|
  {
    if j > 0 {
      RunLengthAtLeast(s[1..], j - 1);
    }
  }

  /** A maximal run either is the run the text starts with or lies past it. */
  lemma RunAgainstFirst(s: string, i: int, j: int)
    requires MaximalRun(s, i, j)
    ensures i == 0 ==> j == RunLength(s)
    ensures i > 0 ==> i > RunLength(s)
  {
    if i == 0 {
      RunLengthAtLeast(s, j);
      if j < |s| {
        RunLengthAtMost(s, j);
      }
    } else {
      RunLengthAtMost(s, i - 1);
    }
  }

  lemma TokensSkip(s: string)
    requires s != [] && !IsWordChar(s[0])
    ensures Tokens(s) == Tokens(s[1..])
  {
  }

  lemma TokensRun(s: string)
    requires s != [] && IsWordChar(s[0])
    ensures Tokens(s) == (if RunLength(s) >= 2 then [s[..RunLength(s)]] else []) + Tokens(s[RunLength(s)..])
  {
  }

  /** Completeness of `Tokens`: every maximal run of at least two word characters is a token. */
  lemma {:induction false} TokensComplete(s: string, i: int, j: int)
    requires MaximalRun(s, i, j) && j - i >= 2
    ensures s[i..j] in Tokens(s)
    decreases |s|, 1
  {
    if !IsWordChar(s[0]) {
      TokensCompleteAfterGap(s, i, j);
    } else if i == 0 {
      RunAgainstFirst(s, i, j);
      TokensRun(s);
      assert s[i..j] == s[..RunLength(s)];
    } else {
      TokensCompleteAfterRun(s, i, j);
    }
  }

  lemma {:induction false} TokensCompleteAfterGap(s: string, i: int, j: int)
    requires MaximalRun(s, i, j) && j - i >= 2 && !IsWordChar(s[0])
    ensures s[i..j] in Tokens(s)
    decreases |s|, 0
  {
    assert IsWordChar(s[i]);
    RunUnshift(s, 1, i, j);
    TokensComplete(s[1..], i - 1, j - 1);
    TokensSkip(s);
  }

  lemma {:induction false} TokensCompleteAfterRun(s: string, i: int, j: int)
    requires MaximalRun(s, i, j) && j - i >= 2 && IsWordChar(s[0]) && i > 0
    ensures s[i..j] in Tokens(s)
    decreases |s|, 0
  {
    var n := RunLength(s);
    RunAgainstFirst(s, i, j);
    RunUnshift(s, n, i, j);
    TokensComplete(s[n..], i - n, j - n);
    TokensRun(s);
  }

  /** Without two adjacent word characters there is no token. */
  lemma {:induction false} NoPairNoTokens(s: string)
    requires forall m :: 0 <= m < |s| - 1 ==> !(IsWordChar(s[m]) && IsWordChar(s[m + 1]))
    ensures Tokens(s) == []
    decreases |s|
  {
    if s != [] {
      if IsWordChar(s[0]) {
        assert RunLength(s) == 1 by {
          if |s| > 1 {
            assert !IsWordChar(s[1]);
          }
        }
      }
      NoPairNoTokens(s[1..]);
    }
  }

  /** `[t for t in tokens if t not in COMMON_STOPWORDS]`. */
  function WithoutStopwords(tokens: seq<string>): seq<string>
  {
    if tokens == [] then []
    else
      var rest := WithoutStopwords(tokens[..|tokens| - 1]);
      var last := tokens[|tokens| - 1];
      if last in CommonStopwords then rest else rest + [last]
  }

  /** The filter keeps exactly the tokens that are not stop-words. */
  lemma {:induction false} WithoutStopwordsMembers(tokens: seq<string>, t: string)
    ensures t in WithoutStopwords(tokens) <==> t in tokens && t !in CommonStopwords
    decreases |tokens|
  {
    if tokens != [] {
      var init := tokens[..|tokens| - 1];
      WithoutStopwordsMembers(init, t);
      assert tokens == init + [tokens[|tokens| - 1]];
    }
  }

  /**
   * `extract_keywords(text)`. Python returns `list(set(keywords))`, whose order is
   * unspecified; the model keeps first occurrences in order.
   */
  function ExtractKeywords(text: string): (r: seq<string>)
    ensures NoDup(r)
  {
    DedupNoDup(WithoutStopwords(Tokens(PyLower(text))));
    Dedup(WithoutStopwords(Tokens(PyLower(text))))
  }

  /** The keywords are the tokens of the lower-cased text that are not stop-words. */
  lemma KeywordsMembers(text: string, k: string)
    ensures k in ExtractKeywords(text) <==> k in Tokens(PyLower(text)) && k !in CommonStopwords
  {
    DedupMembers(WithoutStopwords(Tokens(PyLower(text))), k);
    WithoutStopwordsMembers(Tokens(PyLower(text)), k);
  }

  /**
   * Every keyword has at least two characters, each a Hangul syllable or a lower-case
   * ASCII letter, and is not a stop-word.
   */
  lemma KeywordShape(text: string, k: string)
    requires k in ExtractKeywords(text)
    ensures |k| >= 2 && k !in CommonStopwords
    ensures forall m :: 0 <= m < |k| ==> ('가' <= k[m] <= '힣') || ('a' <= k[m] <= 'z')
  {
    var low := PyLower(text);
    KeywordsMembers(text, k);
    TokensSound(low, k);
    var i, j :| MaximalRun(low, i, j) && j - i >= 2 && low[i..j] == k;
    forall m | 0 <= m < |k|
      ensures ('가' <= k[m] <= '힣') || ('a' <= k[m] <= 'z')
    {
      assert k[m] == low[i + m];
    }
  }

  /**
   * Completeness: every maximal run of two or more word characters of the lower-cased
   * text is a keyword unless it is, as a whole, a stop-word.
   */
  lemma KeywordsComplete(text: string, i: int, j: int)
    requires MaximalRun(PyLower(text), i, j) && j - i >= 2
    requires PyLower(text)[i..j] !in CommonStopwords
    ensures PyLower(text)[i..j] in ExtractKeywords(text)
  {
    TokensComplete(PyLower(text), i, j);
    KeywordsMembers(text, PyLower(text)[i..j]);
  }

  /** Soundness: every keyword is a maximal run of the lower-cased text. */
  lemma KeywordsSound(text: string, k: string)
    requires k in ExtractKeywords(text)
    ensures exists i, j :: MaximalRun(PyLower(text), i, j) && PyLower(text)[i..j] == k
  {
    KeywordsMembers(text, k);
    TokensSound(PyLower(text), k);
  }

  /** A text without two adjacent word characters (after lower-casing) has no keywords. */
  lemma NoRunNoKeywords(text: string)
    requires forall m :: 0 <= m < |PyLower(text)| - 1 ==>
               !(IsWordChar(PyLower(text)[m]) && IsWordChar(PyLower(text)[m + 1]))
    ensures ExtractKeywords(text) == []
  {
    NoPairNoTokens(PyLower(text));
    assert WithoutStopwords([]) == [];
  }

  /** The running example has nothing for lower-casing to change. */
  lemma ExampleIsLower(text: string)
    requires text == "트리 구조 보여줘"
    ensures PyLower(text) == text
  {
    forall m | 0 <= m < |text| ensures KeepsCase(text[m]) {
      assert !('A' <= text[m] <= 'Z') && text[m] != '\U{212A}' && text[m] != '\U{0130}';
    }
    PyLowerUnchanged(text);
  }

  /** `Tokens` on a text that starts with a run of `n >= 2` word characters followed by a non-word character. */
  lemma TokensOfRun(s: string, n: nat)
    requires 2 <= n < |s| && !IsWordChar(s[n])
    requires forall k :: 0 <= k < n ==> IsWordChar(s[k])
    ensures Tokens(s) == [s[..n]] + Tokens(s[n + 1..])
  {
    RunLengthAtLeast(s, n);
    RunLengthAtMost(s, n);
    TokensAfterRun(s, n);
  }

  lemma TokensAfterRun(s: string, n: nat)
    requires 2 <= n < |s| && !IsWordChar(s[n]) && RunLength(s) == n
    ensures Tokens(s) == [s[..n]] + Tokens(s[n + 1..])
  {
    TokensRun(s);
    TokensSkip(s[n..]);
    assert s[n..][1..] == s[n + 1..];
  }


  lemma ExampleFirstToken(s: string)
    requires s == "트리 구조 보여줘"
    ensures Tokens(s) == ["트리"] + Tokens(s[3..]) && s[3..] == "구조 보여줘"
  {
    assert IsWordChar(s[0]) && IsWordChar(s[1]) && !IsWordChar(s[2]);
    TokensOfRun(s, 2);
    assert s[..2] == "트리";
  }

  lemma ExampleSecondToken(s: string)
    requires s == "구조 보여줘"
    ensures Tokens(s) == ["구조"] + Tokens(s[3..]) && s[3..] == "보여줘"
  {
    TokensOfRun(s, 2);
    assert s[..2] == "구조";
  }

  lemma ExampleLastToken(s: string)
    requires s == "보여줘"
    ensures Tokens(s) == [s]
  {
    RunLengthAtLeast(s, 3);
    assert s[..3] == s && s[3..] == [];
  }

  /** The tokens of the running example. */
  lemma ExampleTokens(s: string)
    requires s == "트리 구조 보여줘"
    ensures Tokens(s) == ["트리", "구조", "보여줘"]
  {
    ExampleFirstToken(s);
    ExampleSecondToken(s[3..]);
    ExampleLastToken(s[3..][3..]);
  }

  /** None of the running example's tokens is a stop-word. */
  lemma ExampleNoStopwords(ks: seq<string>)
    requires ks == ["트리", "구조", "보여줘"]
    ensures WithoutStopwords(ks) == ks
  {
    assert ks[..2][..1] == ks[..1] && ks[..1][..0] == [];
    assert "트리" !in CommonStopwords && "구조" !in CommonStopwords && "보여줘" !in CommonStopwords;
    assert WithoutStopwords(ks[..1]) == ks[..1];
    assert WithoutStopwords(ks[..2]) == ks[..2];
  }

  /**
   * Stop-words are removed only as whole tokens: "보여줘" contains the stop-word "줘"
   * and is still a keyword of "트리 구조 보여줘", next to "트리" and "구조".
   */
  lemma StopwordsWholeTokensOnly(text: string)
    requires text == "트리 구조 보여줘"
    ensures "줘" in CommonStopwords && Contains("보여줘", "줘")
    ensures ExtractKeywords(text) == ["트리", "구조", "보여줘"]
  {
    StopwordInsideWord("보여줘");
    var ks := ["트리", "구조", "보여줘"];
    ExampleIsLower(text);
    ExampleTokens(text);
    ExampleNoStopwords(ks);
    ExampleDistinct(ks);
    KeywordsOfPlainTokens(text, ks);
  }

  lemma ExampleDistinct(ks: seq<string>)
    requires ks == ["트리", "구조", "보여줘"]
    ensures NoDup(ks)
  {
  }

  /** A text with nothing to lower-case, distinct tokens and no stop-word has its tokens as keywords. */
  lemma KeywordsOfPlainTokens(text: string, ks: seq<string>)
    requires PyLower(text) == text && Tokens(text) == ks && WithoutStopwords(ks) == ks && NoDup(ks)
    ensures ExtractKeywords(text) == ks
  {
    DedupOfNoDup(ks);
  }

  lemma StopwordInsideWord(w: string)
    requires w == "보여줘"
    ensures "줘" in CommonStopwords && Contains(w, "줘")
  {
    assert StartsWith(w[2..], "줘");
    assert Contains(w[1..], "줘");
  }

  /** `LowerChar` leaves `c` as it is. */
  predicate KeepsCase(c: char)
  {
    LowerChar(c) == [c]
  }

  /** Lower-casing leaves a text alone that has no character `LowerChar` changes. */
  lemma {:induction false} PyLowerUnchanged(s: string)
    requires forall m :: 0 <= m < |s| ==> KeepsCase(s[m])
    ensures PyLower(s) == s
  {
    if s != [] {
      var init, last := s[..|s| - 1], s[|s| - 1];
      assert KeepsCase(last);
      PyLowerUnchanged(init);
      assert PyLower(s) == PyLower(init) + LowerChar(last);
      assert s == init + [last];
    }
  }
}
