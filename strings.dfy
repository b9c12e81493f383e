/**
 * The string primitives of Python and JavaScript that the core relies on, each
 * stated by the property that pins it down: `sep.join`, `strip`/`trim`, `split`,
 * `splitlines`, `lower`, `in`, `endswith`, code-point ordering and decimal rendering.
 */
module Strings {
  import opened Wrappers
  import opened Seqs

  // ---------------------------------------------------------------- join

  /** Python `sep.join(parts)`. */
  function Join(parts: seq<string>, sep: string): string
  {
    if |parts| == 0 then ""
    else if |parts| == 1 then parts[0]
    else Join(parts[..|parts| - 1], sep) + sep + parts[|parts| - 1]
  }

  lemma JoinSnoc(parts: seq<string>, x: string, sep: string)
    requires parts != []
    ensures Join(parts + [x], sep) == Join(parts, sep) + sep + x
  {
    assert (parts + [x])[..|parts|] == parts;
  }

  lemma {:induction false} JoinCons(x: string, parts: seq<string>, sep: string)
    requires parts != []
    ensures Join([x] + parts, sep) == x + sep + Join(parts, sep)
    decreases |parts|
  {
    if |parts| == 1 {
      assert [x] + parts == [x, parts[0]];
      assert [x, parts[0]][..1] == [x];
    } else {
      var init := parts[..|parts| - 1];
      var last := parts[|parts| - 1];
      assert [x] + parts == ([x] + init) + [last];
      JoinSnoc([x] + init, last, sep);
      JoinCons(x, init, sep);
      JoinSnoc(init, last, sep);
      assert init + [last] == parts;
    }
  }

  /** Joining a concatenation puts one separator between the two joined halves. */
  lemma {:induction false} JoinAppend(a: seq<string>, b: seq<string>, sep: string)
    requires a != [] && b != []
    ensures Join(a + b, sep) == Join(a, sep) + sep + Join(b, sep)
    decreases |b|
  {
    if |b| == 1 {
      assert b == [b[0]];
      JoinSnoc(a, b[0], sep);
    } else {
      var init := b[..|b| - 1];
      JoinAppend(a, init, sep);
      JoinAppendStep(a, init, b[|b| - 1], sep);
      assert init + [b[|b| - 1]] == b;
    }
  }

  lemma JoinAppendStep(a: seq<string>, init: seq<string>, last: string, sep: string)
    requires a != [] && init != []
    requires Join(a + init, sep) == Join(a, sep) + sep + Join(init, sep)
    ensures Join(a + (init + [last]), sep) == Join(a, sep) + sep + Join(init + [last], sep)
  {
    assert a + (init + [last]) == (a + init) + [last];
    JoinSnoc(a + init, last, sep);
    JoinSnoc(init, last, sep);
  }


  // ---------------------------------------------------------------- whitespace

  /** Python `str.isspace()` for one character: the characters `strip()` and `split()` remove. */
  predicate IsPySpace(c: char)
  {
    var n := c as int;
    (0x09 <= n <= 0x0D) || (0x1C <= n <= 0x20) || n == 0x85 || n == 0xA0 || n == 0x1680
    || (0x2000 <= n <= 0x200A) || n == 0x2028 || n == 0x2029 || n == 0x202F || n == 0x205F
    || n == 0x3000
  }

  /** The characters JavaScript's `String.prototype.trim` removes (white space and line terminators). */
  predicate IsJsSpace(c: char)
  {
    var n := c as int;
    (0x09 <= n <= 0x0D) || n == 0x20 || n == 0xA0 || n == 0x1680 || (0x2000 <= n <= 0x200A)
    || n == 0x2028 || n == 0x2029 || n == 0x202F || n == 0x205F || n == 0x3000 || n == 0xFEFF
  }

  /** Number of leading characters of `s` that satisfy `space`. */
  function LeadingSpace(s: string, space: char -> bool): (i: nat)
    ensures i <= |s|
    ensures forall k :: 0 <= k < i ==> space(s[k])
    ensures i < |s| ==> !space(s[i])
  {
    if s == [] || !space(s[0]) then 0 else 1 + LeadingSpace(s[1..], space)
  }

  /** The length of `s` once its trailing characters satisfying `space` are cut off. */
  function TrailingStart(s: string, space: char -> bool): (j: nat)
    ensures j <= |s|
    ensures forall k :: j <= k < |s| ==> space(s[k])
    ensures j > 0 ==> !space(s[j - 1])
  {
    if s == [] || !space(s[|s| - 1]) then |s| else TrailingStart(s[..|s| - 1], space)
  }

  /**
   * `s` without its leading and trailing `space` characters. The ensures clauses say
   * that exactly a run of spaces is removed at each end and the rest is kept verbatim.
   */
  function Trim(s: string, space: char -> bool): (r: string)
    ensures LeadingSpace(s, space) + |r| <= |s|
    ensures r == s[LeadingSpace(s, space)..LeadingSpace(s, space) + |r|]
    ensures forall k :: LeadingSpace(s, space) + |r| <= k < |s| ==> space(s[k])
    ensures r != [] ==> !space(r[0]) && !space(r[|r| - 1])
  {
    var i := LeadingSpace(s, space);
    var j := TrailingStart(s[i..], space);
    TrimmedPart(s, space, i, j);
    s[i..i + j]
  }

  /** The part `Trim` keeps is `s[i..i + j]`, and all after it is space. */
  lemma TrimmedPart(s: string, space: char -> bool, i: nat, j: nat)
    requires i == LeadingSpace(s, space) && j == TrailingStart(s[i..], space)
    ensures i + j <= |s|
    ensures forall k :: i + j <= k < |s| ==> space(s[k])
    ensures j > 0 ==> !space(s[i]) && !space(s[i + j - 1])
  {
    TrailingShifted(s[i..], space, i, s);
  }

  /** What `TrailingStart` says of `rest`, read in `s` of which `rest` is the part from `i` on. */
  lemma TrailingShifted(rest: string, space: char -> bool, i: nat, s: string)
    requires i <= |s| && rest == s[i..]
    ensures var j := TrailingStart(rest, space);
            && i + j <= |s|
            && (forall k :: i + j <= k < |s| ==> space(s[k]))
            && (j > 0 ==> !space(s[i + j - 1]))
  {
    var j := TrailingStart(rest, space);
    forall k | i + j <= k < |s| ensures space(s[k]) {
      assert s[k] == rest[k - i];
    }
    if j > 0 {
      assert s[i + j - 1] == rest[j - 1];
    }
  }

  /** Python `s.strip()`. */
  function PyStrip(s: string): (r: string)
    ensures r == Trim(s, IsPySpace)
  {
    Trim(s, IsPySpace)
  }

  /** JavaScript `s.trim()`. */
  function JsTrim(s: string): (r: string)
    ensures r == Trim(s, IsJsSpace)
  {
    Trim(s, IsJsSpace)
  }

  lemma TrimAllSpace(s: string, space: char -> bool)
    requires forall k :: 0 <= k < |s| ==> space(s[k])
    ensures Trim(s, space) == ""
  {
  }

  /** Number of leading characters of `s` that are not Python white space. */
  function FieldLength(s: string): (i: nat)
    ensures i <= |s|
    ensures forall k :: 0 <= k < i ==> !IsPySpace(s[k])
    ensures i < |s| ==> IsPySpace(s[i])
  {
    if s == [] || IsPySpace(s[0]) then 0 else 1 + FieldLength(s[1..])
  }

  /** The field that starts at a non-space `s[i]` is not empty and runs up to the next space or the end. */
  lemma FieldAt(s: string, i: nat)
    requires i < |s| && !IsPySpace(s[i])
    ensures var j := FieldLength(s[i..]); 0 < j && i + j <= |s|
    ensures forall k :: i <= k < i + FieldLength(s[i..]) ==> !IsPySpace(s[k])
    ensures var j := FieldLength(s[i..]); i + j == |s| || IsPySpace(s[i + j])
  {
    var t := s[i..];
    var j := FieldLength(t);
    assert t[0] == s[i];
    forall k | i <= k < i + j ensures !IsPySpace(s[k]) {
      assert s[k] == t[k - i];
    }
    if i + j < |s| {
      assert s[i + j] == t[j];
    }
  }

  /** Python `s.split()[0]`: the first whitespace-separated field, `None` where `split()` gives `[]`. */
  function FirstField(s: string): Option<string>
  {
    var i := LeadingSpace(s, IsPySpace);
    if i == |s| then None
    else
      var j := FieldLength(s[i..]);
      Some(s[i..i + j])
  }

  /** There is no field exactly when every character is white space. */
  lemma FirstFieldNone(s: string)
    ensures FirstField(s).None? <==> forall k :: 0 <= k < |s| ==> IsPySpace(s[k])
  {
    var i := LeadingSpace(s, IsPySpace);
    if i < |s| {
      assert !IsPySpace(s[i]);
    }
  }

  /**
   * A field is the non-empty run `s[i..i + j]` of non-space characters after the `i`
   * leading white-space characters, ended by a space or by the end of `s`.
   */
  lemma FirstFieldSome(s: string) returns (i: nat, j: nat)
    requires FirstField(s).Some?
    ensures i == LeadingSpace(s, IsPySpace) && 0 < j && i + j <= |s|
    ensures FirstField(s) == Some(s[i..i + j])
    ensures forall k :: i <= k < i + j ==> !IsPySpace(s[k])
    ensures i + j == |s| || IsPySpace(s[i + j])
  {
    i := LeadingSpace(s, IsPySpace);
    assert i < |s| && !IsPySpace(s[i]);
    FieldAt(s, i);
    j := FieldLength(s[i..]);
  }

  // ---------------------------------------------------------------- split

  /** The index of the first `c` in `s`, or `|s|` when there is none. */
  function IndexOf(s: string, c: char): (i: nat)
    ensures i <= |s|
    ensures c !in s[..i]
    ensures i < |s| ==> s[i] == c
  {
    if s == [] then 0 else if s[0] == c then 0 else 1 + IndexOf(s[1..], c)
  }

  /** The index of the last `c` in `s`. */
  function LastIndexOf(s: string, c: char): (r: Option<nat>)
    ensures r.Some? ==> r.value < |s| && s[r.value] == c && c !in s[r.value + 1..]
    ensures r.None? ==> c !in s
  {
    if s == [] then None
    else if s[|s| - 1] == c then Some(|s| - 1)
    else
      var r := LastIndexOf(s[..|s| - 1], c);
      assert r.Some? ==> s[r.value + 1..] == s[..|s| - 1][r.value + 1..] + [s[|s| - 1]];
      assert r.None? ==> s == s[..|s| - 1] + [s[|s| - 1]];
      r
  }

  /** Python `s.split(sep)` for a one-character separator. */
  function Split(s: string, sep: char): (r: seq<string>)
    ensures |r| >= 1
    ensures forall k :: 0 <= k < |r| ==> sep !in r[k]
    decreases |s|
  {
    var i := IndexOf(s, sep);
    if i == |s| then assert s[..i] == s; [s] else [s[..i]] + Split(s[i + 1..], sep)
  }

  /** `Split` is undone by joining with the separator, so no character is lost or added. */
  lemma {:induction false} SplitJoin(s: string, sep: char)
    ensures Join(Split(s, sep), [sep]) == s
    decreases |s|
  {
    var i := IndexOf(s, sep);
    if i < |s| {
      var head, tail := s[..i], s[i + 1..];
      var rest := Split(tail, sep);
      calc {
        Join(Split(s, sep), [sep]);
        Join([head] + rest, [sep]);
        { JoinCons(head, rest, [sep]); }
        head + [sep] + Join(rest, [sep]);
        { SplitJoin(tail, sep); }
        head + [sep] + tail;
        s;
      }
    } else {
      assert s[..i] == s;
    }
  }

  /** Joining parts that hold no separator and splitting again gives the parts back. */
  lemma {:induction false} JoinSplit(parts: seq<string>, sep: char)
    requires parts != []
    requires forall k :: 0 <= k < |parts| ==> sep !in parts[k]
    ensures Split(Join(parts, [sep]), sep) == parts
    decreases |parts|
  {
    var p := parts[0];
    IndexOfAbsent(p, sep);
    if |parts| == 1 {
      assert Join(parts, [sep]) == p;
    } else {
      var rest := parts[1..];
      assert parts == [p] + rest;
      JoinCons(p, rest, [sep]);
      var s := Join(parts, [sep]);
      var t := [sep] + Join(rest, [sep]);
      assert s == p + t;
      IndexOfPrefix(p, sep, t);
      assert IndexOf(s, sep) == |p| < |s|;
      assert s[|p| + 1..] == Join(rest, [sep]);
      assert s[..|p|] == p;
      assert forall k :: 0 <= k < |rest| ==> rest[k] == parts[k + 1];
      JoinSplit(rest, sep);
      assert Split(s, sep) == [s[..|p|]] + Split(s[|p| + 1..], sep);
    }
  }

  lemma {:induction false} IndexOfAbsent(s: string, c: char)
    requires c !in s
    ensures IndexOf(s, c) == |s|
    decreases |s|
  {
    if s != [] {
      assert c !in s[1..];
      IndexOfAbsent(s[1..], c);
    }
  }

  lemma {:induction false} IndexOfPrefix(s: string, c: char, t: string)
    requires c !in s && t != [] && t[0] == c
    ensures IndexOf(s + t, c) == |s|
    decreases |s|
  {
    if s != [] {
      assert (s + t)[1..] == s[1..] + t;
      assert c !in s[1..];
      IndexOfPrefix(s[1..], c, t);
    }
  }

  /** `Join` holds each part as a contiguous block. */
  lemma {:induction false} JoinInfix(parts: seq<string>, k: nat, sep: string)
    requires k < |parts|
    ensures Infix(parts[k], Join(parts, sep))
    decreases |parts|
  {
    var last := |parts| - 1;
    var j := Join(parts, sep);
    if |parts| == 1 {
      assert InfixAt(parts[k], j, 0);
    } else if k == last {
      assert InfixAt(parts[k], j, |j| - |parts[k]|);
    } else {
      JoinInfix(parts[..last], k, sep);
      assert parts[..last][k] == parts[k];
      InfixAppend(parts[k], Join(parts[..last], sep), [], sep + parts[last]);
      assert [] + Join(parts[..last], sep) + (sep + parts[last]) == j;
    }
  }

  /** A string with no Python white space at either end is its own `strip()`. */
  lemma PyStripUnchanged(s: string)
    requires s != [] && !IsPySpace(s[0]) && !IsPySpace(s[|s| - 1])
    ensures PyStrip(s) == s
  {
    assert LeadingSpace(s, IsPySpace) == 0;
    assert s[0..] == s;
    assert TrailingStart(s, IsPySpace) == |s|;
  }

  /** The line boundaries of Python's `str.splitlines()`. */
  predicate IsLineBreak(c: char)
  {
    var n := c as int;
    (0x0A <= n <= 0x0D) || (0x1C <= n <= 0x1E) || n == 0x85 || n == 0x2028 || n == 0x2029
  }

  /** The index of the first line boundary in `s`, or `|s|`. */
  function LineLength(s: string): (i: nat)
    ensures i <= |s|
    ensures forall k :: 0 <= k < i ==> !IsLineBreak(s[k])
    ensures i < |s| ==> IsLineBreak(s[i])
  {
    if s == [] || IsLineBreak(s[0]) then 0 else 1 + LineLength(s[1..])
  }

  /** Python `s.splitlines()`: lines without their terminators; "\r\n" is one terminator. */
  function SplitLines(s: string): (r: seq<string>)
    ensures s == "" <==> r == []
    ensures forall k, m :: 0 <= k < |r| && 0 <= m < |r[k]| ==> !IsLineBreak(r[k][m])
    decreases |s|
  {
    if s == [] then []
    else
      var i := LineLength(s);
      if i == |s| then [s]
      else
        var skip := if s[i] == '\r' && i + 1 < |s| && s[i + 1] == '\n' then 2 else 1;
        [s[..i]] + SplitLines(s[i + skip..])
  }

  lemma SplitLinesSingle(s: string)
    requires s != [] && forall k :: 0 <= k < |s| ==> !IsLineBreak(s[k])
    ensures SplitLines(s) == [s]
  {
  }

  // ---------------------------------------------------------------- case

  /**
   * Python `str.lower()` restricted to what can matter to the core: ASCII capitals,
   * KELVIN SIGN (lowered to 'k') and LATIN CAPITAL I WITH DOT ABOVE (lowered to "i"
   * followed by a combining dot) are the only characters whose lowering produces a
   * Hangul syllable or an ASCII letter; every other character is kept as it is.
   */
  function LowerChar(c: char): (r: string)
    ensures 'A' <= c <= 'Z' ==> r == [c - 'A' as char + 'a' as char]
    ensures forall k :: 0 <= k < |r| ==> !('A' <= r[k] <= 'Z')
  {
    if 'A' <= c <= 'Z' then [(c as int - 'A' as int + 'a' as int) as char]
    else if c == 'K' then "k"
    else if c == 'İ' then "i̇"
    else [c]
  }

  /** Python `s.lower()`, in the sense of `LowerChar`. */
  function PyLower(s: string): (r: string)
    ensures forall k :: 0 <= k < |r| ==> !('A' <= r[k] <= 'Z')
  {
    if s == [] then [] else PyLower(s[..|s| - 1]) + LowerChar(s[|s| - 1])
  }

  /** JavaScript `toLowerCase()` on ASCII; it is exact for comparisons against ASCII-only literals. */
  function AsciiLower(s: string): (r: string)
    ensures |r| == |s|
    ensures forall k :: 0 <= k < |s| ==> r[k] == if 'A' <= s[k] <= 'Z' then (s[k] as int + 32) as char else s[k]
  {
    seq(|s|, k requires 0 <= k < |s| => if 'A' <= s[k] <= 'Z' then (s[k] as int + 32) as char else s[k])
  }

  // ---------------------------------------------------------------- search

  predicate StartsWith(s: string, prefix: string)
  {
    |prefix| <= |s| && s[..|prefix|] == prefix
  }

  /** Python/JavaScript `s.endswith(suffix)`. */
  predicate EndsWith(s: string, suffix: string)
  {
    |suffix| <= |s| && s[|s| - |suffix|..] == suffix
  }

  /** Python `needle in hay` / JavaScript `hay.includes(needle)`. */
  predicate Contains(hay: string, needle: string)
    decreases |hay|
  {
    StartsWith(hay, needle) || (hay != [] && Contains(hay[1..], needle))
  }

  /** `needle` occurs in `hay` starting at index `i`. */
  predicate OccursAt(hay: string, needle: string, i: int)
  {
    0 <= i && i + |needle| <= |hay| && hay[i..i + |needle|] == needle
  }

  /** `Contains` holds exactly when the needle occurs at some offset. */
  lemma {:induction false} ContainsIff(hay: string, needle: string)
    ensures Contains(hay, needle) <==> exists i :: OccursAt(hay, needle, i)
    decreases |hay|
  {
    if StartsWith(hay, needle) {
      assert OccursAt(hay, needle, 0);
    } else if hay != [] {
      ContainsIff(hay[1..], needle);
      if Contains(hay[1..], needle) {
        var i :| OccursAt(hay[1..], needle, i);
        assert hay[i + 1..i + 1 + |needle|] == hay[1..][i..i + |needle|];
        assert OccursAt(hay, needle, i + 1);
      }
      if exists i :: OccursAt(hay, needle, i) {
        var i :| OccursAt(hay, needle, i);
        assert i != 0;
        assert hay[1..][i - 1..i - 1 + |needle|] == hay[i..i + |needle|];
        assert OccursAt(hay[1..], needle, i - 1);
      }
    } else {
      assert forall i :: !OccursAt(hay, needle, i);
    }
  }

  lemma ContainsAt(hay: string, needle: string, i: nat)
    requires OccursAt(hay, needle, i)
    ensures Contains(hay, needle)
  {
    ContainsIff(hay, needle);
  }

  /** A join starts with its first part. */
  lemma {:induction false} JoinStartsWithFirst(parts: seq<string>, sep: string)
    requires parts != []
    ensures StartsWith(Join(parts, sep), parts[0])
  {
    JoinInfix(parts, 0, sep);
    if |parts| > 1 {
      var init := parts[..|parts| - 1];
      JoinStartsWithFirst(init, sep);
      assert init[0] == parts[0];
      assert Join(parts, sep) == Join(init, sep) + sep + parts[|parts| - 1];
      assert Join(parts, sep)[..|parts[0]|] == Join(init, sep)[..|parts[0]|];
    }
  }

  // ---------------------------------------------------------------- ordering

  /** Python's `<` on `str`: lexicographic by code point, a proper prefix first. */
  predicate StrLt(a: string, b: string)
    decreases |a|
  {
    if a == [] then b != []
    else b != [] && (a[0] < b[0] || (a[0] == b[0] && StrLt(a[1..], b[1..])))
  }

  predicate StrLe(a: string, b: string)
  {
    a == b || StrLt(a, b)
  }

  lemma {:induction false} StrLtIrreflexive(a: string)
    ensures !StrLt(a, a)
    decreases |a|
  {
    if a != [] {
      StrLtIrreflexive(a[1..]);
    }
  }

  lemma {:induction false} StrLtTransitive(a: string, b: string, c: string)
    requires StrLt(a, b) && StrLt(b, c)
    ensures StrLt(a, c)
    decreases |a|
  {
    if a != [] && a[0] == b[0] && b[0] == c[0] {
      StrLtTransitive(a[1..], b[1..], c[1..]);
    }
  }

  lemma {:induction false} StrLtTotal(a: string, b: string)
    ensures a == b || StrLt(a, b) || StrLt(b, a)
    decreases |a|
  {
    if a != [] && b != [] && a[0] == b[0] {
      StrLtTotal(a[1..], b[1..]);
      if a[1..] == b[1..] {
        assert a == [a[0]] + a[1..] && b == [b[0]] + b[1..];
      }
    }
  }

  lemma StrLtAsymmetric(a: string, b: string)
    requires StrLt(a, b)
    ensures !StrLt(b, a)
  {
    if StrLt(b, a) {
      StrLtTransitive(a, b, a);
      StrLtIrreflexive(a);
    }
  }

  // ---------------------------------------------------------------- numbers

  function DigitChar(d: nat): (c: char)
    requires d < 10
    ensures '0' <= c <= '9'
  {
    ('0' as int + d) as char
  }

  /** JavaScript / Python rendering of a natural number in decimal. */
  function NatToString(n: nat): (r: string)
    ensures r != []
    ensures forall k :: 0 <= k < |r| ==> '0' <= r[k] <= '9'
    ensures r[0] == '0' ==> n == 0
  {
    if n < 10 then [DigitChar(n)] else NatToString(n / 10) + [DigitChar(n % 10)]
  }

  /** The number a string of decimal digits denotes. */
  function DecimalValue(s: string): nat
    requires forall k :: 0 <= k < |s| ==> '0' <= s[k] <= '9'
  {
    if s == [] then 0 else 10 * DecimalValue(s[..|s| - 1]) + (s[|s| - 1] as int - '0' as int)
  }

  /** Reading the rendering back gives the number: `NatToString` loses nothing. */
  lemma {:induction false} NatToStringRoundTrip(n: nat)
    ensures DecimalValue(NatToString(n)) == n
  {
    if n >= 10 {
      NatToStringRoundTrip(n / 10);
      var r := NatToString(n);
      assert r[..|r| - 1] == NatToString(n / 10);
    }
  }
}
