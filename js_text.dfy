/** The string operations of JavaScript that the trainer's code relies on:
    lower-casing, `trim`, substring search, `split`/`join` and the character
    classes that its regular expressions use. Strings are sequences of
    Unicode scalar values. */
module JsText {

  datatype Option<T> = None | Some(value: T)

  /** The characters JavaScript's `\s` and `String.prototype.trim` treat as
      white space: the Unicode space separators, tab, vertical tab, form
      feed, the byte order mark and the line terminators. */
  predicate IsSpace(c: char)
  {
    c == ' ' || c == '\t' || c == '\n' || c == '\U{000B}' || c == '\U{000C}' || c == '\r'
    || c == '\U{00A0}' || c == '\U{1680}' || ('\U{2000}' <= c <= '\U{200A}')
    || c == '\U{2028}' || c == '\U{2029}' || c == '\U{202F}' || c == '\U{205F}'
    || c == '\U{3000}' || c == '\U{FEFF}'
  }

  /** The characters a regular expression's `.` does not match. */
  predicate IsLineTerminator(c: char)
  {
    c == '\n' || c == '\r' || c == '\U{2028}' || c == '\U{2029}'
  }

  predicate IsDigit(c: char) { '0' <= c <= '9' }

  predicate IsAsciiLower(c: char) { 'a' <= c <= 'z' }

  predicate IsAsciiLetter(c: char) { 'a' <= c <= 'z' || 'A' <= c <= 'Z' }

  /** The class `[a-z0-9]` under the `i` flag. */
  predicate IsAsciiAlnum(c: char) { IsAsciiLetter(c) || IsDigit(c) }

  /** A word character of `\b`: `[A-Za-z0-9_]`; Cyrillic letters are not. */
  predicate IsWordChar(c: char) { IsAsciiAlnum(c) || c == '_' }

  /** The Cyrillic range `а-я` (U+0430..U+044F); `ё` lies outside it. */
  predicate IsCyrillicLower(c: char) { 'а' <= c <= 'я' }

  /** `toLowerCase` on the scripts the trainer's texts use: ASCII A-Z,
      Cyrillic А-Я and the Cyrillic letters Ѐ-Џ (which include Ё). */
  function LowerChar(c: char): (r: char)
    ensures 'A' <= c <= 'Z' ==> IsAsciiLower(r)
    ensures IsAsciiLower(c) || IsDigit(c) ==> r == c
    ensures !IsAsciiLetter(c) ==> !IsAsciiLetter(r)
    ensures IsSpace(r) <==> IsSpace(c)
  {
    if 'A' <= c <= 'Z' then (c as int + 32) as char
    else if '\U{0410}' <= c <= '\U{042F}' then (c as int + 32) as char
    else if '\U{0400}' <= c <= '\U{040F}' then (c as int + 80) as char
    else c
  }

  function Lower(s: string): (r: string)
    ensures |r| == |s|
    ensures forall i :: 0 <= i < |s| ==> r[i] == LowerChar(s[i])
  {
    seq(|s|, i requires 0 <= i < |s| => LowerChar(s[i]))
  }

  lemma LowerAppend(a: string, b: string)
    ensures Lower(a + b) == Lower(a) + Lower(b)
  {
  }

  /** Number of leading white-space characters. */
  function LeadingSpaces(s: string): (n: nat)
    ensures n <= |s|
  {
    if |s| == 0 || !IsSpace(s[0]) then 0 else 1 + LeadingSpaces(s[1..])
  }

  lemma {:induction false} LeadingSpacesSpec(s: string)
    ensures forall i :: 0 <= i < LeadingSpaces(s) ==> IsSpace(s[i])
    ensures LeadingSpaces(s) < |s| ==> !IsSpace(s[LeadingSpaces(s)])
    decreases |s|
  {
    if |s| > 0 && IsSpace(s[0]) {
      LeadingSpacesSpec(s[1..]);
    }
  }

  /** Number of trailing white-space characters. */
  function TrailingSpaces(s: string): (n: nat)
    ensures n <= |s|
  {
    if |s| == 0 || !IsSpace(s[|s| - 1]) then 0 else 1 + TrailingSpaces(s[..|s| - 1])
  }

  lemma {:induction false} TrailingSpacesSpec(s: string)
    ensures forall i :: |s| - TrailingSpaces(s) <= i < |s| ==> IsSpace(s[i])
    ensures TrailingSpaces(s) < |s| ==> !IsSpace(s[|s| - 1 - TrailingSpaces(s)])
    decreases |s|
  {
    if |s| > 0 && IsSpace(s[|s| - 1]) {
      TrailingSpacesSpec(s[..|s| - 1]);
    }
  }

  /** `String.prototype.trim`. */
  function Trim(s: string): (r: string)
    ensures |r| <= |s|
  {
    var a := LeadingSpaces(s);
    s[a..][..|s| - a - TrailingSpaces(s[a..])]
  }

  /** `trim` removes white space at both ends, and only there: the result is
      a piece of the input that neither starts nor ends with white space, and
      everything cut away is white space. */
  lemma TrimSpec(s: string)
    ensures |Trim(s)| <= |s|
    ensures Trim(s) != [] ==> !IsSpace(Trim(s)[0]) && !IsSpace(Trim(s)[|Trim(s)| - 1])
    ensures var a := LeadingSpaces(s);
      a + |Trim(s)| <= |s| && s[a..a + |Trim(s)|] == Trim(s)
      && (forall i :: 0 <= i < a ==> IsSpace(s[i]))
      && (forall i :: a + |Trim(s)| <= i < |s| ==> IsSpace(s[i]))
  {
    TrimPiece(s);
    TrimEdges(s);
  }

  lemma TrimPiece(s: string)
    ensures var a := LeadingSpaces(s);
      a + |Trim(s)| <= |s| && s[a..a + |Trim(s)|] == Trim(s)
      && (forall i :: 0 <= i < a ==> IsSpace(s[i]))
      && (forall i :: a + |Trim(s)| <= i < |s| ==> IsSpace(s[i]))
  {
    var a := LeadingSpaces(s);
    var t := s[a..];
    var n := |t| - TrailingSpaces(t);
    assert Trim(s) == s[a..a + n] by {
      assert Trim(s) == t[..n];
    }
    LeadingSpacesSpec(s);
    SpacesAfterPiece(s, a);
  }

  lemma SpacesAfterPiece(s: string, a: nat)
    requires a <= |s|
    ensures forall i :: |s| - TrailingSpaces(s[a..]) <= i < |s| ==> IsSpace(s[i])
  {
    var t := s[a..];
    TrailingSpacesSpec(t);
    forall i | |s| - TrailingSpaces(t) <= i < |s|
      ensures IsSpace(s[i])
    {
      assert s[i] == t[i - a];
    }
  }

  lemma TrimEdges(s: string)
    ensures Trim(s) != [] ==> !IsSpace(Trim(s)[0]) && !IsSpace(Trim(s)[|Trim(s)| - 1])
  {
    var a := LeadingSpaces(s);
    var t := s[a..];
    var b := TrailingSpaces(t);
    var n := |t| - b;
    if n > 0 {
      LeadingSpacesSpec(s);
      TrailingSpacesSpec(t);
      assert Trim(s)[0] == t[0] == s[a];
      assert Trim(s)[n - 1] == t[|t| - 1 - b];
    }
  }

  lemma TrimAllSpace(s: string)
    requires forall i :: 0 <= i < |s| ==> IsSpace(s[i])
    ensures Trim(s) == []
  {
    TrimSpec(s);
  }

  lemma TrimNoEdgeSpace(s: string)
    requires s != [] ==> !IsSpace(s[0]) && !IsSpace(s[|s| - 1])
    ensures Trim(s) == s
  {
  }

  /** The text `s` holds `w` at position `i`. */
  predicate StartsAt(s: string, i: int, w: string)
  {
    0 <= i && i + |w| <= |s| && s[i..i + |w|] == w
  }

  /** `s.includes(w)`. */
  predicate Contains(s: string, w: string)
  {
    exists i :: 0 <= i <= |s| - |w| && StartsAt(s, i, w)
  }

  /** A literal alternation `(w1|w2|...)` tested anywhere in `s`. */
  predicate ContainsAny(s: string, words: seq<string>)
  {
    exists k :: 0 <= k < |words| && Contains(s, words[k])
  }

  lemma ContainsAt(s: string, i: int, w: string)
    requires StartsAt(s, i, w)
    ensures Contains(s, w)
  {
  }

  lemma ContainsAnyAt(s: string, words: seq<string>, k: int, i: int)
    requires 0 <= k < |words| && StartsAt(s, i, words[k])
    ensures ContainsAny(s, words)
  {
  }

  /** A match is kept inside a longer text. */
  lemma ContainsInfix(a: string, s: string, b: string, w: string)
    requires Contains(s, w)
    ensures Contains(a + s + b, w)
  {
    var i :| 0 <= i <= |s| - |w| && StartsAt(s, i, w);
    assert (a + s + b)[|a| + i..|a| + i + |w|] == s[i..i + |w|];
    assert StartsAt(a + s + b, |a| + i, w);
  }

  /** Index of the first occurrence of `w` in `s` at or after `from`. */
  function IndexOfFrom(s: string, w: string, from: nat): (r: Option<nat>)
    decreases |s| - from
    ensures r.Some? ==> from <= r.value && StartsAt(s, r.value, w)
    ensures r.Some? ==> forall j :: from <= j < r.value ==> !StartsAt(s, j, w)
    ensures r.None? ==> forall j :: from <= j ==> !StartsAt(s, j, w)
  {
    if from + |w| > |s| then None
    else if s[from..from + |w|] == w then Some(from)
    else IndexOfFrom(s, w, from + 1)
  }

  function IndexOf(s: string, w: string): (r: Option<nat>)
    ensures r.Some? <==> Contains(s, w)
    ensures r.Some? ==> StartsAt(s, r.value, w) && forall j :: 0 <= j < r.value ==> !StartsAt(s, j, w)
  {
    IndexOfFrom(s, w, 0)
  }

  /** The text a string replacement inserts for one match (GetSubstitution
      in ECMAScript): "$$" stands for "$", "$&" for the matched text, "$`"
      for the text before the match and "$'" for the text after it. A
      string pattern has no capture groups, so every other "$" is kept as
      written. */
  function Substitution(rep: string, matched: string, before: string, after: string): (r: string)
    ensures '$' !in rep ==> r == rep
  {
    if |rep| == 0 then ""
    else if rep[0] == '$' && |rep| >= 2 && rep[1] == '$' then "$" + Substitution(rep[2..], matched, before, after)
    else if rep[0] == '$' && |rep| >= 2 && rep[1] == '&' then matched + Substitution(rep[2..], matched, before, after)
    else if rep[0] == '$' && |rep| >= 2 && rep[1] == '`' then before + Substitution(rep[2..], matched, before, after)
    else if rep[0] == '$' && |rep| >= 2 && rep[1] == '\'' then after + Substitution(rep[2..], matched, before, after)
    else [rep[0]] + Substitution(rep[1..], matched, before, after)
  }

  /** `s.replace(w, rep)` with a string pattern: only the first occurrence
      is replaced, by `rep` with its "$" patterns expanded. */
  function ReplaceFirst(s: string, w: string, rep: string): (r: string)
    ensures !Contains(s, w) ==> r == s
    ensures Contains(s, w) ==> exists i :: (&& StartsAt(s, i, w)
      && (forall j :: 0 <= j < i ==> !StartsAt(s, j, w))
      && r == s[..i] + Substitution(rep, w, s[..i], s[i + |w|..]) + s[i + |w|..])
  {
    match IndexOf(s, w)
    case None => s
    case Some(i) => s[..i] + Substitution(rep, w, s[..i], s[i + |w|..]) + s[i + |w|..]
  }

  /** `s.split(sep)` where `sep` matches exactly the single characters
      satisfying `isSep`: one more piece than there are separators. */
  function SplitWhere(s: string, isSep: char -> bool): (parts: seq<string>)
    ensures |parts| >= 1
    ensures forall k, i :: 0 <= k < |parts| && 0 <= i < |parts[k]| ==> !isSep(parts[k][i])
  {
    if |s| == 0 then [""]
    else
      var rest := SplitWhere(s[1..], isSep);
      if isSep(s[0]) then [""] + rest else [[s[0]] + rest[0]] + rest[1..]
  }

  /** `s.split(c)` on a single character. */
  function Split(s: string, c: char): (parts: seq<string>)
    ensures |parts| >= 1
    ensures forall k, i :: 0 <= k < |parts| && 0 <= i < |parts[k]| ==> parts[k][i] != c
  {
    SplitWhere(s, x => x == c)
  }

  /** `parts.join(sep)`. */
  function Join(parts: seq<string>, sep: string): string
  {
    if |parts| == 0 then ""
    else if |parts| == 1 then parts[0]
    else parts[0] + sep + Join(parts[1..], sep)
  }

  /** Splitting on a character and joining with it gives the text back. */
  lemma {:induction false} JoinSplit(s: string, c: char)
    ensures Join(Split(s, c), [c]) == s
  {
    JoinSplitWhere(s, c);
  }

  lemma {:induction false} JoinSplitWhere(s: string, c: char)
    ensures Join(SplitWhere(s, x => x == c), [c]) == s
    decreases |s|
  {
    if |s| > 0 {
      var rest := SplitWhere(s[1..], x => x == c);
      JoinSplitWhere(s[1..], c);
      if s[0] == c {
        assert SplitWhere(s, x => x == c) == [""] + rest;
        assert Join([""] + rest, [c]) == "" + [c] + Join(rest, [c]);
        assert s == [s[0]] + s[1..];
      } else {
        var first := [s[0]] + rest[0];
        assert SplitWhere(s, x => x == c) == [first] + rest[1..];
        if |rest| == 1 {
          assert Join(rest, [c]) == rest[0];
          assert s == [s[0]] + s[1..];
        } else {
          assert Join(rest, [c]) == rest[0] + [c] + Join(rest[1..], [c]);
          assert ([first] + rest[1..])[1..] == rest[1..];
          assert s == [s[0]] + s[1..];
        }
      }
    }
  }

  /** A prefix without separators stays glued to the first piece of what
      follows it. */
  lemma {:induction false} SplitAfterPlain(a: string, b: string, isSep: char -> bool)
    requires forall i :: 0 <= i < |a| ==> !isSep(a[i])
    ensures var rest := SplitWhere(b, isSep);
      SplitWhere(a + b, isSep) == [a + rest[0]] + rest[1..]
    decreases |a|
  {
    var rest := SplitWhere(b, isSep);
    if |a| > 0 {
      SplitAfterPlain(a[1..], b, isSep);
      assert (a + b)[1..] == a[1..] + b;
      assert (a + b)[0] == a[0];
      var tail := SplitWhere(a[1..] + b, isSep);
      assert tail == [a[1..] + rest[0]] + rest[1..];
      assert SplitWhere(a + b, isSep) == [[a[0]] + tail[0]] + tail[1..];
      assert [a[0]] + (a[1..] + rest[0]) == a + rest[0];
      assert tail[1..] == rest[1..];
    } else {
      assert a == [] && a + b == b;
      assert a + rest[0] == rest[0];
      assert [rest[0]] + rest[1..] == rest;
    }
  }

  /** Joining pieces that do not hold the separator and splitting again
      gives the pieces back. */
  lemma SplitJoin(parts: seq<string>, c: char)
    requires |parts| >= 1
    requires forall k, i :: 0 <= k < |parts| && 0 <= i < |parts[k]| ==> parts[k][i] != c
    ensures Split(Join(parts, [c]), c) == parts
  {
    var isSep := (x: char) => x == c;
    var s := Join(parts, [c]);
    SplitWhereJoin(parts, c, isSep);
    SplitWhereAgree(s, isSep, x => x == c);
  }

  lemma {:induction false} SplitWhereJoin(parts: seq<string>, c: char, isSep: char -> bool)
    requires |parts| >= 1 && isSep(c)
    requires forall k, i :: 0 <= k < |parts| && 0 <= i < |parts[k]| ==> !isSep(parts[k][i])
    ensures SplitWhere(Join(parts, [c]), isSep) == parts
  {
    if |parts| == 1 {
      SplitAfterPlain(parts[0], "", isSep);
      assert parts[0] + "" == parts[0];
    } else {
      var rest := Join(parts[1..], [c]);
      assert forall k, i :: 0 <= k < |parts[1..]| && 0 <= i < |parts[1..][k]| ==> parts[1..][k][i] == parts[k + 1][i];
      SplitWhereJoin(parts[1..], c, isSep);
      SplitAfterSeparator(parts[0], rest, parts[1..], c, isSep);
      assert Join(parts, [c]) == parts[0] + ([c] + rest);
      assert [parts[0]] + parts[1..] == parts;
    }
  }

  /** A piece without separators, a separator and a text that splits into
      `restParts` split into the piece followed by `restParts`. */
  lemma SplitAfterSeparator(p: string, rest: string, restParts: seq<string>, c: char, isSep: char -> bool)
    requires isSep(c) && SplitWhere(rest, isSep) == restParts
    requires forall i :: 0 <= i < |p| ==> !isSep(p[i])
    ensures SplitWhere(p + ([c] + rest), isSep) == [p] + restParts
  {
    assert SplitWhere([c] + rest, isSep) == [""] + restParts by {
      assert ([c] + rest)[1..] == rest;
    }
    SplitAfterPlain(p, [c] + rest, isSep);
    assert ([""] + restParts)[1..] == restParts;
    assert p + "" == p;
  }

  /** A split depends only on how the separator test classifies the text's
      own characters. */
  lemma {:induction false} SplitWhereAgree(s: string, p: char -> bool, q: char -> bool)
    requires forall i :: 0 <= i < |s| ==> p(s[i]) == q(s[i])
    ensures SplitWhere(s, p) == SplitWhere(s, q)
    decreases |s|
  {
    if |s| > 0 {
      SplitWhereAgree(s[1..], p, q);
    }
  }

  lemma WordsAgree(s: string, p: char -> bool, q: char -> bool)
    requires forall i :: 0 <= i < |s| ==> p(s[i]) == q(s[i])
    ensures Words(s, p) == Words(s, q)
  {
    SplitWhereAgree(s, p, q);
  }

  /** The pieces of a split that are not empty (`.filter(Boolean)`). */
  function NonEmpty(parts: seq<string>): (r: seq<string>)
    ensures forall k :: 0 <= k < |r| ==> r[k] != []
    ensures forall w :: w in r ==> w in parts
    ensures |r| <= |parts|
  {
    if |parts| == 0 then []
    else if parts[0] == [] then NonEmpty(parts[1..])
    else [parts[0]] + NonEmpty(parts[1..])
  }

  /** `s.split(/[...]+/).filter(Boolean)`: the maximal runs of characters
      outside the separator class. */
  function Words(s: string, isSep: char -> bool): (r: seq<string>)
    ensures forall k :: 0 <= k < |r| ==> r[k] != []
    ensures forall k, i :: 0 <= k < |r| && 0 <= i < |r[k]| ==> !isSep(r[k][i])
  {
    var parts := SplitWhere(s, isSep);
    var r := NonEmpty(parts);
    assert forall k :: 0 <= k < |r| ==> r[k] in parts;
    r
  }

  /** A text made only of separators has no words, and a text with any other
      character has at least one. */
  lemma {:induction false} WordsEmptyIff(s: string, isSep: char -> bool)
    ensures Words(s, isSep) == [] <==> forall i :: 0 <= i < |s| ==> isSep(s[i])
    decreases |s|
  {
    if |s| > 0 {
      WordsEmptyIff(s[1..], isSep);
      var rest := SplitWhere(s[1..], isSep);
      if isSep(s[0]) {
        assert SplitWhere(s, isSep) == [""] + rest;
        assert NonEmpty([""] + rest) == NonEmpty(rest);
        assert (forall i :: 0 <= i < |s| ==> isSep(s[i])) <==> (forall i :: 0 <= i < |s[1..]| ==> isSep(s[1..][i]));
      } else {
        assert SplitWhere(s, isSep) == [[s[0]] + rest[0]] + rest[1..];
        assert NonEmpty([[s[0]] + rest[0]] + rest[1..])[0] == [s[0]] + rest[0];
      }
    }
  }

  /** The distinct elements of `xs` in order of first occurrence: the
      iteration order of `new Set(xs)`. */
  function Distinct<T(==, !new)>(xs: seq<T>): (r: seq<T>)
    ensures forall x :: x in r <==> x in xs
    ensures forall i, j :: 0 <= i < j < |r| ==> r[i] != r[j]
    ensures |r| <= |xs|
  {
    if |xs| == 0 then []
    else
      var init := Distinct(xs[..|xs| - 1]);
      var x := xs[|xs| - 1];
      assert forall y :: y in xs <==> y in xs[..|xs| - 1] || y == x;
      if x in init then init else init + [x]
  }

  /** Sum of a sequence of integers. */
  function Sum(xs: seq<int>): int
  {
    if |xs| == 0 then 0 else Sum(xs[..|xs| - 1]) + xs[|xs| - 1]
  }

  /** `String(n)` for a non-negative integer: its decimal digits. */
  function NatToString(n: nat): (r: string)
    ensures |r| >= 1
    ensures forall i :: 0 <= i < |r| ==> IsDigit(r[i])
    decreases n
  {
    var d := ['0' + (n % 10) as char];
    if n < 10 then d else NatToString(n / 10) + d
  }

  /** `String(n)` for an integer. */
  function IntToString(n: int): string
  {
    if n < 0 then "-" + NatToString(-n) else NatToString(n)
  }

  /** `Math.round`: the nearest integer, halves rounded up. */
  function JsRound(x: real): (r: int)
    ensures r as real - 0.5 <= x < r as real + 0.5
  {
    (x + 0.5).Floor
  }

  /** `Math.max(0, Math.min(100, x))`: a fractional score clamped into
      [0,100]. */
  function ClampReal(x: real): (r: real)
    ensures 0.0 <= r <= 100.0
    ensures 0.0 <= x <= 100.0 ==> r == x
    ensures x < 0.0 ==> r == 0.0
    ensures x > 100.0 ==> r == 100.0
  {
    if x < 0.0 then 0.0 else if x > 100.0 then 100.0 else x
  }

  lemma JsRoundInt(n: int)
    ensures JsRound(n as real) == n
  {
  }

  lemma JsRoundMonotone(x: real, y: real)
    requires x <= y
    ensures JsRound(x) <= JsRound(y)
  {
  }

  /** End of the run of white space starting at `i` (`\s+` is greedy). */
  function SpaceRunEnd(s: string, i: nat): (j: nat)
    requires i <= |s|
    ensures i <= j <= |s|
    ensures j == |s| || !IsSpace(s[j])
    decreases |s| - i
  {
    if i < |s| && IsSpace(s[i]) then SpaceRunEnd(s, i + 1) else i
  }

  /** Everything the run skips is white space. */
  lemma {:induction false} SpaceRunIsSpace(s: string, i: nat)
    requires i <= |s|
    ensures forall k :: i <= k < SpaceRunEnd(s, i) ==> IsSpace(s[k])
    decreases |s| - i
  {
    if i < |s| && IsSpace(s[i]) {
      SpaceRunIsSpace(s, i + 1);
    }
  }

  /** `a.*b` tested anywhere: `a`, then characters other than line
      terminators, then `b`. */
  predicate DotStar(s: string, a: string, b: string)
  {
    exists i, j :: 0 <= i && i + |a| <= j <= |s| - |b| && StartsAt(s, i, a) && StartsAt(s, j, b)
      && forall k :: i + |a| <= k < j ==> !IsLineTerminator(s[k])
  }

  /** One of `words` starts at `i`. */
  predicate StartsAny(s: string, i: int, words: seq<string>)
  {
    exists k :: 0 <= k < |words| && StartsAt(s, i, words[k])
  }

  /** `\b\d{4} \d{4} \d{4} \d{4}\b` at `i`: four groups of four digits
      separated by single spaces, with no word character on either side. */
  predicate CardAt(s: string, i: int)
  {
    0 <= i && i + 19 <= |s|
    && (forall k :: 0 <= k < 19 ==> if k % 5 == 4 then s[i + k] == ' ' else IsDigit(s[i + k]))
    && (i == 0 || !IsWordChar(s[i - 1]))
    && (i + 19 == |s| || !IsWordChar(s[i + 19]))
  }

  predicate HasCardNumber(s: string)
  {
    exists i :: 0 <= i <= |s| - 19 && CardAt(s, i)
  }
}
