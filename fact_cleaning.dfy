/** `cleanAndTrimFact` of the root app's scenario generator: strip the
    markdown from a knowledge chunk, and shorten a long one to whole
    sentences, or, when too few sentences fit, to its first words. */
module FactCleaning {
  import opened JsText
  import opened Ranking

  /** End of the run of characters satisfying `p` from `i` on. */
  function RunWhile(s: string, i: nat, p: char -> bool): (j: nat)
    requires i <= |s|
    ensures i <= j <= |s|
    ensures j < |s| ==> !p(s[j])
    ensures i < |s| && p(s[i]) ==> i < j
    decreases |s| - i
  {
    if i < |s| && p(s[i]) then RunWhile(s, i + 1, p) else i
  }

  lemma {:induction false} RunWhileHolds(s: string, i: nat, p: char -> bool)
    requires i <= |s|
    ensures forall k :: i <= k < RunWhile(s, i, p) ==> p(s[k])
    decreases |s| - i
  {
    if i < |s| && p(s[i]) {
      RunWhileHolds(s, i + 1, p);
    }
  }

  // ---------------------------------------------------------------------
  // Markdown removal

  /** The `^` of a regular expression with the `m` flag. */
  predicate AtLineStart(s: string, i: int)
    requires 0 <= i <= |s|
  {
    i == 0 || IsLineTerminator(s[i - 1])
  }

  /** The test for one character. */
  function Is(c: char): char -> bool
  {
    x => x == c
  }

  /** `replace(/^#+\s*\/gm, '')` (with `many`) and `replace(/^-\s*\/gm, '')`
      (without): at every line start, a run of the marker (or one marker)
      and the white space after it are deleted. The white space may hold
      line breaks, after which the scan is at a line start again. */
  function StripLeads(s: string, lead: char, many: bool, i: nat): (r: string)
    requires i <= |s|
    ensures |r| <= |s| - i
    decreases |s| - i
  {
    if i == |s| then []
    else if AtLineStart(s, i) && s[i] == lead then
      var j := if many then RunWhile(s, i, Is(lead)) else i + 1;
      StripLeads(s, lead, many, SpaceRunEnd(s, j))
    else [s[i]] + StripLeads(s, lead, many, i + 1)
  }

  /** A text with no marker at a line start is left as it is. */
  lemma {:induction false} StripLeadsNone(s: string, lead: char, many: bool, i: nat)
    requires i <= |s|
    requires forall k :: i <= k < |s| && AtLineStart(s, k) ==> s[k] != lead
    ensures StripLeads(s, lead, many, i) == s[i..]
    decreases |s| - i
  {
    if i < |s| {
      StripLeadsNone(s, lead, many, i + 1);
    }
  }

  /** A piece made only of the marker and white space holds none of the
      other characters. */
  lemma NoOtherIn(s: string, i: nat, k: nat, lead: char)
    requires i <= k <= |s|
    requires forall m :: i <= m < k ==> s[m] == lead || IsSpace(s[m])
    ensures forall d :: d != lead && !IsSpace(d) ==> multiset(s[i..k])[d] == 0
  {
    forall d | d != lead && !IsSpace(d)
      ensures multiset(s[i..k])[d] == 0
    {
      assert forall m :: 0 <= m < k - i ==> s[i..k][m] == s[i + m];
      assert d !in s[i..k];
    }
  }

  /** Only the markers and the white space after them are deleted: every
      other character is kept as often as it occurs. */
  lemma StripLeadsKeepsText(s: string, lead: char, many: bool, i: nat)
    requires i <= |s|
    ensures forall d :: d != lead && !IsSpace(d) ==> multiset(StripLeads(s, lead, many, i))[d] == multiset(s[i..])[d]
  {
    forall d | d != lead && !IsSpace(d)
      ensures multiset(StripLeads(s, lead, many, i))[d] == multiset(s[i..])[d]
    {
      StripLeadsCount(s, lead, many, i, d);
    }
  }

  lemma {:induction false} StripLeadsCount(s: string, lead: char, many: bool, i: nat, d: char)
    requires i <= |s| && d != lead && !IsSpace(d)
    ensures multiset(StripLeads(s, lead, many, i))[d] == multiset(s[i..])[d]
    decreases |s| - i
  {
    if i < |s| {
      if AtLineStart(s, i) && s[i] == lead {
        var j := if many then RunWhile(s, i, Is(lead)) else i + 1;
        var k := SpaceRunEnd(s, j);
        assert StripLeads(s, lead, many, i) == StripLeads(s, lead, many, k);
        StripLeadsCount(s, lead, many, k, d);
        SkippedMarkerCount(s, lead, i, k, d);
      } else {
        assert StripLeads(s, lead, many, i) == [s[i]] + StripLeads(s, lead, many, i + 1);
        StripLeadsCount(s, lead, many, i + 1, d);
        KeptCharCount(s, i, StripLeads(s, lead, many, i + 1), d);
      }
    }
  }

  /** The markers and white space a line start loses hold no other
      character. */
  lemma SkippedMarkerCount(s: string, lead: char, i: nat, k: nat, d: char)
    requires i < |s| && s[i] == lead && d != lead && !IsSpace(d)
    requires k == SpaceRunEnd(s, RunWhile(s, i, Is(lead))) || k == SpaceRunEnd(s, i + 1)
    ensures i <= k <= |s| && multiset(s[i..])[d] == multiset(s[k..])[d]
  {
    var j := if k == SpaceRunEnd(s, i + 1) then i + 1 else RunWhile(s, i, Is(lead));
    RunWhileHolds(s, i, Is(lead));
    SpaceRunIsSpace(s, j);
    NoOtherIn(s, i, k, lead);
    SliceCount(s, i, k, d);
  }

  /** A kept character adds its own count to the rest's. */
  lemma KeptCharCount(s: string, i: nat, rest: string, d: char)
    requires i < |s| && multiset(rest)[d] == multiset(s[i + 1..])[d]
    ensures multiset([s[i]] + rest)[d] == multiset(s[i..])[d]
  {
    SliceCount(s, i, i + 1, d);
    assert s[i..i + 1] == [s[i]];
    ConsCount(s[i], rest, d);
  }

  /** Counting a character in a text split in two. */
  lemma SliceCount(s: string, i: nat, k: nat, d: char)
    requires i <= k <= |s|
    ensures multiset(s[i..])[d] == multiset(s[i..k])[d] + multiset(s[k..])[d]
  {
    assert s[i..] == s[i..k] + s[k..];
  }

  /** The text with the marker and all white space dropped: what a reader
      sees of it, in order. */
  function Visible(s: string, lead: char): (r: string)
    ensures forall k :: 0 <= k < |r| ==> r[k] != lead && !IsSpace(r[k])
  {
    if |s| == 0 then []
    else (if s[0] == lead || IsSpace(s[0]) then [] else [s[0]]) + Visible(s[1..], lead)
  }

  lemma {:induction false} VisibleAppend(front: string, back: string, lead: char)
    ensures Visible(front + back, lead) == Visible(front, lead) + Visible(back, lead)
    decreases |front|
  {
    if |front| > 0 {
      assert (front + back)[1..] == front[1..] + back;
      VisibleAppend(front[1..], back, lead);
      var h := if front[0] == lead || IsSpace(front[0]) then [] else [front[0]];
      assert Visible(front + back, lead) == h + Visible(front[1..] + back, lead);
      assert Visible(front, lead) == h + Visible(front[1..], lead);
    } else {
      assert front + back == back;
    }
  }

  /** A piece made only of the marker and white space shows nothing. */
  lemma {:induction false} VisibleOfMarkers(s: string, lead: char)
    requires forall k :: 0 <= k < |s| ==> s[k] == lead || IsSpace(s[k])
    ensures Visible(s, lead) == []
    decreases |s|
  {
    if |s| > 0 {
      assert forall k :: 0 <= k < |s[1..]| ==> s[1..][k] == s[k + 1];
      VisibleOfMarkers(s[1..], lead);
    }
  }

  /** The markers and white space a line start loses show nothing. */
  lemma SkippedMarkerVisible(s: string, lead: char, i: nat, k: nat)
    requires i < |s| && s[i] == lead
    requires k == SpaceRunEnd(s, RunWhile(s, i, Is(lead))) || k == SpaceRunEnd(s, i + 1)
    ensures i <= k <= |s| && Visible(s[i..], lead) == Visible(s[k..], lead)
  {
    var j := if k == SpaceRunEnd(s, i + 1) then i + 1 else RunWhile(s, i, Is(lead));
    RunWhileHolds(s, i, Is(lead));
    SpaceRunIsSpace(s, j);
    VisibleSkipsMarkers(s, i, k, lead);
  }

  lemma VisibleSkipsMarkers(s: string, i: nat, k: nat, lead: char)
    requires i <= k <= |s|
    requires forall m :: i <= m < k ==> s[m] == lead || IsSpace(s[m])
    ensures Visible(s[i..], lead) == Visible(s[k..], lead)
  {
    assert forall m :: 0 <= m < k - i ==> s[i..k][m] == s[i + m];
    VisibleOfMarkers(s[i..k], lead);
    assert s[i..] == s[i..k] + s[k..];
    VisibleAppend(s[i..k], s[k..], lead);
  }

  /** Only the markers and the white space after them are deleted, and the
      rest keeps its order: with markers and white space dropped, the result
      reads as the text. */
  lemma {:induction false} StripLeadsKeepsOrder(s: string, lead: char, many: bool, i: nat)
    requires i <= |s|
    ensures Visible(StripLeads(s, lead, many, i), lead) == Visible(s[i..], lead)
    decreases |s| - i
  {
    if i < |s| {
      if AtLineStart(s, i) && s[i] == lead {
        var j := if many then RunWhile(s, i, Is(lead)) else i + 1;
        var k := SpaceRunEnd(s, j);
        assert StripLeads(s, lead, many, i) == StripLeads(s, lead, many, k);
        StripLeadsKeepsOrder(s, lead, many, k);
        SkippedMarkerVisible(s, lead, i, k);
      } else {
        assert StripLeads(s, lead, many, i) == [s[i]] + StripLeads(s, lead, many, i + 1);
        StripLeadsKeepsOrder(s, lead, many, i + 1);
        VisibleAppend([s[i]], StripLeads(s, lead, many, i + 1), lead);
        assert s[i..] == [s[i]] + s[i + 1..];
        VisibleAppend([s[i]], s[i + 1..], lead);
      }
    }
  }

  /** `replace(/c/g, '')` for one character. */
  function Without(s: string, c: char): (r: string)
    ensures |r| <= |s|
    ensures forall k :: 0 <= k < |r| ==> r[k] != c
  {
    if |s| == 0 then []
    else (if s[0] == c then [] else [s[0]]) + Without(s[1..], c)
  }

  lemma {:induction false} WithoutAbsent(s: string, c: char)
    requires forall k :: 0 <= k < |s| ==> s[k] != c
    ensures Without(s, c) == s
  {
    if |s| > 0 {
      WithoutAbsent(s[1..], c);
    }
  }

  /** Deleting a character keeps the rest in order: the text's parts are
      cleaned one after the other, and a single character goes exactly when
      it is the deleted one. */
  lemma WithoutKeepsOrder(front: string, back: string, c: char)
    ensures Without(front + back, c) == Without(front, c) + Without(back, c)
    ensures forall x :: Without([x], c) == if x == c then [] else [x]
  {
    WithoutAppend(front, back, c);
    forall x
      ensures Without([x], c) == if x == c then [] else [x]
    {
      WithoutOne(x, c);
    }
  }

  lemma {:induction false} WithoutAppend(front: string, back: string, c: char)
    ensures Without(front + back, c) == Without(front, c) + Without(back, c)
    decreases |front|
  {
    if |front| > 0 {
      assert (front + back)[1..] == front[1..] + back;
      WithoutAppend(front[1..], back, c);
      var h := if front[0] == c then [] else [front[0]];
      assert Without(front + back, c) == h + Without(front[1..] + back, c);
      assert Without(front, c) == h + Without(front[1..], c);
    } else {
      assert front + back == back;
    }
  }

  lemma WithoutOne(x: char, c: char)
    ensures Without([x], c) == if x == c then [] else [x]
  {
    assert [x][1..] == [];
  }

  /** `replace(/\*\*\/g, '')`: the pairs of asterisks, scanned from the left. */
  function WithoutPairs(s: string): (r: string)
    ensures |r| <= |s|
  {
    if |s| >= 2 && s[0] == '*' && s[1] == '*' then WithoutPairs(s[2..])
    else if |s| == 0 then []
    else [s[0]] + WithoutPairs(s[1..])
  }

  /** Only asterisks are deleted: every other character is kept as often as
      it occurs. */
  lemma WithoutPairsKeepsText(s: string)
    ensures forall d :: d != '*' ==> multiset(WithoutPairs(s))[d] == multiset(s)[d]
  {
    forall d | d != '*'
      ensures multiset(WithoutPairs(s))[d] == multiset(s)[d]
    {
      WithoutPairsCount(s, d);
    }
  }

  lemma {:induction false} WithoutPairsCount(s: string, d: char)
    requires d != '*'
    ensures multiset(WithoutPairs(s))[d] == multiset(s)[d]
    decreases |s|
  {
    if |s| >= 2 && s[0] == '*' && s[1] == '*' {
      WithoutPairsCount(s[2..], d);
      SliceCount(s, 0, 2, d);
      assert s[0..] == s && s[0..2] == ['*', '*'];
      assert WithoutPairs(s) == WithoutPairs(s[2..]);
    } else if |s| > 0 {
      assert WithoutPairs(s) == [s[0]] + WithoutPairs(s[1..]);
      WithoutPairsCount(s[1..], d);
      ConsCount(s[0], WithoutPairs(s[1..]), d);
      HeadCount(s, d);
    }
  }

  /** Counting a character in a text with one more character in front. */
  lemma ConsCount(x: char, t: string, d: char)
    ensures multiset([x] + t)[d] == (if x == d then 1 else 0) + multiset(t)[d]
  {
  }

  /** A text without asterisks is left as it is. */
  lemma {:induction false} WithoutPairsAbsent(s: string)
    requires forall k :: 0 <= k < |s| ==> s[k] != '*'
    ensures WithoutPairs(s) == s
    decreases |s|
  {
    if |s| > 0 {
      assert s[0] != '*';
      assert forall k :: 0 <= k < |s[1..]| ==> s[1..][k] == s[k + 1];
      WithoutPairsAbsent(s[1..]);
      assert s == [s[0]] + s[1..];
    }
  }

  /** Removing the bold pairs first changes nothing: the italics pass that
      follows removes every asterisk in any case. */
  lemma {:induction false} BoldThenItalic(s: string)
    ensures Without(WithoutPairs(s), '*') == Without(s, '*')
    decreases |s|
  {
    if |s| >= 2 && s[0] == '*' && s[1] == '*' {
      BoldThenItalic(s[2..]);
      assert s[1..][1..] == s[2..];
    } else if |s| > 0 {
      BoldThenItalic(s[1..]);
      assert ([s[0]] + WithoutPairs(s[1..]))[1..] == WithoutPairs(s[1..]);
    }
  }

  /** `replace(/\n{2,}/g, ' ')`: every run of two or more line feeds
      becomes one space; a single line feed stays. */
  function CollapseBlankLines(s: string): (r: string)
    ensures |r| <= |s|
    ensures |s| > 0 ==> |r| > 0 && (r[0] == '\n' ==> s[0] == '\n' && (|s| == 1 || s[1] != '\n'))
    decreases |s|
  {
    if |s| >= 2 && s[0] == '\n' && s[1] == '\n' then
      " " + CollapseBlankLines(s[RunWhile(s, 0, Is('\n'))..])
    else if |s| == 0 then []
    else [s[0]] + CollapseBlankLines(s[1..])
  }

  /** No two line feeds in a row. */
  predicate NoBlankLine(s: string)
  {
    forall k :: 0 <= k < |s| - 1 ==> !(s[k] == '\n' && s[k + 1] == '\n')
  }

  /** Only line feeds are replaced, by spaces: every other character is
      kept as often as it occurs. */
  lemma CollapseKeepsText(s: string)
    ensures forall d :: d != '\n' && d != ' ' ==> multiset(CollapseBlankLines(s))[d] == multiset(s)[d]
  {
    forall d | d != '\n' && d != ' '
      ensures multiset(CollapseBlankLines(s))[d] == multiset(s)[d]
    {
      CollapseCount(s, d);
    }
  }

  lemma {:induction false} CollapseCount(s: string, d: char)
    requires d != '\n' && d != ' '
    ensures multiset(CollapseBlankLines(s))[d] == multiset(s)[d]
    decreases |s|
  {
    if |s| >= 2 && s[0] == '\n' && s[1] == '\n' {
      var e := RunWhile(s, 0, Is('\n'));
      assert CollapseBlankLines(s) == " " + CollapseBlankLines(s[e..]);
      CollapseCount(s[e..], d);
      BlankRunCount(s, e, d);
      ConsCount(' ', CollapseBlankLines(s[e..]), d);
    } else if |s| > 0 {
      assert CollapseBlankLines(s) == [s[0]] + CollapseBlankLines(s[1..]);
      CollapseCount(s[1..], d);
      ConsCount(s[0], CollapseBlankLines(s[1..]), d);
      HeadCount(s, d);
    }
  }

  /** Counting a character in a text by its first character and the rest. */
  lemma HeadCount(s: string, d: char)
    requires |s| > 0
    ensures multiset(s)[d] == (if s[0] == d then 1 else 0) + multiset(s[1..])[d]
  {
    assert s == [s[0]] + s[1..];
    ConsCount(s[0], s[1..], d);
  }

  /** A run of line feeds holds no other character. */
  lemma BlankRunCount(s: string, e: nat, d: char)
    requires e == RunWhile(s, 0, Is('\n')) && d != '\n'
    ensures multiset(s)[d] == multiset(s[e..])[d]
  {
    RunWhileHolds(s, 0, Is('\n'));
    NoOtherIn(s, 0, e, '\n');
    SliceCount(s, 0, e, d);
    assert s[0..] == s;
  }

  /** Line feeds and spaces dropped: what a collapse leaves alone. */
  function Unspaced(s: string): string
  {
    Without(Without(s, '\n'), ' ')
  }

  lemma UnspacedAppend(front: string, back: string)
    ensures Unspaced(front + back) == Unspaced(front) + Unspaced(back)
  {
    WithoutAppend(front, back, '\n');
    WithoutAppend(Without(front, '\n'), Without(back, '\n'), ' ');
  }

  /** A run of line feeds leaves nothing once they are dropped. */
  lemma {:induction false} WithoutAll(s: string, c: char)
    requires forall k :: 0 <= k < |s| ==> s[k] == c
    ensures Without(s, c) == []
    decreases |s|
  {
    if |s| > 0 {
      assert forall k :: 0 <= k < |s[1..]| ==> s[1..][k] == s[k + 1];
      WithoutAll(s[1..], c);
    }
  }

  /** The blank-line run and the space it becomes both vanish once line
      feeds and spaces are dropped. */
  lemma BlankRunUnspaced(s: string, e: nat, rest: string)
    requires e == RunWhile(s, 0, Is('\n'))
    ensures Unspaced(s) == Unspaced(s[e..]) && Unspaced(" " + rest) == Unspaced(rest)
  {
    RunWhileHolds(s, 0, Is('\n'));
    assert forall m :: 0 <= m < e ==> s[..e][m] == s[m];
    WithoutAll(s[..e], '\n');
    assert s == s[..e] + s[e..];
    UnspacedAppend(s[..e], s[e..]);
    WithoutOne(' ', '\n');
    WithoutOne(' ', ' ');
    UnspacedAppend(" ", rest);
  }

  /** Only line feeds are replaced, by spaces, and the rest keeps its order:
      with line feeds and spaces dropped, the result reads as the text. */
  lemma {:induction false} CollapseKeepsOrder(s: string)
    ensures Unspaced(CollapseBlankLines(s)) == Unspaced(s)
    decreases |s|
  {
    if |s| >= 2 && s[0] == '\n' && s[1] == '\n' {
      var e := RunWhile(s, 0, Is('\n'));
      assert CollapseBlankLines(s) == " " + CollapseBlankLines(s[e..]);
      CollapseKeepsOrder(s[e..]);
      BlankRunUnspaced(s, e, CollapseBlankLines(s[e..]));
    } else if |s| > 0 {
      assert CollapseBlankLines(s) == [s[0]] + CollapseBlankLines(s[1..]);
      CollapseKeepsOrder(s[1..]);
      UnspacedAppend([s[0]], CollapseBlankLines(s[1..]));
      assert s == [s[0]] + s[1..];
      UnspacedAppend([s[0]], s[1..]);
    }
  }

  /** A text without blank lines is left as it is. */
  lemma {:induction false} CollapseWithoutBlankLine(s: string)
    requires NoBlankLine(s)
    ensures CollapseBlankLines(s) == s
    decreases |s|
  {
    if |s| > 0 {
      assert !(|s| >= 2 && s[0] == '\n' && s[1] == '\n') by {
        if |s| >= 2 {
          assert !(s[0] == '\n' && s[1] == '\n');
        }
      }
      assert NoBlankLine(s[1..]) by {
        assert forall k :: 0 <= k < |s| - 1 ==> s[1..][k] == s[k + 1];
      }
      CollapseWithoutBlankLine(s[1..]);
      assert s == [s[0]] + s[1..];
    }
  }

  lemma {:induction false} CollapseLeavesNoBlankLine(s: string)
    ensures NoBlankLine(CollapseBlankLines(s))
    decreases |s|
  {
    if |s| >= 2 && s[0] == '\n' && s[1] == '\n' {
      var rest := s[RunWhile(s, 0, Is('\n'))..];
      assert CollapseBlankLines(s) == " " + CollapseBlankLines(rest);
      CollapseLeavesNoBlankLine(rest);
      assert forall k :: 1 <= k < |CollapseBlankLines(s)| ==> CollapseBlankLines(s)[k] == CollapseBlankLines(rest)[k - 1];
    } else if |s| > 0 {
      var r := CollapseBlankLines(s);
      var rest := CollapseBlankLines(s[1..]);
      CollapseLeavesNoBlankLine(s[1..]);
      assert r == [s[0]] + rest;
      assert forall k :: 1 <= k < |r| ==> r[k] == rest[k - 1];
    }
  }

  /** The markdown-free text: headings and list markers at line starts,
      asterisks and backticks removed, blank lines collapsed, and trimmed. */
  function Clean(text: string): (r: string)
    ensures r != [] ==> !IsSpace(r[0]) && !IsSpace(r[|r| - 1])
  {
    var noHeadings := StripLeads(text, '#', true, 0);
    var noBullets := StripLeads(noHeadings, '-', false, 0);
    var noEmphasis := Without(Without(WithoutPairs(noBullets), '*'), '`');
    var collapsed := CollapseBlankLines(noEmphasis);
    TrimEdges(collapsed);
    Trim(collapsed)
  }

  /** The cleaned text has no asterisk, no backtick, no blank line, and no
      white space at either end. */
  lemma CleanSpec(text: string)
    ensures var r := Clean(text);
      && (forall k :: 0 <= k < |r| ==> r[k] != '*' && r[k] != '`')
      && NoBlankLine(r)
  {
    var noBullets := StripLeads(StripLeads(text, '#', true, 0), '-', false, 0);
    var italicFree := Without(WithoutPairs(noBullets), '*');
    var noEmphasis := Without(italicFree, '`');
    NoCharAfterWithout(italicFree, '*', '`');
    var collapsed := CollapseBlankLines(noEmphasis);
    CollapseKeepsAbsent(noEmphasis, '*');
    CollapseKeepsAbsent(noEmphasis, '`');
    CollapseLeavesNoBlankLine(noEmphasis);
    TrimPiece(collapsed);
    var a := LeadingSpaces(collapsed);
    PieceKeepsClean(collapsed, a, a + |Trim(collapsed)|);
    assert Clean(text) == Trim(collapsed);
  }

  /** A text with no markdown is only trimmed: no asterisk or backtick, no
      "#" or "-" at a line start, and no blank line. */
  lemma CleanPlain(text: string)
    requires forall k :: 0 <= k < |text| ==> text[k] != '*' && text[k] != '`'
    requires forall k :: 0 <= k < |text| && AtLineStart(text, k) ==> text[k] != '#' && text[k] != '-'
    requires NoBlankLine(text)
    ensures Clean(text) == Trim(text)
  {
    StripLeadsNone(text, '#', true, 0);
    assert text[0..] == text;
    StripLeadsNone(text, '-', false, 0);
    WithoutPairsAbsent(text);
    WithoutAbsent(text, '*');
    WithoutAbsent(text, '`');
    CollapseWithoutBlankLine(text);
  }

  /** A piece of a text without asterisks, backticks or blank lines has
      none of them either. */
  lemma PieceKeepsClean(s: string, i: nat, j: nat)
    requires i <= j <= |s|
    requires forall k :: 0 <= k < |s| ==> s[k] != '*' && s[k] != '`'
    requires NoBlankLine(s)
    ensures forall k :: 0 <= k < j - i ==> s[i..j][k] != '*' && s[i..j][k] != '`'
    ensures NoBlankLine(s[i..j])
  {
    assert forall k :: 0 <= k < j - i ==> s[i..j][k] == s[i + k];
  }

  /** Removing one character keeps another one absent. */
  lemma {:induction false} NoCharAfterWithout(s: string, c: char, d: char)
    requires forall k :: 0 <= k < |s| ==> s[k] != c
    ensures forall k :: 0 <= k < |Without(s, d)| ==> Without(s, d)[k] != c
    decreases |s|
  {
    if |s| > 0 {
      NoCharAfterWithout(s[1..], c, d);
      var rest := Without(s[1..], d);
      var r := Without(s, d);
      assert r == (if s[0] == d then [] else [s[0]]) + rest;
    }
  }

  lemma {:induction false} CollapseKeepsAbsent(s: string, c: char)
    requires c != ' ' && c != '\n'
    requires forall k :: 0 <= k < |s| ==> s[k] != c
    ensures forall k :: 0 <= k < |CollapseBlankLines(s)| ==> CollapseBlankLines(s)[k] != c
    decreases |s|
  {
    var r := CollapseBlankLines(s);
    if |s| >= 2 && s[0] == '\n' && s[1] == '\n' {
      var rest := s[RunWhile(s, 0, x => x == '\n')..];
      CollapseKeepsAbsent(rest, c);
      assert forall k :: 1 <= k < |r| ==> r[k] == CollapseBlankLines(rest)[k - 1];
    } else if |s| > 0 {
      CollapseKeepsAbsent(s[1..], c);
      assert forall k :: 1 <= k < |r| ==> r[k] == CollapseBlankLines(s[1..])[k - 1];
    }
  }

  // ---------------------------------------------------------------------
  // Sentences

  predicate IsTerminator(c: char) { c == '.' || c == '!' || c == '?' }

  predicate IsSentenceChar(c: char) { !IsTerminator(c) }

  /** `text.match(/[^.!?]+[.!?]+/g) || []` from position `i`: each match is
      a run of other characters closed by a run of terminators; leading
      terminators are skipped and an unterminated tail is dropped. */
  function SentencesFrom(s: string, i: nat): (r: seq<string>)
    requires i <= |s|
    decreases |s| - i
  {
    var a := RunWhile(s, i, IsTerminator);
    var b := RunWhile(s, a, IsSentenceChar);
    if b == |s| then []
    else
      var c := RunWhile(s, b, IsTerminator);
      [s[a..c]] + SentencesFrom(s, c)
  }

  function Sentences(s: string): seq<string>
  {
    SentencesFrom(s, 0)
  }

  /** `parts.join('')`. */
  function Concat(parts: seq<string>): (r: string)
  {
    if |parts| == 0 then [] else Concat(parts[..|parts| - 1]) + parts[|parts| - 1]
  }

  lemma {:induction false} ConcatCons(x: string, parts: seq<string>)
    ensures Concat([x] + parts) == x + Concat(parts)
    decreases |parts|
  {
    if |parts| > 0 {
      var init := parts[..|parts| - 1];
      ConcatCons(x, init);
      assert ([x] + parts)[..|parts|] == [x] + init;
    } else {
      assert [x] + parts == [x];
      assert [x][..0] == [];
    }
  }

  /** Where the text the sentences from `i` cover ends: after the last
      run of terminators. */
  function CoverEnd(s: string, i: nat): (e: nat)
    requires i <= |s|
    ensures RunWhile(s, i, IsTerminator) <= e <= |s|
    decreases |s| - i
  {
    var a := RunWhile(s, i, IsTerminator);
    var b := RunWhile(s, a, IsSentenceChar);
    if b == |s| then a else CoverEnd(s, RunWhile(s, b, IsTerminator))
  }

  /** The sentences are consecutive pieces of the text: together they are
      the text after its leading terminators, up to where only an
      unterminated tail is left. */
  lemma {:induction false} SentencesCover(s: string, i: nat)
    requires i <= |s|
    ensures var a := RunWhile(s, i, IsTerminator);
      var e := CoverEnd(s, i);
      && Concat(SentencesFrom(s, i)) == s[a..e]
      && forall k :: e <= k < |s| ==> !IsTerminator(s[k])
    decreases |s| - i
  {
    var a := RunWhile(s, i, IsTerminator);
    var b := RunWhile(s, a, IsSentenceChar);
    if b == |s| {
      RunWhileHolds(s, a, IsSentenceChar);
      assert SentencesFrom(s, i) == [];
    } else {
      var c := RunWhile(s, b, IsTerminator);
      assert SentencesFrom(s, i) == [s[a..c]] + SentencesFrom(s, c);
      assert CoverEnd(s, i) == CoverEnd(s, c);
      SentencesCover(s, c);
      assert RunWhile(s, c, IsTerminator) == c;
      ConcatCons(s[a..c], SentencesFrom(s, c));
      var e := CoverEnd(s, c);
      assert s[a..c] + s[c..e] == s[a..e];
    }
  }

  /** Every sentence ends with a terminator. */
  lemma {:induction false} SentencesEndClosed(s: string, i: nat)
    requires i <= |s|
    ensures forall k :: 0 <= k < |SentencesFrom(s, i)| ==>
              SentencesFrom(s, i)[k] != [] && IsTerminator(SentencesFrom(s, i)[k][|SentencesFrom(s, i)[k]| - 1])
    decreases |s| - i
  {
    var a := RunWhile(s, i, IsTerminator);
    var b := RunWhile(s, a, IsSentenceChar);
    if b < |s| {
      var c := RunWhile(s, b, IsTerminator);
      RunWhileHolds(s, b, IsTerminator);
      SentencesEndClosed(s, c);
      var r := SentencesFrom(s, i);
      assert r[0] == s[a..c] && s[a..c][c - a - 1] == s[c - 1];
      assert forall k :: 1 <= k < |r| ==> r[k] == SentencesFrom(s, c)[k - 1];
    }
  }

  /** How many leading sentences the loop keeps within `budget` characters:
      it stops at the first one that no longer fits. */
  function Kept(sentences: seq<string>, budget: int): (n: nat)
    ensures n <= |sentences|
  {
    if |sentences| == 0 || |sentences[0]| > budget then 0
    else 1 + Kept(sentences[1..], budget - |sentences[0]|)
  }

  /** The kept sentences fit, and one more would not: they are the longest
      prefix of whole sentences within the budget. */
  lemma {:induction false} KeptSpec(sentences: seq<string>, budget: int)
    ensures var n := Kept(sentences, budget);
      && (n > 0 ==> |Concat(sentences[..n])| <= budget)
      && (n < |sentences| ==> |Concat(sentences[..n + 1])| > budget)
    decreases |sentences|
  {
    var n := Kept(sentences, budget);
    if n > 0 {
      var rest := sentences[1..];
      var b := budget - |sentences[0]|;
      KeptSpec(rest, b);
      ConcatPrefix(sentences, n);
      if n < |sentences| {
        ConcatPrefix(sentences, n + 1);
      }
    }
  }

  /** A prefix of length `n > 0` is the first sentence and `n - 1` more. */
  lemma ConcatPrefix(sentences: seq<string>, n: nat)
    requires 0 < n <= |sentences|
    ensures Concat(sentences[..n]) == sentences[0] + Concat(sentences[1..][..n - 1])
  {
    assert sentences[..n] == [sentences[0]] + sentences[1..][..n - 1];
    ConcatCons(sentences[0], sentences[1..][..n - 1]);
  }

  // ---------------------------------------------------------------------
  // Shortening

  /** `cleaned.split(/\s+/)` for a text with no white space at its ends. */
  function SplitSpaceRuns(s: string): (r: seq<string>)
    requires s != [] ==> !IsSpace(s[0]) && !IsSpace(s[|s| - 1])
  {
    if s == [] then [""] else Words(s, IsSpace)
  }

  /** The fallback: the first `floor(maxLength / 10)` words joined by
      spaces, with `...` when that is shorter than the text. */
  function FirstWords(cleaned: string, maxLength: int): (r: string)
    requires cleaned != [] ==> !IsSpace(cleaned[0]) && !IsSpace(cleaned[|cleaned| - 1])
    ensures var ws := SplitSpaceRuns(cleaned); var n := SliceLength(|ws|, maxLength / 10);
      && (maxLength >= 0 ==> n <= maxLength / 10)
      && (r == Join(ws[..n], " ") || r == Join(ws[..n], " ") + "...")
      && (cleaned != [] && n < |ws| ==> r == Join(ws[..n], " ") + "...")
  {
    DroppedWordsShorter(cleaned, SliceLength(|SplitSpaceRuns(cleaned)|, maxLength / 10));
    var w := Join(SliceTo(SplitSpaceRuns(cleaned), maxLength / 10), " ");
    if |w| < |cleaned| then w + "..." else w
  }

  /** The sum of the lengths of the pieces. */
  function TotalLength(ws: seq<string>): nat
  {
    if ws == [] then 0 else |ws[0]| + TotalLength(ws[1..])
  }

  lemma {:induction false} TotalLengthAppend(a: seq<string>, b: seq<string>)
    ensures TotalLength(a + b) == TotalLength(a) + TotalLength(b)
    decreases |a|
  {
    if a != [] {
      assert (a + b)[1..] == a[1..] + b;
      TotalLengthAppend(a[1..], b);
    } else {
      assert a + b == b;
    }
  }

  /** The pieces of a split and the separators between them make up the
      whole text. */
  lemma {:induction false} SplitWhereLength(s: string, p: char -> bool)
    ensures TotalLength(SplitWhere(s, p)) + |SplitWhere(s, p)| - 1 == |s|
    decreases |s|
  {
    if |s| > 0 {
      SplitWhereLength(s[1..], p);
      var rest := SplitWhere(s[1..], p);
      if !p(s[0]) {
        assert ([[s[0]] + rest[0]] + rest[1..])[1..] == rest[1..];
      }
    }
  }

  /** Dropping empty pieces keeps the total length. */
  lemma {:induction false} NonEmptyLength(parts: seq<string>)
    ensures TotalLength(NonEmpty(parts)) == TotalLength(parts)
    decreases |parts|
  {
    if parts != [] {
      NonEmptyLength(parts[1..]);
      if parts[0] != [] {
        assert ([parts[0]] + NonEmpty(parts[1..]))[1..] == NonEmpty(parts[1..]);
      }
    }
  }

  /** Joining with a one-character separator adds one character per gap. */
  lemma {:induction false} JoinLength(ws: seq<string>, sep: string)
    requires ws != [] && |sep| == 1
    ensures |Join(ws, sep)| == TotalLength(ws) + |ws| - 1
    decreases |ws|
  {
    if |ws| > 1 {
      JoinLength(ws[1..], sep);
    }
  }

  /** When some word is left out, the joined first words are shorter than
      the text, so the fallback appends `...`. */
  lemma DroppedWordsShorter(cleaned: string, n: nat)
    requires cleaned != [] ==> !IsSpace(cleaned[0]) && !IsSpace(cleaned[|cleaned| - 1])
    ensures cleaned != [] && n < |SplitSpaceRuns(cleaned)| ==> |Join(SplitSpaceRuns(cleaned)[..n], " ")| < |cleaned|
  {
    if cleaned == [] || n >= |SplitSpaceRuns(cleaned)| {
      return;
    }
    var ws := SplitSpaceRuns(cleaned);
    var parts := SplitWhere(cleaned, IsSpace);
    SplitWhereLength(cleaned, IsSpace);
    NonEmptyLength(parts);
    assert ws == NonEmpty(parts);
    assert ws[..n] + ws[n..] == ws;
    TotalLengthAppend(ws[..n], ws[n..]);
    assert TotalLength(ws[n..]) >= |ws[n]|;
    if n > 0 {
      JoinLength(ws[..n], " ");
    }
  }

  /** The whole sentences the loop keeps, concatenated: never more than
      `maxLength` characters. */
  function KeptText(cleaned: string, maxLength: int): (r: string)
    ensures 0 <= maxLength ==> |r| <= maxLength
  {
    var s := Sentences(cleaned);
    KeptSpec(s, maxLength);
    assert s[..0] == [];
    Concat(s[..Kept(s, maxLength)])
  }

  lemma TrimmedEnds(t: string, r: string)
    requires r == Trim(t)
    ensures r != [] ==> !IsSpace(r[0]) && !IsSpace(r[|r| - 1])
  {
    TrimEdges(t);
  }

  /** What `cleanAndTrimFact` returns for a cleaned text longer than
      `maxLength`: the whole sentences that fit, or the first words when
      those make less than half of `maxLength`; trimmed either way. */
  function Shorten(cleaned: string, maxLength: int): (r: string)
    requires cleaned != [] ==> !IsSpace(cleaned[0]) && !IsSpace(cleaned[|cleaned| - 1])
    ensures r != [] ==> !IsSpace(r[0]) && !IsSpace(r[|r| - 1])
    ensures 0 <= maxLength && 2 * |KeptText(cleaned, maxLength)| >= maxLength
      ==> r == Trim(KeptText(cleaned, maxLength)) && |r| <= maxLength
  {
    var kept := KeptText(cleaned, maxLength);
    var t := if 2 * |kept| < maxLength then FirstWords(cleaned, maxLength) else kept;
    TrimmedEnds(t, Trim(t));
    Trim(t)
  }

  /** `cleanAndTrimFact(text, maxLength)`. */
  function CleanAndTrim(text: string, maxLength: int): (r: string)
    ensures |Clean(text)| <= maxLength ==> r == Clean(text)
  {
    var cleaned := Clean(text);
    if |cleaned| > maxLength then Shorten(cleaned, maxLength) else cleaned
  }

  /** The sentence loop of `cleanAndTrimFact`: append sentences while the
      result stays within `maxLength`. */
  method KeepSentences(sentences: seq<string>, maxLength: int) returns (result: string)
    ensures result == Concat(sentences[..Kept(sentences, maxLength)])
  {
    result := "";
    var i := 0;
    while i < |sentences|
      invariant 0 <= i <= |sentences|
      invariant result == Concat(sentences[..i])
      invariant Kept(sentences, maxLength) == i + Kept(sentences[i..], maxLength - |result|)
    {
      if |result + sentences[i]| <= maxLength {
        assert sentences[i..][1..] == sentences[i + 1..];
        assert sentences[..i + 1][..i] == sentences[..i];
        result := result + sentences[i];
        i := i + 1;
      } else {
        break;
      }
    }
  }

  /** `cleanAndTrimFact`. */
  method CleanAndTrimFact(text: string, maxLength: int) returns (r: string)
    ensures r == CleanAndTrim(text, maxLength)
  {
    var cleaned := Clean(text);
    if |cleaned| > maxLength {
      var sentences := Sentences(cleaned);
      var result := KeepSentences(sentences, maxLength);
      ghost var kept := result;
      if 2 * |result| < maxLength {
        result := FirstWords(cleaned, maxLength);
      }
      assert result == if 2 * |kept| < maxLength then FirstWords(cleaned, maxLength) else kept;
      r := Trim(result);
      assert r == Shorten(cleaned, maxLength);
    } else {
      r := cleaned;
    }
  }

  /** When enough sentences fit, the result is those whole sentences,
      trimmed, and no longer than `maxLength`. */
  lemma SentencePath(cleaned: string, maxLength: int)
    requires 0 <= maxLength
    requires cleaned != [] ==> !IsSpace(cleaned[0]) && !IsSpace(cleaned[|cleaned| - 1])
    requires var s := Sentences(cleaned); 2 * |Concat(s[..Kept(s, maxLength)])| >= maxLength
    ensures var s := Sentences(cleaned); var n := Kept(s, maxLength);
      && Shorten(cleaned, maxLength) == Trim(Concat(s[..n]))
      && |Shorten(cleaned, maxLength)| <= maxLength
      && (n < |s| ==> |Concat(s[..n + 1])| > maxLength)
  {
    var s := Sentences(cleaned);
    KeptSpec(s, maxLength);
    assert s[..0] == [];
  }

  /** A single word longer than `maxLength` (at least 10) has no sentence,
      so the word fallback returns it whole: the result is not bounded by
      `maxLength`. */
  lemma FallbackUnbounded(w: string, maxLength: int)
    requires 10 <= maxLength < |w|
    requires forall k :: 0 <= k < |w| ==> !IsSpace(w[k]) && !IsTerminator(w[k])
    ensures Shorten(w, maxLength) == w && |Shorten(w, maxLength)| > maxLength
  {
    RunWhileNone(w, 0, IsTerminator);
    assert RunWhile(w, 0, IsTerminator) == 0;
    RunWhileAll(w, 0, IsSentenceChar);
    assert Sentences(w) == [];
    WordsOfOne(w);
    assert SliceTo([w], maxLength / 10) == [w];
    TrimNoEdgeSpace(w);
  }

  lemma {:induction false} RunWhileAll(s: string, i: nat, p: char -> bool)
    requires i <= |s|
    requires forall k :: i <= k < |s| ==> p(s[k])
    ensures RunWhile(s, i, p) == |s|
    decreases |s| - i
  {
    if i < |s| {
      RunWhileAll(s, i + 1, p);
    }
  }

  lemma RunWhileNone(s: string, i: nat, p: char -> bool)
    requires i < |s| ==> !p(s[i])
    requires i <= |s|
    ensures RunWhile(s, i, p) == i
  {
  }

  /** A text without white space is one word. */
  lemma WordsOfOne(w: string)
    requires w != [] && forall k :: 0 <= k < |w| ==> !IsSpace(w[k])
    ensures Words(w, IsSpace) == [w]
  {
    SplitNoSeparator(w, IsSpace);
    assert NonEmpty([w]) == [w] + NonEmpty([]);
  }

  lemma {:induction false} SplitNoSeparator(s: string, p: char -> bool)
    requires forall k :: 0 <= k < |s| ==> !p(s[k])
    ensures SplitWhere(s, p) == [s]
    decreases |s|
  {
    if |s| > 0 {
      SplitNoSeparator(s[1..], p);
      assert [s[0]] + s[1..] == s;
    }
  }
}
