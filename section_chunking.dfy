/** The trainer variant's document chunker: the text is cut before every
    markdown header line, the trimmed non-empty sections are merged into a
    buffer joined by blank lines, and the buffer becomes a chunk when the next
    section would overflow 1200 characters or once it reaches 800. */
module SectionChunking {
  import opened JsText

  const MinChunk := 800
  const MaxChunk := 1200
  const Gap: string := "\n\n"

  /** A line break directly followed by '#': the only place `/\n(?=#)/`
      matches. */
  predicate HeaderBreak(s: string, i: int)
  {
    0 <= i && i + 1 < |s| && s[i] == '\n' && s[i + 1] == '#'
  }

  /** `content.split(/\n(?=#)/g)`: the line break is dropped, the '#' stays
      with the next piece. */
  function SplitHeaders(s: string): (parts: seq<string>)
    ensures |parts| >= 1
    ensures |parts[0]| <= |s| && parts[0] == s[..|parts[0]|]
    decreases |s|
  {
    if |s| == 0 then [""]
    else if HeaderBreak(s, 0) then [""] + SplitHeaders(s[1..])
    else
      var rest := SplitHeaders(s[1..]);
      [[s[0]] + rest[0]] + rest[1..]
  }

  /** The pieces, joined back with the dropped line breaks, are the text. */
  lemma {:induction false} SplitHeadersJoin(s: string)
    ensures Join(SplitHeaders(s), "\n") == s
    decreases |s|
  {
    if |s| > 0 {
      var rest := SplitHeaders(s[1..]);
      SplitHeadersJoin(s[1..]);
      assert s == [s[0]] + s[1..];
      if HeaderBreak(s, 0) {
        assert Join([""] + rest, "\n") == "" + "\n" + Join(rest, "\n");
      } else {
        var first := [s[0]] + rest[0];
        if |rest| == 1 {
          assert Join(rest, "\n") == rest[0];
        } else {
          assert Join(rest, "\n") == rest[0] + "\n" + Join(rest[1..], "\n");
          assert ([first] + rest[1..])[1..] == rest[1..];
        }
      }
    }
  }

  /** No piece holds a header break: the text is cut at every one. */
  lemma {:induction false} SplitHeadersCutsEveryBreak(s: string)
    ensures forall k, i :: 0 <= k < |SplitHeaders(s)| ==> !HeaderBreak(SplitHeaders(s)[k], i)
    decreases |s|
  {
    if |s| > 0 {
      var rest := SplitHeaders(s[1..]);
      SplitHeadersCutsEveryBreak(s[1..]);
      if !HeaderBreak(s, 0) {
        var first := [s[0]] + rest[0];
        forall i
          ensures !HeaderBreak(first, i)
        {
          if i >= 1 {
            assert HeaderBreak(first, i) ==> HeaderBreak(rest[0], i - 1);
          }
        }
        assert forall k :: 1 <= k < |SplitHeaders(s)| ==> SplitHeaders(s)[k] == rest[k];
      } else {
        assert forall k :: 1 <= k < |SplitHeaders(s)| ==> SplitHeaders(s)[k] == rest[k - 1];
      }
    }
  }

  /** A white-space text splits into white-space pieces. */
  lemma {:induction false} SplitHeadersOfSpace(s: string)
    requires forall i :: 0 <= i < |s| ==> IsSpace(s[i])
    ensures forall k, i :: 0 <= k < |SplitHeaders(s)| && 0 <= i < |SplitHeaders(s)[k]| ==> IsSpace(SplitHeaders(s)[k][i])
    decreases |s|
  {
    if |s| > 0 {
      SplitHeadersOfSpace(s[1..]);
    }
  }

  function TrimEach(parts: seq<string>): (r: seq<string>)
    ensures |r| == |parts| && forall k :: 0 <= k < |r| ==> r[k] == Trim(parts[k])
  {
    seq(|parts|, k requires 0 <= k < |parts| => Trim(parts[k]))
  }

  /** `.split(/\n(?=#)/g).map((section) => section.trim()).filter(Boolean)`. */
  function Sections(content: string): (r: seq<string>)
    ensures forall k :: 0 <= k < |r| ==> Trimmed(r[k])
  {
    TrimmedPieces(SplitHeaders(content));
    NonEmpty(TrimEach(SplitHeaders(content)))
  }

  /** A non-empty text with no white space at either end. */
  predicate Trimmed(s: string)
  {
    s != [] && !IsSpace(s[0]) && !IsSpace(s[|s| - 1])
  }

  /** The non-empty trimmed pieces are trimmed texts. */
  lemma TrimmedPieces(pieces: seq<string>)
    ensures forall k :: 0 <= k < |NonEmpty(TrimEach(pieces))| ==> Trimmed(NonEmpty(TrimEach(pieces))[k])
  {
    var parts := TrimEach(pieces);
    var r := NonEmpty(parts);
    forall k | 0 <= k < |r|
      ensures Trimmed(r[k])
    {
      var w := r[k];
      assert w in parts;
      var j :| 0 <= j < |parts| && parts[j] == w;
      TrimSpec(pieces[j]);
    }
  }

  /** White-space-only content has no sections. */
  lemma SpaceHasNoSections(content: string)
    requires forall i :: 0 <= i < |content| ==> IsSpace(content[i])
    ensures Sections(content) == []
  {
    var pieces := SplitHeaders(content);
    SplitHeadersOfSpace(content);
    var parts := TrimEach(pieces);
    forall k | 0 <= k < |parts|
      ensures parts[k] == []
    {
      TrimAllSpace(pieces[k]);
    }
    NonEmptyOfEmpties(parts);
  }

  lemma NonEmptyOfEmpties(parts: seq<string>)
    requires forall k :: 0 <= k < |parts| ==> parts[k] == []
    ensures NonEmpty(parts) == []
  {
    if |parts| > 0 {
      NonEmptyOfEmpties(parts[1..]);
    }
  }

  /** The sections of consecutive chunks, in order. */
  function Flatten(groups: seq<seq<string>>): seq<string>
  {
    if |groups| == 0 then [] else Flatten(groups[..|groups| - 1]) + groups[|groups| - 1]
  }

  predicate AllAtMost(group: seq<string>, n: nat)
  {
    forall j :: 0 <= j < |group| ==> |group[j]| <= n
  }

  lemma JoinSnoc(g: seq<string>, x: string, sep: string)
    requires g != []
    ensures Join(g + [x], sep) == Join(g, sep) + sep + x
    decreases |g|
  {
    if |g| > 1 {
      assert (g + [x])[1..] == g[1..] + [x];
      JoinSnoc(g[1..], x, sep);
    }
  }

  /** Each chunk is the blank-line join of a non-empty run of sections, has
      no white space at either end, and a chunk merged from several sections
      is at most two characters over the maximum. */
  predicate ChunksOk(chunks: seq<string>, groups: seq<seq<string>>)
  {
    |chunks| == |groups|
    && (forall k :: 0 <= k < |chunks| ==> groups[k] != [] && chunks[k] == Join(groups[k], Gap) && Trimmed(chunks[k]))
    && (forall k :: 0 <= k < |chunks| && |groups[k]| >= 2 ==> |chunks[k]| <= MaxChunk + |Gap| && AllAtMost(groups[k], MaxChunk))
  }

  /** Chunk `k - 1` was closed for cause: it reached the minimum, or the
      first section of chunk `k` would have taken it over the maximum. */
  predicate ClosedForCause(chunks: seq<string>, groups: seq<seq<string>>, k: int)
  {
    0 < k < |chunks| && k < |groups| && groups[k] != []
    && (|chunks[k - 1]| >= MinChunk || |chunks[k - 1]| + |groups[k][0]| > MaxChunk)
  }

  /** Every chunk but the last was closed for cause. */
  predicate FlushedForCause(chunks: seq<string>, groups: seq<seq<string>>)
  {
    forall k :: 0 < k < |chunks| ==> ClosedForCause(chunks, groups, k)
  }

  /** A chunk takes a third or later section only while the buffer is below
      the minimum: the chunk without its last section and the blank line
      before it is shorter than the minimum. (The section that opens a
      chunk after an overflow is not measured against the minimum, so a
      second section may follow a long first one.) */
  predicate MergedBelowMin(chunks: seq<string>, groups: seq<seq<string>>)
  {
    forall k :: 0 <= k < |chunks| && k < |groups| && |groups[k]| >= 3 ==>
      |chunks[k]| - |groups[k][|groups[k]| - 1]| - |Gap| < MinChunk
  }

  /** What the next chunk's first section must satisfy for the last chunk
      to have been closed for cause. */
  predicate LastClosedForCause(chunks: seq<string>, bufGroup: seq<string>)
  {
    chunks != [] ==> |chunks[|chunks| - 1]| >= MinChunk || (bufGroup != [] && |chunks[|chunks| - 1]| + |bufGroup[0]| > MaxChunk)
  }

  /** The buffer without its last section was below the minimum. */
  predicate PrefixBelowMin(buffer: string, bufGroup: seq<string>)
  {
    |bufGroup| >= 3 ==> |buffer| - |bufGroup[|bufGroup| - 1]| - |Gap| < MinChunk
  }

  lemma PushForCause(chunks: seq<string>, groups: seq<seq<string>>, buffer: string, bufGroup: seq<string>)
    requires |chunks| == |groups| && FlushedForCause(chunks, groups) && MergedBelowMin(chunks, groups)
    requires bufGroup != [] && LastClosedForCause(chunks, bufGroup) && PrefixBelowMin(buffer, bufGroup)
    ensures FlushedForCause(chunks + [buffer], groups + [bufGroup])
    ensures MergedBelowMin(chunks + [buffer], groups + [bufGroup])
  {
    PushFlushed(chunks, groups, buffer, bufGroup);
    var cs, gs := chunks + [buffer], groups + [bufGroup];
    forall k | 0 <= k < |cs| && k < |gs| && |gs[k]| >= 3
      ensures |cs[k]| - |gs[k][|gs[k]| - 1]| - |Gap| < MinChunk
    {
      if k < |chunks| {
        assert cs[k] == chunks[k] && gs[k] == groups[k];
      }
    }
  }

  lemma PushFlushed(chunks: seq<string>, groups: seq<seq<string>>, buffer: string, bufGroup: seq<string>)
    requires |chunks| == |groups| && FlushedForCause(chunks, groups)
    requires bufGroup != [] && LastClosedForCause(chunks, bufGroup)
    ensures FlushedForCause(chunks + [buffer], groups + [bufGroup])
  {
    var cs, gs := chunks + [buffer], groups + [bufGroup];
    forall k | 0 < k < |cs|
      ensures ClosedForCause(cs, gs, k)
    {
      if k == |chunks| {
        assert cs[k - 1] == chunks[|chunks| - 1] && gs[k] == bufGroup;
      } else {
        assert ClosedForCause(chunks, groups, k);
        assert cs[k - 1] == chunks[k - 1] && gs[k] == groups[k];
      }
    }
  }

  /** A buffer that may become a chunk. */
  predicate Pushable(buffer: string, bufGroup: seq<string>)
  {
    bufGroup != [] && buffer == Join(bufGroup, Gap) && Trimmed(buffer)
    && (|bufGroup| >= 2 ==> |buffer| <= MaxChunk + |Gap| && AllAtMost(bufGroup, MaxChunk))
  }

  /** The buffer between two sections: empty, or the join of the sections
      since the last chunk; one holding several sections is below the
      minimum, since reaching it flushes the buffer. */
  predicate BufferOk(buffer: string, bufGroup: seq<string>)
  {
    buffer == Join(bufGroup, Gap)
    && (bufGroup == [] <==> buffer == "")
    && (bufGroup != [] ==> Pushable(buffer, bufGroup))
    && (|bufGroup| >= 2 ==> |buffer| < MinChunk)
  }

  /** `buffer.trim()` is the buffer itself, empty exactly when no section
      is waiting. */
  lemma BufferTrim(buffer: string, bufGroup: seq<string>)
    requires BufferOk(buffer, bufGroup)
    ensures Trim(buffer) == buffer
    ensures |Trim(buffer)| > 0 <==> bufGroup != []
  {
    TrimNoEdgeSpace(buffer);
  }

  lemma Push(chunks: seq<string>, groups: seq<seq<string>>, buffer: string, bufGroup: seq<string>)
    requires ChunksOk(chunks, groups) && Pushable(buffer, bufGroup)
    ensures Trim(buffer) == buffer
    ensures ChunksOk(chunks + [buffer], groups + [bufGroup])
    ensures Flatten(groups + [bufGroup]) == Flatten(groups) + bufGroup
  {
    TrimNoEdgeSpace(buffer);
    assert (groups + [bufGroup])[..|groups|] == groups;
  }

  lemma Merge(buffer: string, bufGroup: seq<string>, section: string)
    requires BufferOk(buffer, bufGroup) && Trimmed(section) && |buffer| + |section| <= MaxChunk
    ensures Pushable(buffer + (if buffer != "" then Gap else "") + section, bufGroup + [section])
  {
    if bufGroup != [] {
      JoinSnoc(bufGroup, section, Gap);
      var merged := buffer + Gap + section;
      assert merged[0] == buffer[0] && merged[|merged| - 1] == section[|section| - 1];
    } else {
      assert bufGroup + [section] == [section];
    }
  }

  lemma FlattenLength(groups: seq<seq<string>>)
    requires forall k :: 0 <= k < |groups| ==> groups[k] != []
    ensures |Flatten(groups)| >= |groups|
  {
    if |groups| > 0 {
      FlattenLength(groups[..|groups| - 1]);
    }
  }

  /** `pushBuffer`: a waiting buffer becomes a chunk (its trim, which is
      itself) and the buffer empties; an empty buffer changes nothing. */
  method PushBuffer(chunks: seq<string>, ghost groups: seq<seq<string>>, buffer: string, ghost bufGroup: seq<string>)
    returns (chunks': seq<string>, ghost groups': seq<seq<string>>, buffer': string, ghost bufGroup': seq<string>)
    requires ChunksOk(chunks, groups)
    requires BufferOk(buffer, bufGroup) || Pushable(buffer, bufGroup)
    ensures buffer' == "" && bufGroup' == []
    ensures Flatten(groups') == Flatten(groups) + bufGroup
    ensures bufGroup != [] ==> chunks' == chunks + [buffer] && groups' == groups + [bufGroup]
    ensures bufGroup == [] ==> chunks' == chunks && groups' == groups && buffer' == buffer
  {
    chunks', groups', buffer', bufGroup' := chunks, groups, buffer, bufGroup;
    if bufGroup != [] {
      Push(chunks, groups, buffer, bufGroup);
    } else {
      BufferTrim(buffer, bufGroup);
    }
    if |Trim(buffer)| > 0 {
      chunks' := chunks + [Trim(buffer)];
      groups' := groups + [bufGroup];
      buffer' := "";
      bufGroup' := [];
    }
  }

  /** `chunkDocument`: returns the chunks and, as a ghost, the sections each
      one was merged from. */
  method ChunkDocument(content: string) returns (chunks: seq<string>, ghost groups: seq<seq<string>>)
    ensures Flatten(groups) == Sections(content)
    ensures ChunksOk(chunks, groups)
    ensures FlushedForCause(chunks, groups) && MergedBelowMin(chunks, groups)
    ensures Sections(content) == [] ==> chunks == []
  {
    var sections := Sections(content);
    chunks, groups := MergeSections(sections);
  }

  /** What holds between two sections of `chunkDocument`'s loop. */
  predicate Between(chunks: seq<string>, groups: seq<seq<string>>, buffer: string, bufGroup: seq<string>)
  {
    ChunksOk(chunks, groups) && BufferOk(buffer, bufGroup)
    && FlushedForCause(chunks, groups) && MergedBelowMin(chunks, groups)
    && LastClosedForCause(chunks, bufGroup) && PrefixBelowMin(buffer, bufGroup)
  }

  /** The loop of `chunkDocument` over the trimmed, non-empty sections. */
  method MergeSections(sections: seq<string>) returns (chunks: seq<string>, ghost groups: seq<seq<string>>)
    requires forall k :: 0 <= k < |sections| ==> Trimmed(sections[k])
    ensures Flatten(groups) == sections
    ensures ChunksOk(chunks, groups)
    ensures FlushedForCause(chunks, groups) && MergedBelowMin(chunks, groups)
    ensures sections == [] ==> chunks == []
  {
    chunks := [];
    groups := [];
    var buffer := "";
    ghost var bufGroup: seq<string> := [];
    for i := 0 to |sections|
      invariant Flatten(groups) + bufGroup == sections[..i]
      invariant Between(chunks, groups, buffer, bufGroup)
    {
      PrefixSnoc(sections, i);
      chunks, groups, buffer, bufGroup := MergeStep(chunks, groups, buffer, bufGroup, sections[i]);
    }
    ghost var chunks0, groups0, buffer0, bufGroup0 := chunks, groups, buffer, bufGroup;
    chunks, groups, buffer, bufGroup := PushBuffer(chunks, groups, buffer, bufGroup);
    LastPushKeepsChunks(chunks0, groups0, buffer0, bufGroup0, chunks, groups);
    assert sections[..|sections|] == sections;
    FlattenLength(groups);
  }

  /** The push after the loop leaves well-formed chunks, each but the last
      closed for cause. */
  lemma LastPushKeepsChunks(chunks: seq<string>, groups: seq<seq<string>>, buffer: string, bufGroup: seq<string>,
                            chunks': seq<string>, groups': seq<seq<string>>)
    requires Between(chunks, groups, buffer, bufGroup)
    requires bufGroup != [] ==> chunks' == chunks + [buffer] && groups' == groups + [bufGroup]
    requires bufGroup == [] ==> chunks' == chunks && groups' == groups
    ensures ChunksOk(chunks', groups') && FlushedForCause(chunks', groups') && MergedBelowMin(chunks', groups')
  {
    if bufGroup != [] {
      PushForCause(chunks, groups, buffer, bufGroup);
      Push(chunks, groups, buffer, bufGroup);
    }
  }

  lemma PrefixSnoc(sections: seq<string>, i: int)
    requires 0 <= i < |sections|
    ensures sections[..i + 1] == sections[..i] + [sections[i]]
  {
  }

  /** One turn of the loop: a section that would overflow the buffer pushes
      it and starts a new one; otherwise the section joins the buffer, which
      is pushed once it reaches the minimum. */
  method MergeStep(chunks: seq<string>, ghost groups: seq<seq<string>>, buffer: string, ghost bufGroup: seq<string>,
                   section: string)
    returns (chunks': seq<string>, ghost groups': seq<seq<string>>, buffer': string, ghost bufGroup': seq<string>)
    requires Trimmed(section) && Between(chunks, groups, buffer, bufGroup)
    ensures Between(chunks', groups', buffer', bufGroup')
    ensures Flatten(groups') + bufGroup' == Flatten(groups) + bufGroup + [section]
    ensures |buffer| + |section| > MaxChunk ==> buffer' == section
    ensures |buffer| + |section| > MaxChunk && buffer != "" ==> chunks' == chunks + [buffer]
    ensures |buffer| + |section| > MaxChunk && buffer == "" ==> chunks' == chunks
    ensures |buffer| + |section| <= MaxChunk ==>
      var merged := buffer + (if buffer != "" then Gap else "") + section;
      if |merged| >= MinChunk then chunks' == chunks + [merged] && buffer' == "" else chunks' == chunks && buffer' == merged
  {
    if |buffer| + |section| > MaxChunk {
      chunks', groups', buffer', bufGroup' := PushBuffer(chunks, groups, buffer, bufGroup);
      buffer' := section;
      bufGroup' := [section];
      OverflowKeepsBetween(chunks, groups, buffer, bufGroup, section, chunks', groups');
    } else {
      Merge(buffer, bufGroup, section);
      buffer' := buffer + (if buffer != "" then Gap else "") + section;
      bufGroup' := bufGroup + [section];
      chunks', groups' := chunks, groups;
      if |buffer'| >= MinChunk {
        chunks', groups', buffer', bufGroup' := PushBuffer(chunks, groups, buffer', bufGroup');
        MergeThenPushKeepsBetween(chunks, groups, buffer, bufGroup, section, chunks', groups');
      } else {
        MergeKeepsBetween(chunks, groups, buffer, bufGroup, section);
      }
    }
  }

  lemma OverflowKeepsBetween(chunks: seq<string>, groups: seq<seq<string>>, buffer: string, bufGroup: seq<string>,
                             section: string, chunks': seq<string>, groups': seq<seq<string>>)
    requires Trimmed(section) && Between(chunks, groups, buffer, bufGroup) && |buffer| + |section| > MaxChunk
    requires bufGroup != [] ==> chunks' == chunks + [buffer] && groups' == groups + [bufGroup]
    requires bufGroup == [] ==> chunks' == chunks && groups' == groups
    ensures Between(chunks', groups', section, [section])
    ensures Flatten(groups') + [section] == Flatten(groups) + bufGroup + [section]
    ensures buffer != "" ==> chunks' == chunks + [buffer]
    ensures buffer == "" ==> chunks' == chunks
  {
    assert Join([section], Gap) == section;
    if bufGroup != [] {
      PushForCause(chunks, groups, buffer, bufGroup);
      Push(chunks, groups, buffer, bufGroup);
    }
  }

  lemma MergeKeepsBetween(chunks: seq<string>, groups: seq<seq<string>>, buffer: string, bufGroup: seq<string>,
                          section: string)
    requires Trimmed(section) && Between(chunks, groups, buffer, bufGroup)
    requires |buffer + (if buffer != "" then Gap else "") + section| < MinChunk
    ensures Between(chunks, groups, buffer + (if buffer != "" then Gap else "") + section, bufGroup + [section])
    ensures Flatten(groups) + (bufGroup + [section]) == Flatten(groups) + bufGroup + [section]
  {
    Merge(buffer, bufGroup, section);
  }

  lemma MergeThenPushKeepsBetween(chunks: seq<string>, groups: seq<seq<string>>, buffer: string, bufGroup: seq<string>,
                                  section: string, chunks': seq<string>, groups': seq<seq<string>>)
    requires Trimmed(section) && Between(chunks, groups, buffer, bufGroup) && |buffer| + |section| <= MaxChunk
    requires |buffer + (if buffer != "" then Gap else "") + section| >= MinChunk
    requires chunks' == chunks + [buffer + (if buffer != "" then Gap else "") + section]
    requires groups' == groups + [bufGroup + [section]]
    ensures Between(chunks', groups', "", [])
    ensures Flatten(groups') + [] == Flatten(groups) + bufGroup + [section]
  {
    var merged := buffer + (if buffer != "" then Gap else "") + section;
    Merge(buffer, bufGroup, section);
    PushForCause(chunks, groups, merged, bufGroup + [section]);
    Push(chunks, groups, merged, bufGroup + [section]);
    FlattenPushMerged(groups, bufGroup, section);
  }

  lemma FlattenPushMerged(groups: seq<seq<string>>, bufGroup: seq<string>, section: string)
    ensures Flatten(groups + [bufGroup + [section]]) + [] == Flatten(groups) + bufGroup + [section]
  {
    assert (groups + [bufGroup + [section]])[..|groups|] == groups;
  }

}
