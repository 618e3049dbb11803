/**
 * The heading-aware chunker and the batched ingestion of `document_processor.py`.
 *
 * `SplitSmart` is the line-by-line state machine of `MarkdownProcessor.split_smart`; what it
 * computes is specified by `Chunks`, a left fold of `Feed` over the lines followed by `Flush`.
 * `ProcessFile` is `DocumentEmbedder.process_file`, with the embedding service and the store's
 * `add_chunks` passed in as oracles.
 */
module DocumentProcessor {
  import opened Text
  import opened Store
  import Config

  // ---------------------------------------------------------------------------------------
  // Chunking

  /** `sum(len(l) for l in lines)`. */
  function SumLen(lines: seq<string>): nat
  {
    if lines == [] then 0 else SumLen(lines[..|lines| - 1]) + |lines[|lines| - 1]|
  }

  /** `line.strip().startswith('#')`. */
  predicate IsHeading(line: string)
  {
    var stripped := Strip(line);
    stripped != [] && stripped[0] == '#'
  }

  /** `len(stripped) - len(stripped.lstrip('#'))`: the number of leading `#` of the stripped line. */
  function HeadingLevel(line: string): (level: nat)
    requires IsHeading(line)
    ensures 1 <= level <= |Strip(line)|
    ensures forall i :: 0 <= i < level ==> Strip(line)[i] == '#'
    ensures level == |Strip(line)| || Strip(line)[level] != '#'
  {
    var stripped := Strip(line);
    LeadingMarks(stripped);
    |stripped| - |LStrip(stripped, Some('#'))|
  }

  /** The run of `#` that `lstrip('#')` removes from a text starting with `#`. */
  lemma LeadingMarks(s: string)
    requires s != [] && s[0] == '#'
    ensures var n := |s| - |LStrip(s, Some('#'))|;
      && 1 <= n <= |s| && (forall i :: 0 <= i < n ==> s[i] == '#') && (n == |s| || s[n] != '#')
  {
    var rest := LStrip(s, Some('#'));
    assert rest != [] ==> s[|s| - |rest|] == rest[0];
  }

  /** `stripped.strip('#').strip()`. */
  function HeadingTitle(line: string): string
  {
    Strip(StripBy(Strip(line), Some('#')))
  }

  /**
   * The heading stack after a heading of `level`: the ancestors above that level are kept, any
   * entry at or below it is dropped, and the new title goes on top.
   */
  function PushHeading(headers: seq<string>, level: nat, title: string): (r: seq<string>)
    requires level >= 1
    ensures |r| == Min(|headers|, level - 1) + 1
    ensures r[..|r| - 1] == headers[..|r| - 1]
    ensures r[|r| - 1] == title
  {
    (if |headers| >= level then headers[..level - 1] else headers) + [title]
  }

  /** A chunk before rendering: the heading stack when it was emitted and the buffered lines. */
  datatype Section = Section(headers: seq<string>, body: seq<string>)

  /** `f"【章节：{' > '.join(headers)}】\n" + "\n".join(body)`. */
  function Render(sec: Section): string
  {
    "【章节：" + Join(sec.headers, " > ") + "】\n" + Join(sec.body, "\n")
  }

  function RenderAll(sections: seq<Section>): (r: seq<string>)
    ensures |r| == |sections|
    ensures forall k :: 0 <= k < |r| ==> r[k] == Render(sections[k])
  {
    seq(|sections|, k requires 0 <= k < |sections| => Render(sections[k]))
  }

  /** The chunker's state between two lines: emitted sections, `current_chunk`, `current_headers`. */
  datatype Scan = Scan(sections: seq<Section>, buffer: seq<string>, headers: seq<string>)

  /** One iteration of the chunker's loop. */
  function Feed(st: Scan, line: string, chunkSize: int, overlapLines: int): Scan
  {
    if IsHeading(line) then
      Scan(st.sections, st.buffer + [line],
           PushHeading(st.headers, HeadingLevel(line), HeadingTitle(line)))
    else
      var body := st.buffer + [line];
      if SumLen(body) > chunkSize then
        Scan(st.sections + [Section(st.headers, body)], SliceFrom(body, -overlapLines), st.headers)
      else
        Scan(st.sections, body, st.headers)
  }

  /** The chunker's state after the given lines. */
  function ScanLines(lines: seq<string>, chunkSize: int, overlapLines: int): Scan
    decreases |lines|
  {
    if lines == [] then Scan([], [], [])
    else Feed(ScanLines(lines[..|lines| - 1], chunkSize, overlapLines), lines[|lines| - 1], chunkSize, overlapLines)
  }

  /** The final `if current_chunk:` emission. */
  function Flush(st: Scan): seq<Section>
  {
    if st.buffer != [] then st.sections + [Section(st.headers, st.buffer)] else st.sections
  }

  /** The sections `split_smart(text, chunk_size, overlap_lines)` emits, in order. */
  function SplitSections(text: string, chunkSize: int, overlapLines: int): seq<Section>
  {
    Flush(ScanLines(Split(text, "\n"), chunkSize, overlapLines))
  }

  /** The chunk texts `split_smart(text, chunk_size, overlap_lines)` returns. */
  function Chunks(text: string, chunkSize: int, overlapLines: int): seq<string>
  {
    RenderAll(SplitSections(text, chunkSize, overlapLines))
  }

  /** `MarkdownProcessor.split_smart`. */
  method SplitSmart(text: string, chunkSize: int, overlapLines: int) returns (chunks: seq<string>)
    ensures chunks == Chunks(text, chunkSize, overlapLines)
    ensures |chunks| >= 1
  {
    var lines := Split(text, "\n");
    chunks := [];
    var currentChunk: seq<string> := [];
    var currentLength := 0;
    var currentHeaders: seq<string> := [];
    for i := 0 to |lines|
      invariant chunks == RenderAll(ScanLines(lines[..i], chunkSize, overlapLines).sections)
      invariant currentChunk == ScanLines(lines[..i], chunkSize, overlapLines).buffer
      invariant currentHeaders == ScanLines(lines[..i], chunkSize, overlapLines).headers
      invariant currentLength == SumLen(currentChunk)
    {
      var line := lines[i];
      ScanLinesSnoc(lines, i, chunkSize, overlapLines);
      if IsHeading(line) {
        currentHeaders := PushHeading(currentHeaders, HeadingLevel(line), HeadingTitle(line));
        SumLenSnoc(currentChunk, line);
        currentChunk := currentChunk + [line];
        currentLength := currentLength + |line|;
        continue;
      }
      SumLenSnoc(currentChunk, line);
      currentChunk := currentChunk + [line];
      currentLength := currentLength + |line|;
      if currentLength > chunkSize {
        var section := Section(currentHeaders, currentChunk);
        RenderAllSnoc(ScanLines(lines[..i], chunkSize, overlapLines).sections, section);
        chunks := chunks + [Render(section)];
        currentChunk := SliceFrom(currentChunk, -overlapLines);
        currentLength := SumLen(currentChunk);
      }
    }
    assert lines[..|lines|] == lines;
    if currentChunk != [] {
      var section := Section(currentHeaders, currentChunk);
      RenderAllSnoc(ScanLines(lines, chunkSize, overlapLines).sections, section);
      chunks := chunks + [Render(section)];
    }
    SectionsNonEmpty(text, chunkSize, overlapLines);
  }

  lemma ScanLinesSnoc(lines: seq<string>, i: nat, chunkSize: int, overlapLines: int)
    requires i < |lines|
    ensures ScanLines(lines[..i + 1], chunkSize, overlapLines)
         == Feed(ScanLines(lines[..i], chunkSize, overlapLines), lines[i], chunkSize, overlapLines)
  {
    assert lines[..i + 1][..i] == lines[..i];
  }

  lemma SumLenSnoc(lines: seq<string>, line: string)
    ensures SumLen(lines + [line]) == SumLen(lines) + |line|
  {
    assert (lines + [line])[..|lines|] == lines;
  }

  lemma RenderAllSnoc(sections: seq<Section>, sec: Section)
    ensures RenderAll(sections + [sec]) == RenderAll(sections) + [Render(sec)]
  {
  }

  // ---------------------------------------------------------------------------------------
  // What the chunker guarantees

  /** The lines carried from a section into the next one: `body[-overlap_lines:]`. */
  function Carry(sec: Section, overlapLines: int): seq<string>
  {
    SliceFrom(sec.body, -overlapLines)
  }

  /** Every section starts with the lines carried over from the one before it. */
  ghost predicate Chained(sections: seq<Section>, overlapLines: int)
  {
    forall j :: 0 < j < |sections| ==> Carry(sections[j - 1], overlapLines) <= sections[j].body
  }

  /** A section emitted inside the loop: it ends with a body line that took it past `chunk_size`. */
  ghost predicate Overfull(sec: Section, chunkSize: int)
  {
    sec.body != [] && SumLen(sec.body) > chunkSize && !IsHeading(Last(sec.body))
  }

  /** The input lines recovered from the sections by dropping each section's carried-over lines. */
  function Reconstruct(sections: seq<Section>, overlapLines: int): seq<string>
    decreases |sections|
  {
    if sections == [] then []
    else if |sections| == 1 then sections[0].body
    else
      var last := sections[|sections| - 1].body;
      var carried := |Carry(sections[|sections| - 2], overlapLines)|;
      Reconstruct(sections[..|sections| - 1], overlapLines) + last[Min(carried, |last|)..]
  }

  /** The lines buffered since the last emission are the lines after those it accounts for. */
  ghost predicate Accounted(sections: seq<Section>, buffer: seq<string>, lines: seq<string>, overlapLines: int)
  {
    && (sections == [] ==> buffer == lines)
    && (sections != [] ==>
          var carried := Carry(Last(sections), overlapLines);
          carried <= buffer && Reconstruct(sections, overlapLines) + buffer[|carried|..] == lines)
  }

  /** The loop invariant of the chunker, stated over the specification. */
  ghost predicate ScanInv(st: Scan, lines: seq<string>, chunkSize: int, overlapLines: int)
  {
    && Chained(st.sections, overlapLines)
    && (forall j :: 0 <= j < |st.sections| ==> Overfull(st.sections[j], chunkSize))
    && Accounted(st.sections, st.buffer, lines, overlapLines)
  }

  lemma ReconstructSnoc(sections: seq<Section>, sec: Section, overlapLines: int)
    requires sections != []
    ensures Reconstruct(sections + [sec], overlapLines)
         == Reconstruct(sections, overlapLines)
            + sec.body[Min(|Carry(Last(sections), overlapLines)|, |sec.body|)..]
  {
    assert (sections + [sec])[..|sections|] == sections;
  }

  /** A line that is buffered without an emission keeps the invariant. */
  lemma BufferKeepsInv(st: Scan, lines: seq<string>, line: string, headers: seq<string>, chunkSize: int, overlapLines: int)
    requires ScanInv(st, lines, chunkSize, overlapLines)
    ensures ScanInv(Scan(st.sections, st.buffer + [line], headers), lines + [line], chunkSize, overlapLines)
  {
    if st.sections != [] {
      var carried := Carry(Last(st.sections), overlapLines);
      DropSnoc(st.buffer, line, |carried|);
    }
  }

  /** Appending a section that starts with the carry of the last one keeps the sections chained. */
  lemma ChainedSnoc(sections: seq<Section>, sec: Section, overlapLines: int)
    requires Chained(sections, overlapLines)
    requires sections != [] ==> Carry(Last(sections), overlapLines) <= sec.body
    ensures Chained(sections + [sec], overlapLines)
  {
    var ss := sections + [sec];
    forall j | 0 < j < |ss| ensures Carry(ss[j - 1], overlapLines) <= ss[j].body {
      if j < |ss| - 1 {
        assert ss[j - 1] == sections[j - 1] && ss[j] == sections[j];
      }
    }
  }

  lemma EmitAccounted(sections: seq<Section>, sec: Section, buffer: seq<string>, line: string, lines: seq<string>, overlapLines: int)
    requires Accounted(sections, buffer, lines, overlapLines)
    requires sec.body == buffer + [line]
    ensures Reconstruct(sections + [sec], overlapLines) == lines + [line]
  {
    if sections != [] {
      ReconstructSnoc(sections, sec, overlapLines);
      DropSnoc(buffer, line, |Carry(Last(sections), overlapLines)|);
    }
  }

  /** An emission keeps the invariant. */
  lemma EmitKeepsInv(st: Scan, lines: seq<string>, line: string, chunkSize: int, overlapLines: int)
    requires ScanInv(st, lines, chunkSize, overlapLines)
    requires Overfull(Section(st.headers, st.buffer + [line]), chunkSize)
    ensures var sec := Section(st.headers, st.buffer + [line]);
      ScanInv(Scan(st.sections + [sec], Carry(sec, overlapLines), st.headers), lines + [line], chunkSize, overlapLines)
  {
    var sec := Section(st.headers, st.buffer + [line]);
    assert Accounted(st.sections, st.buffer, lines, overlapLines);
    EmitAccounted(st.sections, sec, st.buffer, line, lines, overlapLines);
    if st.sections != [] {
      DropSnoc(st.buffer, line, |Carry(Last(st.sections), overlapLines)|);
    }
    ChainedSnoc(st.sections, sec, overlapLines);
    var c := Carry(sec, overlapLines);
    assert c[|c|..] == [];
  }

  /** Every iteration of the chunker keeps the invariant. */
  lemma FeedKeepsInv(st: Scan, lines: seq<string>, line: string, chunkSize: int, overlapLines: int)
    requires ScanInv(st, lines, chunkSize, overlapLines)
    ensures ScanInv(Feed(st, line, chunkSize, overlapLines), lines + [line], chunkSize, overlapLines)
  {
    if IsHeading(line) {
      BufferKeepsInv(st, lines, line, PushHeading(st.headers, HeadingLevel(line), HeadingTitle(line)), chunkSize, overlapLines);
    } else if SumLen(st.buffer + [line]) > chunkSize {
      FrontLast(st.buffer + [line]);
      EmitKeepsInv(st, lines, line, chunkSize, overlapLines);
    } else {
      BufferKeepsInv(st, lines, line, st.headers, chunkSize, overlapLines);
    }
  }

  lemma {:induction false} ScanInvariant(lines: seq<string>, chunkSize: int, overlapLines: int)
    ensures ScanInv(ScanLines(lines, chunkSize, overlapLines), lines, chunkSize, overlapLines)
    decreases |lines|
  {
    if lines != [] {
      var prefix := lines[..|lines| - 1];
      FrontLast(lines);
      ScanInvariant(prefix, chunkSize, overlapLines);
      FeedKeepsInv(ScanLines(prefix, chunkSize, overlapLines), prefix, lines[|lines| - 1], chunkSize, overlapLines);
    }
  }

  /** The sections emitted for `text`, on which every property below is stated. */
  /** The final flush accounts for every line. */
  lemma FlushAccounted(st: Scan, lines: seq<string>, overlapLines: int)
    requires Accounted(st.sections, st.buffer, lines, overlapLines)
    ensures Reconstruct(Flush(st), overlapLines) == lines
  {
    if st.buffer != [] {
      if st.sections != [] {
        ReconstructSnoc(st.sections, Section(st.headers, st.buffer), overlapLines);
      }
    } else if st.sections != [] {
      var carried := Carry(Last(st.sections), overlapLines);
      assert st.buffer[|carried|..] == [];
    }
  }

  lemma {:induction false} SectionsInvariant(text: string, chunkSize: int, overlapLines: int)
    ensures var ss := SplitSections(text, chunkSize, overlapLines);
      && ss != []
      && Chained(ss, overlapLines)
      && (forall j :: 0 <= j < |ss| - 1 ==> Overfull(ss[j], chunkSize))
      && Reconstruct(ss, overlapLines) == Split(text, "\n")
  {
    var lines := Split(text, "\n");
    var st := ScanLines(lines, chunkSize, overlapLines);
    ScanInvariant(lines, chunkSize, overlapLines);
    FlushAccounted(st, lines, overlapLines);
    if st.buffer != [] {
      ChainedSnoc(st.sections, Section(st.headers, st.buffer), overlapLines);
    }
  }

  /** `split_smart` never returns an empty list, whatever its arguments. */
  lemma SectionsNonEmpty(text: string, chunkSize: int, overlapLines: int)
    ensures |Chunks(text, chunkSize, overlapLines)| >= 1
  {
    SectionsInvariant(text, chunkSize, overlapLines);
  }

  /**
   * No line is lost: dropping each chunk's carried-over lines and joining what is left with
   * newlines gives back the document.
   */
  lemma NoLineLost(text: string, chunkSize: int, overlapLines: int)
    ensures Join(Reconstruct(SplitSections(text, chunkSize, overlapLines), overlapLines), "\n") == text
  {
    SectionsInvariant(text, chunkSize, overlapLines);
    JoinSplit(text, "\n");
  }

  /** Each chunk begins with the last `overlap_lines` lines of the chunk before it. */
  lemma OverlapCarried(text: string, chunkSize: int, overlapLines: int, j: nat)
    requires 0 < j < |SplitSections(text, chunkSize, overlapLines)|
    ensures var ss := SplitSections(text, chunkSize, overlapLines);
      SliceFrom(ss[j - 1].body, -overlapLines) <= ss[j].body
  {
    SectionsInvariant(text, chunkSize, overlapLines);
  }

  /**
   * Heading lines never trigger an emission: every chunk except the last one was emitted right
   * after a body line that took its length past `chunk_size`.
   */
  lemma EmittedOnlyWhenFull(text: string, chunkSize: int, overlapLines: int, j: nat)
    requires j < |SplitSections(text, chunkSize, overlapLines)| - 1
    ensures var sec := SplitSections(text, chunkSize, overlapLines)[j];
      sec.body != [] && SumLen(sec.body) > chunkSize && !IsHeading(Last(sec.body))
  {
    SectionsInvariant(text, chunkSize, overlapLines);
  }

  /**
   * The heading stack after reading `lines`: `PushHeading` applied for each heading line in
   * turn, body lines leaving it as it is.
   */
  function HeadingPath(lines: seq<string>): seq<string>
    decreases |lines|
  {
    if lines == [] then []
    else
      var path := HeadingPath(lines[..|lines| - 1]);
      var line := lines[|lines| - 1];
      if IsHeading(line) then PushHeading(path, HeadingLevel(line), HeadingTitle(line)) else path
  }

  lemma HeadingPathSnoc(lines: seq<string>, line: string)
    ensures HeadingPath(lines + [line])
         == if IsHeading(line) then PushHeading(HeadingPath(lines), HeadingLevel(line), HeadingTitle(line))
            else HeadingPath(lines)
  {
    assert (lines + [line])[..|lines|] == lines;
  }

  /** The input lines that the sections up to `j` rebuild. */
  function Rebuilt(sections: seq<Section>, j: nat, overlapLines: int): seq<string>
    requires j < |sections|
  {
    Reconstruct(sections[..j + 1], overlapLines)
  }

  /** Section `j` carries the heading path of the lines it and the ones before it rebuild. */
  ghost predicate HeadedAt(sections: seq<Section>, j: nat, lines: seq<string>, overlapLines: int)
    requires j < |sections|
  {
    Rebuilt(sections, j, overlapLines) <= lines
    && sections[j].headers == HeadingPath(Rebuilt(sections, j, overlapLines))
  }

  ghost predicate Headed(sections: seq<Section>, lines: seq<string>, overlapLines: int)
  {
    forall j :: 0 <= j < |sections| ==> HeadedAt(sections, j, lines, overlapLines)
  }

  /** The heading part of the chunker's loop invariant: `current_headers` is the path so far. */
  ghost predicate HeadersInv(st: Scan, lines: seq<string>, overlapLines: int)
  {
    st.headers == HeadingPath(lines) && Headed(st.sections, lines, overlapLines)
  }

  /** Reading more lines keeps what the sections already carry. */
  lemma HeadedExtend(sections: seq<Section>, lines: seq<string>, line: string, overlapLines: int)
    requires Headed(sections, lines, overlapLines)
    ensures Headed(sections, lines + [line], overlapLines)
  {
    forall j | 0 <= j < |sections| ensures HeadedAt(sections, j, lines + [line], overlapLines) {
      assert HeadedAt(sections, j, lines, overlapLines);
      PrefixSnoc(Rebuilt(sections, j, overlapLines), lines, line);
    }
  }

  lemma PrefixSnoc<T>(xs: seq<T>, ys: seq<T>, y: T)
    requires xs <= ys
    ensures xs <= ys + [y]
  {
    assert (ys + [y])[..|xs|] == ys[..|xs|];
  }

  /** A section emitted after all of `lines`, carrying their heading path, keeps the sections headed. */
  lemma HeadedSnoc(sections: seq<Section>, sec: Section, lines: seq<string>, overlapLines: int)
    requires Headed(sections, lines, overlapLines)
    requires Reconstruct(sections + [sec], overlapLines) == lines
    requires sec.headers == HeadingPath(lines)
    ensures Headed(sections + [sec], lines, overlapLines)
  {
    HeadedAtLast(sections, sec, lines, overlapLines);
    HeadedSnocOld(sections, sec, lines, overlapLines);
  }

  lemma HeadedSnocOld(sections: seq<Section>, sec: Section, lines: seq<string>, overlapLines: int)
    requires Headed(sections, lines, overlapLines)
    requires HeadedAt(sections + [sec], |sections|, lines, overlapLines)
    ensures Headed(sections + [sec], lines, overlapLines)
  {
    forall j | 0 <= j < |sections| ensures HeadedAt(sections + [sec], j, lines, overlapLines) {
      assert HeadedAt(sections, j, lines, overlapLines);
      HeadedAtSnoc(sections, sec, j, lines, overlapLines);
    }
  }

  lemma HeadedAtSnoc(sections: seq<Section>, sec: Section, j: nat, lines: seq<string>, overlapLines: int)
    requires j < |sections| && HeadedAt(sections, j, lines, overlapLines)
    ensures HeadedAt(sections + [sec], j, lines, overlapLines)
  {
    SnocPrefix(sections, sec, j);
    assert Rebuilt(sections + [sec], j, overlapLines) == Rebuilt(sections, j, overlapLines);
  }

  lemma HeadedAtLast(sections: seq<Section>, sec: Section, lines: seq<string>, overlapLines: int)
    requires Reconstruct(sections + [sec], overlapLines) == lines
    requires sec.headers == HeadingPath(lines)
    ensures HeadedAt(sections + [sec], |sections|, lines, overlapLines)
  {
    SnocWhole(sections, sec);
    assert Rebuilt(sections + [sec], |sections|, overlapLines) == lines;
  }

  lemma SnocWhole<T>(xs: seq<T>, x: T)
    ensures (xs + [x])[..|xs| + 1] == xs + [x] && (xs + [x])[|xs|] == x
  {
  }

  lemma SnocPrefix<T>(xs: seq<T>, x: T, j: nat)
    requires j < |xs|
    ensures (xs + [x])[..j + 1] == xs[..j + 1] && (xs + [x])[j] == xs[j]
  {
  }

  /** Reading one more line keeps the sections' heading paths and updates `current_headers`. */
  lemma FeedKeepsHeaders(st: Scan, lines: seq<string>, line: string, chunkSize: int, overlapLines: int)
    requires ScanInv(st, lines, chunkSize, overlapLines) && HeadersInv(st, lines, overlapLines)
    ensures HeadersInv(Feed(st, line, chunkSize, overlapLines), lines + [line], overlapLines)
  {
    HeadingPathSnoc(lines, line);
    HeadedExtend(st.sections, lines, line, overlapLines);
    if !IsHeading(line) && SumLen(st.buffer + [line]) > chunkSize {
      var sec := Section(st.headers, st.buffer + [line]);
      EmitAccounted(st.sections, sec, st.buffer, line, lines, overlapLines);
      HeadedSnoc(st.sections, sec, lines + [line], overlapLines);
    }
  }

  lemma {:induction false} ScanHeaders(lines: seq<string>, chunkSize: int, overlapLines: int)
    ensures HeadersInv(ScanLines(lines, chunkSize, overlapLines), lines, overlapLines)
    decreases |lines|
  {
    if lines != [] {
      var prefix := lines[..|lines| - 1];
      FrontLast(lines);
      ScanHeaders(prefix, chunkSize, overlapLines);
      ScanInvariant(prefix, chunkSize, overlapLines);
      FeedKeepsHeaders(ScanLines(prefix, chunkSize, overlapLines), prefix, lines[|lines| - 1], chunkSize, overlapLines);
    }
  }

  /**
   * Each section carries the heading stack at the moment it is emitted: the heading path of
   * the input lines up to its last one, which are the lines it and the sections before it
   * rebuild.
   */
  lemma {:induction false} SectionHeadings(text: string, chunkSize: int, overlapLines: int, j: nat)
    requires j < |SplitSections(text, chunkSize, overlapLines)|
    ensures var ss := SplitSections(text, chunkSize, overlapLines);
      && Reconstruct(ss[..j + 1], overlapLines) <= Split(text, "\n")
      && ss[j].headers == HeadingPath(Reconstruct(ss[..j + 1], overlapLines))
  {
    var lines := Split(text, "\n");
    var st := ScanLines(lines, chunkSize, overlapLines);
    ScanHeaders(lines, chunkSize, overlapLines);
    if st.buffer != [] {
      ScanInvariant(lines, chunkSize, overlapLines);
      FlushAccounted(st, lines, overlapLines);
      HeadedSnoc(st.sections, Section(st.headers, st.buffer), lines, overlapLines);
    }
    assert Headed(Flush(st), lines, overlapLines);
    assert HeadedAt(Flush(st), j, lines, overlapLines);
  }

  /**
   * Every chunk is rendered with the heading path of the lines up to its end:
   * `"【章节：" + " > ".join(path) + "】\n" + "\n".join(body)`.
   */
  lemma ChunkHeadingPath(text: string, chunkSize: int, overlapLines: int, j: nat)
    requires j < |Chunks(text, chunkSize, overlapLines)|
    ensures var ss := SplitSections(text, chunkSize, overlapLines);
      var upTo := Reconstruct(ss[..j + 1], overlapLines);
      && upTo <= Split(text, "\n")
      && Chunks(text, chunkSize, overlapLines)[j]
         == "【章节：" + Join(HeadingPath(upTo), " > ") + "】\n" + Join(ss[j].body, "\n")
  {
    SectionHeadings(text, chunkSize, overlapLines, j);
  }

  /** The empty document yields the single chunk `"【章节：】\n"`. */
  lemma EmptyDocumentChunk(chunkSize: int, overlapLines: int)
    requires chunkSize >= 0
    ensures Chunks("", chunkSize, overlapLines) == ["【章节：】\n"]
  {
    EmptyDocumentSection(chunkSize, overlapLines);
    RenderEmptySection();
  }

  lemma EmptyDocumentSection(chunkSize: int, overlapLines: int)
    requires chunkSize >= 0
    ensures SplitSections("", chunkSize, overlapLines) == [Section([], [""])]
  {
    assert Split("", "\n") == [""];
    EmptyLineScan(chunkSize, overlapLines);
  }

  lemma EmptyLineScan(chunkSize: int, overlapLines: int)
    requires chunkSize >= 0
    ensures ScanLines([""], chunkSize, overlapLines) == Scan([], [""], [])
  {
    assert [""][..0] == [];
    assert !IsHeading("");
    SumLenSnoc([], "");
    assert [] + [""] == [""];
  }

  lemma RenderEmptySection()
    ensures Render(Section([], [""])) == "【章节：】\n"
  {
    assert Join([], " > ") == "" && Join([""], "\n") == "";
  }

  /** `k` hash marks. */
  function Hashes(k: nat): (r: string)
    ensures |r| == k && forall i :: 0 <= i < k ==> r[i] == '#'
  {
    if k == 0 then "" else "#" + Hashes(k - 1)
  }

  lemma {:induction false} LStripHashes(k: nat, rest: string)
    requires rest != [] && rest[0] != '#'
    ensures LStrip(Hashes(k) + rest, Some('#')) == rest
  {
    if k > 0 {
      TailConcat(Hashes(k), rest);
      assert Hashes(k)[1..] == Hashes(k - 1);
      LStripHashes(k - 1, rest);
    }
  }

  /** A string with no whitespace at either end is its own strip. */
  lemma StripStripped(s: string)
    requires s != [] && !IsSpace(s[0]) && !IsSpace(s[|s| - 1])
    ensures Strip(s) == s
  {
    assert LStrip(s, None) == s;
    assert RStrip(s, None) == s;
  }

  /** Stripping ` title` removes just the leading blank. */
  lemma StripLeadingBlank(title: string)
    requires title != [] && !IsSpace(title[0]) && !IsSpace(title[|title| - 1])
    ensures Strip(" " + title) == title
  {
    TailConcat(" ", title);
    assert LStrip(" " + title, None) == LStrip(title, None);
    StripStripped(title);
  }

  /** `(' ' + title).strip('#')` keeps ` title` when `title` does not end in `#`. */
  lemma StripHashesOff(k: nat, title: string)
    requires title != [] && title[|title| - 1] != '#'
    ensures StripBy(Hashes(k) + " " + title, Some('#')) == " " + title
  {
    var tail := " " + title;
    ConcatAssoc(Hashes(k), " ", title);
    LStripHashes(k, tail);
    RStripKeeps(tail, '#');
  }

  /** `rstrip(ch)` leaves a text that does not end in `ch` as it is. */
  lemma RStripKeeps(s: string, ch: char)
    requires s != [] && s[|s| - 1] != ch
    ensures RStrip(s, Some(ch)) == s
  {
  }

  /**
   * The line `#…# title` (k marks, one blank) is a heading of level k whose title is `title`,
   * provided the title has no surrounding blanks and does not end in a hash mark.
   */
  lemma ParseHeading(k: nat, title: string, line: string)
    requires k >= 1 && title != []
    requires !IsSpace(title[0]) && !IsSpace(title[|title| - 1]) && title[|title| - 1] != '#'
    requires line == Hashes(k) + " " + title
    ensures IsHeading(line) && HeadingLevel(line) == k && HeadingTitle(line) == title
  {
    StripHeadingLine(k, title, line);
    LevelOfLine(k, title, line);
    TitleOfLine(k, title, line);
  }

  lemma StripHeadingLine(k: nat, title: string, line: string)
    requires k >= 1 && title != [] && !IsSpace(title[|title| - 1])
    requires line == Hashes(k) + " " + title
    ensures Strip(line) == line && IsHeading(line)
  {
    assert line[0] == '#' && line[|line| - 1] == title[|title| - 1];
    StripStripped(line);
  }

  lemma LevelOfLine(k: nat, title: string, line: string)
    requires k >= 1 && title != [] && !IsSpace(title[|title| - 1])
    requires line == Hashes(k) + " " + title
    ensures IsHeading(line) && HeadingLevel(line) == k
  {
    StripHeadingLine(k, title, line);
    assert line == Hashes(k) + (" " + title);
    LStripHashes(k, " " + title);
  }

  lemma TitleOfLine(k: nat, title: string, line: string)
    requires k >= 1 && title != []
    requires !IsSpace(title[0]) && !IsSpace(title[|title| - 1]) && title[|title| - 1] != '#'
    requires line == Hashes(k) + " " + title
    ensures HeadingTitle(line) == title
  {
    StripHeadingLine(k, title, line);
    StripHashesOff(k, title);
    StripLeadingBlank(title);
  }

  /** A heading line never emits a chunk: it is buffered and pushed onto the heading stack. */
  lemma HeadingNeverEmits(st: Scan, line: string, chunkSize: int, overlapLines: int)
    requires IsHeading(line)
    ensures var next := Feed(st, line, chunkSize, overlapLines);
      && next.sections == st.sections
      && next.buffer == st.buffer + [line]
      && next.headers == PushHeading(st.headers, HeadingLevel(line), HeadingTitle(line))
  {
  }

  // ---------------------------------------------------------------------------------------
  // Ingestion

  /** One record handed to the store: the vector, the chunk text and its metadata. */
  datatype Entry = Entry(embedding: Vector, document: string, source: string, chunkIndex: nat)

  /** What `process_file` reports: `(True, count)`, `(False, "EXIST")` or `(False, error)`. */
  datatype IngestOutcome = Stored(count: nat) | AlreadyExists | WriteFailed(error: string)

  /** Chunks shorter than this many characters are not stored. */
  const MinChunkLength := 10

  /** Whether chunk `chunk` is worth storing: long enough, and the embedding service answered. */
  predicate Storable(chunk: string, embed: string -> Option<Vector>)
  {
    |chunk| >= MinChunkLength && embed(chunk).Some?
  }

  /** The entries built from `chunks[..n]`, in order. */
  function Candidates(chunks: seq<string>, n: nat, source: string, embed: string -> Option<Vector>): seq<Entry>
    requires n <= |chunks|
  {
    if n == 0 then []
    else
      var prev := Candidates(chunks, n - 1, source, embed);
      var chunk := chunks[n - 1];
      if Storable(chunk, embed) then prev + [Entry(embed(chunk).value, chunk, source, n - 1)] else prev
  }

  /** Every entry `process_file` could store for `content`. */
  function IngestCandidates(content: string, source: string, embed: string -> Option<Vector>): seq<Entry>
  {
    var chunks := Chunks(content, Config.ChunkSize, Config.ChunkOverlapLines);
    Candidates(chunks, |chunks|, source, embed)
  }

  /** The store writes concatenated. */
  function Flatten(writes: seq<seq<Entry>>): seq<Entry>
  {
    if writes == [] then [] else Flatten(writes[..|writes| - 1]) + writes[|writes| - 1]
  }

  lemma FlattenSnoc(writes: seq<seq<Entry>>, batch: seq<Entry>)
    ensures Flatten(writes + [batch]) == Flatten(writes) + batch
  {
    assert (writes + [batch])[..|writes|] == writes;
  }

  /** Every batch written so far was full and accepted by the store. */
  ghost predicate FullAndAccepted(writes: seq<seq<Entry>>, full: nat, addReply: nat -> Option<string>)
  {
    forall j :: 0 <= j < |writes| ==> |writes[j]| == full && addReply(j).None?
  }

  /** The ingestion loop's invariant after the first `i` chunks. */
  ghost predicate IngestInv(chunks: seq<string>, i: nat, source: string, embed: string -> Option<Vector>,
                            addReply: nat -> Option<string>, batchSize: int,
                            writes: seq<seq<Entry>>, batch: seq<Entry>)
  {
    && i <= |chunks|
    && Flatten(writes) + batch == Candidates(chunks, i, source, embed)
    && |batch| < Max(1, batchSize)
    && FullAndAccepted(writes, Max(1, batchSize), addReply)
  }

  /**
   * What the ingestion loop promises for the chunks of a new file: every batch holds between one
   * and `batch_size` entries, and all but the last one are full and were accepted; the entries
   * written are a prefix of the candidates; success means every candidate was written and
   * counted; a failure is the store's error for the last batch.
   */
  ghost predicate Wrote(chunks: seq<string>, source: string, embed: string -> Option<Vector>,
                        addReply: nat -> Option<string>, batchSize: int,
                        outcome: IngestOutcome, writes: seq<seq<Entry>>)
  {
    var candidates := Candidates(chunks, |chunks|, source, embed);
    && outcome != AlreadyExists
    && (forall j :: 0 <= j < |writes| ==> 1 <= |writes[j]| <= Max(1, batchSize))
    && (forall j :: 0 <= j < |writes| - 1 ==> |writes[j]| == Max(1, batchSize) && addReply(j).None?)
    && Flatten(writes) <= candidates
    && (outcome.Stored? ==>
          && Flatten(writes) == candidates
          && outcome.count == |candidates|
          && forall j :: 0 <= j < |writes| ==> addReply(j).None?)
    && (outcome.WriteFailed? ==>
          && writes != []
          && addReply(|writes| - 1) == Some(outcome.error)
          && (|writes[|writes| - 1]| == Max(1, batchSize) || Flatten(writes) == candidates))
  }

  /**
   * What `process_file` promises: an already ingested file is refused without a write; the
   * chunks of a new file are ingested as `Wrote` states.
   */
  ghost predicate Ingested(content: string, filename: string, existingFiles: set<string>,
                           embed: string -> Option<Vector>, addReply: nat -> Option<string>, batchSize: int,
                           outcome: IngestOutcome, writes: seq<seq<Entry>>)
  {
    if filename in existingFiles then outcome == AlreadyExists && writes == []
    else Wrote(Chunks(content, Config.ChunkSize, Config.ChunkOverlapLines), filename, embed, addReply,
               batchSize, outcome, writes)
  }

  /**
   * `DocumentEmbedder.process_file`. `existingFiles` is what the store reports as already ingested,
   * `embed` is the embedding service (None for a failed call), and `addReply(k)` is the answer of
   * the store to its `k`-th `add_chunks` call (None for success, or the error message). `writes`
   * lists the batches handed to the store, in order.
   */
  method ProcessFile(content: string, filename: string, existingFiles: set<string>,
                     embed: string -> Option<Vector>, addReply: nat -> Option<string>, batchSize: int)
    returns (outcome: IngestOutcome, writes: seq<seq<Entry>>)
    ensures Ingested(content, filename, existingFiles, embed, addReply, batchSize, outcome, writes)
  {
    if filename in existingFiles {
      return AlreadyExists, [];
    }
    var rawChunks := SplitSmart(content, Config.ChunkSize, Config.ChunkOverlapLines);
    if |rawChunks| == 0 {
      // The `(False, "EMPTY")` answer: `split_smart` never returns an empty list.
      assert false;
    }
    outcome, writes := StoreChunks(rawChunks, filename, embed, addReply, batchSize);
  }

  /** The loop of `process_file` over the chunks of a new file: embed, batch, write. */
  method StoreChunks(chunks: seq<string>, source: string, embed: string -> Option<Vector>,
                     addReply: nat -> Option<string>, batchSize: int)
    returns (outcome: IngestOutcome, writes: seq<seq<Entry>>)
    ensures Wrote(chunks, source, embed, addReply, batchSize, outcome, writes)
  {
    var batch: seq<Entry> := [];
    var processedCount := 0;
    writes := [];
    for i := 0 to |chunks|
      invariant IngestInv(chunks, i, source, embed, addReply, batchSize, writes, batch)
      invariant processedCount == |Flatten(writes)|
    {
      var chunk := chunks[i];
      if |chunk| < MinChunkLength {
        SkipKeepsInv(chunks, i, source, embed, addReply, batchSize, writes, batch);
        continue;
      }
      var embedding := embed(chunk);
      if embedding.None? {
        SkipKeepsInv(chunks, i, source, embed, addReply, batchSize, writes, batch);
        continue;
      }
      var entry := Entry(embedding.value, chunk, source, i);
      if |batch + [entry]| >= batchSize {
        var error := addReply(|writes|);
        if error.Some? {
          FailedInLoop(chunks, i, source, embed, addReply, batchSize, writes, batch);
          return WriteFailed(error.value), writes + [batch + [entry]];
        }
        FlushKeepsInv(chunks, i, source, embed, addReply, batchSize, writes, batch);
        FlattenSnoc(writes, batch + [entry]);
        writes := writes + [batch + [entry]];
        processedCount := processedCount + |batch + [entry]|;
        batch := [];
      } else {
        AddKeepsInv(chunks, i, source, embed, addReply, batchSize, writes, batch);
        batch := batch + [entry];
      }
    }
    if batch != [] {
      var error := addReply(|writes|);
      FinalFlush(chunks, source, embed, addReply, batchSize, writes, batch);
      FlattenSnoc(writes, batch);
      if error.Some? {
        return WriteFailed(error.value), writes + [batch];
      }
      return Stored(processedCount + |batch|), writes + [batch];
    }
    NothingLeft(chunks, source, embed, addReply, batchSize, writes);
    return Stored(processedCount), writes;
  }

  /** The entries for a shorter prefix of the chunks come first. */
  lemma {:induction false} CandidatesPrefix(chunks: seq<string>, m: nat, n: nat, source: string, embed: string -> Option<Vector>)
    requires m <= n <= |chunks|
    ensures Candidates(chunks, m, source, embed) <= Candidates(chunks, n, source, embed)
    decreases n - m
  {
    if m < n {
      CandidatesPrefix(chunks, m, n - 1, source, embed);
    }
  }

  /** A chunk that is too short or cannot be embedded is skipped. */
  lemma SkipKeepsInv(chunks: seq<string>, i: nat, source: string, embed: string -> Option<Vector>,
                     addReply: nat -> Option<string>, batchSize: int, writes: seq<seq<Entry>>, batch: seq<Entry>)
    requires i < |chunks| && !Storable(chunks[i], embed)
    requires IngestInv(chunks, i, source, embed, addReply, batchSize, writes, batch)
    ensures IngestInv(chunks, i + 1, source, embed, addReply, batchSize, writes, batch)
  {
  }

  /** A storable chunk that leaves the batch below `batch_size` is only buffered. */
  lemma AddKeepsInv(chunks: seq<string>, i: nat, source: string, embed: string -> Option<Vector>,
                    addReply: nat -> Option<string>, batchSize: int, writes: seq<seq<Entry>>, batch: seq<Entry>)
    requires i < |chunks| && Storable(chunks[i], embed)
    requires |batch + [Entry(embed(chunks[i]).value, chunks[i], source, i)]| < batchSize
    requires IngestInv(chunks, i, source, embed, addReply, batchSize, writes, batch)
    ensures IngestInv(chunks, i + 1, source, embed, addReply, batchSize, writes,
                      batch + [Entry(embed(chunks[i]).value, chunks[i], source, i)])
  {
    var e := Entry(embed(chunks[i]).value, chunks[i], source, i);
    AppendAssoc(Flatten(writes), batch, e);
  }

  /** A storable chunk that completes the batch is written with it, and the store accepts. */
  lemma FlushKeepsInv(chunks: seq<string>, i: nat, source: string, embed: string -> Option<Vector>,
                      addReply: nat -> Option<string>, batchSize: int, writes: seq<seq<Entry>>, batch: seq<Entry>)
    requires i < |chunks| && Storable(chunks[i], embed)
    requires |batch + [Entry(embed(chunks[i]).value, chunks[i], source, i)]| >= batchSize
    requires addReply(|writes|).None?
    requires IngestInv(chunks, i, source, embed, addReply, batchSize, writes, batch)
    ensures IngestInv(chunks, i + 1, source, embed, addReply, batchSize,
                      writes + [batch + [Entry(embed(chunks[i]).value, chunks[i], source, i)]], [])
  {
    var e := Entry(embed(chunks[i]).value, chunks[i], source, i);
    var w := writes + [batch + [e]];
    AppendAssoc(Flatten(writes), batch, e);
    FlattenSnoc(writes, batch + [e]);
    assert Flatten(w) + [] == Flatten(w);
    forall j | 0 <= j < |w| ensures |w[j]| == Max(1, batchSize) && addReply(j).None? {
      if j < |writes| {
        assert w[j] == writes[j];
      }
    }
  }

  /** The store rejects a batch completed inside the loop. */
  lemma FailedInLoop(chunks: seq<string>, i: nat, source: string,
                     embed: string -> Option<Vector>, addReply: nat -> Option<string>, batchSize: int,
                     writes: seq<seq<Entry>>, batch: seq<Entry>)
    requires i < |chunks| && Storable(chunks[i], embed)
    requires |batch + [Entry(embed(chunks[i]).value, chunks[i], source, i)]| >= batchSize
    requires addReply(|writes|).Some?
    requires IngestInv(chunks, i, source, embed, addReply, batchSize, writes, batch)
    ensures Wrote(chunks, source, embed, addReply, batchSize, WriteFailed(addReply(|writes|).value),
                     writes + [batch + [Entry(embed(chunks[i]).value, chunks[i], source, i)]])
  {
    var e := Entry(embed(chunks[i]).value, chunks[i], source, i);
    var w := writes + [batch + [e]];
    AppendAssoc(Flatten(writes), batch, e);
    FlattenSnoc(writes, batch + [e]);
    CandidatesPrefix(chunks, i + 1, |chunks|, source, embed);
    forall j | 0 <= j < |w| ensures |w[j]| == Max(1, batchSize) {
      if j < |writes| {
        assert w[j] == writes[j];
      }
    }
  }

  /** The final write of a non-empty remainder covers every candidate. */
  lemma FinalFlush(chunks: seq<string>, source: string,
                   embed: string -> Option<Vector>, addReply: nat -> Option<string>, batchSize: int,
                   writes: seq<seq<Entry>>, batch: seq<Entry>)
    requires batch != []
    requires IngestInv(chunks, |chunks|, source, embed, addReply, batchSize, writes, batch)
    ensures addReply(|writes|).Some? ==>
      Wrote(chunks, source, embed, addReply, batchSize, WriteFailed(addReply(|writes|).value), writes + [batch])
    ensures addReply(|writes|).None? ==>
      Wrote(chunks, source, embed, addReply, batchSize, Stored(|Flatten(writes)| + |batch|), writes + [batch])
  {
    var w := writes + [batch];
    FlattenSnoc(writes, batch);
    forall j | 0 <= j < |w| ensures 1 <= |w[j]| <= Max(1, batchSize) {
      if j < |writes| {
        assert w[j] == writes[j];
      }
    }
    forall j | 0 <= j < |w| - 1 ensures |w[j]| == Max(1, batchSize) && addReply(j).None? {
      assert w[j] == writes[j];
    }
    if addReply(|writes|).None? {
      forall j | 0 <= j < |w| ensures addReply(j).None? {
        if j < |writes| {
          assert w[j] == writes[j];
        }
      }
    }
  }

  /** With nothing left over, the batches written cover every candidate. */
  lemma NothingLeft(chunks: seq<string>, source: string,
                    embed: string -> Option<Vector>, addReply: nat -> Option<string>, batchSize: int,
                    writes: seq<seq<Entry>>)
    requires IngestInv(chunks, |chunks|, source, embed, addReply, batchSize, writes, [])
    ensures Wrote(chunks, source, embed, addReply, batchSize, Stored(|Flatten(writes)|), writes)
  {
    assert Flatten(writes) + [] == Flatten(writes);
  }

  lemma AppendAssoc(xs: seq<Entry>, ys: seq<Entry>, e: Entry)
    ensures xs + (ys + [e]) == (xs + ys) + [e]
  {
  }

  // ---------------------------------------------------------------------------------------
  // What ingestion guarantees

  /**
   * The candidates are exactly the storable chunks, in chunk order, each tagged with the file name
   * and its chunk index and carrying the vector the embedding service returned for it.
   */
  lemma {:induction false} CandidatesSpec(chunks: seq<string>, n: nat, source: string, embed: string -> Option<Vector>)
    requires n <= |chunks|
    ensures var c := Candidates(chunks, n, source, embed);
      forall k :: 0 <= k < |c| ==>
        && c[k].chunkIndex < n
        && c[k].document == chunks[c[k].chunkIndex]
        && c[k].source == source
        && Storable(c[k].document, embed)
        && Some(c[k].embedding) == embed(c[k].document)
    ensures var c := Candidates(chunks, n, source, embed);
      forall k, l :: 0 <= k < l < |c| ==> c[k].chunkIndex < c[l].chunkIndex
    ensures var c := Candidates(chunks, n, source, embed);
      forall i :: 0 <= i < n && Storable(chunks[i], embed) ==> exists k :: 0 <= k < |c| && c[k].chunkIndex == i
  {
    if n > 0 {
      CandidatesSpec(chunks, n - 1, source, embed);
      var prev := Candidates(chunks, n - 1, source, embed);
      var c := Candidates(chunks, n, source, embed);
      if Storable(chunks[n - 1], embed) {
        assert c == prev + [Entry(embed(chunks[n - 1]).value, chunks[n - 1], source, n - 1)];
        assert c[|c| - 1].chunkIndex == n - 1;
        forall i | 0 <= i < n && Storable(chunks[i], embed) ensures exists k :: 0 <= k < |c| && c[k].chunkIndex == i {
          if i < n - 1 {
            var k :| 0 <= k < |prev| && prev[k].chunkIndex == i;
            assert c[k] == prev[k];
          }
        }
      }
    }
  }

  lemma FlattenEmpty(writes: seq<seq<Entry>>)
    requires forall j :: 0 <= j < |writes| ==> writes[j] != []
    requires Flatten(writes) == []
    ensures writes == []
  {
  }

  /** Nothing is written for an empty document: its one chunk is too short to store. */
  lemma EmptyContentHasNoCandidates(source: string, embed: string -> Option<Vector>)
    ensures IngestCandidates("", source, embed) == []
  {
    var chunks := Chunks("", Config.ChunkSize, Config.ChunkOverlapLines);
    EmptyDocumentChunk(Config.ChunkSize, Config.ChunkOverlapLines);
    ShortChunks(chunks, source, embed);
  }

  lemma ShortChunks(chunks: seq<string>, source: string, embed: string -> Option<Vector>)
    requires chunks == ["【章节：】\n"]
    ensures Candidates(chunks, |chunks|, source, embed) == []
  {
    assert |chunks[0]| == 6;
  }

  /** Ingesting an empty new document succeeds with zero chunks and no store call. */
  lemma EmptyContentStoresZero(filename: string, existingFiles: set<string>, embed: string -> Option<Vector>,
                               addReply: nat -> Option<string>, batchSize: int,
                               outcome: IngestOutcome, writes: seq<seq<Entry>>)
    requires filename !in existingFiles
    requires Ingested("", filename, existingFiles, embed, addReply, batchSize, outcome, writes)
    ensures outcome == Stored(0) && writes == []
  {
    EmptyContentHasNoCandidates(filename, embed);
    FlattenEmpty(writes);
  }
}
