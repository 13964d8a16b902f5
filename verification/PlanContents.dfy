/** What a plan holds, section by section: the planned chunks are the sections' chunks and nothing else. */
module PlanContents {
  import opened Wrappers
  import opened Text
  import Normalize
  import opened ChunkIdentity
  import opened ChunkPlanner
  import opened ChunkPacking

  // ---- sections ---------------------------------------------------------------------------------------------------

  /** The texts a section comes to: none if it is blank, else the pieces of its normalised text. */
  function TextsOfSection(section: Section, o: Options): seq<string>
    requires ValidOptions(o)
  {
    var text := Normalize.Normalized(section.text);
    if text == "" then [] else SplitText(text, o)
  }

  /** How many texts the first `n` sections come to. */
  function Offset(sections: seq<Section>, n: nat, o: Options): nat
    requires ValidOptions(o) && n <= |sections|
  {
    if n == 0 then 0 else |TextsOfSection(sections[0], o)| + Offset(sections[1..], n - 1, o)
  }

  /** The source names the document and is that of the section in all else. */
  predicate SourceOf(source: Source, document: Document, section: Section, input: PlanInput) {
    && source.documentKey == input.documentKey
    && source.documentVersion == input.documentVersion
    && source.documentTitle == document.title
    && source.sectionPath == section.sectionPath
    && source.sectionType == section.sectionType
    && source.pageStart == section.pageStart
    && source.pageEnd == section.pageEnd
    && source.articleNumber == section.articleNumber
    && source.citationLabel == section.citationLabel
  }

  lemma SectionTextsAre(document: Document, section: Section, input: PlanInput, o: Options)
    requires ValidOptions(o)
    ensures var planned, texts := SectionTexts(document, section, input, o), TextsOfSection(section, o);
      |planned| == |texts| && forall j :: 0 <= j < |texts| ==>
        planned[j].1 == texts[j] && SourceOf(planned[j].0, document, section, input)
  {
    hide SplitText, Normalize.Normalized;
  }

  lemma {:induction false} PlannedAt(
    document: Document, sections: seq<Section>, input: PlanInput, o: Options, n: nat, j: nat)
    requires ValidOptions(o) && n < |sections| && j < |TextsOfSection(sections[n], o)|
    ensures var planned := PlannedTexts(document, sections, input, o);
      && Offset(sections, n, o) + j < |planned|
      && planned[Offset(sections, n, o) + j].1 == TextsOfSection(sections[n], o)[j]
      && SourceOf(planned[Offset(sections, n, o) + j].0, document, sections[n], input)
    decreases n
  {
    hide SectionTexts, TextsOfSection, SourceOf;
    SectionTextsAre(document, sections[0], input, o);
    if n > 0 {
      PlannedAt(document, sections[1..], input, o, n - 1, j);
    }
  }

  lemma {:induction false} PlannedCount(document: Document, sections: seq<Section>, input: PlanInput, o: Options)
    requires ValidOptions(o)
    ensures |PlannedTexts(document, sections, input, o)| == Offset(sections, |sections|, o)
    decreases sections
  {
    hide SectionTexts, TextsOfSection;
    if sections != [] {
      SectionTextsAre(document, sections[0], input, o);
      PlannedCount(document, sections[1..], input, o);
    }
  }

  /**
    The plan holds as many chunks as its sections' texts, and nothing else: text
    `j` of section `n` is the chunk after all texts of the sections before and
    `j` of its own, with that section's source, its own digest, its place as
    ordinal, the id made of these, and a token for every four characters begun.
  */
  lemma {:induction false} PlanIsTheSections(
    hash: string -> string, document: Document, input: PlanInput, o: Options, n: nat, j: nat)
    requires ValidOptions(o) && n < |document.sections| && j < |TextsOfSection(document.sections[n], o)|
    ensures var plan, place := FullPlan(hash, document, input, o), Offset(document.sections, n, o) + j;
      && |plan| == Offset(document.sections, |document.sections|, o)
      && place < |plan|
      && plan[place].text == TextsOfSection(document.sections[n], o)[j]
      && SourceOf(plan[place].source, document, document.sections[n], input)
      && plan[place].contentSha256 == hash(plan[place].text)
      && plan[place].ordinal == place + 1
      && plan[place].chunkId
         == hash(BuildChunkIdentityInput(plan[place].source, plan[place].contentSha256, plan[place].ordinal))
      && |plan[place].text| <= 4 * plan[place].tokenEstimate < |plan[place].text| + 4
  {
    hide PlannedTexts, TextsOfSection, Offset, SourceOf, BuildChunkIdentityInput, Numbered, MakeChunk;
    PlannedAt(document, document.sections, input, o, n, j);
    PlannedCount(document, document.sections, input, o);
    ChunkAt(hash, PlannedTexts(document, document.sections, input, o), Offset(document.sections, n, o) + j);
  }

  lemma ChunkAt(hash: string -> string, planned: seq<(Source, string)>, place: nat)
    requires place < |planned|
    ensures var plan := Numbered(hash, planned, 1);
      && |plan| == |planned|
      && plan[place].source == planned[place].0 && plan[place].text == planned[place].1
      && plan[place].contentSha256 == hash(plan[place].text)
      && plan[place].ordinal == place + 1
      && plan[place].chunkId
         == hash(BuildChunkIdentityInput(plan[place].source, plan[place].contentSha256, plan[place].ordinal))
      && |plan[place].text| <= 4 * plan[place].tokenEstimate < |plan[place].text| + 4
  {
    hide BuildChunkIdentityInput;
  }

  /** The plan is as long as its sections' texts together. */
  lemma PlanLength(hash: string -> string, document: Document, input: PlanInput, o: Options)
    requires ValidOptions(o)
    ensures |FullPlan(hash, document, input, o)| == Offset(document.sections, |document.sections|, o)
  {
    PlannedCount(document, document.sections, input, o);
    hide PlannedTexts, Offset, MakeChunk;
  }

  // ---- paragraphs -------------------------------------------------------------------------------------------------

  function Newlines(n: nat): string { seq(n, _ => '\n') }

  /** The blocks with runs of newlines between them. */
  function Interleaved(blocks: seq<string>, runs: seq<nat>): string
    requires |blocks| == |runs| + 1
    decreases blocks
  {
    if runs == [] then blocks[0] else blocks[0] + Newlines(runs[0]) + Interleaved(blocks[1..], runs[1..])
  }

  /** No two newlines stand together, and the text does not end in one unless it is the last block. */
  predicate SingleNewlines(block: string) {
    forall i :: 0 <= i < |block| - 1 ==> !(block[i] == '\n' && block[i + 1] == '\n')
  }

  predicate EndsInNewline(block: string) {
    block != "" && block[|block| - 1] == '\n'
  }

  predicate StartsWithNewline(block: string) {
    block != "" && block[0] == '\n'
  }

  /** Blocks and runs as a split at `\n{2,}` leaves them: runs of two or more, as long as they can be. */
  predicate SplitAtRuns(blocks: seq<string>, runs: seq<nat>) {
    && |blocks| == |runs| + 1
    && (forall i :: 0 <= i < |runs| ==> 2 <= runs[i])
    && (forall i :: 0 <= i < |blocks| ==> SingleNewlines(blocks[i]))
    && (forall i :: 0 <= i < |runs| ==> !EndsInNewline(blocks[i]))
    && forall i :: 0 < i < |blocks| ==> !StartsWithNewline(blocks[i])
  }

  lemma {:induction false} RunIsLongest(s: string)
    ensures NewlineRun(s) < |s| ==> s[NewlineRun(s)] != '\n'
    ensures s[..NewlineRun(s)] == Newlines(NewlineRun(s))
  {
    if s != "" && s[0] == '\n' {
      RunIsLongest(s[1..]);
      assert s[..NewlineRun(s)] == [s[0]] + s[1..][..NewlineRun(s[1..])];
    }
  }

  /** The text is its blocks and the runs between them, split wherever two or more newlines stand together. */
  lemma {:induction false} BlocksAreSplitAtRuns(text: string) returns (runs: seq<nat>)
    ensures SplitAtRuns(SplitBlocks(text), runs) && Interleaved(SplitBlocks(text), runs) == text
    ensures StartsWithNewline(SplitBlocks(text)[0]) <==> NewlineRun(text) == 1
    ensures text != "" && NewlineRun(text) == 0 ==> SplitBlocks(text)[0] != ""
    decreases |text|
  {
    hide NewlineRun, SplitBlocks, SplitAtRuns, Interleaved, StartsWithNewline;
    RunFacts(text);
    BlocksUnfold(text);
    if text == "" {
      runs := [];
      OneBlock();
    } else if 2 <= NewlineRun(text) {
      var n := NewlineRun(text);
      RunIsLongest(text);
      RunFacts(text[n..]);
      var later := BlocksAreSplitAtRuns(text[n..]);
      runs := [n] + later;
      BehindARun(SplitBlocks(text[n..]), later, n);
      assert text == text[..n] + text[n..];
    } else {
      RunFacts(text[1..]);
      runs := BlocksAreSplitAtRuns(text[1..]);
      BlocksUnfold(text[1..]);
      SameCount(SplitBlocks(text[1..]), runs);
      LongerFirstBlock(text[0], SplitBlocks(text[1..]), runs);
      assert text == [text[0]] + text[1..];
    }
  }

  lemma SameCount(blocks: seq<string>, runs: seq<nat>)
    requires SplitAtRuns(blocks, runs)
    ensures |blocks| == |runs| + 1
  {
  }

  lemma OneBlock()
    ensures SplitAtRuns([""], []) && Interleaved([""], []) == "" && !StartsWithNewline("")
  {
  }

  lemma BlocksUnfold(text: string)
    ensures text == "" ==> SplitBlocks(text) == [""]
    ensures 2 <= NewlineRun(text) ==> SplitBlocks(text) == [""] + SplitBlocks(text[NewlineRun(text)..])
    ensures text != "" && NewlineRun(text) < 2 ==>
      SplitBlocks(text) == [[text[0]] + SplitBlocks(text[1..])[0]] + SplitBlocks(text[1..])[1..]
  {
    hide NewlineRun;
    RunFacts(text);
  }

  lemma RunFacts(s: string)
    ensures NewlineRun(s) == 0 <==> s == "" || s[0] != '\n'
    ensures s != "" && s[0] == '\n' ==> NewlineRun(s) == 1 + NewlineRun(s[1..])
  {
  }

  lemma BehindARun(blocks: seq<string>, runs: seq<nat>, n: nat)
    requires SplitAtRuns(blocks, runs) && 2 <= n && !StartsWithNewline(blocks[0])
    ensures SplitAtRuns([""] + blocks, [n] + runs) && !StartsWithNewline("")
    ensures Interleaved([""] + blocks, [n] + runs) == Newlines(n) + Interleaved(blocks, runs)
  {
    assert ([""] + blocks)[1..] == blocks && ([n] + runs)[1..] == runs;
    assert "" + Newlines(n) == Newlines(n);
    hide StartsWithNewline, EndsInNewline, SingleNewlines, Interleaved;
    NothingIsPlain();
    assert forall i :: 0 < i <= |blocks| ==> ([""] + blocks)[i] == blocks[i - 1];
    assert forall i :: 0 < i <= |runs| ==> ([n] + runs)[i] == runs[i - 1];
  }

  lemma NothingIsPlain()
    ensures SingleNewlines("") && !EndsInNewline("") && !StartsWithNewline("")
  {
  }

  lemma LongerFirstBlock(c: char, blocks: seq<string>, runs: seq<nat>)
    requires SplitAtRuns(blocks, runs)
    requires c == '\n' ==> !StartsWithNewline(blocks[0]) && (runs != [] ==> blocks[0] != "")
    ensures SplitAtRuns([[c] + blocks[0]] + blocks[1..], runs)
    ensures StartsWithNewline([c] + blocks[0]) <==> c == '\n'
    ensures Interleaved([[c] + blocks[0]] + blocks[1..], runs) == [c] + Interleaved(blocks, runs)
  {
    var first, all := [c] + blocks[0], [[c] + blocks[0]] + blocks[1..];
    assert all[1..] == blocks[1..];
    if runs != [] {
      assert [c] + blocks[0] + Newlines(runs[0]) + Interleaved(blocks[1..], runs[1..])
          == [c] + (blocks[0] + Newlines(runs[0]) + Interleaved(blocks[1..], runs[1..]));
    }
    assert SingleNewlines(first) by {
      forall i | 0 <= i < |first| - 1
        ensures !(first[i] == '\n' && first[i + 1] == '\n')
      {
        if i > 0 {
          assert first[i] == blocks[0][i - 1] && first[i + 1] == blocks[0][i];
        }
      }
    }
    assert blocks[0] != "" ==> first[|first| - 1] == blocks[0][|blocks[0]| - 1];
    assert runs != [] ==> !EndsInNewline(first);
    hide SingleNewlines, EndsInNewline, StartsWithNewline;
    assert forall i :: 0 < i < |all| ==> all[i] == blocks[i];
  }

  // ---- over-long paragraphs ---------------------------------------------------------------------------------------

  /** An over-long paragraph stands alone: before it what is held goes out, after it packing starts afresh. */
  lemma {:induction false} PackSplitsAtLong(
    before: seq<string>, p: string, after: seq<string>, current: string, o: Options)
    requires ValidOptions(o) && o.maxChars < |p|
    ensures Pack(before + [p] + after, current, o) == Pack(before, current, o) + Windows(p, 0, o) + Pack(after, "", o)
    decreases before
  {
    hide Pack, Windows, Candidate;
    var all := before + [p] + after;
    PackUnfolds(all, current, o);
    if before == [] {
      NothingLeftToPack(current, o);
      assert all[0] == p && all[1..] == after;
      CandidateIsLonger(current, p);
    } else {
      PackUnfolds(before, current, o);
      assert all[0] == before[0] && all[1..] == before[1..] + [p] + after;
      PackSplitsAtLong(before[1..], p, after, Candidate(current, before[0]), o);
      PackSplitsAtLong(before[1..], p, after, before[0], o);
      PackSplitsAtLong(before[1..], p, after, "", o);
    }
  }

  lemma CandidateIsLonger(current: string, p: string)
    ensures |p| <= |Candidate(current, p)|
  {
  }

  /** What lies between each start and the size of a window after it. */
  function Slices(p: string, starts: seq<nat>, size: nat): seq<string> {
    if starts == [] then []
    else [Cut(p, starts[0], size)] + Slices(p, starts[1..], size)
  }

  function Cut(p: string, start: nat, size: nat): string {
    if |p| <= start then "" else if start + size < |p| then p[start..start + size] else p[start..]
  }

  /** Starts from `from` to the end of a text of `length`, each `stride` after the one before. */
  predicate Steps(starts: seq<nat>, from: nat, stride: nat, length: nat) {
    if length <= from then starts == []
    else
      && starts != [] && starts[0] == from
      && (forall i :: 0 < i < |starts| ==> starts[i] == starts[i - 1] + stride)
      && starts[|starts| - 1] < length <= starts[|starts| - 1] + stride
  }

  /**
    The windows of a paragraph are its slices of the full size, each start the
    size less the overlap after the one before, from the first position until none
    is left; trimmed, and without those that are blank.
  */
  lemma {:induction false} WindowsAreSlices(p: string, from: nat, o: Options) returns (starts: seq<nat>)
    requires ValidOptions(o)
    ensures Steps(starts, from, o.maxChars - o.overlapChars, |p|)
    ensures Windows(p, from, o) == TrimmedOf(Slices(p, starts, o.maxChars))
    decreases |p| - from
  {
    hide Windows, Trim;
    WindowsUnfold(p, from, o);
    if |p| <= from {
      starts := [];
    } else {
      var later := WindowsAreSlices(p, from + Stride(o), o);
      starts := [from] + later;
      assert starts[1..] == later;
      WindowIsSlice(p, from, o);
      TrimmedUnfold(Cut(p, from, o.maxChars), Slices(p, later, o.maxChars));
    }
  }

  lemma WindowIsSlice(p: string, start: nat, o: Options)
    requires ValidOptions(o) && start < |p|
    ensures WindowAt(p, start, o) == Trim(Cut(p, start, o.maxChars))
  {
    hide Trim;
    assert p[start..] == p[start..|p|];
  }

  lemma TrimmedUnfold(first: string, rest: seq<string>)
    ensures TrimmedOf([first] + rest) == (if Trim(first) == "" then [] else [Trim(first)]) + TrimmedOf(rest)
  {
    hide Trim;
    assert ([first] + rest)[1..] == rest;
  }

  // ---- trimmed texts ----------------------------------------------------------------------------------------------

  /** Not empty, and without white space at either end. */
  predicate Neat(s: string) {
    s != "" && !IsSpace(s[0]) && !IsSpace(s[|s| - 1])
  }

  predicate AllNeat(texts: seq<string>) {
    forall i :: 0 <= i < |texts| ==> Neat(texts[i])
  }

  lemma {:induction false} TrimmedAreNeat(blocks: seq<string>)
    ensures AllNeat(TrimmedOf(blocks))
  {
    hide Trim, IsSpace;
    if blocks != [] {
      var first := Trim(blocks[0]);
      TrimmedEnds(blocks[0]);
      TrimmedAreNeat(blocks[1..]);
      assert first != "" ==> Neat(first);
      hide Neat;
    }
  }

  lemma CandidateIsNeat(current: string, p: string)
    requires Neat(p) && (current == "" || Neat(current))
    ensures Neat(Candidate(current, p))
  {
    hide IsSpace;
  }

  lemma {:induction false} PackIsNeat(ps: seq<string>, current: string, o: Options)
    requires ValidOptions(o) && AllNeat(ps) && (current == "" || Neat(current))
    ensures AllNeat(Pack(ps, current, o))
    decreases ps
  {
    hide Pack, Windows, Candidate, Neat, TrimmedOf;
    if ps == [] {
      NothingLeftToPack(current, o);
    } else {
      PackUnfolds(ps, current, o);
      CandidateIsNeat(current, ps[0]);
      PackIsNeat(ps[1..], Candidate(current, ps[0]), o);
      PackIsNeat(ps[1..], ps[0], o);
      PackIsNeat(ps[1..], "", o);
      var starts := WindowsAreSlices(ps[0], 0, o);
      TrimmedAreNeat(Slices(ps[0], starts, o.maxChars));
    }
  }

  /** No chunk of a section is empty or begins or ends in white space. */
  lemma {:induction false} TextsAreNeat(section: Section, o: Options)
    requires ValidOptions(o)
    ensures AllNeat(TextsOfSection(section, o))
  {
    hide Pack, SplitBlocks, TrimmedOf, IsSpace, Trim, Normalize.Normalized;
    var text := Normalize.Normalized(section.text);
    Normalize.NormalizedShape(section.text);
    if text != "" && |text| <= o.maxChars {
      assert AllNeat([text]);
    } else if text != "" {
      TrimmedAreNeat(SplitBlocks(text));
      PackIsNeat(Paragraphs(text), "", o);
    }
  }
}
