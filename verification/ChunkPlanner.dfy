/** Chunk planning: paragraphs are packed greedily, over-long ones are cut into overlapping windows. */
module ChunkPlanner {
  import opened Wrappers
  import opened Text
  import Normalize
  import opened ChunkIdentity

  datatype Options = Options(maxChars: int, overlapChars: int)

  datatype Section = Section(
    text: string, sectionPath: seq<string>, sectionType: string, pageStart: Option<nat>, pageEnd: Option<nat>,
    articleNumber: Option<string>, citationLabel: Option<string>)

  datatype Document = Document(title: string, sections: seq<Section>)

  datatype PlanInput = PlanInput(documentKey: string, documentVersion: string)

  datatype Chunk = Chunk(
    chunkId: string, ordinal: nat, text: string, contentSha256: string, tokenEstimate: nat, source: Source)

  datatype PlanError = PlannerPolicyInvalid | ResourcePolicyInvalid

  predicate ValidOptions(o: Options) {
    && 32 <= o.maxChars <= 1000000
    && 0 <= o.overlapChars < o.maxChars
    && o.overlapChars <= o.maxChars / 2
  }

  /** How far one window starts after another. */
  function Stride(o: Options): (stride: int)
    requires ValidOptions(o)
    ensures 1 <= stride && o.maxChars <= 2 * stride && stride + o.overlapChars == o.maxChars
  {
    if o.maxChars - o.overlapChars < 1 then 1 else o.maxChars - o.overlapChars
  }

  function NewlineRun(s: string): (n: nat)
    ensures n <= |s| && forall i :: 0 <= i < n ==> s[i] == '\n'
  {
    if s != "" && s[0] == '\n' then 1 + NewlineRun(s[1..]) else 0
  }

  /** The pieces between runs of at least two newlines. */
  function SplitBlocks(text: string): (blocks: seq<string>)
    ensures blocks != []
    decreases |text|
  {
    if text == "" then [""]
    else if 2 <= NewlineRun(text) then [""] + SplitBlocks(text[NewlineRun(text)..])
    else
      var rest := SplitBlocks(text[1..]);
      [[text[0]] + rest[0]] + rest[1..]
  }

  /** The trimmed pieces that are not empty. */
  function TrimmedOf(blocks: seq<string>): (ps: seq<string>)
    ensures forall i :: 0 <= i < |ps| ==> ps[i] != ""
  {
    if blocks == [] then []
    else (if Trim(blocks[0]) == "" then [] else [Trim(blocks[0])]) + TrimmedOf(blocks[1..])
  }

  function Paragraphs(text: string): (ps: seq<string>)
    ensures forall i :: 0 <= i < |ps| ==> ps[i] != ""
  {
    TrimmedOf(SplitBlocks(text))
  }

  function WindowAt(p: string, start: nat, o: Options): string
    requires ValidOptions(o) && start <= |p|
  {
    Trim(p[start..if start + o.maxChars < |p| then start + o.maxChars else |p|])
  }

  /** The non-empty windows of an over-long paragraph from `start` on. */
  function Windows(p: string, start: nat, o: Options): seq<string>
    requires ValidOptions(o)
    decreases |p| - start
  {
    if |p| <= start then []
    else (if WindowAt(p, start, o) == "" then [] else [WindowAt(p, start, o)]) + Windows(p, start + Stride(o), o)
  }

  function Candidate(current: string, p: string): string {
    if current == "" then p else current + "\n\n" + p
  }

  /** What the packing loop yields for the paragraphs `ps` when it holds `current`. */
  function Pack(ps: seq<string>, current: string, o: Options): seq<string>
    requires ValidOptions(o)
    decreases ps
  {
    if ps == [] then (if current == "" then [] else [current])
    else if |Candidate(current, ps[0])| <= o.maxChars then Pack(ps[1..], Candidate(current, ps[0]), o)
    else
      (if current == "" then [] else [current])
      + if |ps[0]| <= o.maxChars then Pack(ps[1..], ps[0], o) else Windows(ps[0], 0, o) + Pack(ps[1..], "", o)
  }

  function SplitText(text: string, o: Options): seq<string>
    requires ValidOptions(o)
  {
    if |text| <= o.maxChars then [text] else Pack(Paragraphs(text), "", o)
  }

  lemma PackUnfolds(ps: seq<string>, current: string, o: Options)
    requires ValidOptions(o) && ps != []
    ensures Pack(ps, current, o) ==
      if |Candidate(current, ps[0])| <= o.maxChars then Pack(ps[1..], Candidate(current, ps[0]), o)
      else
        (if current == "" then [] else [current])
        + if |ps[0]| <= o.maxChars then Pack(ps[1..], ps[0], o) else Windows(ps[0], 0, o) + Pack(ps[1..], "", o)
  {
    hide Windows, Candidate;
  }

  lemma PackUnfoldsAt(ps: seq<string>, n: nat, current: string, o: Options)
    requires ValidOptions(o) && n < |ps|
    ensures Pack(ps[n..], current, o) ==
      if |Candidate(current, ps[n])| <= o.maxChars then Pack(ps[n + 1..], Candidate(current, ps[n]), o)
      else
        (if current == "" then [] else [current])
        + if |ps[n]| <= o.maxChars then Pack(ps[n + 1..], ps[n], o) else Windows(ps[n], 0, o) + Pack(ps[n + 1..], "", o)
  {
    hide Windows, Candidate, Pack;
    PackUnfolds(ps[n..], current, o);
    assert ps[n..][1..] == ps[n + 1..];
  }

  lemma PackEnds(ps: seq<string>, current: string, o: Options)
    requires ValidOptions(o)
    ensures Pack(ps[|ps|..], current, o) == if current == "" then [] else [current]
  {
  }

  /** The window at `start`, if it is not empty, and those after it. */
  lemma WindowsUnfold(p: string, start: nat, o: Options)
    requires ValidOptions(o)
    ensures |p| <= start ==> Windows(p, start, o) == []
    ensures start < |p| ==>
      Windows(p, start, o)
      == (if WindowAt(p, start, o) == "" then [] else [WindowAt(p, start, o)]) + Windows(p, start + Stride(o), o)
  {
    hide WindowAt;
  }

  method YieldWindows(p: string, o: Options) returns (yielded: seq<string>)
    requires ValidOptions(o)
    ensures yielded == Windows(p, 0, o)
  {
    hide WindowAt, Windows;
    yielded := [];
    var start: nat := 0;
    while start < |p|
      invariant Windows(p, 0, o) == yielded + Windows(p, start, o)
      decreases |p| - start
    {
      var chunk := WindowAt(p, start, o);
      WindowsUnfold(p, start, o);
      if chunk != "" {
        yielded := yielded + [chunk];
      }
      start := start + Stride(o);
    }
    WindowsUnfold(p, start, o);
    assert yielded + [] == yielded;
  }

  /** The generator, as the sequence of everything it yields. */
  method SplitLongText(text: string, o: Options) returns (yielded: seq<string>)
    requires ValidOptions(o)
    ensures yielded == SplitText(text, o)
  {
    hide Windows, Paragraphs, Pack, Candidate;
    if |text| <= o.maxChars {
      return [text];
    }
    var paragraphs := Paragraphs(text);
    yielded := [];
    var current := "";
    assert paragraphs[0..] == paragraphs;
    for n := 0 to |paragraphs|
      invariant Pack(paragraphs, "", o) == yielded + Pack(paragraphs[n..], current, o)
    {
      var paragraph := paragraphs[n];
      PackUnfoldsAt(paragraphs, n, current, o);
      var candidate := Candidate(current, paragraph);
      if |candidate| <= o.maxChars {
        current := candidate;
        continue;
      }
      if current != "" {
        yielded := yielded + [current];
      }
      if |paragraph| <= o.maxChars {
        current := paragraph;
        continue;
      }
      var windows := YieldWindows(paragraph, o);
      yielded := yielded + windows;
      current := "";
    }
    PackEnds(paragraphs, current, o);
    if current != "" {
      yielded := yielded + [current];
    }
  }

  function SourceFromSection(document: Document, section: Section, input: PlanInput): Source {
    Source(
      input.documentKey, document.title, input.documentVersion, section.sectionPath, section.sectionType,
      section.citationLabel, section.pageStart, section.pageEnd, section.articleNumber)
  }

  function Tagged(source: Source, texts: seq<string>): seq<(Source, string)> {
    seq(|texts|, i requires 0 <= i < |texts| => (source, texts[i]))
  }

  function SectionTexts(document: Document, section: Section, input: PlanInput, o: Options): seq<(Source, string)>
    requires ValidOptions(o)
  {
    var text := Normalize.Normalized(section.text);
    if text == "" then [] else Tagged(SourceFromSection(document, section, input), SplitText(text, o))
  }

  /** All texts of all sections, in order. */
  function PlannedTexts(document: Document, sections: seq<Section>, input: PlanInput, o: Options): seq<(Source, string)>
    requires ValidOptions(o)
  {
    if sections == [] then []
    else SectionTexts(document, sections[0], input, o) + PlannedTexts(document, sections[1..], input, o)
  }

  function MakeChunk(hash: string -> string, planned: (Source, string), ordinal: nat): Chunk {
    var sha := hash(planned.1);
    Chunk(BuildChunkId(hash, planned.0, sha, ordinal), ordinal, planned.1, sha, (|planned.1| + 3) / 4, planned.0)
  }

  /** The texts as chunks numbered from `first`. */
  function Numbered(hash: string -> string, texts: seq<(Source, string)>, first: nat): seq<Chunk> {
    seq(|texts|, i requires 0 <= i < |texts| => MakeChunk(hash, texts[i], first + i))
  }

  /** The plan without a bound on its length. */
  function FullPlan(hash: string -> string, document: Document, input: PlanInput, o: Options): seq<Chunk>
    requires ValidOptions(o)
  {
    Numbered(hash, PlannedTexts(document, document.sections, input, o), 1)
  }

  function Take<T>(s: seq<T>, n: nat): seq<T> {
    if n < |s| then s[..n] else s
  }

  lemma NumberedSnoc(hash: string -> string, done: seq<(Source, string)>, next: (Source, string))
    ensures Numbered(hash, done + [next], 1) == Numbered(hash, done, 1) + [MakeChunk(hash, next, |done| + 1)]
  {
    hide MakeChunk;
  }

  lemma NumberedPrefix(hash: string -> string, done: seq<(Source, string)>, rest: seq<(Source, string)>)
    ensures Numbered(hash, done + rest, 1)[..|done|] == Numbered(hash, done, 1)
  {
    hide MakeChunk;
  }

  /** One section's texts as further chunks; stops at the first chunk over the bound. */
  method PushTexts(
    hash: string -> string, source: Source, texts: seq<string>, earlier: seq<Chunk>, maxChunks: nat,
    ghost done: seq<(Source, string)>)
    returns (chunks: seq<Chunk>, stopped: bool)
    requires earlier == Numbered(hash, done, 1) && |earlier| <= maxChunks
    ensures stopped <==> maxChunks < |done| + |texts|
    ensures chunks == Take(Numbered(hash, done + Tagged(source, texts), 1), maxChunks + 1)
  {
    hide MakeChunk;
    chunks := earlier;
    var ordinal := |earlier| + 1;
    ghost var all := Tagged(source, texts);
    assert done + all[..0] == done;
    for i := 0 to |texts|
      invariant chunks == Numbered(hash, done + all[..i], 1) && ordinal == |chunks| + 1 && |chunks| <= maxChunks
    {
      NumberedSnoc(hash, done + all[..i], all[i]);
      assert done + all[..i + 1] == done + all[..i] + [all[i]];
      chunks := chunks + [MakeChunk(hash, (source, texts[i]), ordinal)];
      if |chunks| > maxChunks {
        NumberedPrefix(hash, done + all[..i + 1], all[i + 1..]);
        assert done + all == done + all[..i + 1] + all[i + 1..];
        return chunks, true;
      }
      ordinal := ordinal + 1;
    }
    assert all[..|texts|] == all;
    stopped := false;
  }

  /** The bounded plan: it stops one chunk after the bound. */
  method PlanChunks(hash: string -> string, document: Document, input: PlanInput, o: Options, maxChunks: int)
    returns (r: Result<seq<Chunk>, PlanError>)
    ensures r == Err(PlannerPolicyInvalid) <==>
      !(32 <= o.maxChars <= 1000000 && 0 <= o.overlapChars < o.maxChars && 2 * o.overlapChars <= o.maxChars)
    ensures r.Err? <==> !ValidOptions(o) || maxChunks < 1
    ensures r.Err? ==> r.error == if ValidOptions(o) then ResourcePolicyInvalid else PlannerPolicyInvalid
    ensures r.Ok? ==>
      var plan := FullPlan(hash, document, input, o);
      && r.value == Take(plan, maxChunks + 1)
      && (maxChunks < |r.value| <==> maxChunks < |plan|)
      && (|plan| <= maxChunks ==> r.value == plan)
  {
    if !ValidOptions(o) {
      return Err(PlannerPolicyInvalid);
    }
    if maxChunks < 1 {
      return Err(ResourcePolicyInvalid);
    }
    hide SplitText, Normalize.Normalized, SourceFromSection, Numbered, PlannedTexts, Take;
    ghost var planned := PlannedTexts(document, document.sections, input, o);
    var chunks: seq<Chunk> := [];
    ghost var done: seq<(Source, string)> := [];
    NothingNumbered(hash);
    PlanEnds(document, input, o);
    assert document.sections[0..] == document.sections;
    for n := 0 to |document.sections|
      invariant planned == done + PlannedTexts(document, document.sections[n..], input, o)
      invariant chunks == Numbered(hash, done, 1) && |chunks| <= maxChunks
    {
      var section := document.sections[n];
      PlannedStep(document, n, input, o, done);
      var sectionText := Normalize.NormalizeWhitespace(section.text);
      if sectionText == "" {
        assert done + [] == done;
        continue;
      }
      var source := SourceFromSection(document, section, input);
      var texts := SplitLongText(sectionText, o);
      var stopped;
      chunks, stopped := PushTexts(hash, source, texts, chunks, maxChunks, done);
      done := done + Tagged(source, texts);
      if stopped {
        StoppedPlan(hash, done, PlannedTexts(document, document.sections[n + 1..], input, o), maxChunks);
        return Ok(chunks);
      }
      StoppedPlan(hash, done, [], maxChunks);
    }
    assert done + [] == done;
    StoppedPlan(hash, done, [], maxChunks);
    r := Ok(chunks);
  }

  lemma PlannedStep(document: Document, n: nat, input: PlanInput, o: Options, done: seq<(Source, string)>)
    requires ValidOptions(o) && n < |document.sections|
    ensures done + PlannedTexts(document, document.sections[n..], input, o)
         == done + SectionTexts(document, document.sections[n], input, o)
            + PlannedTexts(document, document.sections[n + 1..], input, o)
  {
    hide SectionTexts;
    assert document.sections[n..][1..] == document.sections[n + 1..];
  }

  lemma PlanEnds(document: Document, input: PlanInput, o: Options)
    requires ValidOptions(o)
    ensures PlannedTexts(document, document.sections[|document.sections|..], input, o) == []
  {
  }

  lemma NothingNumbered(hash: string -> string)
    ensures Numbered(hash, [], 1) == []
  {
  }

  lemma StoppedPlan(hash: string -> string, done: seq<(Source, string)>, rest: seq<(Source, string)>, maxChunks: nat)
    ensures |Numbered(hash, done, 1)| == |done|
    ensures maxChunks < |done| || rest == [] ==>
      Take(Numbered(hash, done + rest, 1), maxChunks + 1) == Take(Numbered(hash, done, 1), maxChunks + 1)
  {
    NumberedPrefix(hash, done, rest);
    if rest == [] {
      assert done + rest == done;
    } else if maxChunks < |done| {
      assert Numbered(hash, done + rest, 1)[..maxChunks + 1]
          == Numbered(hash, done + rest, 1)[..|done|][..maxChunks + 1];
    }
  }

  /** The planned chunks are numbered 1, 2, 3, ... in the order of their sections, and no two share an id. */
  lemma PlanIsNumberedAndDistinct(hash: string -> string, document: Document, input: PlanInput, o: Options)
    requires ValidOptions(o) && CollisionFree(hash)
    ensures var plan := FullPlan(hash, document, input, o);
      && (forall i :: 0 <= i < |plan| ==> plan[i].ordinal == i + 1)
      && (forall i, j :: 0 <= i < j < |plan| ==> plan[i].chunkId != plan[j].chunkId)
  {
    hide PlannedTexts, BuildChunkIdentityInput;
    var plan := FullPlan(hash, document, input, o);
    forall i, j | 0 <= i < j < |plan|
      ensures plan[i].chunkId != plan[j].chunkId
    {
      OrdinalsSeparateIds(
        hash, plan[i].source, plan[i].contentSha256, i + 1, plan[j].source, plan[j].contentSha256, j + 1);
    }
  }
}
