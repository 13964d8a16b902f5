/** No chunk is blank, and however chunks are packed and overlap, no paragraph is left out of them. */
module ChunkCoverage {
  import opened Text
  import opened ChunkPlanner
  import opened ChunkPacking
  import Normalize
  import opened ChunkIdentity

  /** Something other than white space. */
  predicate HasInk(s: string) {
    exists i :: 0 <= i < |s| && !IsSpace(s[i])
  }

  lemma InkIffTrimmed(s: string)
    ensures HasInk(s) <==> Trim(s) != ""
    ensures HasInk(s) ==> HasInk(Trim(s))
  {
    var from, upTo := TrimIsSlice(s);
    TrimmedEnds(s);
    hide Trim, IsSpace;
    if HasInk(s) {
      var i :| 0 <= i < |s| && !IsSpace(s[i]);
      var a, b := TrimHolds(s, i);
      assert Trim(s)[i - a] == s[i];
    }
  }

  lemma {:induction false} InkIffNonSpace(s: string)
    ensures HasInk(s) <==> NonSpace(s) != ""
  {
    hide IsSpace;
    if s != "" {
      InkIffNonSpace(s[1..]);
      assert HasInk(s) <==> !IsSpace(s[0]) || HasInk(s[1..]) by {
        if HasInk(s) {
          var i :| 0 <= i < |s| && !IsSpace(s[i]);
          assert 0 < i ==> s[1..][i - 1] == s[i];
        }
        assert forall i :: 0 <= i < |s[1..]| ==> s[1..][i] == s[i + 1];
      }
    }
  }

  lemma CandidateHasInk(current: string, p: string)
    requires HasInk(p)
    ensures HasInk(Candidate(current, p))
  {
    hide IsSpace;
    var i :| 0 <= i < |p| && !IsSpace(p[i]);
    assert Candidate(current, p)[|Candidate(current, p)| - |p| + i] == p[i];
  }

  predicate AllInked(ps: seq<string>) {
    forall i :: 0 <= i < |ps| ==> HasInk(ps[i])
  }

  lemma {:induction false} WindowsHaveInk(p: string, start: nat, o: Options)
    requires ValidOptions(o)
    ensures AllInked(Windows(p, start, o))
    decreases |p| - start
  {
    hide Windows, Trim, IsSpace, HasInk;
    WindowsUnfold(p, start, o);
    if start < |p| {
      WindowsHaveInk(p, start + Stride(o), o);
      InkIffTrimmed(p[start..if start + o.maxChars < |p| then start + o.maxChars else |p|]);
    }
  }

  lemma ParagraphHasAWindow(p: string, o: Options)
    requires ValidOptions(o) && HasInk(p)
    ensures Windows(p, 0, o) != []
  {
    hide Windows, IsSpace;
    var i :| 0 <= i < |p| && !IsSpace(p[i]);
    var n, start := WindowsCoverTheParagraph(p, 0, o, i);
  }

  lemma {:induction false} PackHasInk(ps: seq<string>, current: string, o: Options)
    requires ValidOptions(o) && AllInked(ps) && (current == "" || HasInk(current))
    ensures AllInked(Pack(ps, current, o))
    ensures ps != [] || current != "" ==> Pack(ps, current, o) != []
    decreases ps
  {
    if ps != [] {
      var p, rest := ps[0], ps[1..];
      assert AllInked(rest) && HasInk(p);
      CandidateHasInk(current, p);
      WindowsHaveInk(p, 0, o);
      ParagraphHasAWindow(p, o);
      assert p != "";
      hide HasInk, Windows, Candidate;
      PackUnfolds(ps, current, o);
      PackHasInk(rest, Candidate(current, p), o);
      PackHasInk(rest, p, o);
      PackHasInk(rest, "", o);
    }
  }

  lemma {:induction false} TrimmedHaveInk(blocks: seq<string>)
    ensures AllInked(TrimmedOf(blocks))
  {
    hide HasInk, Trim;
    if blocks != [] {
      TrimmedHaveInk(blocks[1..]);
      InkIffTrimmed(blocks[0]);
    }
  }

  /** A text that is not blank gives at least one chunk, and none of its chunks is blank. */
  lemma ChunksHaveInk(text: string, o: Options)
    requires ValidOptions(o) && HasInk(text)
    ensures SplitText(text, o) != [] && AllInked(SplitText(text, o))
  {
    if o.maxChars < |text| {
      BlocksKeepNonSpace(text);
      TrimmedKeepsNonSpace(SplitBlocks(text));
      InkIffNonSpace(text);
      TrimmedHaveInk(SplitBlocks(text));
      hide HasInk, SplitBlocks, TrimmedOf, Pack, NonSpace;
      NonSpaceOfNothing();
      assert Paragraphs(text) != [];
      PackHasInk(Paragraphs(text), "", o);
    }
  }

  // ---- coverage ---------------------------------------------------------------------------------------------------

  /** `p` stands in `chunk`. */
  ghost predicate Part(p: string, chunk: string) {
    exists from :: SliceAt(p, chunk, from)
  }

  predicate SliceAt<T(==)>(part: seq<T>, whole: seq<T>, from: int) {
    0 <= from <= |whole| - |part| && whole[from..from + |part|] == part
  }

  ghost predicate InOne(p: string, chunks: seq<string>) {
    exists i :: 0 <= i < |chunks| && Part(p, chunks[i])
  }

  /** `part` stands in `whole` as consecutive entries. */
  ghost predicate Run(part: seq<string>, whole: seq<string>) {
    exists from :: SliceAt(part, whole, from)
  }

  /** A paragraph that fits stands whole in one chunk; of any other, every window is a chunk, one after another. */
  ghost predicate Covered(p: string, chunks: seq<string>, o: Options)
    requires ValidOptions(o)
  {
    if |p| <= o.maxChars then InOne(p, chunks) else Run(Windows(p, 0, o), chunks)
  }

  lemma SliceOfSlice(p: string, q: string, chunk: string, inner: int, outer: int)
    requires SliceAt(p, q, inner) && SliceAt(q, chunk, outer)
    ensures SliceAt(p, chunk, outer + inner)
  {
    forall k | 0 <= k < |p|
      ensures chunk[outer + inner..outer + inner + |p|][k] == p[k]
    {
      assert p[k] == q[inner..inner + |p|][k] == q[inner + k];
      assert q[inner + k] == chunk[outer..outer + |q|][inner + k];
    }
  }

  lemma PartInOne(p: string, q: string, chunks: seq<string>)
    requires Part(p, q) && InOne(q, chunks)
    ensures InOne(p, chunks)
  {
    var i :| 0 <= i < |chunks| && Part(q, chunks[i]);
    var outer :| SliceAt(q, chunks[i], outer);
    var inner :| SliceAt(p, q, inner);
    SliceOfSlice(p, q, chunks[i], inner, outer);
  }

  lemma CandidateHasBoth(current: string, p: string)
    ensures Part(p, Candidate(current, p)) && Part(current, Candidate(current, p))
  {
    var c := Candidate(current, p);
    assert SliceAt(p, c, |c| - |p|) && SliceAt(current, c, 0);
  }

  lemma CoveredLater(p: string, before: seq<string>, chunks: seq<string>, o: Options)
    requires ValidOptions(o) && Covered(p, chunks, o)
    ensures Covered(p, before + chunks, o)
  {
    hide Part, Windows;
    if |p| <= o.maxChars {
      var i :| 0 <= i < |chunks| && Part(p, chunks[i]);
      assert (before + chunks)[|before| + i] == chunks[i];
    } else {
      var part := Windows(p, 0, o);
      var from :| SliceAt(part, chunks, from);
      assert SliceAt(part, before + chunks, |before| + from);
    }
  }

  lemma HeldFirst(current: string, later: seq<string>)
    requires current != ""
    ensures InOne(current, (if current == "" then [] else [current]) + later)
  {
    var chunks := [current] + later;
    assert SliceAt(current, chunks[0], 0);
    assert Part(current, chunks[0]);
  }

  lemma WindowsAfter(held: seq<string>, windows: seq<string>, later: seq<string>)
    ensures Run(windows, held + (windows + later))
  {
    assert SliceAt(windows, held + (windows + later), |held|);
  }

  ghost predicate AllCovered(ps: seq<string>, chunks: seq<string>, o: Options)
    requires ValidOptions(o)
  {
    forall i :: 0 <= i < |ps| ==> Covered(ps[i], chunks, o)
  }

  lemma AllCoveredLater(ps: seq<string>, before: seq<string>, chunks: seq<string>, o: Options)
    requires ValidOptions(o) && AllCovered(ps, chunks, o)
    ensures AllCovered(ps, before + chunks, o)
  {
    hide Covered;
    forall i | 0 <= i < |ps|
      ensures Covered(ps[i], before + chunks, o)
    {
      CoveredLater(ps[i], before, chunks, o);
    }
  }

  lemma HeadAndTailCovered(ps: seq<string>, chunks: seq<string>, o: Options)
    requires ValidOptions(o) && ps != [] && Covered(ps[0], chunks, o) && AllCovered(ps[1..], chunks, o)
    ensures AllCovered(ps, chunks, o)
  {
    hide Covered;
    assert forall i :: 0 < i < |ps| ==> ps[i] == ps[1..][i - 1];
  }

  lemma {:induction false} PackCovers(ps: seq<string>, current: string, o: Options)
    requires ValidOptions(o) && |current| <= o.maxChars && forall i :: 0 <= i < |ps| ==> ps[i] != ""
    ensures AllCovered(ps, Pack(ps, current, o), o)
    ensures current != "" ==> InOne(current, Pack(ps, current, o))
    decreases ps, 0
  {
    if ps == [] {
      if current != "" {
        HeldFirst(current, []);
      }
    } else {
      var p, rest, chunks := ps[0], ps[1..], Pack(ps, current, o);
      var held := if current == "" then [] else [current];
      PackUnfolds(ps, current, o);
      hide Part, InOne, Run, Windows, Pack, Candidate, AllCovered;
      if |Candidate(current, p)| <= o.maxChars {
        FitsWith(p, rest, current, o);
      } else if |p| <= o.maxChars {
        PackCovers(rest, p, o);
        var later := Pack(rest, p, o);
        AllCoveredLater(rest, held, later, o);
        CoveredLater(p, held, later, o);
        if current != "" {
          HeldFirst(current, later);
        }
      } else {
        PackCovers(rest, "", o);
        var windows, later := Windows(p, 0, o), Pack(rest, "", o);
        AllCoveredLater(rest, windows, later, o);
        AllCoveredLater(rest, held, windows + later, o);
        WindowsAfter(held, windows, later);
        assert held + (windows + later) == chunks;
        if current != "" {
          HeldFirst(current, windows + later);
        }
      }
      HeadAndTailCovered(ps, chunks, o);
    }
  }

  /** The next paragraph joins what is held. */
  lemma {:induction false} FitsWith(p: string, rest: seq<string>, current: string, o: Options)
    requires ValidOptions(o) && p != "" && |Candidate(current, p)| <= o.maxChars
    requires forall i :: 0 <= i < |rest| ==> rest[i] != ""
    ensures var chunks := Pack(rest, Candidate(current, p), o);
      AllCovered(rest, chunks, o) && Covered(p, chunks, o) && InOne(current, chunks)
    decreases rest, 1
  {
    var chunks := Pack(rest, Candidate(current, p), o);
    assert Candidate(current, p) != "" && |p| <= o.maxChars;
    hide Pack, Candidate;
    PackCovers(rest, Candidate(current, p), o);
    CandidateHasBoth(current, p);
    PartInOne(p, Candidate(current, p), chunks);
    PartInOne(current, Candidate(current, p), chunks);
  }

  /** Whatever the overlap, every paragraph of a text that is cut up is covered by its chunks. */
  lemma ParagraphsAreCovered(text: string, o: Options)
    requires ValidOptions(o) && o.maxChars < |text|
    ensures AllCovered(Paragraphs(text), SplitText(text, o), o)
  {
    hide Pack, Paragraphs;
    PackCovers(Paragraphs(text), "", o);
  }

  // ---- whole plans ------------------------------------------------------------------------------------------------

  lemma NormalizedHasInk(text: string)
    ensures Normalize.Normalized(text) != "" <==> HasInk(Normalize.Normalized(text))
  {
    Normalize.NormalizedShape(text);
    hide Normalize.Normalized, IsSpace;
    if Normalize.Normalized(text) != "" {
      assert !IsSpace(Normalize.Normalized(text)[0]);
    }
  }

  /** Planned texts come from sections; none is blank or over-long. */
  lemma {:induction false} PlannedTextsAreGood(document: Document, sections: seq<Section>, input: PlanInput, o: Options)
    requires ValidOptions(o)
    ensures var planned := PlannedTexts(document, sections, input, o);
      && (planned == [] <==> forall i :: 0 <= i < |sections| ==> Normalize.Normalized(sections[i].text) == "")
      && forall i :: 0 <= i < |planned| ==>
           && HasInk(planned[i].1) && Sized(planned[i].1, o)
           && planned[i].0.documentKey == input.documentKey && planned[i].0.documentTitle == document.title
           && planned[i].0.documentVersion == input.documentVersion
    decreases sections
  {
    hide Normalize.Normalized, HasInk, SplitText, Sized;
    if sections != [] {
      PlannedTextsAreGood(document, sections[1..], input, o);
      var text := Normalize.Normalized(sections[0].text);
      NormalizedHasInk(sections[0].text);
      if text != "" {
        ChunksHaveInk(text, o);
        ChunksAreSized(text, o);
        hide AllInked;
        SectionTextsAreGood(document, sections[0], input, o);
      }
    }
  }

  lemma SectionTextsAreGood(document: Document, section: Section, input: PlanInput, o: Options)
    requires ValidOptions(o) && Normalize.Normalized(section.text) != ""
    requires var texts := SplitText(Normalize.Normalized(section.text), o);
      texts != [] && AllInked(texts) && forall chunk :: chunk in texts ==> Sized(chunk, o)
    ensures var planned := SectionTexts(document, section, input, o);
      && planned != []
      && forall i :: 0 <= i < |planned| ==>
           && HasInk(planned[i].1) && Sized(planned[i].1, o)
           && planned[i].0.documentKey == input.documentKey && planned[i].0.documentTitle == document.title
           && planned[i].0.documentVersion == input.documentVersion
  {
    hide Normalize.Normalized, HasInk, SplitText, Sized;
  }

  /** No planned chunk is blank or over-long; there is none only when every section is blank. */
  lemma PlannedChunksAreGood(hash: string -> string, document: Document, input: PlanInput, o: Options)
    requires ValidOptions(o)
    ensures var plan := FullPlan(hash, document, input, o);
      && (plan == [] <==>
            forall i :: 0 <= i < |document.sections| ==> Normalize.Normalized(document.sections[i].text) == "")
      && forall i :: 0 <= i < |plan| ==>
           && Trim(plan[i].text) != "" && |plan[i].text| <= o.maxChars
           && plan[i].source.documentKey == input.documentKey && plan[i].source.documentTitle == document.title
           && plan[i].source.documentVersion == input.documentVersion
  {
    hide Normalize.Normalized, HasInk, PlannedTexts, Trim, BuildChunkId;
    PlannedTextsAreGood(document, document.sections, input, o);
    var plan := FullPlan(hash, document, input, o);
    forall i | 0 <= i < |plan|
      ensures Trim(plan[i].text) != ""
    {
      InkIffTrimmed(plan[i].text);
    }
  }
}
