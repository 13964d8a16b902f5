/** What the planner's chunks are: bounded, complete, and as few as consecutive packing allows. */
module ChunkPacking {
  import opened Text
  import opened ChunkPlanner

  /** Non-empty and no longer than the limit, each of them. */
  predicate Within(ps: seq<string>, limit: int) {
    forall i :: 0 <= i < |ps| ==> 0 < |ps[i]| <= limit
  }

  predicate AllFit(ps: seq<string>, o: Options) {
    Within(ps, o.maxChars)
  }

  // ---- sizes ------------------------------------------------------------------------------------------------------

  predicate Sized(chunk: string, o: Options) {
    0 < |chunk| <= o.maxChars
  }

  lemma TrimIsNoLonger(s: string)
    ensures |Trim(s)| <= |s|
  {
    var from, upTo := TrimIsSlice(s);
  }

  lemma {:induction false} WindowsAreSized(p: string, start: nat, o: Options)
    requires ValidOptions(o)
    ensures forall chunk :: chunk in Windows(p, start, o) ==> Sized(chunk, o)
    decreases |p| - start
  {
    hide Windows, Trim;
    WindowsUnfold(p, start, o);
    if start < |p| {
      WindowsAreSized(p, start + Stride(o), o);
      TrimIsNoLonger(p[start..if start + o.maxChars < |p| then start + o.maxChars else |p|]);
    }
  }

  lemma {:induction false} PackIsSized(ps: seq<string>, current: string, o: Options)
    requires ValidOptions(o) && |current| <= o.maxChars && forall i :: 0 <= i < |ps| ==> ps[i] != ""
    ensures forall chunk :: chunk in Pack(ps, current, o) ==> Sized(chunk, o)
    decreases ps
  {
    hide Windows;
    if ps != [] {
      var p := ps[0];
      if |Candidate(current, p)| <= o.maxChars {
        PackIsSized(ps[1..], Candidate(current, p), o);
      } else if |p| <= o.maxChars {
        PackIsSized(ps[1..], p, o);
      } else {
        WindowsAreSized(p, 0, o);
        PackIsSized(ps[1..], "", o);
      }
    }
  }

  /** Every chunk of a non-empty text is non-empty and within the limit. */
  lemma ChunksAreSized(text: string, o: Options)
    requires ValidOptions(o) && text != ""
    ensures forall chunk :: chunk in SplitText(text, o) ==> Sized(chunk, o)
  {
    hide Pack, Paragraphs;
    if o.maxChars < |text| {
      PackIsSized(Paragraphs(text), "", o);
    }
  }

  // ---- windows ----------------------------------------------------------------------------------------------------

  /** The window that starts at `start` holds position `i` of `p`. */
  predicate WindowHolds(p: string, start: nat, o: Options, i: nat)
    requires ValidOptions(o) && start <= |p|
  {
    exists from, upTo ::
      start <= from <= i < upTo <= |p| && upTo <= start + o.maxChars && p[from..upTo] == WindowAt(p, start, o)
  }

  lemma TrimHolds(s: string, i: nat) returns (from: nat, upTo: nat)
    requires i < |s| && !IsSpace(s[i])
    ensures from <= i < upTo <= |s| && s[from..upTo] == Trim(s)
  {
    from, upTo := TrimIsSlice(s);
    forall k | 0 <= k < |s| && !(from <= k < upTo)
      ensures IsSpace(s[k])
    {
      if k < from {
        assert s[..from][k] == s[k];
      } else {
        assert s[upTo..][k - upTo] == s[k];
      }
    }
  }

  lemma WindowHoldsItsPositions(p: string, start: nat, o: Options, i: nat)
    requires ValidOptions(o) && start <= i < |p| && i < start + o.maxChars && !IsSpace(p[i])
    ensures WindowHolds(p, start, o, i)
  {
    var upTo := if start + o.maxChars < |p| then start + o.maxChars else |p|;
    var s := p[start..upTo];
    hide Trim, IsSpace;
    assert s[i - start] == p[i];
    var a, b := TrimHolds(s, i - start);
    SubSlice(p, start, upTo, a, b);
    assert WindowAt(p, start, o) == Trim(s);
    assert start <= start + a <= i < start + b <= |p|;
  }

  lemma SubSlice(p: string, start: nat, upTo: nat, a: nat, b: nat)
    requires start <= upTo <= |p| && a <= b <= upTo - start
    ensures p[start..upTo][a..b] == p[start + a..start + b]
  {
    var s := p[start..upTo];
    assert |s[a..b]| == b - a == |p[start + a..start + b]|;
    forall k | 0 <= k < b - a
      ensures s[a..b][k] == p[start + a..start + b][k]
    {
      assert s[a..b][k] == s[a + k] == p[start + a + k];
    }
  }

  lemma HoldingIsNotEmpty(p: string, start: nat, o: Options, i: nat)
    requires ValidOptions(o) && start <= |p| && WindowHolds(p, start, o, i)
    ensures WindowAt(p, start, o) != ""
  {
    hide WindowAt;
    var from, upTo :| start <= from <= i < upTo <= |p| && p[from..upTo] == WindowAt(p, start, o);
    assert |p[from..upTo]| == upTo - from;
  }

  /** Every position of an over-long paragraph that is not white space lies in a window that is yielded. */
  lemma {:induction false} WindowsCoverTheParagraph(p: string, from: nat, o: Options, i: nat)
    returns (n: nat, start: nat)
    requires ValidOptions(o) && from <= i < |p| && !IsSpace(p[i])
    ensures start == from + n * Stride(o) <= i
    ensures WindowHolds(p, start, o, i) && WindowAt(p, start, o) in Windows(p, from, o)
    decreases |p| - from
  {
    hide WindowAt, IsSpace, WindowHolds;
    if i < from + Stride(o) {
      n, start := 0, from;
      WindowHoldsItsPositions(p, start, o, i);
      HoldingIsNotEmpty(p, start, o, i);
    } else {
      n, start := WindowsCoverTheParagraph(p, from + Stride(o), o, i);
      n := n + 1;
    }
  }

  lemma {:induction false} WindowCountTimesSize(p: string, start: nat, o: Options)
    requires ValidOptions(o)
    ensures start < |p| ==> |Windows(p, start, o)| * o.maxChars <= 2 * (|p| - start) + o.maxChars - 1
    decreases |p| - start
  {
    hide Windows;
    if start < |p| {
      var rest := |Windows(p, start + Stride(o), o)|;
      WindowCountTimesSize(p, start + Stride(o), o);
      OneMoreWindow(p, start, o);
      CountBound(|Windows(p, start, o)|, rest, o.maxChars);
    }
  }

  lemma OneMoreWindow(p: string, start: nat, o: Options)
    requires ValidOptions(o) && start < |p|
    ensures |Windows(p, start, o)| - |Windows(p, start + Stride(o), o)| in {0, 1}
    ensures |p| <= start + Stride(o) ==> Windows(p, start + Stride(o), o) == []
  {
    hide Windows, WindowAt;
    WindowsUnfold(p, start, o);
    WindowsUnfold(p, start + Stride(o), o);
  }

  lemma CountBound(count: nat, rest: nat, size: int)
    requires (count == rest || count == rest + 1) && 0 <= size
    ensures count * size <= rest * size + size
  {
  }

  /** A paragraph gives at most `ceil(2 * length / maxChars)` windows. */
  lemma WindowsAreFew(p: string, o: Options)
    requires ValidOptions(o) && p != ""
    ensures |Windows(p, 0, o)| * o.maxChars < 2 * |p| + o.maxChars
  {
    hide Windows;
    WindowCountTimesSize(p, 0, o);
  }

  // ---- packing ----------------------------------------------------------------------------------------------------

  function JoinParagraphs(group: seq<string>): string {
    if group == [] then ""
    else if |group| == 1 then group[0]
    else JoinParagraphs(group[..|group| - 1]) + "\n\n" + group[|group| - 1]
  }

  function JoinEach(groups: seq<seq<string>>): seq<string> {
    if groups == [] then [] else [JoinParagraphs(groups[0])] + JoinEach(groups[1..])
  }

  function Flatten(groups: seq<seq<string>>): seq<string> {
    if groups == [] then [] else groups[0] + Flatten(groups[1..])
  }

  predicate GroupsFit(groups: seq<seq<string>>, o: Options) {
    forall i :: 0 <= i < |groups| ==> |JoinParagraphs(groups[i])| <= o.maxChars
  }

  /** The groups of paragraphs the loop packs together. */
  function Groups(ps: seq<string>, current: seq<string>, o: Options): seq<seq<string>>
    decreases ps
  {
    if ps == [] then (if current == [] then [] else [current])
    else if |JoinParagraphs(current + [ps[0]])| <= o.maxChars then Groups(ps[1..], current + [ps[0]], o)
    else (if current == [] then [] else [current]) + Groups(ps[1..], [ps[0]], o)
  }

  lemma JoinSnoc(group: seq<string>, p: string)
    requires forall i :: 0 <= i < |group| ==> group[i] != ""
    ensures JoinParagraphs(group + [p]) == Candidate(JoinParagraphs(group), p)
    ensures JoinParagraphs(group) == "" <==> group == []
  {
    assert group != [] ==> (group + [p])[..|group + [p]| - 1] == group;
  }

  lemma {:induction false} PackJoinsGroups(ps: seq<string>, current: seq<string>, o: Options)
    requires ValidOptions(o) && AllFit(ps, o) && AllFit(current, o)
    ensures Pack(ps, JoinParagraphs(current), o) == JoinEach(Groups(ps, current, o))
    decreases ps
  {
    JoinSnoc(current, "");
    if ps != [] {
      JoinSnoc(current, ps[0]);
      JoinSnoc([], ps[0]);
      hide JoinParagraphs, Windows;
      PackJoinsGroups(ps[1..], current + [ps[0]], o);
      PackJoinsGroups(ps[1..], [ps[0]], o);
      assert [] + [ps[0]] == [ps[0]];
    }
  }

  lemma {:induction false} GroupsAreThePieces(ps: seq<string>, current: seq<string>, o: Options)
    requires AllFit(ps, o) && |JoinParagraphs(current)| <= o.maxChars
    ensures Flatten(Groups(ps, current, o)) == current + ps
    ensures GroupsFit(Groups(ps, current, o), o) && [] !in Groups(ps, current, o)
    decreases ps
  {
    if ps != [] {
      hide JoinParagraphs;
      assert current + [ps[0]] + ps[1..] == current + ps && [ps[0]] + ps[1..] == ps;
      if |JoinParagraphs(current + [ps[0]])| <= o.maxChars {
        GroupsAreThePieces(ps[1..], current + [ps[0]], o);
      } else {
        SingleJoin(ps[0]);
        GroupsAreThePieces(ps[1..], [ps[0]], o);
      }
    }
  }

  lemma SingleJoin(p: string)
    ensures JoinParagraphs([p]) == p
  {
  }

  function Grown(length: nat, p: string): nat {
    if length == 0 then |p| else length + 2 + |p|
  }

  /** The joined length once the paragraphs `group` are added to a text of length `length`. */
  function Extended(length: nat, group: seq<string>): nat
    decreases group
  {
    if group == [] then length
    else Extended(Grown(length, group[0]), group[1..])
  }

  /** How many groups the loop makes, seen from lengths alone. */
  function Bins(ps: seq<string>, length: nat, limit: nat): nat {
    if ps == [] then (if length == 0 then 0 else 1)
    else if Grown(length, ps[0]) <= limit then Bins(ps[1..], Grown(length, ps[0]), limit)
    else (if length == 0 then 0 else 1) + Bins(ps[1..], |ps[0]|, limit)
  }

  lemma {:induction false} GroupCountIsBins(ps: seq<string>, current: seq<string>, o: Options)
    requires ValidOptions(o) && AllFit(ps, o) && AllFit(current, o)
    ensures |Groups(ps, current, o)| == Bins(ps, |JoinParagraphs(current)|, o.maxChars)
    decreases ps
  {
    hide JoinParagraphs, Groups, Bins;
    GroupsUnfold(ps, current, o);
    BinsUnfold(ps, |JoinParagraphs(current)|, o.maxChars);
    JoinSnoc(current, "");
    if ps != [] {
      JoinSnoc(current, ps[0]);
      SingleJoin(ps[0]);
      GroupCountIsBins(ps[1..], current + [ps[0]], o);
      GroupCountIsBins(ps[1..], [ps[0]], o);
    }
  }

  lemma GroupsUnfold(ps: seq<string>, current: seq<string>, o: Options)
    ensures ps == [] ==> |Groups(ps, current, o)| == if current == [] then 0 else 1
    ensures ps != [] && |JoinParagraphs(current + [ps[0]])| <= o.maxChars ==>
      Groups(ps, current, o) == Groups(ps[1..], current + [ps[0]], o)
    ensures ps != [] && o.maxChars < |JoinParagraphs(current + [ps[0]])| ==>
      |Groups(ps, current, o)| == (if current == [] then 0 else 1) + |Groups(ps[1..], [ps[0]], o)|
  {
    hide JoinParagraphs;
  }

  lemma BinsUnfold(ps: seq<string>, length: nat, limit: nat)
    ensures Bins(ps, length, limit) ==
      if ps == [] then (if length == 0 then 0 else 1)
      else if Grown(length, ps[0]) <= limit then Bins(ps[1..], Grown(length, ps[0]), limit)
      else (if length == 0 then 0 else 1) + Bins(ps[1..], |ps[0]|, limit)
  {
  }

  lemma {:induction false} ExtendedGrows(length: nat, group: seq<string>)
    ensures length <= Extended(length, group)
    decreases group
  {
    if group != [] {
      ExtendedGrows(Grown(length, group[0]), group[1..]);
    }
  }

  lemma {:induction false} ExtendedIsJoinLength(group: seq<string>, done: seq<string>)
    requires forall i :: 0 <= i < |done + group| ==> (done + group)[i] != ""
    ensures Extended(|JoinParagraphs(done)|, group) == |JoinParagraphs(done + group)|
    decreases group
  {
    if group == [] {
      assert done + group == done;
    } else {
      assert forall i :: 0 <= i < |done| ==> (done + group)[i] == done[i];
      JoinSnoc(done, group[0]);
      hide JoinParagraphs;
      assert done + group == done + [group[0]] + group[1..];
      ExtendedIsJoinLength(group[1..], done + [group[0]]);
    }
  }

  lemma WithinTail(p: string, tail: seq<string>, all: seq<string>, limit: int)
    requires all == [p] + tail && Within(all, limit)
    ensures Within(tail, limit) && 0 < |p| <= limit && all[0] == p && all[1..] == tail
  {
    assert all[0] == p && all[1..] == tail;
    assert forall i :: 0 <= i < |tail| ==> tail[i] == all[i + 1];
  }

  /**
    The greedy loop stays ahead. The other division has `other` in its current
    group with `group` still to come there, then the groups `rest`. Either the
    loop has made as many groups and holds no more than it, or it is a group
    ahead.
  */
  lemma {:induction false} StaysAhead(
    length: nat, other: nat, group: seq<string>, rest: seq<seq<string>>, limit: nat, ahead: bool)
    requires 0 < length && 0 < other && (ahead || length <= other)
    requires Within(group + Flatten(rest), limit)
    requires Extended(other, group) <= limit && forall i :: 0 <= i < |rest| ==> Extended(0, rest[i]) <= limit
    ensures Bins(group + Flatten(rest), length, limit) <= (if ahead then 2 else 1) + |rest|
    decreases |rest|, |group|
  {
    hide Bins, Within, Flatten, Extended;
    FlattenUnfolds(rest);
    if group != [] {
      var p, tail := group[0], group[1..];
      ConsGroup(group, Flatten(rest));
      ExtendedOfCons(other, group);
      WithinTail(p, tail + Flatten(rest), group + Flatten(rest), limit);
      BinsOfCons(p, tail + Flatten(rest), length, limit);
      ExtendedGrows(other + 2 + |p|, tail);
      if length + 2 + |p| <= limit {
        StaysAhead(length + 2 + |p|, other + 2 + |p|, tail, rest, limit, ahead);
      } else {
        StaysAhead(|p|, other + 2 + |p|, tail, rest, limit, false);
      }
    } else if rest == [] {
      assert group + Flatten(rest) == [];
      BinsUnfold([], length, limit);
    } else {
      var next, later := rest[0], rest[1..];
      assert group + Flatten(rest) == next + Flatten(later);
      if next == [] {
        assert group + Flatten(rest) == group + Flatten(later);
        StaysAhead(length, other, group, later, limit, ahead);
      } else {
        var p, tail := next[0], next[1..];
        ConsGroup(next, Flatten(later));
        ExtendedOfCons(0, next);
        WithinTail(p, tail + Flatten(later), group + Flatten(rest), limit);
        BinsOfCons(p, tail + Flatten(later), length, limit);
        if length + 2 + |p| <= limit {
          StaysAhead(length + 2 + |p|, |p|, tail, later, limit, true);
        } else {
          StaysAhead(|p|, |p|, tail, later, limit, false);
        }
      }
    }
  }

  lemma ConsGroup(group: seq<string>, rest: seq<string>)
    requires group != []
    ensures group + rest == [group[0]] + (group[1..] + rest)
  {
  }

  lemma ExtendedOfCons(length: nat, group: seq<string>)
    requires group != []
    ensures Extended(length, group) == Extended(Grown(length, group[0]), group[1..])
  {
  }

  lemma FlattenUnfolds(groups: seq<seq<string>>)
    ensures Flatten(groups) == if groups == [] then [] else groups[0] + Flatten(groups[1..])
  {
  }

  lemma BinsOfCons(p: string, rest: seq<string>, length: nat, limit: nat)
    requires 0 < length
    ensures Bins([p] + rest, length, limit) ==
      if length + 2 + |p| <= limit then Bins(rest, length + 2 + |p|, limit) else 1 + Bins(rest, |p|, limit)
  {
    hide Bins;
    BinsUnfold([p] + rest, length, limit);
    assert ([p] + rest)[1..] == rest;
  }

  lemma {:induction false} BinsAreFewest(ps: seq<string>, groups: seq<seq<string>>, limit: nat)
    requires Within(ps, limit)
    requires Flatten(groups) == ps && forall i :: 0 <= i < |groups| ==> Extended(0, groups[i]) <= limit
    ensures Bins(ps, 0, limit) <= |groups|
    decreases groups
  {
    if groups != [] {
      var next, later := groups[0], groups[1..];
      if next == [] {
        assert Flatten(later) == ps;
        BinsAreFewest(ps, later, limit);
      } else {
        var p, tail := next[0], next[1..];
        assert ps == [p] + (tail + Flatten(later));
        WithinTail(p, tail + Flatten(later), ps, limit);
        StaysAhead(|p|, |p|, tail, later, limit, false);
      }
    }
  }

  /** When every paragraph fits, the chunks are the paragraphs in order, grouped without remainder. */
  lemma PackingIsExact(ps: seq<string>, o: Options)
    requires ValidOptions(o) && AllFit(ps, o)
    ensures var made := Groups(ps, [], o);
      && Pack(ps, "", o) == JoinEach(made)
      && Flatten(made) == ps && GroupsFit(made, o) && [] !in made
  {
    assert JoinParagraphs([]) == "" && [] + ps == ps;
    hide Pack, Groups, JoinParagraphs;
    PackJoinsGroups(ps, [], o);
    GroupsAreThePieces(ps, [], o);
  }

  /** No division of the paragraphs into consecutive groups that fit has fewer groups than the loop makes chunks. */
  lemma {:induction false} PackingIsFewest(ps: seq<string>, o: Options, groups: seq<seq<string>>)
    requires ValidOptions(o) && AllFit(ps, o)
    requires Flatten(groups) == ps && GroupsFit(groups, o)
    ensures |Pack(ps, "", o)| <= |groups|
  {
    assert JoinParagraphs([]) == "";
    hide Pack, Groups, JoinParagraphs, Bins, Extended;
    PackJoinsGroups(ps, [], o);
    JoinEachLength(Groups(ps, [], o));
    GroupCountIsBins(ps, [], o);
    forall i | 0 <= i < |groups|
      ensures Extended(0, groups[i]) <= o.maxChars
    {
      GroupLength(ps, o, groups, i);
    }
    BinsAreFewest(ps, groups, o.maxChars);
  }

  lemma {:induction false} JoinEachLength(groups: seq<seq<string>>)
    ensures |JoinEach(groups)| == |groups|
  {
    if groups != [] {
      JoinEachLength(groups[1..]);
    }
  }

  lemma GroupLength(ps: seq<string>, o: Options, groups: seq<seq<string>>, i: nat)
    requires AllFit(ps, o) && Flatten(groups) == ps && i < |groups|
    ensures Extended(0, groups[i]) == |JoinParagraphs(groups[i])|
  {
    var from := InFlatten(groups, i);
    assert forall k :: 0 <= k < |groups[i]| ==> groups[i][k] == ps[from..from + |groups[i]|][k] == ps[from + k];
    assert [] + groups[i] == groups[i];
    ExtendedIsJoinLength(groups[i], []);
  }

  /** Every group stands in the flattened list as a slice. */
  lemma {:induction false} InFlatten(groups: seq<seq<string>>, i: nat) returns (from: nat)
    requires i < |groups|
    ensures from + |groups[i]| <= |Flatten(groups)| && Flatten(groups)[from..from + |groups[i]|] == groups[i]
  {
    if i == 0 {
      from := 0;
    } else {
      var later := InFlatten(groups[1..], i - 1);
      from := |groups[0]| + later;
      var rest := Flatten(groups[1..]);
      assert (groups[0] + rest)[from..from + |groups[i]|] == rest[later..later + |groups[i]|];
    }
  }

  // ---- nothing lost -----------------------------------------------------------------------------------------------

  lemma {:induction false} BlocksKeepNonSpace(text: string)
    ensures NonSpace(Concat(SplitBlocks(text))) == NonSpace(text)
    decreases |text|
  {
    hide NonSpace, Concat, NewlineRun, IsSpace;
    if text == "" {
      ConcatOne("");
    } else if 2 <= NewlineRun(text) {
      var n := NewlineRun(text);
      BlocksKeepNonSpace(text[n..]);
      assert text == text[..n] + text[n..];
      NonSpaceAppend(text[..n], text[n..]);
      NewlinesAreSpace(text[..n]);
      ConcatUnfolds("", SplitBlocks(text[n..]));
      assert "" + Concat(SplitBlocks(text[n..])) == Concat(SplitBlocks(text[n..]));
      assert "" + NonSpace(text[n..]) == NonSpace(text[n..]);
    } else {
      BlocksKeepNonSpace(text[1..]);
      var rest := SplitBlocks(text[1..]);
      assert text == [text[0]] + text[1..];
      NonSpaceAppend([text[0]], text[1..]);
      LongerFirst(text[0], rest);
      NonSpaceAppend([text[0]], Concat(rest));
    }
  }

  lemma NewlinesAreSpace(s: string)
    requires forall i :: 0 <= i < |s| ==> s[i] == '\n'
    ensures NonSpace(s) == ""
  {
    NoNonSpace(s);
  }

  lemma LongerFirst(c: char, parts: seq<string>)
    requires parts != []
    ensures Concat([[c] + parts[0]] + parts[1..]) == [c] + Concat(parts)
  {
    hide Concat;
    ConcatUnfolds([c] + parts[0], parts[1..]);
    ConcatUnfolds(parts[0], parts[1..]);
    assert parts == [parts[0]] + parts[1..];
    assert [c] + parts[0] + Concat(parts[1..]) == [c] + (parts[0] + Concat(parts[1..]));
  }

  lemma {:induction false} TrimmedKeepsNonSpace(blocks: seq<string>)
    ensures NonSpace(Concat(TrimmedOf(blocks))) == NonSpace(Concat(blocks))
  {
    if blocks != [] {
      TrimmedKeepsNonSpace(blocks[1..]);
      TrimKeepsNonSpace(blocks[0]);
      hide Trim;
      NonSpaceAppend(blocks[0], Concat(blocks[1..]));
      var head, tail := Trim(blocks[0]), TrimmedOf(blocks[1..]);
      NonSpaceAppend(head, Concat(tail));
      if head == "" {
        assert TrimmedOf(blocks) == tail;
      } else {
        assert TrimmedOf(blocks) == [head] + tail && ([head] + tail)[1..] == tail;
      }
    }
  }

  lemma {:induction false} ConcatAppend(a: seq<string>, b: seq<string>)
    ensures Concat(a + b) == Concat(a) + Concat(b)
  {
    if a == [] {
      assert a + b == b;
    } else {
      assert (a + b)[1..] == a[1..] + b;
      ConcatAppend(a[1..], b);
    }
  }

  lemma {:induction false} SeparateWindowsKeepNonSpace(p: string, start: nat, o: Options)
    requires ValidOptions(o) && o.overlapChars == 0 && start <= |p|
    ensures NonSpace(Concat(Windows(p, start, o))) == NonSpace(p[start..])
    decreases |p| - start
  {
    NonSpaceOfNothing();
    EmptyConcat();
    if start < |p| {
      var upTo := if start + o.maxChars < |p| then start + o.maxChars else |p|;
      var window, rest := WindowAt(p, start, o), Windows(p, upTo, o);
      TrimKeepsNonSpace(p[start..upTo]);
      hide WindowAt, NonSpace, Concat, Trim;
      NextWindows(p, start, o, upTo);
      assert p[start..] == p[start..upTo] + p[upTo..];
      NonSpaceAppend(p[start..upTo], p[upTo..]);
      hide Windows;
      SeparateWindowsKeepNonSpace(p, upTo, o);
      HeldThenLater(window, rest);
    } else {
      assert p[start..] == "";
    }
  }

  lemma EmptyConcat()
    ensures Concat([]) == ""
  {
  }

  /** Without overlap the next window starts where this one stops. */
  lemma NextWindows(p: string, start: nat, o: Options, upTo: nat)
    requires ValidOptions(o) && o.overlapChars == 0 && start < |p|
    requires upTo == if start + o.maxChars < |p| then start + o.maxChars else |p|
    ensures WindowAt(p, start, o) == Trim(p[start..upTo])
    ensures Windows(p, start, o)
         == (if WindowAt(p, start, o) == "" then [] else [WindowAt(p, start, o)]) + Windows(p, upTo, o)
  {
    hide Trim;
    assert Stride(o) == o.maxChars;
  }

  lemma NonSpaceOfNothing()
    ensures NonSpace("") == ""
  {
  }

  lemma CandidateKeepsNonSpace(current: string, p: string)
    ensures NonSpace(Candidate(current, p)) == NonSpace(current) + NonSpace(p)
  {
    GapIsSpace();
    hide NonSpace;
    NonSpaceOfNothing();
    if current != "" {
      NonSpaceAppend(current + "\n\n", p);
      NonSpaceAppend(current, "\n\n");
    }
  }

  lemma GapIsSpace()
    ensures NonSpace("\n\n") == ""
  {
    NoNonSpace("\n\n");
  }

  /** The held text, if any, and then the later chunks. */
  lemma HeldThenLater(current: string, later: seq<string>)
    ensures NonSpace(Concat((if current == "" then [] else [current]) + later))
         == NonSpace(current) + NonSpace(Concat(later))
  {
    var held := if current == "" then [] else [current];
    assert Concat(held) == current;
    ConcatAppend(held, later);
    hide Concat, NonSpace;
    NonSpaceAppend(current, Concat(later));
  }

  lemma CutParagraph(p: string, later: seq<string>, o: Options)
    requires ValidOptions(o) && o.overlapChars == 0
    ensures NonSpace(Concat(Windows(p, 0, o) + later)) == NonSpace(p) + NonSpace(Concat(later))
  {
    hide Concat, NonSpace, Windows;
    SeparateWindowsKeepNonSpace(p, 0, o);
    assert p[0..] == p;
    ConcatAppend(Windows(p, 0, o), later);
    NonSpaceAppend(Concat(Windows(p, 0, o)), Concat(later));
  }

  lemma {:induction false} NonSpaceOfHead(ps: seq<string>)
    requires ps != []
    ensures NonSpace(Concat(ps)) == NonSpace(ps[0]) + NonSpace(Concat(ps[1..]))
  {
    NonSpaceAppend(ps[0], Concat(ps[1..]));
  }

  lemma EmptyPack(current: string, o: Options)
    requires ValidOptions(o)
    ensures NonSpace(Concat(Pack([], current, o))) == NonSpace(current) + NonSpace(Concat([]))
  {
    NothingLeftToPack(current, o);
    hide NonSpace, Concat, Pack;
    NonSpaceOfNothing();
    EmptyConcat();
    ConcatOne(current);
  }

  lemma NothingLeftToPack(current: string, o: Options)
    requires ValidOptions(o)
    ensures Pack([], current, o) == if current == "" then [] else [current]
  {
  }

  lemma ConcatOne(s: string)
    ensures Concat([s]) == s
  {
    hide Concat;
    EmptyConcat();
    ConcatUnfolds(s, []);
    assert [s] == [s] + [];
  }

  lemma ConcatUnfolds(first: string, rest: seq<string>)
    ensures Concat([first] + rest) == first + Concat(rest)
  {
    assert ([first] + rest)[1..] == rest;
  }

  lemma AllFitTail(ps: seq<string>, o: Options)
    requires ps != [] && AllFit(ps, o)
    ensures AllFit(ps[1..], o) && |ps[0]| <= o.maxChars
  {
  }

  lemma Regrouped(a: string, b: string, c: string)
    ensures a + b + c == a + (b + c)
  {
  }

  lemma {:induction false} PackKeepsNonSpace(ps: seq<string>, current: string, o: Options)
    requires ValidOptions(o) && (o.overlapChars == 0 || AllFit(ps, o))
    ensures NonSpace(Concat(Pack(ps, current, o))) == NonSpace(current) + NonSpace(Concat(ps))
    decreases ps
  {
    hide Concat, NonSpace, Windows, Pack, Candidate;
    if ps == [] {
      EmptyPack(current, o);
    } else {
      NonSpaceOfNothing();
      var p, rest := ps[0], ps[1..];
      NonSpaceOfHead(ps);
      PackUnfolds(ps, current, o);
      if AllFit(ps, o) {
        AllFitTail(ps, o);
      }
      hide AllFit;
      Regrouped(NonSpace(current), NonSpace(p), NonSpace(Concat(rest)));
      if |Candidate(current, p)| <= o.maxChars {
        CandidateKeepsNonSpace(current, p);
        PackKeepsNonSpace(rest, Candidate(current, p), o);
      } else if |p| <= o.maxChars {
        PackKeepsNonSpace(rest, p, o);
        HeldThenLater(current, Pack(rest, p, o));
      } else {
        PackKeepsNonSpace(rest, "", o);
        CutParagraph(p, Pack(rest, "", o), o);
        HeldThenLater(current, Windows(p, 0, o) + Pack(rest, "", o));
      }
    }
  }

  /**
    Without overlap, or when no paragraph has to be cut, the chunks together
    hold the characters of the text other than white space, each once and in
    order.
  */
  lemma NothingIsLostOrRepeated(text: string, o: Options)
    requires ValidOptions(o) && (o.overlapChars == 0 || AllFit(Paragraphs(text), o))
    ensures NonSpace(Concat(SplitText(text, o))) == NonSpace(text)
  {
    if |text| <= o.maxChars {
      assert Concat([text]) == text;
    } else {
      BlocksKeepNonSpace(text);
      TrimmedKeepsNonSpace(SplitBlocks(text));
      hide NonSpace, SplitBlocks, TrimmedOf;
      NonSpaceOfNothing();
      PackKeepsNonSpace(Paragraphs(text), "", o);
    }
  }
}
