/** White-space normalisation of ingested text. */
module Normalize {
  import opened Text

  function CrLfToLf(s: string): string {
    if s == "" then ""
    else if 2 <= |s| && s[0] == '\r' && s[1] == '\n' then "\n" + CrLfToLf(s[2..])
    else [s[0]] + CrLfToLf(s[1..])
  }

  function CrToLf(s: string): string {
    if s == "" then "" else [if s[0] == '\r' then '\n' else s[0]] + CrToLf(s[1..])
  }

  function DropNul(s: string): string {
    if s == "" then "" else (if s[0] == '\0' then "" else [s[0]]) + DropNul(s[1..])
  }

  function NormalizeLineEndings(value: string): string { DropNul(CrToLf(CrLfToLf(value))) }

  /** The pieces between newlines. */
  function Lines(s: string): (lines: seq<string>)
    ensures lines != []
  {
    Pieces(s, '\n')
  }

  function JoinLines(lines: seq<string>): string {
    if lines == [] then ""
    else if |lines| == 1 then lines[0]
    else lines[0] + "\n" + JoinLines(lines[1..])
  }

  predicate IsBlankOrTab(c: char) { c == ' ' || c == '\t' }

  function StripTrailing(line: string): string {
    if line != "" && IsBlankOrTab(line[|line| - 1]) then StripTrailing(line[..|line| - 1]) else line
  }

  function StripAll(lines: seq<string>): seq<string> {
    if lines == [] then [] else [StripTrailing(lines[0])] + StripAll(lines[1..])
  }

  predicate IsBlank(line: string) { Trim(line) == "" }

  /** The lines kept when a blank line after a blank line is dropped. */
  function Compact(lines: seq<string>, previousBlank: bool): seq<string> {
    if lines == [] then []
    else if IsBlank(lines[0]) && previousBlank then Compact(lines[1..], previousBlank)
    else [lines[0]] + Compact(lines[1..], IsBlank(lines[0]))
  }

  function Normalized(value: string): string {
    Trim(JoinLines(Compact(StripAll(Lines(NormalizeLineEndings(value))), false)))
  }

  method NormalizeWhitespace(value: string) returns (result: string)
    ensures result == Normalized(value)
  {
    hide Lines, StripAll, Trim, IsBlank, NormalizeLineEndings, JoinLines, Compact;
    var lines := StripAll(Lines(NormalizeLineEndings(value)));
    var compactLines: seq<string> := [];
    var previousBlank := false;
    assert lines[0..] == lines;
    for n := 0 to |lines|
      invariant Compact(lines, false) == compactLines + Compact(lines[n..], previousBlank)
    {
      var isBlank := IsBlank(lines[n]);
      CompactUnfoldsAt(lines, n, previousBlank);
      if isBlank && previousBlank {
        continue;
      }
      compactLines := compactLines + [lines[n]];
      previousBlank := isBlank;
    }
    CompactEnds(lines, previousBlank);
    assert compactLines + [] == compactLines;
    result := Trim(JoinLines(compactLines));
  }

  lemma CompactUnfoldsAt(lines: seq<string>, n: nat, previousBlank: bool)
    requires n < |lines|
    ensures Compact(lines[n..], previousBlank) ==
      if IsBlank(lines[n]) && previousBlank then Compact(lines[n + 1..], previousBlank)
      else [lines[n]] + Compact(lines[n + 1..], IsBlank(lines[n]))
  {
    hide IsBlank;
    assert lines[n..][1..] == lines[n + 1..];
  }

  lemma CompactEnds(lines: seq<string>, previousBlank: bool)
    ensures Compact(lines[|lines|..], previousBlank) == []
  {
  }

  /** The trimmed text of the lines that hold something. */
  function Substance(lines: seq<string>): seq<string> {
    if lines == [] then []
    else (if IsBlank(lines[0]) then [] else [Trim(lines[0])]) + Substance(lines[1..])
  }

  predicate NoDoubleBlank(lines: seq<string>) {
    forall i :: 0 <= i < |lines| - 1 ==> !(IsBlank(lines[i]) && IsBlank(lines[i + 1]))
  }

  predicate Stripped(line: string) {
    line != "" ==> !IsBlankOrTab(line[|line| - 1])
  }

  predicate StrippedButLast(lines: seq<string>) {
    forall i :: 0 <= i < |lines| - 1 ==> Stripped(lines[i])
  }

  lemma EndingsAreClean(s: string)
    ensures Lacks(NormalizeLineEndings(s), '\r') && Lacks(NormalizeLineEndings(s), '\0')
  {
    CrToLfHasNoCr(CrLfToLf(s));
    DropNulIsClean(CrToLf(CrLfToLf(s)));
  }

  lemma CrToLfHasNoCr(s: string)
    ensures Lacks(CrToLf(s), '\r')
  {
  }

  lemma DropNulIsClean(s: string)
    ensures Lacks(DropNul(s), '\0')
    ensures Lacks(s, '\r') ==> Lacks(DropNul(s), '\r')
  {
  }

  lemma EndingsOfCleanText(s: string)
    requires Lacks(s, '\r') && Lacks(s, '\0')
    ensures NormalizeLineEndings(s) == s
  {
    CrLfOfCleanText(s);
    CrOfCleanText(s);
    NulOfCleanText(s);
  }

  lemma CrLfOfCleanText(s: string)
    requires Lacks(s, '\r')
    ensures CrLfToLf(s) == s
  {
  }

  lemma CrOfCleanText(s: string)
    requires Lacks(s, '\r')
    ensures CrToLf(s) == s
  {
  }

  lemma NulOfCleanText(s: string)
    requires Lacks(s, '\0')
    ensures DropNul(s) == s
  {
  }

  lemma {:induction false} JoinOfLines(s: string)
    ensures JoinLines(Lines(s)) == s
  {
    if s != "" {
      JoinOfLines(s[1..]);
      var rest := Lines(s[1..]);
      if s[0] == '\n' {
        assert Lines(s)[1..] == rest;
      } else {
        assert |rest| > 1 ==> Lines(s)[1..] == rest[1..];
      }
    }
  }

  lemma LinesAppend(a: string, b: string)
    ensures Lines(a + "\n" + b) == Lines(a) + Lines(b)
  {
    hide Pieces;
    PiecesAppend(a, b, '\n');
    assert a + "\n" + b == a + ['\n'] + b;
  }

  lemma {:induction false} LinesOfJoin(lines: seq<string>)
    requires lines != [] && forall line :: line in lines ==> Lacks(line, '\n')
    ensures Lines(JoinLines(lines)) == lines
  {
    OnePiece(lines[0], '\n');
    if |lines| > 1 {
      LinesOfJoin(lines[1..]);
      LinesAppend(lines[0], JoinLines(lines[1..]));
    }
  }

  lemma {:induction false} LinesHaveNoNewline(s: string)
    ensures forall line :: line in Lines(s) ==> Lacks(line, '\n')
    ensures forall c :: Lacks(s, c) ==> forall line :: line in Lines(s) ==> Lacks(line, c)
  {
    if s != "" {
      LinesHaveNoNewline(s[1..]);
      var rest := Lines(s[1..]);
      forall c | Lacks(s, c)
        ensures forall line :: line in Lines(s) ==> Lacks(line, c)
      {
        assert Lacks(s[1..], c) && s[0] != c;
        assert rest[0] in rest;
      }
      assert rest[0] in rest;
    }
  }

  /** A white-space character off the front changes neither the substance nor the spacing of the lines. */
  lemma DropFirst(s: string)
    requires s != "" && IsSpace(s[0])
    ensures Substance(Lines(s[1..])) == Substance(Lines(s))
    ensures NoDoubleBlank(Lines(s)) ==> NoDoubleBlank(Lines(s[1..]))
    ensures StrippedButLast(Lines(s)) ==> StrippedButLast(Lines(s[1..]))
  {
    hide IsSpace;
    var lines, rest := Lines(s), Lines(s[1..]);
    if s[0] == '\n' {
      assert lines[1..] == rest && IsBlank("");
      forall i | 0 <= i < |rest| - 1
        ensures NoDoubleBlank(lines) ==> !(IsBlank(rest[i]) && IsBlank(rest[i + 1]))
        ensures StrippedButLast(lines) ==> Stripped(rest[i])
      {
        assert rest[i] == lines[i + 1] && rest[i + 1] == lines[i + 2];
      }
    } else {
      assert lines[1..] == rest[1..] && lines[0] == [s[0]] + rest[0] && lines[0][1..] == rest[0];
      TrimWithoutFirst(lines[0]);
      forall i | 0 <= i < |rest| - 1
        ensures NoDoubleBlank(lines) ==> !(IsBlank(rest[i]) && IsBlank(rest[i + 1]))
        ensures StrippedButLast(lines) ==> Stripped(rest[i])
      {
        assert IsBlank(lines[i]) == IsBlank(rest[i]);
        assert lines[i + 1] == rest[i + 1];
      }
    }
  }

  lemma {:induction false} LinesSnoc(s: string, c: char)
    ensures Lines(s + [c]) == SnocChar(Lines(s), c)
  {
    if s == "" {
      assert s + [c] == [c] && [c][1..] == "" && [c] + "" == "" + [c];
    } else {
      assert (s + [c])[1..] == s[1..] + [c];
      LinesSnoc(s[1..], c);
      LinesSnocHead(s[0], Lines(s[1..]), c);
    }
  }

  function ConsChar(c: char, lines: seq<string>): seq<string>
    requires lines != []
  {
    if c == '\n' then [""] + lines else [[c] + lines[0]] + lines[1..]
  }

  function SnocChar(lines: seq<string>, c: char): (longer: seq<string>)
    requires lines != []
    ensures longer != []
  {
    if c == '\n' then lines + [""] else lines[..|lines| - 1] + [lines[|lines| - 1] + [c]]
  }

  lemma LinesSnocHead(head: char, lines: seq<string>, c: char)
    requires lines != []
    ensures ConsChar(head, SnocChar(lines, c)) == SnocChar(ConsChar(head, lines), c)
  {
    if c != '\n' && head != '\n' && |lines| == 1 {
      assert [head] + (lines[0] + [c]) == ([head] + lines[0]) + [c];
    }
  }

  lemma {:induction false} SubstanceAppend(a: seq<string>, b: seq<string>)
    ensures Substance(a + b) == Substance(a) + Substance(b)
  {
    if a == [] {
      assert a + b == b;
    } else {
      assert (a + b)[1..] == a[1..] + b;
      SubstanceAppend(a[1..], b);
    }
  }

  /** The same for a white-space character off the end. */
  lemma DropLast(s: string)
    requires s != "" && IsSpace(s[|s| - 1])
    ensures Substance(Lines(s[..|s| - 1])) == Substance(Lines(s))
    ensures NoDoubleBlank(Lines(s)) ==> NoDoubleBlank(Lines(s[..|s| - 1]))
    ensures StrippedButLast(Lines(s)) ==> StrippedButLast(Lines(s[..|s| - 1]))
  {
    var init, c := s[..|s| - 1], s[|s| - 1];
    assert s == init + [c];
    LinesSnoc(init, c);
    if c == '\n' {
      DropLastLine(Lines(init));
    } else {
      DropLastCharacter(Lines(init), c);
    }
  }

  lemma DropLastLine(lines: seq<string>)
    ensures Substance(lines + [""]) == Substance(lines)
    ensures NoDoubleBlank(lines + [""]) ==> NoDoubleBlank(lines)
    ensures StrippedButLast(lines + [""]) ==> StrippedButLast(lines)
  {
    SubstanceAppend(lines, [""]);
    assert forall i :: 0 <= i < |lines| ==> (lines + [""])[i] == lines[i];
  }

  lemma DropLastCharacter(lines: seq<string>, c: char)
    requires lines != [] && IsSpace(c)
    ensures var longer := lines[..|lines| - 1] + [lines[|lines| - 1] + [c]];
      && Substance(longer) == Substance(lines)
      && (NoDoubleBlank(longer) ==> NoDoubleBlank(lines))
      && (StrippedButLast(longer) ==> StrippedButLast(lines))
  {
    var front, last := lines[..|lines| - 1], lines[|lines| - 1];
    var longer := front + [last + [c]];
    assert lines == front + [last];
    SubstanceAppend(front, [last]);
    SubstanceAppend(front, [last + [c]]);
    assert (last + [c])[..|last + [c]| - 1] == last;
    TrimWithoutLast(last + [c]);
    assert |longer| == |lines| && longer[|front|] == last + [c];
    hide Trim, IsSpace;
    assert forall i :: 0 <= i < |front| ==> longer[i] == lines[i];
    assert IsBlank(last + [c]) <==> IsBlank(last);
    SubstanceOfLast(last, last + [c]);
  }

  lemma SubstanceOfLast(line: string, longer: string)
    requires Trim(line) == Trim(longer)
    ensures Substance([line]) == Substance([longer])
  {
    hide Trim;
  }

  lemma {:induction false} TrimStartKeepsLines(s: string)
    ensures Substance(Lines(TrimStart(s))) == Substance(Lines(s))
    ensures NoDoubleBlank(Lines(s)) ==> NoDoubleBlank(Lines(TrimStart(s)))
    ensures StrippedButLast(Lines(s)) ==> StrippedButLast(Lines(TrimStart(s)))
  {
    if s != "" && IsSpace(s[0]) {
      DropFirst(s);
      TrimStartKeepsLines(s[1..]);
    }
  }

  lemma {:induction false} TrimEndKeepsLines(s: string)
    ensures Substance(Lines(TrimEnd(s))) == Substance(Lines(s))
    ensures NoDoubleBlank(Lines(s)) ==> NoDoubleBlank(Lines(TrimEnd(s)))
    ensures StrippedButLast(Lines(s)) ==> StrippedButLast(Lines(TrimEnd(s)))
  {
    if s != "" && IsSpace(s[|s| - 1]) {
      DropLast(s);
      TrimEndKeepsLines(s[..|s| - 1]);
    }
  }

  lemma {:induction false} CompactSpacing(lines: seq<string>, previousBlank: bool)
    ensures NoDoubleBlank(Compact(lines, previousBlank))
    ensures previousBlank && Compact(lines, previousBlank) != [] ==> !IsBlank(Compact(lines, previousBlank)[0])
    ensures Substance(Compact(lines, previousBlank)) == Substance(lines)
    ensures forall line :: line in Compact(lines, previousBlank) ==> line in lines
    ensures !previousBlank && lines != [] ==> Compact(lines, previousBlank) != []
  {
    hide IsBlank, Trim;
    if lines != [] {
      if IsBlank(lines[0]) && previousBlank {
        CompactSpacing(lines[1..], previousBlank);
      } else {
        CompactSpacing(lines[1..], IsBlank(lines[0]));
        var rest := Compact(lines[1..], IsBlank(lines[0]));
        var all := [lines[0]] + rest;
        assert all[1..] == rest;
        forall i | 0 <= i < |all| - 1
          ensures !(IsBlank(all[i]) && IsBlank(all[i + 1]))
        {
          if i > 0 {
            assert all[i] == rest[i - 1] && all[i + 1] == rest[i];
          }
        }
      }
    }
  }

  lemma {:induction false} StripFacts(line: string)
    ensures Trim(StripTrailing(line)) == Trim(line) && Stripped(StripTrailing(line))
    ensures forall c :: Lacks(line, c) ==> Lacks(StripTrailing(line), c)
    ensures Stripped(line) ==> StripTrailing(line) == line
  {
    if line != "" && IsBlankOrTab(line[|line| - 1]) {
      TrimWithoutLast(line);
      StripFacts(line[..|line| - 1]);
    }
  }

  lemma {:induction false} StripAllFacts(lines: seq<string>)
    ensures |StripAll(lines)| == |lines| && Substance(StripAll(lines)) == Substance(lines)
    ensures forall i :: 0 <= i < |lines| ==> StripAll(lines)[i] == StripTrailing(lines[i])
  {
    if lines != [] {
      StripFacts(lines[0]);
      StripAllFacts(lines[1..]);
    }
  }

  lemma {:induction false} JoinWithout(lines: seq<string>, c: char)
    requires c != '\n' && forall line :: line in lines ==> Lacks(line, c)
    ensures Lacks(JoinLines(lines), c)
  {
    if |lines| > 1 {
      JoinWithout(lines[1..], c);
    }
    assert lines != [] ==> lines[0] in lines;
  }

  /** The lines of the text before the last trim. */
  lemma LinesBeforeTrim(value: string) returns (lines: seq<string>)
    ensures Normalized(value) == Trim(JoinLines(lines)) && Lines(JoinLines(lines)) == lines
    ensures NoDoubleBlank(lines) && StrippedButLast(lines)
    ensures Substance(lines) == Substance(Lines(NormalizeLineEndings(value)))
    ensures Lacks(JoinLines(lines), '\r') && Lacks(JoinLines(lines), '\0')
  {
    var text := NormalizeLineEndings(value);
    EndingsAreClean(value);
    LinesHaveNoNewline(text);
    var stripped := StripAll(Lines(text));
    StripAllFacts(Lines(text));
    forall line | line in stripped
      ensures Stripped(line) && Lacks(line, '\n') && Lacks(line, '\r') && Lacks(line, '\0')
    {
      var i :| 0 <= i < |stripped| && stripped[i] == line;
      assert Lines(text)[i] in Lines(text);
      StripFacts(Lines(text)[i]);
    }
    lines := Compact(stripped, false);
    CompactSpacing(stripped, false);
    LinesOfJoin(lines);
    JoinWithout(lines, '\r');
    JoinWithout(lines, '\0');
  }

  /** Whatever the text, its non-blank lines survive in order, up to white space at their ends. */
  lemma SubstanceSurvives(value: string)
    ensures Substance(Lines(Normalized(value))) == Substance(Lines(NormalizeLineEndings(value)))
  {
    var lines := LinesBeforeTrim(value);
    TrimEndKeepsLines(JoinLines(lines));
    TrimStartKeepsLines(TrimEnd(JoinLines(lines)));
  }

  /** No two consecutive lines are blank, no line but the last ends in blanks, and both ends are trimmed. */
  lemma NormalizedShape(value: string)
    ensures var text := Normalized(value);
      && NoDoubleBlank(Lines(text)) && StrippedButLast(Lines(text))
      && Lacks(text, '\r') && Lacks(text, '\0')
      && (text != "" ==> !IsSpace(text[0]) && !IsSpace(text[|text| - 1]))
  {
    hide Lacks, IsSpace, Lines, JoinLines, NoDoubleBlank, StrippedButLast, Normalized, TrimEnd, TrimStart;
    var lines := LinesBeforeTrim(value);
    var text := JoinLines(lines);
    TrimEndKeepsLines(text);
    TrimStartKeepsLines(TrimEnd(text));
    TrimmedEnds(text);
    var from, upTo := TrimIsSlice(text);
    SliceWithout(text, from, upTo, '\r');
    SliceWithout(text, from, upTo, '\0');
  }

  lemma SliceWithout(s: string, from: nat, upTo: nat, c: char)
    requires from <= upTo <= |s| && Lacks(s, c)
    ensures Lacks(s[from..upTo], c)
  {
  }

  lemma {:induction false} CompactOfSpaced(lines: seq<string>, previousBlank: bool)
    requires NoDoubleBlank(lines) && (previousBlank && lines != [] ==> !IsBlank(lines[0]))
    ensures Compact(lines, previousBlank) == lines
  {
    if lines != [] {
      assert NoDoubleBlank(lines[1..]) by {
        forall i | 0 <= i < |lines[1..]| - 1
          ensures !(IsBlank(lines[1..][i]) && IsBlank(lines[1..][i + 1]))
        {
          assert lines[1..][i] == lines[i + 1] && lines[1..][i + 1] == lines[i + 2];
        }
      }
      CompactOfSpaced(lines[1..], IsBlank(lines[0]));
    }
  }

  lemma LastLineEnds(s: string)
    requires s != "" && s[|s| - 1] != '\n'
    ensures var lines := Lines(s); lines[|lines| - 1] != "" && lines[|lines| - 1][|lines[|lines| - 1]| - 1] == s[|s| - 1]
  {
    assert s == s[..|s| - 1] + [s[|s| - 1]];
    LinesSnoc(s[..|s| - 1], s[|s| - 1]);
  }

  /** Normalising a second time changes nothing. */
  lemma NormalizingIsIdempotent(value: string)
    ensures Normalized(Normalized(value)) == Normalized(value)
  {
    var text := Normalized(value);
    NormalizedShape(value);
    EndingsOfCleanText(text);
    StrippingIsDone(text);
    JoinOfLines(text);
    TrimmingIsDone(text);
    hide Trim, Lines, StripAll, Compact, NormalizeLineEndings, NoDoubleBlank, JoinLines;
    CompactOfSpaced(Lines(text), false);
  }

  lemma TrimmingIsDone(text: string)
    requires text != "" ==> !IsSpace(text[0]) && !IsSpace(text[|text| - 1])
    ensures Trim(text) == text
  {
    hide IsSpace;
  }

  lemma StrippingIsDone(text: string)
    requires StrippedButLast(Lines(text)) && (text != "" ==> !IsSpace(text[|text| - 1]))
    ensures StripAll(Lines(text)) == Lines(text)
  {
    hide *;
    LastLineIsStripped(text);
    LastIsStripped(Lines(text));
    StripAllOfStripped(Lines(text));
  }

  lemma LastLineIsStripped(text: string)
    requires text != "" ==> !IsSpace(text[|text| - 1])
    ensures Stripped(Lines(text)[|Lines(text)| - 1])
  {
    if text != "" {
      SpacesAndBreaks(text[|text| - 1]);
      LastLineEnds(text);
    }
  }

  lemma LastIsStripped(lines: seq<string>)
    requires lines != [] && StrippedButLast(lines) && Stripped(lines[|lines| - 1])
    ensures forall i :: 0 <= i < |lines| ==> StripTrailing(lines[i]) == lines[i]
  {
    hide StripTrailing, Stripped;
    forall i | 0 <= i < |lines|
      ensures StripTrailing(lines[i]) == lines[i]
    {
      StrippedStays(lines[i]);
    }
  }

  lemma StripAllOfStripped(lines: seq<string>)
    requires forall i :: 0 <= i < |lines| ==> StripTrailing(lines[i]) == lines[i]
    ensures StripAll(lines) == lines
  {
    hide *;
    StripAllFacts(lines);
  }

  lemma SpacesAndBreaks(c: char)
    requires !IsSpace(c)
    ensures !IsBlankOrTab(c) && c != '\n'
  {
  }

  lemma StrippedStays(line: string)
    requires Stripped(line)
    ensures StripTrailing(line) == line
  {
  }

  // ---- what each step does ----------------------------------------------------------------------------------------

  /**
    With the four cases of EndingsOf this determines the line endings of every
    text: parts are treated separately unless the cut would divide a pair.
  */
  lemma EndingsAppend(a: string, b: string)
    requires !(a != "" && a[|a| - 1] == '\r' && b != "" && b[0] == '\n')
    ensures NormalizeLineEndings(a + b) == NormalizeLineEndings(a) + NormalizeLineEndings(b)
  {
    hide CrLfToLf, CrToLf, DropNul;
    CrLfAppend(a, b);
    CrAppend(CrLfToLf(a), CrLfToLf(b));
    NulAppend(CrToLf(CrLfToLf(a)), CrToLf(CrLfToLf(b)));
  }

  lemma {:induction false} CrLfAppend(a: string, b: string)
    requires !(a != "" && a[|a| - 1] == '\r' && b != "" && b[0] == '\n')
    ensures CrLfToLf(a + b) == CrLfToLf(a) + CrLfToLf(b)
    decreases |a|
  {
    if a == "" {
      assert a + b == b;
    } else if 2 <= |a| && a[0] == '\r' && a[1] == '\n' {
      assert (a + b)[2..] == a[2..] + b;
      CrLfAppend(a[2..], b);
    } else {
      assert (a + b)[1..] == a[1..] + b;
      CrLfAppend(a[1..], b);
    }
  }

  lemma {:induction false} CrAppend(a: string, b: string)
    ensures CrToLf(a + b) == CrToLf(a) + CrToLf(b)
  {
    if a == "" {
      assert a + b == b;
    } else {
      assert (a + b)[1..] == a[1..] + b;
      CrAppend(a[1..], b);
    }
  }

  lemma {:induction false} NulAppend(a: string, b: string)
    ensures DropNul(a + b) == DropNul(a) + DropNul(b)
  {
    if a == "" {
      assert a + b == b;
    } else {
      assert (a + b)[1..] == a[1..] + b;
      NulAppend(a[1..], b);
    }
  }

  /** A pair and a lone carriage return become one newline, a NUL goes, everything else stays. */
  lemma EndingsOf(c: char)
    ensures NormalizeLineEndings("\r\n") == "\n"
    ensures NormalizeLineEndings("\r") == "\n"
    ensures NormalizeLineEndings("\0") == ""
    ensures c != '\r' && c != '\0' ==> NormalizeLineEndings([c]) == [c]
  {
    assert "\r\n"[2..] == "";
    assert CrLfToLf("\r\n") == "\n" + CrLfToLf("") == "\n";
    assert forall s: string :: |s| == 1 ==> s[1..] == "";
  }

  /** What is cut off a line are blanks and tabs at its end, all of them and nothing else. */
  lemma {:induction false} StrippingCutsBlanks(line: string)
    ensures var kept := StripTrailing(line);
      && kept <= line && Stripped(kept)
      && forall i :: |kept| <= i < |line| ==> line[i] == ' ' || line[i] == '\t'
  {
    if line != "" && IsBlankOrTab(line[|line| - 1]) {
      StrippingCutsBlanks(line[..|line| - 1]);
    }
  }

  /** The lines among the first `n` that are not blank or do not follow a blank one, unchanged and in order. */
  function Spaced(lines: seq<string>, n: nat): seq<string>
    requires n <= |lines|
  {
    if n == 0 then []
    else
      Spaced(lines, n - 1)
      + if IsBlank(lines[n - 1]) && 1 < n && IsBlank(lines[n - 2]) then [] else [lines[n - 1]]
  }

  lemma {:induction false} CompactFrom(lines: seq<string>, n: nat)
    requires n <= |lines|
    ensures Compact(lines, false)
         == Spaced(lines, n) + Compact(lines[n..], 0 < n && IsBlank(lines[n - 1]))
  {
    hide IsBlank, Compact;
    if n == 0 {
      assert lines[0..] == lines;
    } else {
      var previousBlank := 1 < n && IsBlank(lines[n - 2]);
      var before, rest := Spaced(lines, n - 1), Compact(lines[n..], IsBlank(lines[n - 1]));
      CompactFrom(lines, n - 1);
      CompactUnfoldsAt(lines, n - 1, previousBlank);
      assert (before + [lines[n - 1]]) + rest == before + ([lines[n - 1]] + rest);
    }
  }

  /**
    The whole normalisation, line by line: each line without its trailing blanks,
    a blank one only if the line before it is not, and the result trimmed.
  */
  lemma {:induction false} NormalizedIs(value: string) returns (lines: seq<string>)
    ensures |lines| == |Lines(NormalizeLineEndings(value))|
    ensures forall i :: 0 <= i < |lines| ==> lines[i] == StripTrailing(Lines(NormalizeLineEndings(value))[i])
    ensures Normalized(value) == Trim(JoinLines(Spaced(lines, |lines|)))
  {
    hide Lines, Trim, JoinLines, Compact, Spaced, NormalizeLineEndings, StripTrailing;
    lines := StripAll(Lines(NormalizeLineEndings(value)));
    StripAllFacts(Lines(NormalizeLineEndings(value)));
    CompactFrom(lines, |lines|);
    CompactEnds(lines, 0 < |lines| && IsBlank(lines[|lines| - 1]));
    assert Spaced(lines, |lines|) + [] == Spaced(lines, |lines|);
  }
}
