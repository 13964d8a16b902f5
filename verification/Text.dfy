/**
  The string operations that ingestion and planning share. A `char` stands for
  one code unit, and white space is what the `trim` of the language strips.
*/
module Text {
  /** The white space outside ASCII, as ranges. */
  const WIDE_SPACES: seq<(char, char)> := [
    ('\U{00A0}', '\U{00A0}'), ('\U{1680}', '\U{1680}'), ('\U{2000}', '\U{200A}'), ('\U{2028}', '\U{2029}'),
    ('\U{202F}', '\U{202F}'), ('\U{205F}', '\U{205F}'), ('\U{3000}', '\U{3000}'), ('\U{FEFF}', '\U{FEFF}')]

  predicate InRanges(c: char, ranges: seq<(char, char)>) {
    ranges != [] && (ranges[0].0 <= c <= ranges[0].1 || InRanges(c, ranges[1..]))
  }

  predicate IsSpace(c: char) {
    c == ' ' || '\t' <= c <= '\r' || InRanges(c, WIDE_SPACES)
  }

  predicate AllSpace(s: string) {
    forall i :: 0 <= i < |s| ==> IsSpace(s[i])
  }

  function TrimStart(s: string): string {
    if s != "" && IsSpace(s[0]) then TrimStart(s[1..]) else s
  }

  function TrimEnd(s: string): string {
    if s != "" && IsSpace(s[|s| - 1]) then TrimEnd(s[..|s| - 1]) else s
  }

  function Trim(s: string): string { TrimStart(TrimEnd(s)) }

  /** The characters that are not white space, in order. */
  function NonSpace(s: string): string {
    if s == "" then "" else (if IsSpace(s[0]) then "" else [s[0]]) + NonSpace(s[1..])
  }

  function Concat(parts: seq<string>): string {
    if parts == [] then "" else parts[0] + Concat(parts[1..])
  }

  lemma {:induction false} NonSpaceAppend(a: string, b: string)
    ensures NonSpace(a + b) == NonSpace(a) + NonSpace(b)
  {
    hide IsSpace;
    if a == "" {
      assert a + b == b;
    } else {
      assert (a + b)[1..] == a[1..] + b;
      NonSpaceAppend(a[1..], b);
    }
  }

  lemma {:induction false} TrimStartIsSlice(s: string) returns (from: nat)
    ensures from <= |s| && TrimStart(s) == s[from..] && AllSpace(s[..from])
    ensures TrimStart(s) != "" ==> !IsSpace(TrimStart(s)[0])
  {
    hide IsSpace;
    if s != "" && IsSpace(s[0]) {
      var rest := TrimStartIsSlice(s[1..]);
      from := rest + 1;
      assert s[from..] == s[1..][rest..];
      assert s[..from] == [s[0]] + s[1..][..rest];
    } else {
      from := 0;
    }
  }

  lemma {:induction false} TrimEndIsSlice(s: string) returns (upTo: nat)
    ensures upTo <= |s| && TrimEnd(s) == s[..upTo] && AllSpace(s[upTo..])
    ensures TrimEnd(s) != "" ==> !IsSpace(TrimEnd(s)[|TrimEnd(s)| - 1])
  {
    hide IsSpace;
    if s != "" && IsSpace(s[|s| - 1]) {
      upTo := TrimEndIsSlice(s[..|s| - 1]);
      assert s[..|s| - 1][..upTo] == s[..upTo];
      assert s[upTo..] == s[..|s| - 1][upTo..] + [s[|s| - 1]];
    } else {
      upTo := |s|;
    }
  }

  lemma {:induction false} NoNonSpace(s: string)
    requires AllSpace(s)
    ensures NonSpace(s) == ""
  {
    hide IsSpace;
    if s != "" {
      assert forall i :: 0 <= i < |s[1..]| ==> s[1..][i] == s[i + 1];
      NoNonSpace(s[1..]);
    }
  }

  /** Trimming cuts white space off both ends and nothing else. */
  lemma TrimIsSlice(s: string) returns (from: nat, upTo: nat)
    ensures from <= upTo <= |s| && Trim(s) == s[from..upTo]
    ensures AllSpace(s[..from]) && AllSpace(s[upTo..])
  {
    upTo := TrimEndIsSlice(s);
    from := TrimStartIsSlice(s[..upTo]);
    assert s[..upTo][from..] == s[from..upTo];
    assert s[..from] == s[..upTo][..from];
  }

  /** A trimmed text neither starts nor ends with white space. */
  lemma TrimmedEnds(s: string)
    ensures var t := Trim(s); t != "" ==> !IsSpace(t[0]) && !IsSpace(t[|t| - 1])
  {
    var upTo := TrimEndIsSlice(s);
    var from := TrimStartIsSlice(TrimEnd(s));
  }

  lemma TrimKeepsNonSpace(s: string)
    ensures NonSpace(Trim(s)) == NonSpace(s)
  {
    var from, upTo := TrimIsSlice(s);
    assert s == s[..from] + s[from..upTo] + s[upTo..];
    NonSpaceAppend(s[..from], s[from..upTo]);
    NonSpaceAppend(s[..from] + s[from..upTo], s[upTo..]);
    NoNonSpace(s[..from]);
    NoNonSpace(s[upTo..]);
  }

  lemma {:induction false} TrimEndKeepsTheFirst(s: string)
    requires s != "" && !AllSpace(s[1..])
    ensures TrimEnd(s) == [s[0]] + TrimEnd(s[1..])
  {
    if IsSpace(s[|s| - 1]) {
      assert s[1..][..|s[1..]| - 1] == s[..|s| - 1][1..];
      assert !AllSpace(s[..|s| - 1][1..]) by {
        var i :| 0 <= i < |s[1..]| && !IsSpace(s[1..][i]);
        assert i < |s[1..]| - 1;
        assert s[..|s| - 1][1..][i] == s[1..][i];
      }
      TrimEndKeepsTheFirst(s[..|s| - 1]);
    }
  }

  lemma {:induction false} TrimEndOfSpace(s: string)
    requires AllSpace(s)
    ensures TrimEnd(s) == ""
  {
    if s != "" {
      TrimEndOfSpace(s[..|s| - 1]);
    }
  }

  lemma TrimWithoutFirst(s: string)
    requires s != "" && IsSpace(s[0])
    ensures Trim(s[1..]) == Trim(s)
  {
    if AllSpace(s[1..]) {
      assert AllSpace(s) by {
        forall i | 0 <= i < |s|
          ensures IsSpace(s[i])
        {
          assert i > 0 ==> s[i] == s[1..][i - 1];
        }
      }
      TrimEndOfSpace(s);
      TrimEndOfSpace(s[1..]);
    } else {
      TrimEndKeepsTheFirst(s);
    }
  }

  lemma TrimWithoutLast(s: string)
    requires s != "" && IsSpace(s[|s| - 1])
    ensures Trim(s[..|s| - 1]) == Trim(s)
  {
  }

  /** The pieces between separators, as the split of the language gives them. */
  function Pieces(s: string, c: char): (pieces: seq<string>)
    ensures pieces != []
  {
    if s == "" then [""]
    else
      var rest := Pieces(s[1..], c);
      if s[0] == c then [""] + rest else [[s[0]] + rest[0]] + rest[1..]
  }

  predicate Lacks(s: string, c: char) {
    forall i :: 0 <= i < |s| ==> s[i] != c
  }

  lemma {:induction false} PiecesLack(s: string, c: char)
    ensures forall i :: 0 <= i < |Pieces(s, c)| ==> Lacks(Pieces(s, c)[i], c)
  {
    if s != "" {
      PiecesLack(s[1..], c);
    }
  }

  lemma {:induction false} OnePiece(s: string, c: char)
    requires Lacks(s, c)
    ensures Pieces(s, c) == [s]
  {
    if s != "" {
      OnePiece(s[1..], c);
      assert [s[0]] + s[1..] == s;
    }
  }

  lemma {:induction false} PiecesAppend(a: string, b: string, c: char)
    ensures Pieces(a + [c] + b, c) == Pieces(a, c) + Pieces(b, c)
  {
    if a == "" {
      assert a + [c] + b == [c] + b && ([c] + b)[1..] == b;
    } else {
      assert (a + [c] + b)[1..] == a[1..] + [c] + b;
      PiecesAppend(a[1..], b, c);
    }
  }
}
