/**
  The texts and queries the public corpus search compares, once normalised, and
  the tokens it splits a query into.
*/
module QueryTokens {
  import opened Wrappers
  import opened Text
  import opened TokenCount

  const MAX_TOKENS: nat := 18

  const STOPWORDS: set<string> := {
    "a", "al", "algo", "como", "con", "cual", "de", "del", "el", "en", "es", "esta", "este", "hay", "la", "las", "lo",
    "los", "me", "municipal", "municipio", "para", "por", "que", "qu\U{E9}", "se", "sin", "sobre", "su", "sus", "un",
    "una", "y"}

  /**
    The code units of a text: those the counter takes for word characters, and
    the two halves of a letter that takes two of them, which it does not.
  */
  datatype Alphabet = Alphabet(word: char -> bool, high: char -> bool, low: char -> bool)

  ghost predicate Sane(a: Alphabet) {
    && (forall c :: a.high(c) || a.low(c) ==> !a.word(c))
    && (forall c :: a.high(c) ==> !a.low(c))
    && !a.word(' ') && !a.high(' ') && !a.low(' ')
    && !a.word('-') && !a.high('-') && !a.low('-')
  }

  predicate TokenCharacter(a: Alphabet, c: char) {
    a.word(c) || a.high(c) || a.low(c) || c == '-'
  }

  /** The halves stand in pairs. */
  predicate Paired(a: Alphabet, s: string) {
    forall i :: 0 <= i < |s| ==> PairedAt(a, s, i)
  }

  predicate PairedAt(a: Alphabet, s: string, i: int)
    requires 0 <= i < |s|
  {
    && (a.high(s[i]) ==> i + 1 < |s| && a.low(s[i + 1]))
    && (a.low(s[i]) ==> 0 < i && a.high(s[i - 1]))
  }

  /** What normalising leaves: letters, digits and hyphens, with single spaces between. */
  predicate Normalized(a: Alphabet, s: string) {
    && Paired(a, s)
    && (forall i :: 0 <= i < |s| ==> TokenCharacter(a, s[i]) || s[i] == ' ')
    && (s != "" ==> s[0] != ' ' && s[|s| - 1] != ' ')
    && forall i :: 0 <= i < |s| - 1 ==> s[i] != ' ' || s[i + 1] != ' '
  }

  // ---- the splitter -----------------------------------------------------------------------------------------------

  predicate Kept(piece: string) {
    3 <= |piece| && piece !in STOPWORDS
  }

  function KeptOf(pieces: seq<string>): (kept: seq<string>)
    ensures forall t :: t in kept <==> t in pieces && Kept(t)
  {
    if pieces == [] then [] else (if Kept(pieces[0]) then [pieces[0]] else []) + KeptOf(pieces[1..])
  }

  function TokensFor(normalizedQuery: string): (tokens: seq<string>)
    ensures |tokens| <= MAX_TOKENS
    ensures forall i, j :: 0 <= i < j < |tokens| ==> tokens[i] != tokens[j]
  {
    var unique := Unique(KeptOf(Pieces(normalizedQuery, ' ')));
    if MAX_TOKENS < |unique| then unique[..MAX_TOKENS] else unique
  }

  /** A token the splitter can give: it may hold hyphens, and letters of two code units. */
  predicate SplitterToken(a: Alphabet, token: string) {
    && Kept(token)
    && Paired(a, token)
    && forall i :: 0 <= i < |token| ==> TokenCharacter(a, token[i])
  }

  /** A piece reaches from one space, or the start, to the next, or the end. */
  lemma {:induction false} PieceIsSlice(s: string, n: nat) returns (from: nat, upTo: nat)
    requires n < |Pieces(s, ' ')|
    ensures from <= upTo <= |s| && Pieces(s, ' ')[n] == s[from..upTo]
    ensures if n == 0 then from == 0 else 0 < from && s[from - 1] == ' '
    ensures upTo < |s| ==> s[upTo] == ' '
    ensures forall i :: from <= i < upTo ==> s[i] != ' '
  {
    hide Pieces;
    PiecesUnfold(s, n);
    if s == "" || (s[0] == ' ' && n == 0) {
      from, upTo := 0, 0;
    } else if s[0] == ' ' {
      from, upTo := PieceIsSlice(s[1..], n - 1);
      SliceOfTail(s, from, upTo);
      from, upTo := from + 1, upTo + 1;
    } else {
      from, upTo := PieceIsSlice(s[1..], n);
      SliceOfTail(s, from, upTo);
      from, upTo := if n == 0 then 0 else from + 1, upTo + 1;
      assert n == 0 ==> s[0..upTo] == [s[0]] + s[1..upTo];
    }
  }

  lemma PiecesUnfold(s: string, n: nat)
    requires n < |Pieces(s, ' ')|
    ensures s == "" ==> n == 0 && Pieces(s, ' ')[n] == ""
    ensures s != "" && s[0] == ' ' ==>
      if n == 0 then Pieces(s, ' ')[n] == ""
      else n - 1 < |Pieces(s[1..], ' ')| && Pieces(s, ' ')[n] == Pieces(s[1..], ' ')[n - 1]
    ensures s != "" && s[0] != ' ' ==>
      n < |Pieces(s[1..], ' ')| && Pieces(s, ' ')[n] == (if n == 0 then [s[0]] else "") + Pieces(s[1..], ' ')[n]
  {
    if s != "" && s[0] != ' ' && n > 0 {
      assert Pieces(s, ' ')[n] == Pieces(s[1..], ' ')[n] == "" + Pieces(s[1..], ' ')[n];
    }
  }

  lemma SliceOfTail(s: string, from: nat, upTo: nat)
    requires s != "" && from <= upTo <= |s| - 1
    ensures s[1..][from..upTo] == s[from + 1..upTo + 1]
    ensures forall i :: from + 1 <= i < upTo + 1 ==> s[i] == s[1..][i - 1]
  {
  }

  lemma TokenIsSplitterToken(a: Alphabet, query: string, token: string)
    requires Sane(a) && Normalized(a, query) && token in TokensFor(query)
    ensures SplitterToken(a, token)
  {
    assert token in Pieces(query, ' ') && Kept(token);
    var n :| 0 <= n < |Pieces(query, ' ')| && Pieces(query, ' ')[n] == token;
    hide Kept, Normalized, Sane, Pieces, TokensFor, KeptOf;
    var from, upTo := PieceIsSlice(query, n);
    SliceIsPaired(a, query, from, upTo);
  }

  lemma SliceIsPaired(a: Alphabet, s: string, from: nat, upTo: nat)
    requires Sane(a) && Normalized(a, s) && from <= upTo <= |s|
    requires 0 < from ==> s[from - 1] == ' '
    requires upTo < |s| ==> s[upTo] == ' '
    requires forall i :: from <= i < upTo ==> s[i] != ' '
    ensures Paired(a, s[from..upTo])
    ensures forall i :: 0 <= i < upTo - from ==> TokenCharacter(a, s[from..upTo][i])
  {
    var piece := s[from..upTo];
    forall i | 0 <= i < |piece|
      ensures PairedAt(a, piece, i) && TokenCharacter(a, piece[i])
    {
      assert PairedAt(a, s, from + i) && piece[i] == s[from + i];
    }
  }

  lemma SplitterTokenIsNormalized(a: Alphabet, token: string)
    requires Sane(a) && SplitterToken(a, token)
    ensures Normalized(a, token) && forall i :: 0 <= i < |token| ==> token[i] != ' '
  {
  }

  /** The tokens of normalised queries are exactly the splitter tokens. */
  lemma TokensAreSplitterTokens(a: Alphabet, token: string)
    requires Sane(a)
    ensures (exists query :: Normalized(a, query) && token in TokensFor(query)) <==> SplitterToken(a, token)
  {
    hide Normalized, SplitterToken, Sane, TokensFor;
    if SplitterToken(a, token) {
      SplitterTokenIsNormalized(a, token);
      TokenIsItsOwnQuery(a, token);
    }
    forall query | Normalized(a, query) && token in TokensFor(query)
      ensures SplitterToken(a, token)
    {
      TokenIsSplitterToken(a, query, token);
    }
  }

  lemma TokenIsItsOwnQuery(a: Alphabet, token: string)
    requires SplitterToken(a, token) && forall i :: 0 <= i < |token| ==> token[i] != ' '
    ensures token in TokensFor(token)
  {
    hide Kept;
    OnePiece(token, ' ');
    OnlyToken(token);
  }

  lemma OnlyToken(token: string)
    requires Kept(token) && Pieces(token, ' ') == [token]
    ensures TokensFor(token) == [token]
  {
    hide Kept, Pieces;
    assert [token][0] == token && [token][1..] == [] && [token][..0] == [];
    assert KeptOf([token]) == [token] && Unique([token]) == [token];
  }

  // ---- which of them are counted exactly --------------------------------------------------------------------------

  /** On every normalised text the counter gives the number of matches, cut at eight. */
  ghost predicate ExactOnTexts(a: Alphabet, token: string)
    requires token != ""
  {
    forall text :: Normalized(a, text) ==>
      Min(MAX_COUNT, Scan(a.word, text, token, 0)) == Min(MAX_COUNT, MatchesFrom(a.word, text, token, 0))
  }

  /** A normalised token laid over itself at an overlap is a normalised text. */
  lemma OverlapIsNormalized(a: Alphabet, token: string, k: int)
    requires Sane(a) && Normalized(a, token) && 0 < k < |token| && OverlapsAt(a.word, token, k)
    ensures Normalized(a, token[..k] + token)
  {
    var text := token[..k] + token;
    OverlapHead(a.word, token, k);
    OverlapIsPaired(a, token, k);
    hide Paired, OverlapsAt, TokenCharacter;
    assert forall i :: 0 <= i < |text| ==> text[i] == if i < k then token[i] else token[i - k];
  }

  lemma OverlapHead(word: char -> bool, token: string, k: int)
    requires 0 < k < |token| && OverlapsAt(word, token, k)
    ensures token[k] == token[0] && !word(token[k - 1])
  {
    assert token[k..][0] == token[k] && token[..|token| - k][0] == token[0];
  }

  lemma OverlapIsPaired(a: Alphabet, token: string, k: int)
    requires Sane(a) && Paired(a, token) && 0 < k < |token| && token[k] == token[0]
    ensures Paired(a, token[..k] + token)
  {
    var text := token[..k] + token;
    assert PairedAt(a, token, 0) && PairedAt(a, token, k - 1);
    forall i | 0 <= i < |text|
      ensures PairedAt(a, text, i)
    {
      assert PairedAt(a, token, if i < k then i else i - k);
    }
  }

  /** What stands in the token from `k` on is also its beginning. */
  predicate BeginsWithRest(token: string, k: int)
    requires 0 < k < |token|
  {
    token[k..] <= token
  }

  /**
    Of normalised tokens and phrases the counter is exact for those without an
    overlap: no rest of the token after a character that is not a word character
    is also its beginning.
  */
  lemma NormalizedIsExactIff(a: Alphabet, token: string)
    requires Sane(a) && Normalized(a, token) && token != ""
    ensures ExactOnTexts(a, token)
       <==> !exists k :: 0 < k < |token| && !a.word(token[k - 1]) && BeginsWithRest(token, k)
  {
    hide Normalized, Sane, Scan, MatchesFrom;
    OverlapIff(a.word, token);
    if OverlapsItself(a.word, token) {
      var k :| 0 < k < |token| && OverlapsAt(a.word, token, k);
      OverlapIsNormalized(a, token, k);
      ScanMissesTheOverlap(a.word, token, k);
      var text := token[..k] + token;
      assert Min(MAX_COUNT, Scan(a.word, text, token, 0)) != Min(MAX_COUNT, MatchesFrom(a.word, text, token, 0));
    } else {
      forall text | Normalized(a, text)
        ensures Scan(a.word, text, token, 0) == MatchesFrom(a.word, text, token, 0)
      {
        ScanSeesEveryMatch(a.word, text, token, 0);
      }
    }
  }

  lemma OverlapIff(word: char -> bool, token: string)
    ensures OverlapsItself(word, token)
       <==> exists k :: 0 < k < |token| && !word(token[k - 1]) && BeginsWithRest(token, k)
  {
    forall k | 0 < k < |token|
      ensures OverlapsAt(word, token, k) <==> !word(token[k - 1]) && BeginsWithRest(token, k)
    {
    }
  }

  /**
    A token of the splitter is counted exactly on every normalised text if and
    only if none of its rests after a hyphen, or after a letter of two code
    units, is also its beginning.
  */
  lemma SplitterTokenIsExactIff(a: Alphabet, token: string)
    requires Sane(a) && SplitterToken(a, token)
    ensures ExactOnTexts(a, token)
       <==> !exists k :: 0 < k < |token| && (token[k - 1] == '-' || a.low(token[k - 1])) && BeginsWithRest(token, k)
  {
    SplitterTokenIsNormalized(a, token);
    NormalizedIsExactIff(a, token);
    forall k | 0 < k < |token| && BeginsWithRest(token, k)
      ensures !a.word(token[k - 1]) <==> token[k - 1] == '-' || a.low(token[k - 1])
    {
      assert token[k..][0] == token[k] == token[0];
      assert PairedAt(a, token, 0) && PairedAt(a, token, k - 1) && TokenCharacter(a, token[k - 1]);
    }
  }

  /** Tokens the splitter gives and the counter gets wrong: "a-a" stands twice in "a-a-a" and is counted once. */
  lemma HyphenTokenIsMiscounted(a: Alphabet)
    requires Sane(a) && a.word('a')
    ensures Normalized(a, "a-a-a") && TokensFor("a-a") == ["a-a"]
    ensures Scan(a.word, "a-a-a", "a-a", 0) < MatchesFrom(a.word, "a-a-a", "a-a", 0)
  {
    hide Kept, Pieces, TokensFor, Scan, MatchesFrom, Sane, SplitterToken, Normalized, OverlapsAt, Paired;
    var token := "a-a";
    HyphenIsAToken(a);
    SplitterTokenIsNormalized(a, token);
    OnePiece(token, ' ');
    OnlyToken(token);
    OverlapIsNormalized(a, token, 2);
    ScanMissesTheOverlap(a.word, token, 2);
    assert token[..2] + token == "a-a-a";
  }

  lemma HyphenIsAToken(a: Alphabet)
    requires Sane(a) && a.word('a')
    ensures Kept("a-a") && SplitterToken(a, "a-a") && OverlapsAt(a.word, "a-a", 2)
    ensures Lacks("a-a", ' ')
  {
    var token := "a-a";
    HyphenIsKept();
    hide Kept;
    assert token[0] == 'a' && token[1] == '-' && token[2] == 'a';
    assert token[2..] == "a" == token[..1];
    assert Paired(a, token) by {
      forall i | 0 <= i < |token|
        ensures PairedAt(a, token, i)
      {
        assert token[i] == 'a' || token[i] == '-';
      }
    }
  }

  lemma HyphenIsKept()
    ensures Kept("a-a")
  {
    assert "a-a"[1] == '-';
  }

  /** A letter of two code units written twice is another; it is miscounted in that letter written three times. */
  lemma WideTokenIsMiscounted(a: Alphabet, high: char, low: char)
    requires Sane(a) && a.high(high) && a.low(low)
    ensures TokensFor([high, low, high, low]) == [[high, low, high, low]]
    ensures var token := [high, low, high, low];
      Scan(a.word, [high, low] + token, token, 0) < MatchesFrom(a.word, [high, low] + token, token, 0)
  {
    hide Kept, Pieces, TokensFor, Scan, MatchesFrom;
    var token := [high, low, high, low];
    OnePiece(token, ' ');
    WideIsKept(high, low);
    OnlyToken(token);
    assert OverlapsAt(a.word, token, 2);
    ScanMissesTheOverlap(a.word, token, 2);
    assert token[..2] == [high, low];
  }

  lemma WideIsKept(high: char, low: char)
    ensures Kept([high, low, high, low])
  {
    var token := [high, low, high, low];
    assert token[0] == token[2] && token[1] == token[3];
  }

  // ---- which tokens a query keeps ---------------------------------------------------------------------------------

  /** What the splitter has kept of some words, without the cut at eighteen. */
  function UniqueKept(words: seq<string>): seq<string> { Unique(KeptOf(words)) }

  lemma {:induction false} KeptOfAppend(a: seq<string>, b: seq<string>)
    ensures KeptOf(a + b) == KeptOf(a) + KeptOf(b)
  {
    hide Kept;
    if a == [] {
      assert a + b == b;
    } else {
      assert (a + b)[1..] == a[1..] + b;
      KeptOfAppend(a[1..], b);
    }
  }

  /** One word more: it joins if it is kept and new. */
  lemma UniqueKeptSnoc(words: seq<string>, last: string)
    ensures UniqueKept(words + [last])
         == UniqueKept(words) + if Kept(last) && last !in words then [last] else []
  {
    hide Kept;
    KeptOfAppend(words, [last]);
    assert KeptOf([last]) == if Kept(last) then [last] else [] by {
      assert [last][1..] == [];
    }
    if Kept(last) {
      assert (KeptOf(words) + [last])[..|KeptOf(words)|] == KeptOf(words);
    } else {
      assert KeptOf(words) + [] == KeptOf(words);
    }
  }

  /** The different words of those kept. */
  function KeptWords(words: seq<string>): set<string> {
    set w | w in words && 3 <= |w| && w !in STOPWORDS
  }

  lemma {:induction false} UniqueKeptCount(words: seq<string>)
    ensures |UniqueKept(words)| == |KeptWords(words)|
  {
    if words == [] {
      assert KeptWords(words) == {};
    } else {
      var init, last := words[..|words| - 1], words[|words| - 1];
      assert words == init + [last];
      UniqueKeptSnoc(init, last);
      UniqueKeptCount(init);
      KeptWordsSnoc(init, last);
    }
  }

  lemma KeptWordsSnoc(words: seq<string>, last: string)
    ensures |KeptWords(words + [last])| == |KeptWords(words)| + if Kept(last) && last !in words then 1 else 0
  {
    var before, after := KeptWords(words), KeptWords(words + [last]);
    if Kept(last) && last !in words {
      assert after == before + {last};
    } else {
      assert after == before;
    }
  }

  lemma {:induction false} UniqueKeptGrows(words: seq<string>, n: nat)
    requires n <= |words|
    ensures UniqueKept(words[..n]) <= UniqueKept(words)
    decreases |words| - n
  {
    if n < |words| {
      UniqueKeptGrows(words, n + 1);
      assert words[..n + 1] == words[..n] + [words[n]];
      UniqueKeptSnoc(words[..n], words[n]);
    } else {
      assert words[..n] == words;
    }
  }

  /**
    The tokens of a query, in full: there are as many as there are different
    words to keep, up to eighteen, and the place of such a word is the number of
    different ones ahead of its first occurrence.
  */
  lemma {:induction false} TokensAreTheFirstKeptWords(query: string, i: nat)
    ensures var words := Pieces(query, ' ');
      |TokensFor(query)| == if |KeptWords(words)| < MAX_TOKENS then |KeptWords(words)| else MAX_TOKENS
    ensures var words := Pieces(query, ' ');
      i < |words| && Kept(words[i]) && words[i] !in words[..i] && |KeptWords(words[..i])| < MAX_TOKENS ==>
        var n := |KeptWords(words[..i])|; n < |TokensFor(query)| && TokensFor(query)[n] == words[i]
  {
    hide Kept, KeptWords, Pieces, UniqueKept;
    var words := Pieces(query, ' ');
    TokensAreUniqueKept(query);
    UniqueKeptCount(words);
    if i < |words| && Kept(words[i]) && words[i] !in words[..i] {
      PlaceOfKeptWord(words, i);
    }
  }

  lemma TokensAreUniqueKept(query: string)
    ensures var kept := UniqueKept(Pieces(query, ' '));
      TokensFor(query) == if MAX_TOKENS < |kept| then kept[..MAX_TOKENS] else kept
  {
    hide Kept, Pieces;
  }

  lemma PlaceOfKeptWord(words: seq<string>, i: nat)
    requires i < |words| && Kept(words[i]) && words[i] !in words[..i]
    ensures var n := |KeptWords(words[..i])|; n < |UniqueKept(words)| && UniqueKept(words)[n] == words[i]
  {
    hide Kept, KeptWords, UniqueKept;
    UniqueKeptCount(words[..i]);
    assert words[..i + 1] == words[..i] + [words[i]];
    UniqueKeptSnoc(words[..i], words[i]);
    UniqueKeptGrows(words, i + 1);
  }
}
