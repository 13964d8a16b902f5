/**
  The occurrence counter of the public corpus search: a search for one token in
  a text, counting only word-bounded matches and stopping at eight.
*/
module TokenCount {
  import opened Text

  const MAX_COUNT: nat := 8

  /** `token` stands in `text` at position `p`. */
  predicate OccursAt(text: string, token: string, p: nat) {
    p + |token| <= |text| && text[p..p + |token|] == token
  }

  /** Neither neighbour of the match at `p` is a word character; a missing neighbour is none. */
  predicate Bounded(word: char -> bool, text: string, token: string, p: nat)
    requires p + |token| <= |text|
  {
    && (p > 0 ==> !word(text[p - 1]))
    && (p + |token| < |text| ==> !word(text[p + |token|]))
  }

  predicate WordMatch(word: char -> bool, text: string, token: string, p: nat) {
    OccursAt(text, token, p) && Bounded(word, text, token, p)
  }

  /** The number of word-bounded occurrences at `from` or later, overlapping ones included. */
  function MatchesFrom(word: char -> bool, text: string, token: string, from: nat): nat
    decreases |text| - from
  {
    if |text| <= from then 0
    else (if WordMatch(word, text, token, from) then 1 else 0) + MatchesFrom(word, text, token, from + 1)
  }

  function Min(a: nat, b: nat): nat { if a < b then a else b }

  /** The first position at or after `offset` where the token occurs. */
  function IndexOf(text: string, token: string, offset: nat): (found: int)
    ensures 0 <= found ==> offset <= found <= |text| - |token| && OccursAt(text, token, found)
    decreases |text| - offset
  {
    if |text| < offset + |token| then -1
    else if OccursAt(text, token, offset) then offset
    else if |text| == offset then -1
    else IndexOf(text, token, offset + 1)
  }

  lemma {:induction false} IndexOfIsFirst(text: string, token: string, offset: nat, p: nat)
    requires offset <= p && OccursAt(text, token, p)
    ensures 0 <= IndexOf(text, token, offset) <= p
    decreases p - offset
  {
    if !OccursAt(text, token, offset) {
      IndexOfIsFirst(text, token, offset + 1, p);
    }
  }

  /** What the scan counts from `offset` on, before the cut at eight. */
  function Scan(word: char -> bool, text: string, token: string, offset: nat): nat
    requires token != ""
    decreases |text| - offset
  {
    var found := IndexOf(text, token, offset);
    if found < 0 then 0
    else (if Bounded(word, text, token, found) then 1 else 0) + Scan(word, text, token, found + |token|)
  }

  /** The loop of the source: the offset jumps over the whole match. */
  method CountTokens(word: char -> bool, text: string, token: string) returns (count: nat)
    requires token != ""
    ensures count == Min(MAX_COUNT, Scan(word, text, token, 0))
    ensures !OverlapsItself(word, token) ==> count == Min(MAX_COUNT, MatchesFrom(word, text, token, 0))
  {
    hide Bounded, OverlapsItself, MatchesFrom, IndexOf, OccursAt;
    if !OverlapsItself(word, token) {
      ScanSeesEveryMatch(word, text, token, 0);
    }
    count := 0;
    var offset: nat := 0;
    while count < MAX_COUNT
      invariant count <= MAX_COUNT
      invariant offset <= |text|
      invariant Scan(word, text, token, 0) == count + Scan(word, text, token, offset)
      decreases |text| - offset
    {
      var found := IndexOf(text, token, offset);
      if found < 0 {
        break;
      }
      if Bounded(word, text, token, found) {
        count := count + 1;
      }
      offset := found + |token|;
    }
  }

  /**
    A match of the token may start inside another match of it, at a place where
    the character before it is not a word character.
  */
  predicate OverlapsItself(word: char -> bool, token: string) {
    exists k :: 0 < k < |token| && OverlapsAt(word, token, k)
  }

  predicate OverlapsAt(word: char -> bool, token: string, k: int)
    requires 0 < k < |token|
  {
    token[k..] == token[..|token| - k] && !word(token[k - 1])
  }

  predicate OnlyWordCharacters(word: char -> bool, token: string) {
    forall i :: 0 <= i < |token| ==> word(token[i])
  }

  lemma {:induction false} NoMatchBetween(word: char -> bool, text: string, token: string, from: nat, upTo: nat)
    requires from <= upTo <= |text|
    requires forall p: nat :: from <= p < upTo ==> !WordMatch(word, text, token, p)
    ensures MatchesFrom(word, text, token, from) == MatchesFrom(word, text, token, upTo)
    decreases upTo - from
  {
    if from < upTo {
      NoMatchBetween(word, text, token, from + 1, upTo);
    }
  }

  /** A bounded match cannot start inside a match of a token that does not overlap itself. */
  lemma NoMatchInsideAMatch(word: char -> bool, text: string, token: string, found: nat, p: nat)
    requires OccursAt(text, token, found) && found < p < found + |token|
    requires !OverlapsItself(word, token)
    ensures !WordMatch(word, text, token, p)
  {
    if WordMatch(word, text, token, p) {
      var k := p - found;
      assert text[found..found + |token|][k - 1] == token[k - 1];
      assert token[k..] == text[p..found + |token|] == text[p..p + |token|][..|token| - k];
      assert OverlapsAt(word, token, k);
    }
  }

  lemma NoMatchBeforeTheNext(word: char -> bool, text: string, token: string, offset: nat)
    requires offset <= |text|
    ensures var found := IndexOf(text, token, offset);
      MatchesFrom(word, text, token, offset) == MatchesFrom(word, text, token, if found < 0 then |text| else found)
  {
    var found := IndexOf(text, token, offset);
    var upTo := if found < 0 then |text| else found;
    forall p: nat | offset <= p < upTo
      ensures !WordMatch(word, text, token, p)
    {
      if OccursAt(text, token, p) {
        IndexOfIsFirst(text, token, offset, p);
      }
    }
    NoMatchBetween(word, text, token, offset, upTo);
  }

  lemma JumpMissesNothing(word: char -> bool, text: string, token: string, found: nat)
    requires token != "" && !OverlapsItself(word, token) && OccursAt(text, token, found)
    ensures MatchesFrom(word, text, token, found)
         == (if Bounded(word, text, token, found) then 1 else 0) + MatchesFrom(word, text, token, found + |token|)
  {
    forall p: nat | found + 1 <= p < found + |token|
      ensures !WordMatch(word, text, token, p)
    {
      NoMatchInsideAMatch(word, text, token, found, p);
    }
    NoMatchBetween(word, text, token, found + 1, found + |token|);
  }

  lemma {:induction false} ScanSeesEveryMatch(word: char -> bool, text: string, token: string, offset: nat)
    requires token != "" && !OverlapsItself(word, token) && offset <= |text|
    ensures Scan(word, text, token, offset) == MatchesFrom(word, text, token, offset)
    decreases |text| - offset
  {
    hide OccursAt, IndexOf, OverlapsItself;
    NoMatchBeforeTheNext(word, text, token, offset);
    var found := IndexOf(text, token, offset);
    if 0 <= found {
      JumpMissesNothing(word, text, token, found);
      ScanSeesEveryMatch(word, text, token, found + |token|);
    }
  }

  /** `token[..k] + token` holds the token at its start and again, bounded, at `k`. */
  lemma OverlappingText(word: char -> bool, token: string, k: int)
    requires 0 < k < |token| && OverlapsAt(word, token, k)
    ensures OccursAt(token[..k] + token, token, 0)
    ensures WordMatch(word, token[..k] + token, token, k)
  {
    var text := token[..k] + token;
    assert token == token[..|token| - k] + token[|token| - k..];
    assert text[0..|token|] == token[..k] + token[..|token| - k] == token[..k] + token[k..] == token;
    assert text[k..k + |token|] == token;
    assert text[k - 1] == token[k - 1];
  }

  /** The scan of `token[..k] + token` misses the second match. */
  lemma {:induction false} ScanMissesTheOverlap(word: char -> bool, token: string, k: int)
    requires 0 < k < |token| && OverlapsAt(word, token, k)
    ensures Scan(word, token[..k] + token, token, 0) < MatchesFrom(word, token[..k] + token, token, 0)
    ensures Scan(word, token[..k] + token, token, 0) <= 1
  {
    var text := token[..k] + token;
    OverlappingText(word, token, k);
    TwoMatches(word, text, token, k);
    assert |text| == k + |token|;
    assert IndexOf(text, token, |token|) < 0;
    assert IndexOf(text, token, 0) == 0;
    calc {
      Scan(word, text, token, 0);
      (if Bounded(word, text, token, 0) then 1 else 0) + Scan(word, text, token, |token|);
      if Bounded(word, text, token, 0) then 1 else 0;
    }
  }

  lemma TwoMatches(word: char -> bool, text: string, token: string, k: nat)
    requires 0 < k < |text| && OccursAt(text, token, 0) && WordMatch(word, text, token, k)
    ensures (if Bounded(word, text, token, 0) then 1 else 0) < MatchesFrom(word, text, token, 0)
  {
    AMatchIsCounted(word, text, token, 1, k);
    assert MatchesFrom(word, text, token, 0)
        == (if WordMatch(word, text, token, 0) then 1 else 0) + MatchesFrom(word, text, token, 1);
  }

  lemma {:induction false} AMatchIsCounted(word: char -> bool, text: string, token: string, from: nat, p: nat)
    requires from <= p < |text| && WordMatch(word, text, token, p)
    ensures 1 <= MatchesFrom(word, text, token, from)
    decreases p - from
  {
    if from < p {
      AMatchIsCounted(word, text, token, from + 1, p);
    }
  }

  /**
    The count is right on every text exactly for the tokens that do not overlap
    themselves; of the others, such as the phrase "a a" and the token "a-a", the
    jump steps over a second match.
  */
  lemma CountIsExactIff(word: char -> bool, token: string)
    requires token != ""
    ensures (forall text :: Min(MAX_COUNT, Scan(word, text, token, 0))
                         == Min(MAX_COUNT, MatchesFrom(word, text, token, 0)))
       <==> !OverlapsItself(word, token)
  {
    if OverlapsItself(word, token) {
      var k :| 0 < k < |token| && OverlapsAt(word, token, k);
      ScanMissesTheOverlap(word, token, k);
      var text := token[..k] + token;
      assert Min(MAX_COUNT, Scan(word, text, token, 0)) != Min(MAX_COUNT, MatchesFrom(word, text, token, 0));
    } else {
      forall text ensures Scan(word, text, token, 0) == MatchesFrom(word, text, token, 0) {
        ScanSeesEveryMatch(word, text, token, 0);
      }
    }
  }

  /** A token of word characters only is counted exactly on every text. */
  lemma WordTokensAreCountedExactly(word: char -> bool, text: string, token: string)
    requires token != "" && OnlyWordCharacters(word, token)
    ensures Min(MAX_COUNT, Scan(word, text, token, 0)) == Min(MAX_COUNT, MatchesFrom(word, text, token, 0))
  {
    ScanSeesEveryMatch(word, text, token, 0);
  }

  /** A phrase the counter gets wrong: "a a" stands twice in "a a a" and is counted once. */
  lemma PhraseIsMiscounted(word: char -> bool)
    requires !word(' ')
    ensures Scan(word, "a a a", "a a", 0) < MatchesFrom(word, "a a a", "a a", 0)
  {
    var token := "a a";
    assert OverlapsAt(word, token, 2);
    ScanMissesTheOverlap(word, token, 2);
    assert token[..2] + token == "a a a";
  }

  // ---- whole words ------------------------------------------------------------------------------------------------

  /** A word-bounded match: the text around the token neither ends nor starts in a word character. */
  lemma WordMatchIff(word: char -> bool, text: string, token: string, p: nat)
    ensures WordMatch(word, text, token, p)
       <==> exists before, after :: Surrounded(word, text, token, before, after) && |before| == p
  {
    if WordMatch(word, text, token, p) {
      assert Surrounded(word, text, token, text[..p], text[p + |token|..]);
    }
    forall before, after | Surrounded(word, text, token, before, after) && |before| == p
      ensures WordMatch(word, text, token, p)
    {
      assert text[p..p + |token|] == token;
      assert p + |token| < |text| ==> text[p + |token|] == after[0];
    }
  }

  predicate Surrounded(word: char -> bool, text: string, token: string, before: string, after: string) {
    && text == before + token + after
    && (before != "" ==> !word(before[|before| - 1]))
    && (after != "" ==> !word(after[0]))
  }

  /** How often `token` is one of the words. */
  function CountOf(words: seq<string>, token: string): nat {
    if words == [] then 0 else (if words[0] == token then 1 else 0) + CountOf(words[1..], token)
  }

  lemma {:induction false} CountOfAppend(a: seq<string>, b: seq<string>, token: string)
    ensures CountOf(a + b, token) == CountOf(a, token) + CountOf(b, token)
  {
    if a == [] {
      assert a + b == b;
    } else {
      assert (a + b)[1..] == a[1..] + b;
      CountOfAppend(a[1..], b, token);
    }
  }

  /** In a text of word characters alone only the whole text is a match. */
  lemma MatchInAWord(word: char -> bool, text: string, token: string, p: nat)
    requires OnlyWordCharacters(word, text) && token != ""
    ensures WordMatch(word, text, token, p) <==> p == 0 && text == token
  {
  }

  /** A token of word characters does not reach over a space. */
  lemma SpaceIsNoWord(word: char -> bool, text: string, token: string, p: nat, n: nat)
    requires !word(' ') && OnlyWordCharacters(word, token) && n < |text| && text[n] == ' '
    requires p <= n < p + |token|
    ensures !OccursAt(text, token, p)
  {
    if p + |token| <= |text| {
      assert text[p..p + |token|][n - p] == ' ';
      assert word(token[n - p]);
    }
  }

  /** A match before a space ends before it, and one after it knows nothing of what stands ahead. */
  lemma MatchesAroundASpace(word: char -> bool, a: string, b: string, token: string, p: nat)
    requires !word(' ') && token != "" && OnlyWordCharacters(word, token)
    ensures p <= |a| ==> (WordMatch(word, a + " " + b, token, p) <==> WordMatch(word, a, token, p))
    ensures |a| < p ==> (WordMatch(word, a + " " + b, token, p) <==> WordMatch(word, b, token, p - |a| - 1))
  {
    if p <= |a| {
      MatchBeforeASpace(word, a, b, token, p);
    } else {
      MatchAfterASpace(word, a, b, token, p - |a| - 1);
    }
  }

  lemma MatchBeforeASpace(word: char -> bool, a: string, b: string, token: string, p: nat)
    requires !word(' ') && token != "" && OnlyWordCharacters(word, token) && p <= |a|
    ensures WordMatch(word, a + " " + b, token, p) <==> WordMatch(word, a, token, p)
  {
    var text := a + " " + b;
    if p + |token| <= |a| {
      assert text[p..p + |token|] == a[p..p + |token|];
    } else {
      SpaceIsNoWord(word, text, token, p, |a|);
    }
  }

  lemma MatchAfterASpace(word: char -> bool, a: string, b: string, token: string, q: nat)
    requires !word(' ') && token != ""
    ensures WordMatch(word, a + " " + b, token, |a| + 1 + q) <==> WordMatch(word, b, token, q)
  {
    var text := a + " " + b;
    var p := |a| + 1 + q;
    if p + |token| <= |text| {
      assert text[p..p + |token|] == b[q..q + |token|];
    }
  }

  lemma {:induction false} MatchesShift(word: char -> bool, a: string, b: string, token: string, q: nat)
    requires !word(' ') && token != "" && OnlyWordCharacters(word, token) && q <= |b|
    ensures MatchesFrom(word, a + " " + b, token, |a| + 1 + q) == MatchesFrom(word, b, token, q)
    decreases |b| - q
  {
    hide WordMatch;
    if q < |b| {
      MatchesAroundASpace(word, a, b, token, |a| + 1 + q);
      MatchesShift(word, a, b, token, q + 1);
    }
  }

  lemma MatchesOfFirstWord(word: char -> bool, a: string, b: string, token: string)
    requires !word(' ') && token != "" && OnlyWordCharacters(word, token) && OnlyWordCharacters(word, a)
    ensures MatchesFrom(word, a + " " + b, token, 0)
         == (if a == token then 1 else 0) + MatchesFrom(word, b, token, 0)
  {
    hide WordMatch, OnlyWordCharacters;
    var text := a + " " + b;
    forall p: nat | 1 <= p <= |a|
      ensures !WordMatch(word, text, token, p)
    {
      MatchesAroundASpace(word, a, b, token, p);
      MatchInAWord(word, a, token, p);
    }
    MatchesAroundASpace(word, a, b, token, 0);
    MatchInAWord(word, a, token, 0);
    NoMatchBetween(word, text, token, 1, |a| + 1);
    MatchesShift(word, a, b, token, 0);
  }

  lemma {:induction false} MatchesOfOneWord(word: char -> bool, text: string, token: string, from: nat)
    requires OnlyWordCharacters(word, text) && token != "" && from <= |text|
    ensures MatchesFrom(word, text, token, from) == if from == 0 && text == token then 1 else 0
    decreases |text| - from
  {
    if from < |text| {
      MatchInAWord(word, text, token, from);
      MatchesOfOneWord(word, text, token, from + 1);
    }
  }

  predicate WordsAndSpaces(word: char -> bool, text: string) {
    forall i :: 0 <= i < |text| ==> word(text[i]) || text[i] == ' '
  }

  lemma {:induction false} FirstSpace(text: string, c: char) returns (n: nat)
    ensures n <= |text| && Lacks(text[..n], c) && (n < |text| ==> text[n] == c)
  {
    n := 0;
    if text != "" && text[0] != c {
      var m := FirstSpace(text[1..], c);
      n := m + 1;
      assert text[..n] == [text[0]] + text[1..][..m];
    }
  }

  /** In a text of words and spaces the matches of a word are the words equal to it. */
  lemma {:induction false} MatchesAreWords(word: char -> bool, text: string, token: string)
    requires !word(' ') && WordsAndSpaces(word, text) && token != "" && OnlyWordCharacters(word, token)
    ensures MatchesFrom(word, text, token, 0) == CountOf(Pieces(text, ' '), token)
    decreases |text|
  {
    hide MatchesFrom, Pieces;
    var n := FirstSpace(text, ' ');
    var a := text[..n];
    OnePiece(a, ' ');
    if n == |text| {
      assert a == text && [text][1..] == [];
      MatchesOfOneWord(word, text, token, 0);
    } else {
      var b := text[n + 1..];
      assert text == a + " " + b;
      PiecesAppend(a, b, ' ');
      CountOfAppend([a], Pieces(b, ' '), token);
      assert [a][1..] == [];
      MatchesOfFirstWord(word, a, b, token);
      MatchesAreWords(word, b, token);
    }
  }

  /**
    The counter, on a text of words and spaces: the number of words equal to the
    token, up to eight. A longer word that holds the token adds nothing.
  */
  lemma WordsAreCounted(word: char -> bool, text: string, token: string)
    requires !word(' ') && WordsAndSpaces(word, text) && token != "" && OnlyWordCharacters(word, token)
    ensures Min(MAX_COUNT, Scan(word, text, token, 0)) == Min(MAX_COUNT, CountOf(Pieces(text, ' '), token))
  {
    hide Scan, MatchesFrom, Pieces;
    MatchesAreWords(word, text, token);
    WordTokensAreCountedExactly(word, text, token);
  }
}
