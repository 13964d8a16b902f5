/**
  Which chunks can share their id with a chunk of another document: the fields of
  an identity string are read back from between its bars, and a field may hold bars.
*/
module DocumentBlur {
  import opened Wrappers
  import opened Text
  import opened Identifiers
  import opened ChunkIdentity

  // ---- pieces -----------------------------------------------------------------------------------------------------

  /** The pieces of all parts, in order. */
  function FlatPieces(parts: seq<string>): seq<string> {
    if parts == [] then [] else Pieces(parts[0], '|') + FlatPieces(parts[1..])
  }

  lemma {:induction false} FlatAppend(a: seq<string>, b: seq<string>)
    ensures FlatPieces(a + b) == FlatPieces(a) + FlatPieces(b)
  {
    if a == [] {
      assert a + b == b;
    } else {
      assert (a + b)[1..] == a[1..] + b;
      FlatAppend(a[1..], b);
    }
  }

  lemma {:induction false} PiecesOfJoin(parts: seq<string>)
    requires parts != []
    ensures Pieces(Join(parts, "|"), '|') == FlatPieces(parts)
  {
    if |parts| == 1 {
      assert FlatPieces(parts[1..]) == [];
    } else {
      PiecesOfJoin(parts[1..]);
      PiecesAppend(parts[0], Join(parts[1..], "|"), '|');
      assert parts[0] + "|" + Join(parts[1..], "|") == parts[0] + ['|'] + Join(parts[1..], "|");
    }
  }

  lemma {:induction false} JoinOfPieces(s: string)
    ensures Join(Pieces(s, '|'), "|") == s
  {
    if s != "" {
      hide Join;
      JoinOfPieces(s[1..]);
      var rest := Pieces(s[1..], '|');
      assert s == [s[0]] + s[1..];
      JoinEmptyFirst(rest);
      JoinLongerFirst(s[0], rest);
    }
  }

  lemma JoinEmptyFirst(rest: seq<string>)
    requires rest != []
    ensures Join([""] + rest, "|") == ['|'] + Join(rest, "|")
  {
    assert ([""] + rest)[1..] == rest;
    assert "" + "|" + Join(rest, "|") == ['|'] + Join(rest, "|");
  }

  lemma JoinLongerFirst(c: char, rest: seq<string>)
    requires rest != []
    ensures Join([[c] + rest[0]] + rest[1..], "|") == [c] + Join(rest, "|")
  {
    assert ([[c] + rest[0]] + rest[1..])[1..] == rest[1..];
    assert [c] + rest[0] + "|" + Join(rest[1..], "|") == [c] + (rest[0] + "|" + Join(rest[1..], "|"));
  }

  /** Two joins are the same string exactly when they have the same pieces. */
  lemma SameJoinIffSamePieces(a: seq<string>, b: seq<string>)
    requires a != [] && b != []
    ensures Join(a, "|") == Join(b, "|") <==> FlatPieces(a) == FlatPieces(b)
  {
    hide Join, Pieces, FlatPieces;
    PiecesOfJoin(a);
    PiecesOfJoin(b);
    JoinOfPieces(Join(a, "|"));
    JoinOfPieces(Join(b, "|"));
  }

  lemma {:induction false} BarlessPieces(parts: seq<string>)
    requires NoBars(parts)
    ensures FlatPieces(parts) == parts
  {
    if parts != [] {
      assert NoBar(parts[0]);
      OnePiece(parts[0], '|');
      assert NoBars(parts[1..]);
      BarlessPieces(parts[1..]);
    }
  }

  lemma {:induction false} PiecesAreBarless(parts: seq<string>)
    ensures NoBars(FlatPieces(parts))
  {
    if parts != [] {
      PiecesAreBarless(parts[1..]);
      PiecesLack(parts[0], '|');
      forall i | 0 <= i < |Pieces(parts[0], '|')|
        ensures NoBar(Pieces(parts[0], '|')[i])
      {
      }
    }
  }

  /** There are at least as many pieces as parts, and no more only when the parts hold no bar. */
  lemma {:induction false} PiecesPerPart(parts: seq<string>)
    ensures |parts| <= |FlatPieces(parts)|
    ensures |FlatPieces(parts)| == |parts| <==> NoBars(parts)
    ensures |FlatPieces(parts)| == |parts| ==> FlatPieces(parts) == parts
  {
    if parts != [] {
      PiecesPerPart(parts[1..]);
      PieceCount(parts[0]);
      assert NoBars(parts) <==> NoBar(parts[0]) && NoBars(parts[1..]) by {
        assert forall i :: 0 < i < |parts| ==> parts[i] == parts[1..][i - 1];
      }
    }
  }

  lemma PieceCount(s: string)
    ensures |Pieces(s, '|')| == 1 <==> NoBar(s)
    ensures |Pieces(s, '|')| == 1 ==> Pieces(s, '|') == [s]
  {
    PiecesLack(s, '|');
    JoinOfPieces(s);
    if Lacks(s, '|') {
      OnePiece(s, '|');
    }
  }

  // ---- the pieces of an identity string ---------------------------------------------------------------------------

  /** The fields before the pages. */
  function Head(source: Source): seq<string> {
    [source.documentKey, source.documentVersion, Join(source.sectionPath, "/"), source.sectionType,
     TextOrEmpty(source.citationLabel)]
  }

  function Pages(source: Source): seq<string> {
    [PageOrEmpty(source.pageStart), PageOrEmpty(source.pageEnd)]
  }

  function Article(source: Source): string { TextOrEmpty(source.articleNumber) }

  function IdPieces(source: Source, sha: string, ordinal: nat): seq<string> {
    FlatPieces(Head(source)) + Pages(source) + Pieces(Article(source), '|') + Pieces(sha, '|') + [Decimal(ordinal)]
  }

  lemma PageHasNoBar(page: Option<nat>)
    ensures NoBar(PageOrEmpty(page))
  {
    if page.Some? {
      DecimalHasNoBar(page.value);
    }
  }

  lemma PiecesOfFields(source: Source, sha: string, ordinal: nat)
    ensures FlatPieces(Fields(source, sha) + [Decimal(ordinal)]) == IdPieces(source, sha, ordinal)
  {
    hide PageOrEmpty, TextOrEmpty, Join, Pieces, FlatPieces, Decimal, NoBar;
    var head, pages := Head(source), Pages(source);
    var rest := [Article(source), sha];
    assert Fields(source, sha) + [Decimal(ordinal)] == head + pages + rest + [Decimal(ordinal)];
    FlatAppend(head + pages + rest, [Decimal(ordinal)]);
    FlatAppend(head + pages, rest);
    FlatAppend(head, pages);
    PageHasNoBar(source.pageStart);
    PageHasNoBar(source.pageEnd);
    BarlessPieces(pages);
    DecimalHasNoBar(ordinal);
    BarlessPieces([Decimal(ordinal)]);
    TwoParts(Article(source), sha);
  }

  lemma TwoParts(a: string, b: string)
    ensures FlatPieces([a, b]) == Pieces(a, '|') + Pieces(b, '|')
  {
    hide Pieces;
    assert [b][1..] == [] && FlatPieces([b]) == Pieces(b, '|');
    assert [a, b][1..] == [b];
  }

  /** Two chunks share an id exactly when their identity strings have the same pieces. */
  lemma SameIdIffSamePieces(
    hash: string -> string, x: Source, sha: string, ordinal: nat, y: Source, sha': string, ordinal': nat)
    requires CollisionFree(hash)
    ensures BuildChunkId(hash, x, sha, ordinal) == BuildChunkId(hash, y, sha', ordinal')
       <==> IdPieces(x, sha, ordinal) == IdPieces(y, sha', ordinal')
  {
    hide IdPieces, FlatPieces, Join, Fields, Decimal;
    PiecesOfFields(x, sha, ordinal);
    PiecesOfFields(y, sha', ordinal');
    SameJoinIffSamePieces(Fields(x, sha) + [Decimal(ordinal)], Fields(y, sha') + [Decimal(ordinal')]);
  }

  // ---- pages ------------------------------------------------------------------------------------------------------

  predicate IsDigit(c: char) { '0' <= c <= '9' }

  /** A page number in decimal, or nothing. */
  predicate IsPageText(s: string) {
    (forall i :: 0 <= i < |s| ==> IsDigit(s[i])) && (1 < |s| ==> s[0] != '0')
  }

  lemma {:induction false} DecimalIsPageText(n: nat)
    ensures IsPageText(Decimal(n)) && Decimal(n) != "" && (0 < n ==> Decimal(n)[0] != '0')
  {
    if 10 <= n {
      DecimalIsPageText(n / 10);
    }
  }

  lemma PageIsPageText(page: Option<nat>)
    ensures IsPageText(PageOrEmpty(page))
  {
    if page.Some? {
      DecimalIsPageText(page.value);
    }
  }

  lemma {:induction false} PageTextIsDecimal(s: string) returns (n: nat)
    requires IsPageText(s) && s != ""
    ensures Decimal(n) == s && (s[0] != '0' ==> 0 < n)
  {
    var front, last := s[..|s| - 1], s[|s| - 1];
    assert IsDigit(last) && s == front + [last];
    var digit := last as int - '0' as int;
    if front == "" {
      n := digit;
    } else {
      assert front[0] == s[0];
      var tens := PageTextIsDecimal(front);
      n := tens * 10 + digit;
      assert n / 10 == tens && n % 10 == digit;
    }
    assert Digit(digit) == last;
  }

  lemma PageTextIsPage(s: string) returns (page: Option<nat>)
    requires IsPageText(s)
    ensures PageOrEmpty(page) == s
  {
    if s == "" {
      page := None;
    } else {
      var n := PageTextIsDecimal(s);
      page := Some(n);
    }
  }

  // ---- which chunks are blurred -----------------------------------------------------------------------------------

  /** A chunk of a document with another key or version, whatever else it holds, has the same id. */
  ghost predicate Blurred(hash: string -> string, x: Source, sha: string, ordinal: nat) {
    exists y: Source, sha': string, ordinal': nat ::
      && (y.documentKey, y.documentVersion) != (x.documentKey, x.documentVersion)
      && BuildChunkId(hash, y, sha', ordinal') == BuildChunkId(hash, x, sha, ordinal)
  }

  /**
    Bars in the article number let the pages slide into it: some piece of it but
    the last reads as a page, and so does the piece before it, if there is one.
  */
  predicate ArticleSlides(article: string) {
    var pieces := Pieces(article, '|');
    exists i :: 0 <= i < |pieces| - 1 && SlidesAt(pieces, i)
  }

  predicate SlidesAt(pieces: seq<string>, i: int)
    requires 0 <= i < |pieces|
  {
    IsPageText(pieces[i]) && (0 < i ==> IsPageText(pieces[i - 1]))
  }

  /** A source with the given fields before the pages. */
  function Made(head: seq<string>, from: Option<nat>, upTo: Option<nat>, article: string): Source
    requires |head| == 5
  {
    Source(head[0], "", head[1], [head[2]], head[3], Some(head[4]), from, upTo, Some(article))
  }

  lemma MadePieces(head: seq<string>, from: Option<nat>, upTo: Option<nat>, article: string, sha: string, ordinal: nat)
    requires |head| == 5
    ensures IdPieces(Made(head, from, upTo, article), sha, ordinal)
         == FlatPieces(head) + [PageOrEmpty(from), PageOrEmpty(upTo)] + Pieces(article, '|') + Pieces(sha, '|')
            + [Decimal(ordinal)]
  {
    hide FlatPieces, Pieces, Decimal, PageOrEmpty;
    assert Head(Made(head, from, upTo, article)) == head;
  }

  /** Pieces read with all that are too many in the first of five fields. */
  function FrontHeavy(pieces: seq<string>): seq<string>
    requires 5 <= |pieces|
  {
    [Join(pieces[..|pieces| - 4], "|")] + pieces[|pieces| - 4..]
  }

  /** Pieces read with all that are too many in the last of five fields. */
  function BackHeavy(pieces: seq<string>): seq<string>
    requires 5 <= |pieces|
  {
    pieces[..4] + [Join(pieces[4..], "|")]
  }

  lemma HeavyPieces(pieces: seq<string>)
    requires 5 <= |pieces| && NoBars(pieces)
    ensures |FrontHeavy(pieces)| == 5 && FlatPieces(FrontHeavy(pieces)) == pieces
    ensures |BackHeavy(pieces)| == 5 && FlatPieces(BackHeavy(pieces)) == pieces
    ensures 5 < |pieces| ==> !NoBar(FrontHeavy(pieces)[0]) && NoBar(BackHeavy(pieces)[0])
  {
    hide Join, Pieces, FlatPieces, NoBar;
    var n := |pieces| - 4;
    assert NoBars(pieces[..n]) && NoBars(pieces[n..]) && NoBars(pieces[..4]) && NoBars(pieces[4..]);
    JoinedPart(pieces[..n]);
    JoinedPart(pieces[4..]);
    BarlessPieces(pieces[n..]);
    BarlessPieces(pieces[..4]);
    FlatAppend([Join(pieces[..n], "|")], pieces[n..]);
    FlatAppend(pieces[..4], [Join(pieces[4..], "|")]);
    assert pieces == pieces[..n] + pieces[n..] && pieces == pieces[..4] + pieces[4..];
    assert NoBar(pieces[0]);
  }

  lemma {:induction false} JoinedPart(part: seq<string>)
    requires part != [] && NoBars(part)
    ensures FlatPieces([Join(part, "|")]) == Pieces(Join(part, "|"), '|') == part
    ensures 1 < |part| ==> !NoBar(Join(part, "|"))
  {
    hide Join, Pieces;
    PiecesOfJoin(part);
    BarlessPieces(part);
    PieceCount(Join(part, "|"));
    var joined := [Join(part, "|")];
    assert joined[1..] == [];
  }

  /** A bar before the pages: the fields there can be read in two ways that differ in their keys. */
  lemma HeadBlurs(hash: string -> string, x: Source, sha: string, ordinal: nat)
    requires CollisionFree(hash) && !NoBars(Head(x))
    ensures Blurred(hash, x, sha, ordinal)
  {
    hide CollisionFree, BuildChunkId, FlatPieces, NoBar, NoBars, FrontHeavy, BackHeavy, Pieces, PageOrEmpty, Decimal;
    var pieces := FlatPieces(Head(x));
    PiecesPerPart(Head(x));
    PiecesAreBarless(Head(x));
    HeavyPieces(pieces);
    var head := if x.documentKey == FrontHeavy(pieces)[0] then BackHeavy(pieces) else FrontHeavy(pieces);
    var y := Made(head, x.pageStart, x.pageEnd, Article(x));
    MadePieces(head, x.pageStart, x.pageEnd, Article(x), sha, ordinal);
    SameIdIffSamePieces(hash, y, sha, ordinal, x, sha, ordinal);
    assert (y.documentKey, y.documentVersion) != (x.documentKey, x.documentVersion);
  }

  /** Bars in the article number: everything before slides by as many pieces, and the key takes them up. */
  lemma ArticleBlurs(hash: string -> string, x: Source, sha: string, ordinal: nat)
    requires CollisionFree(hash) && NoBars(Head(x)) && NoBar(sha) && ArticleSlides(Article(x))
    ensures Blurred(hash, x, sha, ordinal)
  {
    var i :| 0 <= i < |Pieces(Article(x), '|')| - 1 && SlidesAt(Pieces(Article(x), '|'), i);
    hide CollisionFree, BuildChunkId, NoBar, NoBars, Pieces, IdPieces, ArticleSlides;
    var y := SlidReading(x, sha, ordinal, i);
    SameIdIffSamePieces(hash, y, sha, ordinal, x, sha, ordinal);
  }

  /** The reading in which the pages stand `i + 1` pieces later. */
  lemma SlidReading(x: Source, sha: string, ordinal: nat, i: nat) returns (y: Source)
    requires NoBars(Head(x)) && i < |Pieces(Article(x), '|')| - 1 && SlidesAt(Pieces(Article(x), '|'), i)
    ensures IdPieces(y, sha, ordinal) == IdPieces(x, sha, ordinal) && y.documentKey != x.documentKey
  {
    hide FlatPieces, NoBar, NoBars, FrontHeavy, Pieces, PageOrEmpty, Decimal, IsPageText, Join, TextOrEmpty;
    var article := Pieces(Article(x), '|');
    PageIsPageText(x.pageEnd);
    var from := PageTextIsPage(if i == 0 then PageOrEmpty(x.pageEnd) else article[i - 1]);
    var upTo := PageTextIsPage(article[i]);
    var front := (Head(x) + Pages(x) + article[..i])[..6 + i];
    FrontIsBarless(x, article, i);
    HeavyPieces(front);
    RestIsBarless(Article(x), i);
    JoinedPart(article[i + 1..]);
    y := Made(FrontHeavy(front), from, upTo, Join(article[i + 1..], "|"));
    MadePieces(FrontHeavy(front), from, upTo, Join(article[i + 1..], "|"), sha, ordinal);
    BarlessPieces(Head(x));
    Slid(Head(x), PageOrEmpty(x.pageStart), PageOrEmpty(x.pageEnd), article, i, Pieces(sha, '|') + [Decimal(ordinal)]);
    Regrouped(Head(x) + Pages(x) + article, Pieces(sha, '|'), [Decimal(ordinal)]);
    Regrouped(front + [PageOrEmpty(from), PageOrEmpty(upTo)] + article[i + 1..], Pieces(sha, '|'), [Decimal(ordinal)]);
    HeadIsBarless(x);
  }

  lemma Regrouped(a: seq<string>, b: seq<string>, c: seq<string>)
    ensures a + b + c == a + (b + c)
  {
  }

  lemma Slid(head: seq<string>, from: string, upTo: string, article: seq<string>, i: nat, rest: seq<string>)
    requires |head| == 5 && i < |article|
    ensures (head + [from, upTo] + article[..i])[..6 + i] + [if i == 0 then upTo else article[i - 1], article[i]]
            + article[i + 1..] + rest
         == head + [from, upTo] + article + rest
  {
    var front := head + [from, upTo] + article[..i];
    assert front == front[..6 + i] + [if i == 0 then upTo else article[i - 1]];
    assert article == article[..i] + [article[i]] + article[i + 1..];
  }

  lemma HeadIsBarless(x: Source)
    requires NoBars(Head(x))
    ensures NoBar(x.documentKey) && NoBar(Head(x)[0])
  {
  }

  lemma FrontIsBarless(x: Source, article: seq<string>, i: nat)
    requires NoBars(Head(x)) && article == Pieces(Article(x), '|') && i < |article|
    ensures NoBars((Head(x) + Pages(x) + article[..i])[..6 + i])
  {
    PageHasNoBar(x.pageStart);
    PageHasNoBar(x.pageEnd);
    RestIsBarless(Article(x), i);
    hide NoBar, Pieces, Join, PageOrEmpty, TextOrEmpty;
    var front := Head(x) + Pages(x) + article[..i];
    forall k | 0 <= k < 6 + i
      ensures NoBar(front[k])
    {
      assert k >= 7 ==> front[k] == article[k - 7];
    }
  }

  lemma RestIsBarless(article: string, i: nat)
    requires i < |Pieces(article, '|')|
    ensures forall k :: 0 <= k < |Pieces(article, '|')| ==> NoBar(Pieces(article, '|')[k])
    ensures NoBars(Pieces(article, '|')[i + 1..])
  {
    PiecesLack(article, '|');
    forall k | 0 <= k < |Pieces(article, '|')|
      ensures NoBar(Pieces(article, '|')[k])
    {
    }
  }

  /** Nothing else blurs: without a bar before the pages the other reading has slid into the article number. */
  lemma BlurNeedsBars(x: Source, sha: string, ordinal: nat, y: Source, sha': string, ordinal': nat)
    requires NoBars(Head(x)) && NoBar(sha)
    requires IdPieces(x, sha, ordinal) == IdPieces(y, sha', ordinal')
    ensures (y.documentKey, y.documentVersion) == (x.documentKey, x.documentVersion) || ArticleSlides(Article(x))
  {
    var article := Pieces(Article(x), '|');
    PieceCount(sha);
    hide FlatPieces, NoBar, NoBars, Pieces, PageOrEmpty, Decimal, IsPageText, TextOrEmpty, Join;
    BarlessPieces(Head(x));
    PiecesPerPart(Head(y));
    var left, right := IdPieces(x, sha, ordinal), IdPieces(y, sha', ordinal');
    var n := |FlatPieces(Head(y))|;
    if n == 5 {
      assert Head(x) == left[..5] == right[..5] == Head(y);
      assert Head(x)[0] == Head(y)[0] && Head(x)[1] == Head(y)[1];
    } else {
      assert right[n] == PageOrEmpty(y.pageStart) && right[n + 1] == PageOrEmpty(y.pageEnd);
      PageIsPageText(y.pageStart);
      PageIsPageText(y.pageEnd);
      assert n + 5 <= |right| == |left| == 9 + |article|;
      assert left[n + 1] == article[n - 6];
      assert n > 6 ==> left[n] == article[n - 7];
      assert SlidesAt(article, n - 6);
    }
  }

  /**
    A chunk of another document, whatever its other fields, digest and ordinal,
    can share a chunk's id exactly when a bar stands in the chunk's document key,
    version, section path, section type or citation label, or bars in its article
    number let the pages slide into it.
  */
  lemma DocumentIsBlurredIff(hash: string -> string, x: Source, sha: string, ordinal: nat)
    requires CollisionFree(hash) && NoBar(sha)
    ensures Blurred(hash, x, sha, ordinal) <==> !NoBars(Head(x)) || ArticleSlides(Article(x))
  {
    hide CollisionFree, BuildChunkId, NoBars, ArticleSlides, IdPieces, NoBar;
    if !NoBars(Head(x)) {
      HeadBlurs(hash, x, sha, ordinal);
    } else if ArticleSlides(Article(x)) {
      ArticleBlurs(hash, x, sha, ordinal);
    } else {
      forall y: Source, sha': string, ordinal': nat
        | BuildChunkId(hash, y, sha', ordinal') == BuildChunkId(hash, x, sha, ordinal)
        ensures (y.documentKey, y.documentVersion) == (x.documentKey, x.documentVersion)
      {
        SameIdIffSamePieces(hash, x, sha, ordinal, y, sha', ordinal');
        BlurNeedsBars(x, sha, ordinal, y, sha', ordinal');
      }
    }
  }

  /** Without a bar in the article number only bars before the pages count. */
  lemma BarlessArticleDoesNotSlide(article: string)
    requires NoBar(article)
    ensures !ArticleSlides(article)
  {
    PieceCount(article);
  }

  /** Keys without bars are read back from an id, whatever else differs; versions without bars then are too. */
  lemma BarlessKeysAreReadBack(
    hash: string -> string, x: Source, sha: string, ordinal: nat, y: Source, sha': string, ordinal': nat)
    requires CollisionFree(hash) && BuildChunkId(hash, x, sha, ordinal) == BuildChunkId(hash, y, sha', ordinal')
    requires NoBar(x.documentKey) && NoBar(y.documentKey)
    ensures x.documentKey == y.documentKey
    ensures NoBar(x.documentVersion) && NoBar(y.documentVersion) ==> x.documentVersion == y.documentVersion
  {
    SameIdIffSamePieces(hash, x, sha, ordinal, y, sha', ordinal');
    FirstPieces(x, sha, ordinal);
    FirstPieces(y, sha', ordinal');
  }

  lemma FirstPieces(x: Source, sha: string, ordinal: nat)
    requires NoBar(x.documentKey)
    ensures IdPieces(x, sha, ordinal) != [] && IdPieces(x, sha, ordinal)[0] == x.documentKey
    ensures NoBar(x.documentVersion) ==>
      1 < |IdPieces(x, sha, ordinal)| && IdPieces(x, sha, ordinal)[1] == x.documentVersion
  {
    hide Pieces, Decimal, PageOrEmpty, NoBar, TextOrEmpty, Join;
    var head := Head(x);
    assert head == [x.documentKey] + head[1..];
    assert head[1..] == [x.documentVersion] + head[2..];
    PieceCount(x.documentKey);
    PieceCount(x.documentVersion);
    assert FlatPieces(head) == Pieces(x.documentKey, '|') + FlatPieces(head[1..]);
    assert FlatPieces(head[1..]) == Pieces(x.documentVersion, '|') + FlatPieces(head[1..][1..]);
  }

  /** The keys the tenant repository accepts are of this kind. */
  lemma SafeKeysAreReadBack(
    hash: string -> string, x: Source, sha: string, ordinal: nat, y: Source, sha': string, ordinal': nat)
    requires CollisionFree(hash) && BuildChunkId(hash, x, sha, ordinal) == BuildChunkId(hash, y, sha', ordinal')
    requires SafeDocumentKey(x.documentKey) && SafeDocumentKey(y.documentKey)
    ensures x.documentKey == y.documentKey
    ensures NoBar(x.documentVersion) && NoBar(y.documentVersion) ==> x.documentVersion == y.documentVersion
  {
    hide BuildChunkId, CollisionFree;
    BarlessKeysAreReadBack(hash, x, sha, ordinal, y, sha', ordinal');
  }

  /**
    An instance the tenant repository accepts: two versions of one document, of
    which the first has no bar in key or version, whose chunks share every id.
  */
  lemma AcceptedVersionsBlur(hash: string -> string, source: Source, sha: string, ordinal: nat)
    ensures var x, y := source.(documentKey := "a", documentVersion := "b", sectionPath := ["c|d"]),
                        source.(documentKey := "a", documentVersion := "b|c", sectionPath := ["d"]);
      BuildChunkId(hash, x, sha, ordinal) == BuildChunkId(hash, y, sha, ordinal)
    ensures SafeDocumentKey("a") && PlainText("b", 256) && PlainText("b|c", 256)
  {
    var x, y := source.(documentKey := "a", documentVersion := "b", sectionPath := ["c|d"]),
                source.(documentKey := "a", documentVersion := "b|c", sectionPath := ["d"]);
    var left, right := Fields(x, sha) + [Decimal(ordinal)], Fields(y, sha) + [Decimal(ordinal)];
    hide Decimal, PageOrEmpty, TextOrEmpty;
    JoinThreeMore(left);
    JoinThreeMore(right);
    assert left[3..] == right[3..];
    SameReading(Join(left[3..], "|"));
  }

  lemma SameReading(rest: string)
    ensures "a" + "|" + ("b" + "|" + ("c|d" + "|" + rest)) == "a" + "|" + ("b|c" + "|" + ("d" + "|" + rest))
  {
    assert "b" + "|" + ("c|d" + "|" + rest) == "b|c|d|" + rest == "b|c" + "|" + ("d" + "|" + rest);
  }

  lemma JoinThreeMore(parts: seq<string>)
    requires 3 < |parts|
    ensures Join(parts, "|") == parts[0] + "|" + (parts[1] + "|" + (parts[2] + "|" + Join(parts[3..], "|")))
  {
    hide Join;
    assert parts[1..][1..] == parts[2..] && parts[2..][1..] == parts[3..];
    JoinOneMore(parts);
    JoinOneMore(parts[1..]);
    JoinOneMore(parts[2..]);
  }

  // ---- all else the same ------------------------------------------------------------------------------------------

  /** The source under another document. */
  function Renamed(source: Source, key: string, version: string): Source {
    source.(documentKey := key, documentVersion := version)
  }

  /** Chunks that agree in all else share an id exactly when key and version, joined by a bar, read the same. */
  lemma SameIdIffSameHead(
    hash: string -> string, source: Source, contentSha256: string, ordinal: nat, key: string, version: string)
    requires CollisionFree(hash)
    ensures BuildChunkId(hash, Renamed(source, key, version), contentSha256, ordinal)
         == BuildChunkId(hash, source, contentSha256, ordinal)
       <==> key + "|" + version == source.documentKey + "|" + source.documentVersion
  {
    var left := Fields(Renamed(source, key, version), contentSha256) + [Decimal(ordinal)];
    var right := Fields(source, contentSha256) + [Decimal(ordinal)];
    assert left[2..] == right[2..];
    JoinTwoMore(left);
    JoinTwoMore(right);
    var head, head' := key + "|" + version, source.documentKey + "|" + source.documentVersion;
    var rest := "|" + Join(left[2..], "|");
    assert Join(left, "|") == head + rest && Join(right, "|") == head' + rest;
    SameTail(head, head', rest);
  }

  lemma SameTail(a: string, b: string, rest: string)
    ensures a + rest == b + rest <==> a == b
  {
    if a + rest == b + rest {
      assert |a| == |b|;
      assert (a + rest)[..|a|] == a && (b + rest)[..|b|] == b;
    }
  }

  /** Two parts without bars are read back from their join, even against parts that might hold bars. */
  lemma HeadIsRead(key: string, version: string, key': string, version': string)
    requires NoBar(key) && NoBar(key') && key + "|" + version == key' + "|" + version'
    ensures key == key' && version == version'
  {
    var s := key + "|" + version;
    assert s[|key|] == '|' == s[|key'|];
    assert forall i :: 0 <= i < |key| ==> s[i] == key[i];
    assert forall i :: 0 <= i < |key'| ==> s[i] == key'[i];
    assert |key| == |key'|;
    assert s[..|key|] == key && s[..|key'|] == key' && s[|key| + 1..] == version && s[|key'| + 1..] == version';
  }

  /** A bar can be read as the one between key and version: the parts on either side of it are another document. */
  lemma BarSplits(key: string, version: string) returns (key': string, version': string)
    requires !NoBar(key) || !NoBar(version)
    ensures (key', version') != (key, version) && key' + "|" + version' == key + "|" + version
  {
    if !NoBar(key) {
      var i :| 0 <= i < |key| && key[i] == '|';
      key', version' := key[..i], key[i + 1..] + "|" + version;
      assert key == key' + "|" + key[i + 1..];
      assert |key'| < |key|;
    } else {
      var i :| 0 <= i < |version| && version[i] == '|';
      key', version' := key + "|" + version[..i], version[i + 1..];
      assert version == version[..i] + "|" + version';
      assert |version'| < |version|;
    }
  }

  /** Without bars in key and version the join has one bar, and any reading of it is this one. */
  lemma OneBarOneReading(key: string, version: string, key': string, version': string)
    requires NoBar(key) && NoBar(version) && key' + "|" + version' == key + "|" + version
    ensures key' == key && version' == version
  {
    var s := key + "|" + version;
    assert s == key' + "|" + version';
    assert s[|key'|] == '|';
    assert forall i :: 0 <= i < |key| ==> s[i] == key[i];
    assert forall i :: |key| < i < |s| ==> s[i] == version[i - |key| - 1];
    assert |key'| == |key|;
    assert forall i :: 0 <= i < |key'| ==> s[i] == key'[i];
    HeadIsRead(key, version, key', version');
  }

  /**
    With all else held the same, a document can share another's id exactly when a
    bar stands in its key or version.
  */
  lemma RenamingIsBlurredIff(hash: string -> string, source: Source, contentSha256: string, ordinal: nat)
    requires CollisionFree(hash)
    ensures (exists key, version ::
               && (key, version) != (source.documentKey, source.documentVersion)
               && BuildChunkId(hash, Renamed(source, key, version), contentSha256, ordinal)
                  == BuildChunkId(hash, source, contentSha256, ordinal))
       <==> !NoBar(source.documentKey) || !NoBar(source.documentVersion)
  {
    hide BuildChunkId, Renamed, CollisionFree;
    if !NoBar(source.documentKey) || !NoBar(source.documentVersion) {
      var key, version := BarSplits(source.documentKey, source.documentVersion);
      SameIdIffSameHead(hash, source, contentSha256, ordinal, key, version);
    } else {
      forall key, version | BuildChunkId(hash, Renamed(source, key, version), contentSha256, ordinal)
                         == BuildChunkId(hash, source, contentSha256, ordinal)
        ensures (key, version) == (source.documentKey, source.documentVersion)
      {
        SameIdIffSameHead(hash, source, contentSha256, ordinal, key, version);
        OneBarOneReading(source.documentKey, source.documentVersion, key, version);
      }
    }
  }

  /** Of two documents that share ids in this way at most one has a key the tenant repository accepts. */
  lemma SafeRenamingsAreToldApart(
    hash: string -> string, source: Source, contentSha256: string, ordinal: nat, key: string, version: string)
    requires CollisionFree(hash) && SafeDocumentKey(source.documentKey) && SafeDocumentKey(key)
    ensures BuildChunkId(hash, Renamed(source, key, version), contentSha256, ordinal)
         == BuildChunkId(hash, source, contentSha256, ordinal)
       <==> key == source.documentKey && version == source.documentVersion
  {
    BarlessKeysAreToldApart(hash, source, contentSha256, ordinal, key, version);
  }

  /** Among documents whose keys hold no bar an id tells them apart. */
  lemma BarlessKeysAreToldApart(
    hash: string -> string, source: Source, contentSha256: string, ordinal: nat, key: string, version: string)
    requires CollisionFree(hash) && NoBar(source.documentKey) && NoBar(key)
    ensures BuildChunkId(hash, Renamed(source, key, version), contentSha256, ordinal)
         == BuildChunkId(hash, source, contentSha256, ordinal)
       <==> key == source.documentKey && version == source.documentVersion
  {
    SameIdIffSameHead(hash, source, contentSha256, ordinal, key, version);
    if key + "|" + version == source.documentKey + "|" + source.documentVersion {
      HeadIsRead(key, version, source.documentKey, source.documentVersion);
    }
  }

  /** An instance: two documents whose chunks share every id; the first has a key the tenant repository refuses. */
  lemma BarsBlurDocuments(hash: string -> string, source: Source, contentSha256: string, ordinal: nat)
    ensures BuildChunkId(hash, Renamed(source, "a|b", "c"), contentSha256, ordinal)
         == BuildChunkId(hash, Renamed(source, "a", "b|c"), contentSha256, ordinal)
    ensures !SafeDocumentKey("a|b") && SafeDocumentKey("a")
  {
    assert "a|b"[1] == '|';
    var left := Fields(Renamed(source, "a|b", "c"), contentSha256) + [Decimal(ordinal)];
    var right := Fields(Renamed(source, "a", "b|c"), contentSha256) + [Decimal(ordinal)];
    JoinTwoMore(left);
    JoinTwoMore(right);
    assert left[2..] == right[2..];
    assert ("a|b" + "|") + ("c" + "|") == "a|b|c|" == ("a" + "|") + ("b|c" + "|");
  }

  lemma JoinTwoMore(parts: seq<string>)
    requires 2 < |parts|
    ensures Join(parts, "|") == ((parts[0] + "|") + (parts[1] + "|")) + Join(parts[2..], "|")
  {
    hide Join;
    assert parts[1..][1..] == parts[2..];
    JoinOneMore(parts);
    JoinOneMore(parts[1..]);
    var rest := Join(parts[2..], "|");
    assert parts[0] + "|" + (parts[1] + "|" + rest) == ((parts[0] + "|") + (parts[1] + "|")) + rest;
  }

  lemma JoinOneMore(parts: seq<string>)
    requires 1 < |parts|
    ensures Join(parts, "|") == parts[0] + "|" + Join(parts[1..], "|")
  {
  }
}
