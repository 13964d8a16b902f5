/** The identity string of a chunk and the digest taken of it. */
module ChunkIdentity {
  import opened Wrappers
  import opened Text

  datatype Source = Source(
    documentKey: string, documentTitle: string, documentVersion: string, sectionPath: seq<string>, sectionType: string,
    citationLabel: Option<string>, pageStart: Option<nat>, pageEnd: Option<nat>, articleNumber: Option<string>)

  function Decimal(n: nat): string {
    (if n < 10 then "" else Decimal(n / 10)) + [Digit(n % 10)]
  }

  function Digit(n: nat): char
    requires n < 10
  {
    '0' + n as char
  }

  function Join(parts: seq<string>, separator: string): string {
    if parts == [] then ""
    else if |parts| == 1 then parts[0]
    else parts[0] + separator + Join(parts[1..], separator)
  }

  function TextOrEmpty(o: Option<string>): string {
    if o.Some? then o.value else ""
  }

  function PageOrEmpty(o: Option<nat>): string {
    if o.Some? then Decimal(o.value) else ""
  }

  /** The fields before the ordinal. */
  function Fields(source: Source, contentSha256: string): seq<string> {
    [source.documentKey, source.documentVersion, Join(source.sectionPath, "/"), source.sectionType,
     TextOrEmpty(source.citationLabel), PageOrEmpty(source.pageStart), PageOrEmpty(source.pageEnd),
     TextOrEmpty(source.articleNumber), contentSha256]
  }

  function BuildChunkIdentityInput(source: Source, contentSha256: string, ordinal: nat): string {
    Join(Fields(source, contentSha256) + [Decimal(ordinal)], "|")
  }

  function BuildChunkId(hash: string -> string, source: Source, contentSha256: string, ordinal: nat): string {
    hash(BuildChunkIdentityInput(source, contentSha256, ordinal))
  }

  ghost predicate CollisionFree(hash: string -> string) {
    forall a, b :: hash(a) == hash(b) ==> a == b
  }

  predicate NoBar(s: string) { Lacks(s, '|') }

  predicate NoBars(parts: seq<string>) {
    forall i :: 0 <= i < |parts| ==> NoBar(parts[i])
  }

  lemma {:induction false} DecimalHasNoBar(n: nat)
    ensures NoBar(Decimal(n)) && Decimal(n) != ""
  {
    if 10 <= n {
      DecimalHasNoBar(n / 10);
    }
  }

  /** The number a string of digits stands for. */
  function ValueOf(digits: string): int {
    if digits == "" then 0 else 10 * ValueOf(digits[..|digits| - 1]) + (digits[|digits| - 1] as int - '0' as int)
  }

  /** The digits of a number are read back as the number, and start with a zero only for zero itself. */
  lemma {:induction false} DecimalIsRead(n: nat)
    ensures ValueOf(Decimal(n)) == n
    ensures Decimal(n) != "" && (Decimal(n)[0] == '0' <==> n == 0)
    ensures forall i :: 0 <= i < |Decimal(n)| ==> '0' <= Decimal(n)[i] <= '9'
  {
    hide ValueOf, Decimal;
    var front := if n < 10 then "" else Decimal(n / 10);
    DecimalUnfolds(n);
    ValueOfSnoc(front, Digit(n % 10));
    if 10 <= n {
      DecimalIsRead(n / 10);
    } else {
      NothingIsZero();
    }
  }

  lemma DecimalUnfolds(n: nat)
    ensures Decimal(n) == (if n < 10 then "" else Decimal(n / 10)) + [Digit(n % 10)]
  {
  }

  lemma NothingIsZero()
    ensures ValueOf("") == 0
  {
  }

  lemma ValueOfSnoc(front: string, digit: char)
    ensures ValueOf(front + [digit]) == 10 * ValueOf(front) + (digit as int - '0' as int)
  {
    assert (front + [digit])[..|front|] == front;
  }

  lemma DecimalIsInjective(m: nat, n: nat)
    requires Decimal(m) == Decimal(n)
    ensures m == n
  {
    DecimalIsRead(m);
    DecimalIsRead(n);
  }

  lemma {:induction false} JoinSnoc(parts: seq<string>, last: string, separator: string)
    requires parts != []
    ensures Join(parts + [last], separator) == Join(parts, separator) + separator + last
  {
    assert (parts + [last])[1..] == parts[1..] + [last];
    if |parts| > 1 {
      JoinSnoc(parts[1..], last, separator);
    }
  }

  /** What follows the last bar is determined by the whole string. */
  lemma LastFieldIsDetermined(front: string, last: string, front': string, last': string)
    requires front + "|" + last == front' + "|" + last'
    requires NoBar(last) && NoBar(last')
    ensures last == last' && front == front'
  {
    var s := front + "|" + last;
    assert s[|front|] == '|' == s[|front'|];
    assert forall i :: |front| < i < |s| ==> s[i] == last[i - |front| - 1];
    assert forall i :: |front'| < i < |s| ==> s[i] == last'[i - |front'| - 1];
    assert |front| == |front'|;
    assert s[|front|..] == "|" + last && s[..|front|] == front;
    assert s[|front'|..] == "|" + last' && s[..|front'|] == front';
    assert ("|" + last)[1..] == last && ("|" + last')[1..] == last';
  }

  /** Two chunks with different ordinals never share an id, whatever their other fields hold. */
  lemma OrdinalsSeparateIds(
    hash: string -> string, source: Source, contentSha256: string, ordinal: nat,
    source': Source, contentSha256': string, ordinal': nat)
    requires CollisionFree(hash) && ordinal != ordinal'
    ensures BuildChunkId(hash, source, contentSha256, ordinal) != BuildChunkId(hash, source', contentSha256', ordinal')
  {
    var fields, fields' := Fields(source, contentSha256), Fields(source', contentSha256');
    var input := BuildChunkIdentityInput(source, contentSha256, ordinal);
    var input' := BuildChunkIdentityInput(source', contentSha256', ordinal');
    if hash(input) == hash(input') {
      JoinSnoc(fields, Decimal(ordinal), "|");
      JoinSnoc(fields', Decimal(ordinal'), "|");
      DecimalHasNoBar(ordinal);
      DecimalHasNoBar(ordinal');
      LastFieldIsDetermined(Join(fields, "|"), Decimal(ordinal), Join(fields', "|"), Decimal(ordinal'));
      DecimalIsInjective(ordinal, ordinal');
    }
  }

  lemma {:induction false} JoinIsInjective(parts: seq<string>, parts': seq<string>)
    requires |parts| == |parts'| && NoBars(parts) && NoBars(parts')
    requires Join(parts, "|") == Join(parts', "|")
    ensures parts == parts'
  {
    if |parts| > 1 {
      var n := |parts| - 1;
      assert parts == parts[..n] + [parts[n]] && parts' == parts'[..n] + [parts'[n]];
      JoinSnoc(parts[..n], parts[n], "|");
      JoinSnoc(parts'[..n], parts'[n], "|");
      LastFieldIsDetermined(Join(parts[..n], "|"), parts[n], Join(parts'[..n], "|"), parts'[n]);
      JoinIsInjective(parts[..n], parts'[..n]);
    }
  }

  /** Without bars inside the fields, an id stands for all the fields, the content digest and the ordinal. */
  lemma IdDeterminesFields(
    hash: string -> string, source: Source, contentSha256: string, ordinal: nat,
    source': Source, contentSha256': string, ordinal': nat)
    requires CollisionFree(hash)
    requires NoBars(Fields(source, contentSha256)) && NoBars(Fields(source', contentSha256'))
    ensures BuildChunkId(hash, source, contentSha256, ordinal) == BuildChunkId(hash, source', contentSha256', ordinal')
       <==> Fields(source, contentSha256) == Fields(source', contentSha256') && ordinal == ordinal'
  {
    var parts := Fields(source, contentSha256) + [Decimal(ordinal)];
    var parts' := Fields(source', contentSha256') + [Decimal(ordinal')];
    DecimalHasNoBar(ordinal);
    DecimalHasNoBar(ordinal');
    if Join(parts, "|") == Join(parts', "|") {
      JoinIsInjective(parts, parts');
      assert parts[..9] == Fields(source, contentSha256) && parts'[..9] == Fields(source', contentSha256');
      assert parts[9] == Decimal(ordinal) && parts'[9] == Decimal(ordinal');
      DecimalIsInjective(ordinal, ordinal');
    }
  }

  /** The ten fields in their order, with a bar between any two; a field that is missing is empty. */
  lemma IdentityIs(source: Source, contentSha256: string, ordinal: nat)
    ensures BuildChunkIdentityInput(source, contentSha256, ordinal)
         == source.documentKey + "|" + source.documentVersion + "|" + Join(source.sectionPath, "/") + "|"
            + source.sectionType + "|" + TextOrEmpty(source.citationLabel) + "|" + PageOrEmpty(source.pageStart) + "|"
            + PageOrEmpty(source.pageEnd) + "|" + TextOrEmpty(source.articleNumber) + "|" + contentSha256 + "|"
            + Decimal(ordinal)
  {
    hide Join, TextOrEmpty, PageOrEmpty, Decimal;
    var parts := Fields(source, contentSha256) + [Decimal(ordinal)];
    JoinOfTen(parts);
  }

  lemma JoinOfTen(p: seq<string>)
    requires |p| == 10
    ensures Join(p, "|") == p[0] + "|" + p[1] + "|" + p[2] + "|" + p[3] + "|" + p[4] + "|" + p[5] + "|" + p[6] + "|"
      + p[7] + "|" + p[8] + "|" + p[9]
  {
    JoinOfFive(p[..5]);
    JoinOfFive(p[5..]);
    JoinAppend(p[..5], p[5..]);
    assert p == p[..5] + p[5..];
  }

  lemma JoinOfFive(p: seq<string>)
    requires |p| == 5
    ensures Join(p, "|") == p[0] + "|" + p[1] + "|" + p[2] + "|" + p[3] + "|" + p[4]
  {
    hide Join;
    JoinOfOne(p[0]);
    assert p == [p[0]] + [p[1]] + [p[2]] + [p[3]] + [p[4]];
    JoinSnoc([p[0]], p[1], "|");
    JoinSnoc([p[0]] + [p[1]], p[2], "|");
    JoinSnoc([p[0]] + [p[1]] + [p[2]], p[3], "|");
    JoinSnoc([p[0]] + [p[1]] + [p[2]] + [p[3]], p[4], "|");
  }

  lemma JoinOfOne(part: string)
    ensures Join([part], "|") == part
  {
  }

  lemma {:induction false} JoinAppend(a: seq<string>, b: seq<string>)
    requires a != [] && b != []
    ensures Join(a + b, "|") == Join(a, "|") + "|" + Join(b, "|")
  {
    assert (a + b)[1..] == a[1..] + b;
    if |a| > 1 {
      JoinAppend(a[1..], b);
    }
  }
}
