/** The forms of identifiers the repositories check, and the one form the database gives them. */
module Identifiers {
  function LowerChar(c: char): (lower: char)
    ensures !('A' <= lower <= 'Z')
  {
    if 'A' <= c <= 'Z' then (c as int + 32) as char else c
  }

  function Lower(s: string): (lower: string)
    ensures |lower| == |s| && forall i :: 0 <= i < |s| ==> lower[i] == LowerChar(s[i])
  {
    seq(|s|, i requires 0 <= i < |s| => LowerChar(s[i]))
  }

  predicate IsLower(s: string) {
    forall i :: 0 <= i < |s| ==> !('A' <= s[i] <= 'Z')
  }

  /** An id as the database returns it: in lower case. */
  type Uuid = s: string | IsLower(s)

  lemma LowerIsIdentityIff(s: string)
    ensures Lower(s) == s <==> IsLower(s)
    ensures IsLower(Lower(s))
  {
    if Lower(s) == s {
      forall i | 0 <= i < |s|
        ensures !('A' <= s[i] <= 'Z')
      {
        assert Lower(s)[i] == LowerChar(s[i]);
      }
    }
  }

  function Rendered(s: string): Uuid {
    LowerIsIdentityIff(s);
    Lower(s)
  }

  predicate IsHex(c: char) {
    '0' <= c <= '9' || 'a' <= c <= 'f' || 'A' <= c <= 'F'
  }

  /** Upper-case digits pass. */
  predicate CanonicalUuid(s: string) {
    |s| == 36 && forall i :: 0 <= i < |s| ==> if i in {8, 13, 18, 23} then s[i] == '-' else IsHex(s[i])
  }

  /** A SHA-256 digest in lower-case hexadecimal. */
  predicate IsDigest(s: string) {
    |s| == 64 && forall i :: 0 <= i < |s| ==> '0' <= s[i] <= '9' || 'a' <= s[i] <= 'f'
  }

  predicate IsProviderId(s: string) {
    && 3 <= |s| <= 64
    && 'a' <= s[0] <= 'z'
    && forall i :: 1 <= i < |s| ==> 'a' <= s[i] <= 'z' || '0' <= s[i] <= '9' || s[i] in "._-"
  }

  predicate IsAlphanumeric(c: char) {
    'A' <= c <= 'Z' || 'a' <= c <= 'z' || '0' <= c <= '9'
  }

  /** The form of a document key the tenant repository accepts. */
  predicate SafeDocumentKey(key: string) {
    && 1 <= |key| <= 512
    && IsAlphanumeric(key[0])
    && forall i :: 1 <= i < |key| ==> IsAlphanumeric(key[i]) || key[i] in "._:/-"
  }

  /** Text of one up to `limit` characters, none of them a control character. */
  predicate PlainText(s: string, limit: nat) {
    1 <= |s| <= limit && forall i :: 0 <= i < |s| ==> ' ' <= s[i] && s[i] != '\U{7F}'
  }

  predicate AllHex(s: string) {
    forall i :: 0 <= i < |s| ==> IsHex(s[i])
  }

  /** Groups of 8, 4, 4, 4 and 12 digits, joined by hyphens. */
  lemma CanonicalUuidIff(s: string)
    ensures CanonicalUuid(s) <==>
      exists a, b, c, d, e ::
        InGroups(s, a, b, c, d, e) && AllHex(a) && AllHex(b) && AllHex(c) && AllHex(d) && AllHex(e)
  {
    if CanonicalUuid(s) {
      CutIntoGroups(s);
      assert AllHex(s[..8]) && AllHex(s[9..13]) && AllHex(s[14..18]) && AllHex(s[19..23]) && AllHex(s[24..]);
    }
    forall a, b, c, d, e
      | InGroups(s, a, b, c, d, e) && AllHex(a) && AllHex(b) && AllHex(c) && AllHex(d) && AllHex(e)
      ensures CanonicalUuid(s)
    {
      GroupsAreCanonical(s, a, b, c, d, e);
    }
  }

  lemma CutIntoGroups(s: string)
    requires |s| == 36 && s[8] == '-' && s[13] == '-' && s[18] == '-' && s[23] == '-'
    ensures InGroups(s, s[..8], s[9..13], s[14..18], s[19..23], s[24..])
  {
    assert s[..9] == s[..8] + "-";
    assert s[..14] == s[..9] + s[9..13] + "-";
    assert s[..19] == s[..14] + s[14..18] + "-";
    assert s[..24] == s[..19] + s[19..23] + "-";
    assert s == s[..24] + s[24..];
  }

  lemma GroupsAreCanonical(s: string, a: string, b: string, c: string, d: string, e: string)
    requires InGroups(s, a, b, c, d, e) && AllHex(a) && AllHex(b) && AllHex(c) && AllHex(d) && AllHex(e)
    ensures CanonicalUuid(s)
  {
    forall i | 0 <= i < |s|
      ensures if i in {8, 13, 18, 23} then s[i] == '-' else IsHex(s[i])
    {
      if i < 8 {
        assert s[i] == a[i];
      } else if 8 < i < 13 {
        assert s[i] == b[i - 9];
      } else if 13 < i < 18 {
        assert s[i] == c[i - 14];
      } else if 18 < i < 23 {
        assert s[i] == d[i - 19];
      } else if 23 < i {
        assert s[i] == e[i - 24];
      }
    }
  }

  predicate InGroups(s: string, a: string, b: string, c: string, d: string, e: string) {
    && |a| == 8 && |b| == 4 && |c| == 4 && |d| == 4 && |e| == 12
    && s == a + "-" + b + "-" + c + "-" + d + "-" + e
  }
}
