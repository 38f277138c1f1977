/**
 The text of a refresh token, and how much of it password hashing reads. A token is a JSON Web Token
 (RFC 7519) signed with HS256: two base64url texts (RFC 4648, section 5) and a signature, with points
 between them. bcrypt reads no more than the first 72 characters of what it is given.
 */
module TokenText {
  import opened Prelude

  // ----- base64url -----------------------------------------------------------------------------

  function Sextet(n: nat): char
    requires n < 64
  {
    if n < 26 then ('A' as int + n) as char
    else if n < 52 then ('a' as int + n - 26) as char
    else if n < 62 then ('0' as int + n - 52) as char
    else if n == 62 then '-' else '_'
  }

  lemma SextetInjective(m: nat, n: nat)
    requires m < 64 && n < 64 && Sextet(m) == Sextet(n)
    ensures m == n
  {
  }

  /** The octet of a character; token texts are ASCII. */
  function Octet(c: char): nat
    ensures Octet(c) < 256
  {
    if c as int < 256 then c as int else 0
  }

  /** The four characters that stand for three octets. */
  function Quad(a: nat, b: nat, c: nat): string
    requires a < 256 && b < 256 && c < 256
  {
    [Sextet(a / 4), Sextet(a % 4 * 16 + b / 16), Sextet(b % 16 * 4 + c / 64), Sextet(c % 64)]
  }

  /** Without padding. */
  function Base64Url(s: string): string {
    if |s| == 0 then ""
    else if |s| == 1 then Quad(Octet(s[0]), 0, 0)[..2]
    else if |s| == 2 then Quad(Octet(s[0]), Octet(s[1]), 0)[..3]
    else Quad(Octet(s[0]), Octet(s[1]), Octet(s[2])) + Base64Url(s[3..])
  }

  lemma SliceOfRest(q: string, r: string, i: nat, j: nat)
    requires i <= j <= |r|
    ensures (q + r)[|q| + i..|q| + j] == r[i..j]
  {
  }

  lemma {:induction false} QuadAt(s: string, k: nat)
    requires 3 * k + 3 <= |s|
    ensures 4 * k + 4 <= |Base64Url(s)|
    ensures Base64Url(s)[4 * k..4 * k + 4] == Quad(Octet(s[3 * k]), Octet(s[3 * k + 1]), Octet(s[3 * k + 2]))
  {
    var first, rest := Quad(Octet(s[0]), Octet(s[1]), Octet(s[2])), Base64Url(s[3..]);
    assert Base64Url(s) == first + rest;
    if k > 0 {
      QuadAt(s[3..], k - 1);
      SliceOfRest(first, rest, 4 * (k - 1), 4 * (k - 1) + 4);
    }
  }

  lemma {:induction false} Base64Length(s: string)
    ensures |Base64Url(s)| == (4 * |s| + 2) / 3
  {
    if |s| >= 3 {
      Base64Length(s[3..]);
    }
  }

  lemma Sixteens(x: nat, y: nat, x': nat, y': nat)
    requires y < 16 && y' < 16 && x * 16 + y == x' * 16 + y'
    ensures x == x' && y == y'
  {
  }

  lemma FirstSextet(a: nat, b: nat, a': nat, b': nat)
    requires a < 256 && b < 256 && a' < 256 && b' < 256
    requires Sextet(a / 4) == Sextet(a' / 4) && Sextet(a % 4 * 16 + b / 16) == Sextet(a' % 4 * 16 + b' / 16)
    ensures a == a' && b / 16 == b' / 16
  {
    SextetInjective(a / 4, a' / 4);
    SextetInjective(a % 4 * 16 + b / 16, a' % 4 * 16 + b' / 16);
    Sixteens(a % 4, b / 16, a' % 4, b' / 16);
  }

  lemma SecondSextet(b: nat, c: nat, b': nat, c': nat)
    requires b < 256 && c < 256 && b' < 256 && c' < 256 && b / 16 == b' / 16
    requires Sextet(b % 16 * 4 + c / 64) == Sextet(b' % 16 * 4 + c' / 64)
    ensures b == b' && c / 64 == c' / 64
  {
    SextetInjective(b % 16 * 4 + c / 64, b' % 16 * 4 + c' / 64);
    Fours(b % 16, c / 64, b' % 16, c' / 64);
  }

  lemma Fours(x: nat, y: nat, x': nat, y': nat)
    requires y < 4 && y' < 4 && x * 4 + y == x' * 4 + y'
    ensures x == x' && y == y'
  {
  }

  /** Three characters fix two octets and the two high bits of the third. */
  lemma ThreeOfQuad(a: nat, b: nat, c: nat, a': nat, b': nat, c': nat)
    requires a < 256 && b < 256 && c < 256 && a' < 256 && b' < 256 && c' < 256
    ensures Quad(a, b, c)[..3] == Quad(a', b', c')[..3] <==> a == a' && b == b' && c / 64 == c' / 64
  {
    var q, q' := Quad(a, b, c), Quad(a', b', c');
    if q[..3] == q'[..3] {
      assert q[0] == q[..3][0] == q'[0] && q[1] == q[..3][1] == q'[1] && q[2] == q[..3][2] == q'[2];
      FirstSextet(a, b, a', b');
      SecondSextet(b, c, b', c');
    }
  }

  lemma QuadInjective(a: nat, b: nat, c: nat, a': nat, b': nat, c': nat)
    requires a < 256 && b < 256 && c < 256 && a' < 256 && b' < 256 && c' < 256
    requires Quad(a, b, c) == Quad(a', b', c')
    ensures a == a' && b == b' && c == c'
  {
    ThreeOfQuad(a, b, c, a', b', c');
    SextetInjective(c % 64, c' % 64);
  }

  /** The alphabet of base64url (RFC 4648, table 2): A to Z, a to z, 0 to 9, the minus and the underscore. */
  lemma AlphabetExact(n: nat)
    requires n < 64
    ensures Sextet(0) == 'A' && Sextet(25) == 'Z' && Sextet(26) == 'a' && Sextet(51) == 'z'
    ensures Sextet(52) == '0' && Sextet(61) == '9' && Sextet(62) == '-' && Sextet(63) == '_'
    ensures n < 61 && n != 25 && n != 51 ==> Sextet(n + 1) as int == Sextet(n) as int + 1
  {
  }

  /** The test vectors of RFC 4648, section 10, without padding. */
  lemma TestVectors()
    ensures Base64Url("") == "" && Base64Url("f") == "Zg" && Base64Url("fo") == "Zm8" && Base64Url("foo") == "Zm9v"
    ensures Base64Url("foob") == "Zm9vYg" && Base64Url("fooba") == "Zm9vYmE" && Base64Url("foobar") == "Zm9vYmFy"
  {
    assert Quad(102, 111, 111) == "Zm9v";
    assert "foo"[3..] == "";
    TailVectors();
    assert "foob"[3..] == "b" && "fooba"[3..] == "ba" && "foobar"[3..] == "bar";
  }

  lemma TailVectors()
    ensures Base64Url("b") == "Yg" && Base64Url("ba") == "YmE" && Base64Url("bar") == "YmFy"
  {
    assert "bar"[3..] == "";
  }

  // ----- Tokens --------------------------------------------------------------------------------

  /** What a refresh token claims; iat and exp are whole seconds. */
  datatype Claims = Claims(sub: string, sessionId: string, rtId: string, iat: nat, exp: nat)

  predicate HexDigit(c: char) {
    '0' <= c <= '9' || 'a' <= c <= 'f'
  }

  /** Identifiers of users: 32 hexadecimal digits with dashes after the 8th, 12th, 16th and 20th. */
  predicate Uuid(s: string) {
    |s| == 36 && forall i :: 0 <= i < 36 ==> if i in {8, 13, 18, 23} then s[i] == '-' else HexDigit(s[i])
  }

  /** Eight, four, four, four and twelve hexadecimal digits in lower case. */
  lemma UuidExact(s: string)
    ensures Uuid(s) <==> && |s| == 36 && s[8] == s[13] == s[18] == s[23] == '-'
                         && forall i :: 0 <= i < 36 && i != 8 && i != 13 && i != 18 && i != 23 ==> s[i] in "0123456789abcdef"
  {
    forall c: char ensures HexDigit(c) <==> c in "0123456789abcdef" {}
  }

  const SUBJECT := "{\"sub\":\""

  function Payload(c: Claims): string {
    SUBJECT + c.sub + "\",\"sessionId\":\"" + c.sessionId + "\",\"rtId\":\"" + c.rtId
    + "\",\"iat\":" + DecimalText(c.iat) + ",\"exp\":" + DecimalText(c.exp) + "}"
  }

  function Header(): string {
    Base64Url("{\"alg\":\"HS256\",\"typ\":\"JWT\"}")
  }

  function Signed(c: Claims, signature: string): string {
    Header() + "." + Base64Url(Payload(c)) + "." + signature
  }

  /** What bcrypt reads of a text. */
  function HashedPart(text: string): string {
    if |text| <= 72 then text else text[..72]
  }

  /** Texts that start with the same 72 characters, or are one shorter text, are hashed alike; others are not. */
  lemma HashedAlike(s: string, t: string)
    ensures HashedPart(s) == HashedPart(t) <==> if |s| >= 72 && |t| >= 72 then s[..72] == t[..72] else s == t
  {
    assert |s| == 72 ==> s[..72] == s;
    assert |t| == 72 ==> t[..72] == t;
    if |s| < 72 || |t| < 72 {
      assert HashedPart(s) == HashedPart(t) ==> |HashedPart(s)| == |HashedPart(t)|;
    }
  }

  lemma HeaderLength()
    ensures |Header()| == 36
  {
    Base64Length("{\"alg\":\"HS256\",\"typ\":\"JWT\"}");
  }

  lemma PayloadStarts(c: Claims)
    requires Uuid(c.sub)
    ensures |Payload(c)| >= 44 && Payload(c)[..8] == SUBJECT && Payload(c)[8..44] == c.sub
  {
    var rest := "\",\"sessionId\":\"" + c.sessionId + "\",\"rtId\":\"" + c.rtId
      + "\",\"iat\":" + DecimalText(c.iat) + ",\"exp\":" + DecimalText(c.exp) + "}";
    assert Payload(c) == SUBJECT + c.sub + rest;
  }

  lemma TakeJoined(front: string, middle: string, back: string, n: nat)
    requires |front| <= n <= |front| + |middle|
    ensures (front + middle + back)[..n] == front + middle[..n - |front|]
  {
  }

  /** The hashed part is the header, a point and the first 35 characters of the encoded claims. */
  lemma HashedPartOf(c: Claims, signature: string)
    requires Uuid(c.sub)
    ensures |Base64Url(Payload(c))| >= 36
    ensures HashedPart(Signed(c, signature)) == Header() + "." + Base64Url(Payload(c))[..35]
  {
    var front, body := Header() + ".", Base64Url(Payload(c));
    HeaderLength();
    PayloadStarts(c);
    Base64Length(Payload(c));
    assert Signed(c, signature) == front + body + ("." + signature);
    TakeJoined(front, body, "." + signature, 72);
  }

  /** The octets of quad k agree; of the ninth's last, the two high bits. */
  predicate OctetsAgree(s: string, t: string, k: nat)
    requires |s| >= 27 && |t| >= 27 && k < 9
  {
    && Octet(s[3 * k]) == Octet(t[3 * k]) && Octet(s[3 * k + 1]) == Octet(t[3 * k + 1])
    && if k < 8 then Octet(s[3 * k + 2]) == Octet(t[3 * k + 2])
       else Octet(s[3 * k + 2]) / 64 == Octet(t[3 * k + 2]) / 64
  }

  /** Quad k of two encoded texts agrees; of the ninth, the first three characters. */
  predicate SameQuad(x: string, y: string, k: nat)
    requires |x| >= 36 && |y| >= 36 && k < 9
  {
    if k < 8 then x[4 * k..4 * k + 4] == y[4 * k..4 * k + 4] else x[32..36][..3] == y[32..36][..3]
  }

  lemma SameOctets(s: string, t: string, k: nat)
    requires |s| >= 27 && |t| >= 27 && k < 9 && |Base64Url(s)| >= 36 && |Base64Url(t)| >= 36
    ensures SameQuad(Base64Url(s), Base64Url(t), k) <==> OctetsAgree(s, t, k)
  {
    var a, b, c := Octet(s[3 * k]), Octet(s[3 * k + 1]), Octet(s[3 * k + 2]);
    var a', b', c' := Octet(t[3 * k]), Octet(t[3 * k + 1]), Octet(t[3 * k + 2]);
    QuadAt(s, k);
    QuadAt(t, k);
    ThreeOfQuad(a, b, c, a', b', c');
    if Quad(a, b, c) == Quad(a', b', c') {
      QuadInjective(a, b, c, a', b', c');
    }
  }

  lemma CharacterOfQuad(x: string, j: nat)
    requires |x| >= 36 && j < 35
    ensures if j < 32 then 4 * (j / 4) + 4 <= 32 && x[j] == x[4 * (j / 4)..4 * (j / 4) + 4][j % 4] else x[j] == x[32..36][..3][j - 32]
  {
  }

  lemma SliceOfPrefix(x: string, n: nat, i: nat, j: nat)
    requires i <= j <= n <= |x|
    ensures x[..n][i..j] == x[i..j]
  {
  }

  lemma PrefixOfSlice(x: string, i: nat, j: nat, n: nat)
    requires i <= j <= |x| && i + n <= j
    ensures x[i..j][..n] == x[i..i + n]
  {
  }

  lemma SamePrefix(x: string, y: string, k: nat)
    requires |x| >= 36 && |y| >= 36 && k < 9 && x[..35] == y[..35]
    ensures SameQuad(x, y, k)
  {
    if k < 8 {
      SliceOfPrefix(x, 35, 4 * k, 4 * k + 4);
      SliceOfPrefix(y, 35, 4 * k, 4 * k + 4);
    } else {
      SliceOfPrefix(x, 35, 32, 35);
      SliceOfPrefix(y, 35, 32, 35);
      PrefixOfSlice(x, 32, 36, 3);
      PrefixOfSlice(y, 32, 36, 3);
    }
  }

  /** Thirty-five characters are eight whole quads and three characters of the ninth. */
  lemma QuadsOfText(x: string, y: string)
    requires |x| >= 36 && |y| >= 36
    ensures x[..35] == y[..35] <==> forall k :: 0 <= k < 9 ==> SameQuad(x, y, k)
  {
    if x[..35] == y[..35] {
      forall k | 0 <= k < 9 ensures SameQuad(x, y, k) {
        SamePrefix(x, y, k);
      }
    }
    if forall k :: 0 <= k < 9 ==> SameQuad(x, y, k) {
      forall j | 0 <= j < 35 ensures x[j] == y[j] {
        assert SameQuad(x, y, j / 4);
        CharacterOfQuad(x, j);
        CharacterOfQuad(y, j);
      }
    }
  }

  lemma ThirtyFiveCharacters(s: string, t: string)
    requires |s| >= 27 && |t| >= 27
    ensures |Base64Url(s)| >= 36 && |Base64Url(t)| >= 36
    ensures Base64Url(s)[..35] == Base64Url(t)[..35] <==> forall k :: 0 <= k < 9 ==> OctetsAgree(s, t, k)
  {
    Base64Length(s);
    Base64Length(t);
    QuadsOfText(Base64Url(s), Base64Url(t));
    forall k | 0 <= k < 9 ensures SameQuad(Base64Url(s), Base64Url(t), k) <==> OctetsAgree(s, t, k) {
      SameOctets(s, t, k);
    }
  }

  /** Two users' identifiers cannot be told apart when their first 18 characters agree. */
  predicate Alike(sub: string, other: string)
    requires Uuid(sub) && Uuid(other)
  {
    sub[..18] == other[..18]
  }

  lemma PayloadCharacter(c: Claims, i: nat)
    requires Uuid(c.sub) && i < 27
    ensures |Payload(c)| >= 44 && Payload(c)[i] == if i < 8 then SUBJECT[i] else c.sub[i - 8]
    ensures Octet(Payload(c)[i]) == Payload(c)[i] as int
  {
    PayloadStarts(c);
    assert i < 8 ==> Payload(c)[..8][i] == Payload(c)[i];
    assert i >= 8 ==> Payload(c)[8..44][i - 8] == Payload(c)[i];
  }

  lemma OctetAgrees(p: string, q: string, i: nat)
    requires |p| >= 27 && |q| >= 27 && i < 26 && OctetsAgree(p, q, i / 3)
    ensures Octet(p[i]) == Octet(q[i])
  {
    assert i == 3 * (i / 3) + i % 3;
  }

  lemma SubjectRead(c: Claims, d: Claims, i: nat)
    requires Uuid(c.sub) && Uuid(d.sub) && |Payload(c)| >= 44 && |Payload(d)| >= 44
    requires i < 18 && OctetsAgree(Payload(c), Payload(d), (i + 8) / 3)
    ensures c.sub[i] == d.sub[i]
  {
    OctetAgrees(Payload(c), Payload(d), i + 8);
    PayloadCharacter(c, i + 8);
    PayloadCharacter(d, i + 8);
  }

  lemma AlikeRead(c: Claims, d: Claims, k: nat)
    requires Uuid(c.sub) && Uuid(d.sub) && |Payload(c)| >= 44 && |Payload(d)| >= 44
    requires Alike(c.sub, d.sub) && k < 9
    ensures OctetsAgree(Payload(c), Payload(d), k)
  {
    AlikeOctets(c, d, 3 * k);
    AlikeOctets(c, d, 3 * k + 1);
    AlikeOctets(c, d, 3 * k + 2);
  }

  lemma ClaimsRead(c: Claims, d: Claims)
    requires Uuid(c.sub) && Uuid(d.sub) && |Payload(c)| >= 44 && |Payload(d)| >= 44
    ensures (forall k :: 0 <= k < 9 ==> OctetsAgree(Payload(c), Payload(d), k)) <==> Alike(c.sub, d.sub)
  {
    if forall k :: 0 <= k < 9 ==> OctetsAgree(Payload(c), Payload(d), k) {
      forall i | 0 <= i < 18 ensures c.sub[i] == d.sub[i] {
        SubjectRead(c, d, i);
      }
    }
    if Alike(c.sub, d.sub) {
      forall k | 0 <= k < 9 ensures OctetsAgree(Payload(c), Payload(d), k) {
        AlikeRead(c, d, k);
      }
    }
  }

  lemma AlikeOctets(c: Claims, d: Claims, i: nat)
    requires Uuid(c.sub) && Uuid(d.sub) && Alike(c.sub, d.sub) && i < 27
    ensures |Payload(c)| >= 44 && |Payload(d)| >= 44 && Octet(Payload(c)[i]) == Octet(Payload(d)[i])
  {
    PayloadCharacter(c, i);
    PayloadCharacter(d, i);
    assert 8 <= i < 26 ==> c.sub[..18][i - 8] == d.sub[..18][i - 8];
  }

  /**
   What bcrypt can tell of two refresh tokens: their hashed parts agree exactly when the users'
   identifiers agree in 18 characters, whatever the sessions, tenants, times and signatures are.
   */
  lemma HashedPartsAgree(c: Claims, d: Claims, signature: string, other: string)
    requires Uuid(c.sub) && Uuid(d.sub)
    ensures HashedPart(Signed(c, signature)) == HashedPart(Signed(d, other)) <==> Alike(c.sub, d.sub)
  {
    var x, y := Base64Url(Payload(c)), Base64Url(Payload(d));
    HashedPartOf(c, signature);
    HashedPartOf(d, other);
    PayloadStarts(c);
    PayloadStarts(d);
    ThirtyFiveCharacters(Payload(c), Payload(d));
    ClaimsRead(c, d);
    var front := Header() + ".";
    assert (front + x[..35])[|front|..] == x[..35] && (front + y[..35])[|front|..] == y[..35];
  }
}
