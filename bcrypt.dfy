/** bcrypt as the services use it (golang.org/x/crypto/bcrypt). The Blowfish
    key schedule reads exactly 72 key bytes: the password's bytes followed
    by a NUL byte, repeated as often as needed and cut at 72. The digest is
    idealised as that key itself, so two passwords match the same hash
    exactly when they give the same key. The salt, drawn at random by the
    library, is a parameter here. */
module Bcrypt {
  import opened Wrappers

  /** The longest password GenerateFromPassword accepts, in bytes; also the
      number of key bytes the key schedule reads. */
  const MaxPasswordBytes := 72

  /** The UTF-8 encoding of one code point (RFC 3629 section 3). */
  function EncodeChar(c: char): (e: seq<int>)
    ensures 1 <= |e| <= 4
    ensures forall k :: 0 <= k < |e| ==> 0 <= e[k] < 256
    ensures c != '\0' ==> forall k :: 0 <= k < |e| ==> e[k] != 0
    ensures |e| == 1 <==> (c as int) < 0x80
  {
    var v := c as int;
    if v < 0x80 then [v]
    else if v < 0x800 then [0xC0 + v / 64, 0x80 + v % 64]
    else if v < 0x10000 then [0xE0 + v / 4096, 0x80 + (v / 64) % 64, 0x80 + v % 64]
    else [0xF0 + v / 262144, 0x80 + (v / 4096) % 64, 0x80 + (v / 64) % 64, 0x80 + v % 64]
  }

  /** The bytes of `s`, as `[]byte(s)` gives them in Go. */
  function Utf8(s: string): (b: seq<int>)
    ensures forall k :: 0 <= k < |b| ==> 0 <= b[k] < 256
    ensures (forall k :: 0 <= k < |s| ==> s[k] != '\0') ==> forall k :: 0 <= k < |b| ==> b[k] != 0
  {
    if s == [] then [] else EncodeChar(s[0]) + Utf8(s[1..])
  }

  /** Encoding a concatenation concatenates the encodings. */
  lemma {:induction false} Utf8Append(a: string, b: string)
    ensures Utf8(a + b) == Utf8(a) + Utf8(b)
  {
    if a != [] {
      assert (a + b)[0] == a[0];
      assert (a + b)[1..] == a[1..] + b;
      Utf8Append(a[1..], b);
      calc {
        Utf8(a + b);
        EncodeChar((a + b)[0]) + Utf8((a + b)[1..]);
        EncodeChar(a[0]) + Utf8(a[1..] + b);
        EncodeChar(a[0]) + (Utf8(a[1..]) + Utf8(b));
        (EncodeChar(a[0]) + Utf8(a[1..])) + Utf8(b);
        Utf8(a) + Utf8(b);
      }
    } else {
      assert a + b == b;
    }
  }

  /** Number of bytes of the UTF-8 encoding of `s`: one per character for
      ASCII text, never fewer than the characters. */
  function Utf8Length(s: string): (n: nat)
    ensures n == |Utf8(s)|
    ensures n >= |s|
    ensures (forall k :: 0 <= k < |s| ==> (s[k] as int) < 0x80) ==> n == |s|
  {
    if s == [] then 0
    else
      var c := s[0] as int;
      var rest := Utf8Length(s[1..]);
      assert forall k :: 1 <= k < |s| ==> s[k] == s[1..][k - 1];
      (if c < 0x80 then 1 else if c < 0x800 then 2 else if c < 0x10000 then 3 else 4) + rest
  }

  /** Byte counts add up over a concatenation. */
  lemma Utf8LengthAppend(a: string, b: string)
    ensures Utf8Length(a + b) == Utf8Length(a) + Utf8Length(b)
  {
    Utf8Append(a, b);
  }

  /** The first n bytes of b repeated without end. */
  function Cycle(b: seq<int>, n: nat): (r: seq<int>)
    requires |b| > 0
    ensures |r| == n
    ensures n <= |b| ==> r == b[..n]
    ensures |b| <= n ==> r[..|b|] == b
    decreases n
  {
    if n <= |b| then b[..n] else b + Cycle(b, n - |b|)
  }

  /** The 72 key bytes the key schedule reads for `password`. */
  function Key(password: string): seq<int> {
    Cycle(Utf8(password) + [0], MaxPasswordBytes)
  }

  /** A bcrypt hash under `salt`, idealised as the key it was computed from. */
  datatype PasswordHash = PasswordHash(salt: string, key: seq<int>)

  datatype HashError = ErrPasswordTooLong

  /** CompareHashAndPassword returns nil: it rehashes the candidate with the
      stored salt, with no length check of its own. */
  predicate Matches(h: PasswordHash, password: string) {
    h.key == Key(password)
  }

  /** GenerateFromPassword: refuses a password over 72 bytes; otherwise a
      hash under `salt` that the password matches, as does every candidate
      with the same key, and no other. */
  function GenerateFromPassword(password: string, salt: string): (r: Result<PasswordHash, HashError>)
    ensures r.Ok? <==> Utf8Length(password) <= MaxPasswordBytes
    ensures r.Ok? ==> r.value.salt == salt && Matches(r.value, password)
    ensures r.Ok? ==> forall candidate :: Matches(r.value, candidate) <==> Key(candidate) == Key(password)
  {
    if Utf8Length(password) > MaxPasswordBytes then Err(ErrPasswordTooLong)
    else Ok(PasswordHash(salt, Key(password)))
  }

  /** Bytes past the 72nd are never read: a password of at least 72 bytes
      gives the same key whatever is appended to it. */
  lemma LongSuffixIgnored(p: string, x: string)
    requires Utf8Length(p) >= MaxPasswordBytes
    ensures Key(p + x) == Key(p)
  {
    Utf8Append(p, x);
    var b := Utf8(p);
    assert (b + [0])[..MaxPasswordBytes] == b[..MaxPasswordBytes];
    assert (b + Utf8(x) + [0])[..MaxPasswordBytes] == b[..MaxPasswordBytes];
  }

  /** The 72-byte password and any extension of it match the same hash. */
  lemma LongPasswordMatchesExtensions(p: string, x: string, salt: string)
    requires Utf8Length(p) == MaxPasswordBytes
    ensures GenerateFromPassword(p, salt).Ok?
    ensures Matches(GenerateFromPassword(p, salt).value, p + x)
  {
    LongSuffixIgnored(p, x);
  }

  /** Below 72 bytes and without NUL bytes the key tells byte sequences
      apart: the terminator sits right after the last password byte. */
  lemma {:induction false} ShortKeysDistinct(b1: seq<int>, b2: seq<int>)
    requires |b1| < MaxPasswordBytes && |b2| < MaxPasswordBytes
    requires forall k :: 0 <= k < |b1| ==> b1[k] != 0
    requires forall k :: 0 <= k < |b2| ==> b2[k] != 0
    requires Cycle(b1 + [0], MaxPasswordBytes) == Cycle(b2 + [0], MaxPasswordBytes)
    ensures b1 == b2
  {
    var c1, c2 := Cycle(b1 + [0], MaxPasswordBytes), Cycle(b2 + [0], MaxPasswordBytes);
    assert c1[..|b1| + 1] == b1 + [0] && c2[..|b2| + 1] == b2 + [0];
    assert c1[|b1|] == 0 && c2[|b2|] == 0;
    assert forall k :: 0 <= k < |b1| ==> c1[k] == b1[k];
    assert forall k :: 0 <= k < |b2| ==> c2[k] == b2[k];
    assert |b1| == |b2|;
    assert b1 == c1[..|b1|] == c2[..|b2|] == b2;
  }

  /** For passwords under 72 bytes without NUL characters, a hash matches
      exactly the passwords with the same bytes. */
  lemma ShortPasswordsMatchOnlyThemselves(p: string, q: string, salt: string)
    requires Utf8Length(p) < MaxPasswordBytes && Utf8Length(q) < MaxPasswordBytes
    requires forall k :: 0 <= k < |p| ==> p[k] != '\0'
    requires forall k :: 0 <= k < |q| ==> q[k] != '\0'
    ensures Matches(GenerateFromPassword(p, salt).value, q) <==> Utf8(q) == Utf8(p)
  {
    if Matches(GenerateFromPassword(p, salt).value, q) {
      ShortKeysDistinct(Utf8(q), Utf8(p));
    }
  }
}
