/** Go's base64.StdEncoding on nonces: the alphabet of section 4 of RFC 4648, CR and LF skipped when decoding. */
module Base64 {
  import opened Prelude

  type byte = x: int | 0 <= x < 256

  function Sextet(c: char): Option<nat> {
    if 'A' <= c <= 'Z' then Some(c as int - 'A' as int)
    else if 'a' <= c <= 'z' then Some(c as int - 'a' as int + 26)
    else if '0' <= c <= '9' then Some(c as int - '0' as int + 52)
    else if c == '+' then Some(62)
    else if c == '/' then Some(63)
    else None
  }

  function Symbol(n: nat): (c: char)
    requires n < 64
    ensures Sextet(c) == Some(n)
  {
    if n < 26 then ('A' as int + n) as char
    else if n < 52 then ('a' as int + n - 26) as char
    else if n < 62 then ('0' as int + n - 52) as char
    else if n == 62 then '+'
    else '/'
  }

  predicate InAlphabet(c: char) { Sextet(c).Some? }

  /** Alphabet characters only. */
  predicate Pure(s: string) {
    forall i :: 0 <= i < |s| ==> InAlphabet(s[i])
  }

  lemma SextetSymbol(c: char)
    requires InAlphabet(c)
    ensures Sextet(c).value < 64 && Symbol(Sextet(c).value) == c
  {
  }

  function Strip(s: string): string {
    if s == [] then []
    else (if s[0] == '\r' || s[0] == '\n' then [] else [s[0]]) + Strip(s[1..])
  }

  lemma {:induction false} StripShrinks(s: string)
    ensures |Strip(s)| <= |s|
    ensures |Strip(s)| == |s| ==> Strip(s) == s
    ensures Pure(s) ==> Strip(s) == s
  {
    if s != [] {
      StripShrinks(s[1..]);
      assert s == [s[0]] + s[1..];
    }
  }

  /** Three bytes from four symbols. */
  function Triple(q: string): (t: seq<byte>)
    requires |q| == 4 && Pure(q)
    ensures |t| == 3
  {
    SextetSymbol(q[0]); SextetSymbol(q[1]); SextetSymbol(q[2]); SextetSymbol(q[3]);
    Split(Sextet(q[0]).value, Sextet(q[1]).value, Sextet(q[2]).value, Sextet(q[3]).value)
  }

  function Split(a: nat, b: nat, c: nat, d: nat): (t: seq<byte>)
    requires a < 64 && b < 64 && c < 64 && d < 64
    ensures |t| == 3
  {
    [a * 4 + b / 16, b % 16 * 16 + c / 4, c % 4 * 64 + d]
  }

  /** Four symbols from three bytes. */
  function Quad(t: seq<byte>): (q: string)
    requires |t| == 3
    ensures |q| == 4 && Pure(q)
  {
    [Symbol(t[0] / 4), Symbol(t[0] % 4 * 16 + t[1] / 16), Symbol(t[1] % 16 * 4 + t[2] / 64), Symbol(t[2] % 64)]
  }

  lemma SplitJoins(a: nat, b: nat, c: nat, d: nat)
    requires a < 64 && b < 64 && c < 64 && d < 64
    ensures var t := Split(a, b, c, d);
      && t[0] / 4 == a && t[0] % 4 * 16 + t[1] / 16 == b && t[1] % 16 * 4 + t[2] / 64 == c && t[2] % 64 == d
  {
    var x, y, z := a * 4 + b / 16, b % 16 * 16 + c / 4, c % 4 * 64 + d;
    assert x / 4 == a && x % 4 == b / 16;
    assert y / 16 == b % 16 && y % 16 == c / 4;
    assert z / 64 == c % 4 && z % 64 == d;
  }

  lemma QuadTriple(q: string)
    requires |q| == 4 && Pure(q)
    ensures Quad(Triple(q)) == q
  {
    SextetSymbol(q[0]); SextetSymbol(q[1]); SextetSymbol(q[2]); SextetSymbol(q[3]);
    SplitJoins(Sextet(q[0]).value, Sextet(q[1]).value, Sextet(q[2]).value, Sextet(q[3]).value);
  }

  lemma TripleQuad(t: seq<byte>)
    requires |t| == 3
    ensures Triple(Quad(t)) == t
  {
    var x, y, z := t[0], t[1], t[2];
    assert Sextet(Quad(t)[1]).value / 16 == x % 4 && Sextet(Quad(t)[1]).value % 16 == y / 16;
    assert Sextet(Quad(t)[2]).value / 4 == y % 16 && Sextet(Quad(t)[2]).value % 4 == z / 64;
  }

  /** Decoding once CR and LF are gone: whole quantums, the last one possibly padded with one or two '='. */
  function DecodeClean(s: string): Option<seq<byte>> {
    if s == [] then Some([])
    else if |s| < 4 then None
    else if Pure(s[..4]) then
      match DecodeClean(s[4..])
      case None => None
      case Some(rest) => Some(Triple(s[..4]) + rest)
    else if |s| == 4 && s[3] == '=' && InAlphabet(s[0]) && InAlphabet(s[1]) then
      if s[2] == '=' then Some(Triple([s[0], s[1], 'A', 'A'])[..1])
      else if InAlphabet(s[2]) then Some(Triple([s[0], s[1], s[2], 'A'])[..2])
      else None
    else None
  }

  function Decode(s: string): Option<seq<byte>> {
    DecodeClean(Strip(s))
  }

  /** n whole quantums, which need no padding. */
  function Encode(b: seq<byte>, n: nat): (s: string)
    requires |b| == 3 * n
  {
    if n == 0 then [] else Quad(b[..3]) + Encode(b[3..], n - 1)
  }

  lemma PureConcat(a: string, b: string)
    ensures Pure(a + b) <==> Pure(a) && Pure(b)
  {
    if Pure(a + b) {
      forall i | 0 <= i < |b| ensures InAlphabet(b[i]) { assert (a + b)[|a| + i] == b[i]; }
      forall i | 0 <= i < |a| ensures InAlphabet(a[i]) { assert (a + b)[i] == a[i]; }
    }
  }

  lemma LastQuantum(s: string)
    requires DecodeClean(s).Some? && (|s| < 4 || !Pure(s[..4]))
    ensures s == [] || (|s| == 4 && |DecodeClean(s).value| <= 2)
    ensures |DecodeClean(s).value| == 0 ==> s == []
  {
  }

  /** n quantums decode to at most 3n bytes, and to that many only without padding. */
  lemma {:induction false} DecodedLength(s: string) returns (n: nat)
    requires DecodeClean(s).Some?
    ensures |s| == 4 * n && |DecodeClean(s).value| <= 3 * n
    ensures |DecodeClean(s).value| == 3 * n ==> Pure(s)
  {
    if |s| >= 4 && Pure(s[..4]) {
      n := DecodedLength(s[4..]);
      PureConcat(s[..4], s[4..]);
      assert s == s[..4] + s[4..];
      n := n + 1;
    } else {
      LastQuantum(s);
      n := if s == [] then 0 else 1;
    }
  }

  lemma DecodeNext(q: string, s: string)
    requires |q| == 4 && Pure(q) && DecodeClean(s).Some?
    ensures DecodeClean(q + s) == Some(Triple(q) + DecodeClean(s).value)
  {
    assert (q + s)[..4] == q && (q + s)[4..] == s;
  }

  lemma EncodeNext(t: seq<byte>, rest: seq<byte>, n: nat)
    requires |t| == 3 && |rest| == 3 * n
    ensures Encode(t + rest, n + 1) == Quad(t) + Encode(rest, n)
  {
    assert (t + rest)[..3] == t && (t + rest)[3..] == rest;
  }

  lemma OneMoreQuantum(q: string, s: string, rest: seq<byte>, n: nat)
    requires |q| == 4 && Pure(q) && DecodeClean(s) == Some(rest) && |rest| == 3 * n && Encode(rest, n) == s
    ensures DecodeClean(q + s) == Some(Triple(q) + rest) && Encode(Triple(q) + rest, n + 1) == q + s
  {
    DecodeNext(q, s);
    EncodeNext(Triple(q), rest, n);
    QuadTriple(q);
  }

  lemma {:induction false} DecodeAlphabet(s: string, n: nat) returns (raw: seq<byte>)
    requires |s| == 4 * n && Pure(s)
    ensures DecodeClean(s) == Some(raw) && |raw| == 3 * n && Encode(raw, n) == s
  {
    if n == 0 {
      raw := [];
    } else {
      var rest := DecodeAlphabet(s[4..], n - 1);
      var q := s[..4];
      assert s == q + s[4..];
      OneMoreQuantum(q, s[4..], rest, n - 1);
      raw := Triple(q) + rest;
    }
  }

  lemma {:induction false} DecodeEncode(b: seq<byte>, n: nat)
    requires |b| == 3 * n
    ensures |Encode(b, n)| == 4 * n && Pure(Encode(b, n)) && DecodeClean(Encode(b, n)) == Some(b)
  {
    if n > 0 {
      DecodeEncode(b[3..], n - 1);
      TripleQuad(b[..3]);
      PureConcat(Quad(b[..3]), Encode(b[3..], n - 1));
      DecodeNext(Quad(b[..3]), Encode(b[3..], n - 1));
      assert b == b[..3] + b[3..];
    }
  }

  // ---- The nonce test of the challenge reader --------------------------------------------------

  const NONCE_ENCODED_LEN := 64
  const NONCE_RAW_LEN := 48

  /** The reader's three checks: encoded length, decodability, decoded length. */
  predicate ValidNonce(s: string) {
    |s| == NONCE_ENCODED_LEN && Decode(s).Some? && |Decode(s).value| == NONCE_RAW_LEN
  }

  /** The table of section 4 of RFC 4648: three runs of consecutive characters and two signs, in this order. */
  lemma AlphabetTable(c: char)
    ensures Sextet('A') == Some(0) && Sextet('Z') == Some(25) && Sextet('a') == Some(26) && Sextet('z') == Some(51)
    ensures Sextet('0') == Some(52) && Sextet('9') == Some(61) && Sextet('+') == Some(62) && Sextet('/') == Some(63)
    ensures 'A' <= c < 'Z' || 'a' <= c < 'z' || '0' <= c < '9' ==>
      Sextet(c).Some? && Sextet((c as int + 1) as char) == Some(Sextet(c).value + 1)
    ensures InAlphabet(c) ==> Symbol(Sextet(c).value) == c
  {
  }

  /** Three bytes, most significant first, are four digits to the base 64, most significant first. */
  lemma QuadIsBigEndian(t: seq<byte>)
    requires |t| == 3
    ensures var q := Quad(t);
      && InAlphabet(q[0]) && InAlphabet(q[1]) && InAlphabet(q[2]) && InAlphabet(q[3])
      && ((Sextet(q[0]).value * 64 + Sextet(q[1]).value) * 64 + Sextet(q[2]).value) * 64 + Sextet(q[3]).value
         == (t[0] as int * 256 + t[1] as int) * 256 + t[2] as int
  {
    var x, y, z := t[0] as int, t[1] as int, t[2] as int;
    assert Sextet(Quad(t)[0]) == Some(x / 4) && Sextet(Quad(t)[1]) == Some(x % 4 * 16 + y / 16);
    assert Sextet(Quad(t)[2]) == Some(y % 16 * 4 + z / 64) && Sextet(Quad(t)[3]) == Some(z % 64);
  }

  /** They leave no slack: no padding, no CR or LF, so a nonce has one spelling. */
  lemma ValidNonceIsAlphabet(s: string)
    ensures ValidNonce(s) <==> |s| == 64 && forall c :: c in s ==>
      'A' <= c <= 'Z' || 'a' <= c <= 'z' || '0' <= c <= '9' || c == '+' || c == '/'
    ensures ValidNonce(s) ==> Strip(s) == s && Encode(Decode(s).value, 16) == s
  {
    StripShrinks(s);
    assert Pure(s) <==> forall c :: c in s ==> InAlphabet(c);
    if ValidNonce(s) {
      var n := DecodedLength(Strip(s));
      var raw := DecodeAlphabet(s, 16);
    }
    if |s| == NONCE_ENCODED_LEN && Pure(s) {
      var raw := DecodeAlphabet(s, 16);
    }
  }

  /** Accepted nonces and 48-byte values correspond one to one. */
  lemma NonceCanonical(s: string, t: string, raw: seq<byte>)
    ensures ValidNonce(s) && ValidNonce(t) && Decode(s) == Decode(t) ==> s == t
    ensures |raw| == 48 ==> ValidNonce(Encode(raw, 16)) && Decode(Encode(raw, 16)) == Some(raw)
  {
    ValidNonceIsAlphabet(s);
    ValidNonceIsAlphabet(t);
    if |raw| == NONCE_RAW_LEN {
      DecodeEncode(raw, 16);
      ValidNonceIsAlphabet(Encode(raw, 16));
      StripShrinks(Encode(raw, 16));
    }
  }
}
