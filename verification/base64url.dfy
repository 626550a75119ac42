/** Unpadded base64url (RFC 4648, sections 5 and 3.2), as the Go standard library encodes and decodes it. */
module Base64Url {
  import opened Bytes
  import opened Wrappers

  type Sextet = n: int | 0 <= n < 64 witness 0

  // ----- the alphabet -----

  function Symbol(v: Sextet): char {
    if v < 26 then 'A' + v as char
    else if v < 52 then 'a' + (v - 26) as char
    else if v < 62 then '0' + (v - 52) as char
    else if v == 62 then '-' else '_'
  }

  predicate IsSymbol(c: char) {
    'A' <= c <= 'Z' || 'a' <= c <= 'z' || '0' <= c <= '9' || c == '-' || c == '_'
  }

  function SextetOf(c: char): Sextet
    requires IsSymbol(c)
  {
    if 'A' <= c <= 'Z' then c as int - 'A' as int
    else if 'a' <= c <= 'z' then c as int - 'a' as int + 26
    else if '0' <= c <= '9' then c as int - '0' as int + 52
    else if c == '-' then 62 else 63
  }

  lemma SymbolRoundTrip(v: Sextet)
    ensures IsSymbol(Symbol(v)) && SextetOf(Symbol(v)) == v
  {
  }

  function Symbols(vs: seq<Sextet>): (s: string)
    ensures |s| == |vs| && forall i :: 0 <= i < |s| ==> s[i] == Symbol(vs[i])
  {
    seq(|vs|, i requires 0 <= i < |vs| => Symbol(vs[i]))
  }

  function Sextets(s: string): (vs: seq<Sextet>)
    requires AllSymbols(s)
    ensures |vs| == |s| && forall i :: 0 <= i < |s| ==> vs[i] == SextetOf(s[i])
  {
    seq(|s|, i requires 0 <= i < |s| => SextetOf(s[i]))
  }

  // ----- three bytes, four sextets -----

  function S0(a: Byte): Sextet { a as int / 4 }

  function S1(a: Byte, b: Byte): Sextet { a as int % 4 * 16 + b as int / 16 }

  function S2(b: Byte, c: Byte): Sextet { b as int % 16 * 4 + c as int / 64 }

  function S3(c: Byte): Sextet { c as int % 64 }

  function B0(p: Sextet, q: Sextet): Byte { p as int * 4 + q as int / 16 }

  function B1(q: Sextet, r: Sextet): Byte { q as int % 16 * 16 + r as int / 4 }

  function B2(r: Sextet, t: Sextet): Byte { r as int % 4 * 64 + t as int }

  function Pack(b: seq<Byte>): (vs: seq<Sextet>)
    ensures |vs| % 4 != 1
    decreases |b|
  {
    if b == [] then []
    else if |b| == 1 then [S0(b[0]), S1(b[0], 0)]
    else if |b| == 2 then [S0(b[0]), S1(b[0], b[1]), S2(b[1], 0)]
    else [S0(b[0]), S1(b[0], b[1]), S2(b[1], b[2]), S3(b[2])] + Pack(b[3..])
  }

  /** Bits left over in a last, incomplete group are not looked at. */
  function Unpack(vs: seq<Sextet>): seq<Byte>
    requires |vs| % 4 != 1
    decreases |vs|
  {
    if vs == [] then []
    else if |vs| == 2 then [B0(vs[0], vs[1])]
    else if |vs| == 3 then [B0(vs[0], vs[1]), B1(vs[1], vs[2])]
    else [B0(vs[0], vs[1]), B1(vs[1], vs[2]), B2(vs[2], vs[3])] + Unpack(vs[4..])
  }

  lemma GroupRoundTrip(a: Byte, b: Byte, c: Byte)
    ensures B0(S0(a), S1(a, b)) == a && B1(S1(a, b), S2(b, c)) == b && B2(S2(b, c), S3(c)) == c
  {
  }

  lemma UnpackGroup(p: Sextet, q: Sextet, r: Sextet, t: Sextet, vs: seq<Sextet>)
    requires |vs| % 4 != 1
    ensures Unpack([p, q, r, t] + vs) == [B0(p, q), B1(q, r), B2(r, t)] + Unpack(vs)
  {
    assert ([p, q, r, t] + vs)[4..] == vs;
  }

  lemma PackGroup(a: Byte, b: Byte, c: Byte, rest: seq<Byte>)
    ensures Pack([a, b, c] + rest) == [S0(a), S1(a, b), S2(b, c), S3(c)] + Pack(rest)
  {
    assert ([a, b, c] + rest)[3..] == rest;
  }

  lemma ShortGroups(p: Sextet, q: Sextet, r: Sextet)
    ensures Unpack([p, q]) == [B0(p, q)] && Unpack([p, q, r]) == [B0(p, q), B1(q, r)]
  {
  }

  lemma PackShort(a: Byte, b: Byte)
    ensures Pack([a]) == [S0(a), S1(a, 0)] && Pack([a, b]) == [S0(a), S1(a, b), S2(b, 0)]
  {
  }

  lemma OneByte(a: Byte)
    ensures Unpack(Pack([a])) == [a]
  {
    PackShort(a, 0);
    ShortGroups(S0(a), S1(a, 0), 0);
    GroupRoundTrip(a, 0, 0);
  }

  lemma TwoBytes(a: Byte, b: Byte)
    ensures Unpack(Pack([a, b])) == [a, b]
  {
    PackShort(a, b);
    ShortGroups(S0(a), S1(a, b), S2(b, 0));
    GroupRoundTrip(a, b, 0);
  }

  lemma ShortRoundTrip(b: seq<Byte>)
    requires |b| < 3
    ensures Unpack(Pack(b)) == b
  {
    if |b| == 1 {
      OneByte(b[0]);
      assert b == [b[0]];
    } else if |b| == 2 {
      TwoBytes(b[0], b[1]);
      assert b == [b[0], b[1]];
    }
  }

  lemma {:induction false} PackRoundTrip(b: seq<Byte>)
    ensures Unpack(Pack(b)) == b
    decreases |b|
  {
    if |b| < 3 {
      ShortRoundTrip(b);
    } else {
      var x, y, z, rest := b[0], b[1], b[2], b[3..];
      assert b == [x, y, z] + rest;
      PackGroup(x, y, z, rest);
      UnpackGroup(S0(x), S1(x, y), S2(y, z), S3(z), Pack(rest));
      GroupRoundTrip(x, y, z);
      PackRoundTrip(rest);
    }
  }

  // ----- strings -----

  function Encode(b: seq<Byte>): string { Symbols(Pack(b)) }

  function WithoutLineBreaks(s: string): string {
    if s == "" then ""
    else if s[0] == '\r' || s[0] == '\n' then WithoutLineBreaks(s[1..])
    else [s[0]] + WithoutLineBreaks(s[1..])
  }

  predicate AllSymbols(s: string) { forall i :: 0 <= i < |s| ==> IsSymbol(s[i]) }

  predicate IsEncoding(s: string) { |s| % 4 != 1 && AllSymbols(s) }

  /** Line breaks are skipped anywhere; any other character outside the alphabet is an error. */
  function Decode(s: string): Option<seq<Byte>> {
    var symbols := WithoutLineBreaks(s);
    if IsEncoding(symbols) then Some(Unpack(Sextets(symbols))) else None
  }

  lemma {:induction false} NoLineBreaks(s: string)
    requires AllSymbols(s)
    ensures WithoutLineBreaks(s) == s
  {
    if s != "" {
      assert IsSymbol(s[0]);
      NoLineBreaks(s[1..]);
    }
  }

  lemma EncodeIsEncoding(b: seq<Byte>)
    ensures IsEncoding(Encode(b))
  {
    forall i | 0 <= i < |Encode(b)| ensures IsSymbol(Encode(b)[i]) {
      SymbolRoundTrip(Pack(b)[i]);
    }
  }

  lemma DecodeEncode(b: seq<Byte>)
    ensures Decode(Encode(b)) == Some(b)
  {
    var s := Encode(b);
    EncodeIsEncoding(b);
    NoLineBreaks(s);
    forall i | 0 <= i < |s| ensures Sextets(s)[i] == Pack(b)[i] { SymbolRoundTrip(Pack(b)[i]); }
    assert Sextets(s) == Pack(b);
    PackRoundTrip(b);
  }

  /** Nothing but the alphabet and line breaks is accepted. */
  lemma {:induction false} AcceptedCharacters(s: string, i: nat)
    requires i < |s| && AllSymbols(WithoutLineBreaks(s))
    ensures IsSymbol(s[i]) || s[i] == '\r' || s[i] == '\n'
  {
    var rest := WithoutLineBreaks(s[1..]);
    if s[0] != '\r' && s[0] != '\n' {
      assert WithoutLineBreaks(s) == [s[0]] + rest;
      assert WithoutLineBreaks(s)[0] == s[0];
      assert forall k :: 0 <= k < |rest| ==> rest[k] == WithoutLineBreaks(s)[k + 1];
    }
    if i > 0 { AcceptedCharacters(s[1..], i - 1); }
  }

  lemma SextetRoundTrip(p: Sextet, q: Sextet, r: Sextet, t: Sextet)
    ensures S0(B0(p, q)) == p && S1(B0(p, q), B1(q, r)) == q && S2(B1(q, r), B2(r, t)) == r && S3(B2(r, t)) == t
  {
  }

  /** What is decoded differs from a true encoding in the unused bits of the last symbol at most. */
  lemma {:induction false} UnpackAlmostInjective(vs: seq<Sextet>)
    requires |vs| % 4 != 1
    ensures |Pack(Unpack(vs))| == |vs|
    ensures forall i :: 0 <= i < |vs| - 1 ==> Pack(Unpack(vs))[i] == vs[i]
    ensures |vs| % 4 == 0 ==> Pack(Unpack(vs)) == vs
    decreases |vs|
  {
    if |vs| < 4 {
      ShortAlmostInjective(vs);
    } else {
      var p, q, r, t, rest := vs[0], vs[1], vs[2], vs[3], vs[4..];
      assert vs == [p, q, r, t] + rest;
      UnpackGroup(p, q, r, t, rest);
      PackGroup(B0(p, q), B1(q, r), B2(r, t), Unpack(rest));
      SextetRoundTrip(p, q, r, t);
      UnpackAlmostInjective(rest);
    }
  }

  lemma SextetSymbol(c: char)
    requires IsSymbol(c)
    ensures Symbol(SextetOf(c)) == c
  {
  }

  lemma DecodedText(s: string)
    requires Decode(s).Some?
    ensures var encoded, text := Encode(Decode(s).value), WithoutLineBreaks(s);
      && |encoded| == |text|
      && (forall i :: 0 <= i < |text| - 1 ==> encoded[i] == text[i])
      && (|text| % 4 == 0 ==> encoded == text)
  {
    var text := WithoutLineBreaks(s);
    UnpackAlmostInjective(Sextets(text));
    forall i | 0 <= i < |text| ensures Symbol(Sextets(text)[i]) == text[i] { SextetSymbol(text[i]); }
  }

  lemma ShortAlmostInjective(vs: seq<Sextet>)
    requires |vs| < 4 && |vs| != 1
    ensures |Pack(Unpack(vs))| == |vs|
    ensures forall i :: 0 <= i < |vs| - 1 ==> Pack(Unpack(vs))[i] == vs[i]
  {
    if |vs| == 2 {
      SextetRoundTrip(vs[0], vs[1], 0, 0);
    } else if |vs| == 3 {
      SextetRoundTrip(vs[0], vs[1], vs[2], 0);
    }
  }

  // ----- the encoding of RFC 4648 -----

  /** Section 4: three bytes are a 24-bit group, read as four digits; a short group is filled up with zero bits. */
  lemma GroupBits(a: Byte, b: Byte, c: Byte, rest: seq<Byte>)
    ensures var vs: seq<int> := Pack([a, b, c] + rest);
      |vs| == 4 + |Pack(rest)| && vs[4..] == Pack(rest)
      && vs[0] * 0x40000 + vs[1] * 0x1000 + vs[2] * 0x40 + vs[3] == a as int * 0x10000 + b as int * 0x100 + c as int
    ensures var vs: seq<int> := Pack([a, b]);
      |vs| == 3 && vs[0] * 0x1000 + vs[1] * 0x40 + vs[2] == (a as int * 0x100 + b as int) * 4
    ensures var vs: seq<int> := Pack([a]); |vs| == 2 && vs[0] * 0x40 + vs[1] == a as int * 16
  {
    PackGroup(a, b, c, rest);
    PackShort(a, b);
  }

  /** The test vectors of section 10, and one with the two symbols of the URL-safe alphabet. */
  lemma KnownAnswers()
    ensures Encode([]) == "" && Encode([0x66]) == "Zg" && Encode([0x66, 0x6F]) == "Zm8"
    ensures Encode([0x66, 0x6F, 0x6F]) == "Zm9v" && Encode([0x66, 0x6F, 0x6F, 0x62]) == "Zm9vYg"
    ensures Encode([0x66, 0x6F, 0x6F, 0x62, 0x61, 0x72]) == "Zm9vYmFy" && Encode([0xFB, 0xFF]) == "-_8"
  {
  }
}
