/** Bytes, and integers laid out as bytes in either order. */
module Bytes {
  import opened Sequences
  import opened Words

  type Byte = n: int | 0 <= n < 256 witness 0

  function Pow256(n: nat): (p: nat)
    ensures p > 0
  {
    if n == 0 then 1 else 256 * Pow256(n - 1)
  }

  lemma Pow256Of4()
    ensures Pow256(4) == 0x1_0000_0000
  {
  }

  lemma Pow256Of8()
    ensures Pow256(8) == 0x1_0000_0000_0000_0000
  {
    Pow256Of4();
  }

  // ----- least significant byte first -----

  function LowBytes(v: nat, n: nat): (b: seq<Byte>)
    ensures |b| == n
  {
    if n == 0 then [] else [v % 256] + LowBytes(v / 256, n - 1)
  }

  function FromLittleEndian(b: seq<Byte>): (v: nat)
    ensures v < Pow256(|b|)
  {
    if b == [] then 0 else b[0] + 256 * FromLittleEndian(b[1..])
  }

  lemma {:induction false} LowBytesRoundTrip(v: nat, n: nat)
    requires v < Pow256(n)
    ensures FromLittleEndian(LowBytes(v, n)) == v
  {
    if n > 0 {
      LowBytesRoundTrip(v / 256, n - 1);
      assert LowBytes(v, n)[1..] == LowBytes(v / 256, n - 1);
    }
  }

  // ----- most significant byte first -----

  /** The low `n` bytes of `v`; higher ones are cut off, as a conversion to a narrower word does. */
  function BigEndian(v: nat, n: nat): (b: seq<Byte>)
    ensures |b| == n
  {
    if n == 0 then [] else BigEndian(v / 256, n - 1) + [v % 256]
  }

  function FromBigEndian(b: seq<Byte>): (v: nat)
    ensures v < Pow256(|b|)
  {
    if b == [] then 0 else 256 * FromBigEndian(b[..|b| - 1]) + b[|b| - 1]
  }

  lemma SplitByte(high: nat, low: Byte)
    ensures (256 * high + low) / 256 == high && (256 * high + low) % 256 == low
  {
  }

  lemma {:induction false} BigEndianRoundTrip(v: nat, n: nat)
    requires v < Pow256(n)
    ensures FromBigEndian(BigEndian(v, n)) == v
  {
    if n > 0 {
      BigEndianRoundTrip(v / 256, n - 1);
      assert BigEndian(v, n)[..n - 1] == BigEndian(v / 256, n - 1);
    }
  }

  lemma {:induction false} FromBigEndianRoundTrip(b: seq<Byte>)
    ensures BigEndian(FromBigEndian(b), |b|) == b
  {
    if b != [] {
      FromBigEndianRoundTrip(b[..|b| - 1]);
      SplitByte(FromBigEndian(b[..|b| - 1]), b[|b| - 1]);
      assert b == b[..|b| - 1] + [b[|b| - 1]];
    }
  }

  /** Fills `n` bytes of a buffer in place, the last one first. */
  method PutBigEndian(buf: array<Byte>, at: nat, n: nat, v: nat)
    requires at + n <= buf.Length
    modifies buf
    ensures buf[..] == old(buf[..at]) + BigEndian(v, n) + old(buf[at + n..])
  {
    var rest := v;
    var k := n;
    while k > 0
      invariant 0 <= k <= n && rest >= 0
      invariant BigEndian(v, n) == BigEndian(rest, k) + buf[at + k..at + n]
      invariant buf[..at] == old(buf[..at]) && buf[at + n..] == old(buf[at + n..])
    {
      ghost var tail := buf[at + k..at + n];
      Regroup(BigEndian(rest / 256, k - 1), [rest % 256], tail);
      k := k - 1;
      buf[at + k] := rest % 256;
      rest := rest / 256;
      assert buf[at + k..at + n] == [buf[at + k]] + tail;
    }
    assert buf[..] == buf[..at] + buf[at..at + n] + buf[at + n..];
  }

  /** Copies bytes into a buffer in place. */
  method CopyInto(buf: array<Byte>, at: nat, data: seq<Byte>)
    requires at + |data| <= buf.Length
    modifies buf
    ensures buf[..] == old(buf[..at]) + data + old(buf[at + |data|..])
  {
    for i := 0 to |data|
      invariant forall j :: 0 <= j < i ==> buf[at + j] == data[j]
      invariant forall j :: 0 <= j < at || at + i <= j < buf.Length ==> buf[j] == old(buf[j])
    {
      buf[at + i] := data[i];
    }
    assert buf[at..at + |data|] == data;
    assert buf[..] == buf[..at] + buf[at..at + |data|] + buf[at + |data|..];
  }

  // ----- which byte is where -----

  lemma DivideTwice(v: nat, b: nat)
    requires b > 0
    ensures v / 256 / b == v / (256 * b)
  {
    var q, r := v / 256 / b, v / 256 % b;
    assert v == 256 * (q * b + r) + v % 256 == (256 * b) * q + (256 * r + v % 256);
    QuotientUnique(v, 256 * b, q, 256 * r + v % 256);
  }

  /** Byte `i` is the digit of weight 256 to the power `n - 1 - i`. */
  lemma {:induction false} BigEndianDigit(v: nat, n: nat, i: nat)
    requires i < n
    ensures BigEndian(v, n)[i] == v / Pow256(n - 1 - i) % 256
  {
    if i < n - 1 {
      BigEndianDigit(v / 256, n - 1, i);
      DivideTwice(v, Pow256(n - 2 - i));
    }
  }

  /** Byte `i` is the digit of weight 256 to the power `i`. */
  lemma {:induction false} LowBytesDigit(v: nat, n: nat, i: nat)
    requires i < n
    ensures LowBytes(v, n)[i] == v / Pow256(i) % 256
  {
    if i > 0 {
      LowBytesDigit(v / 256, n - 1, i - 1);
      DivideTwice(v, Pow256(i - 1));
    }
  }
}
