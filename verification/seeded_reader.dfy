/** The byte reader that hands the id stream to the message sender in whatever chunks it asks for. */
module SeededReader {
  import opened Words
  import opened Bytes
  import opened RandomIds

  /** Little-endian bytes of a word. */
  function LittleEndian(v: Word): (b: seq<Byte>)
    ensures |b| == 8
  {
    LowBytes(v, 8)
  }

  /** How the sender turns eight bytes of the stream into an id. */
  function ReadId(b: seq<Byte>): Word
    requires |b| == 8
  {
    Pow256Of8();
    FromLittleEndian(b)
  }

  lemma LittleEndianRoundTrip(v: Word)
    ensures ReadId(LittleEndian(v)) == v
  {
    Pow256Of8();
    LowBytesRoundTrip(v, 8);
  }

  /** Byte `k` of the stream: the ids one after the other, eight bytes each. */
  function StreamByte(seed: Word, k: nat): Byte { LittleEndian(Draw(seed, k / 8))[k % 8] }

  function Stream(seed: Word, from: nat, n: nat): (b: seq<Byte>)
    ensures |b| == n && forall i :: 0 <= i < n ==> b[i] == StreamByte(seed, from + i)
  {
    seq<Byte>(n, i requires 0 <= i < n => StreamByte(seed, from + i))
  }

  /** One generator step, through the pointer to the state. */
  method NextSplitmix64(state: Word, ghost seed: Word, ghost n: nat) returns (state': Word, v: Word)
    requires state == StateAfter(seed, n)
    ensures state' == StateAfter(seed, n + 1) && v == Draw(seed, n + 1)
  {
    state' := Plus(state, GAMMA);
    var z := state';
    z := Times(ShiftXor(z, 30), FIRST);
    z := Times(ShiftXor(z, 27), SECOND);
    v := ShiftXor(z, 31);
  }

  class SeededRandReader {
    const seed: Word
    var state: Word
    var first: bool
    const buf: array<Byte>
    var pos: nat
    ghost var drawn: nat

    ghost predicate Valid()
      reads this, buf
    {
      && buf.Length == 8 && pos <= 8
      && first == (drawn == 0)
      && (if drawn == 0 then state == seed && pos == 8
          else state == StateAfter(seed, drawn - 1) && buf[..] == LittleEndian(Draw(seed, drawn - 1)))
    }

    /** How many bytes have been handed out. */
    ghost function Consumed(): nat
      requires Valid()
      reads this, buf
    {
      8 * drawn + pos - 8
    }

    /** The seed is the signed value of --random-id. */
    constructor (randomID: int)
      requires -0x8000_0000_0000_0000 <= randomID < 0x8000_0000_0000_0000
      ensures Valid() && Consumed() == 0 && seed == FromSigned(randomID) && fresh(buf)
    {
      seed := FromSigned(randomID);
      state := FromSigned(randomID);
      first := true;
      buf := new Byte[8](_ => 0);
      pos := 8;
      drawn := 0;
    }

    /** binary.LittleEndian.PutUint64 */
    method PutWord(v: Word)
      requires buf.Length == 8
      modifies buf
      ensures buf[..] == LittleEndian(v)
    {
      var bytes := LittleEndian(v);
      forall i | 0 <= i < 8 {
        buf[i] := bytes[i];
      }
    }

    /** The next value of the id stream: the seed itself, then one generator step each. */
    method NextValue() returns (v: Word)
      requires Valid()
      modifies `state, `first
      ensures v == Draw(seed, drawn) && state == StateAfter(seed, drawn) && !first
    {
      v := seed;
      if first {
        first := false;
      } else {
        state, v := NextSplitmix64(state, seed, drawn - 1);
      }
    }

    method Refill()
      requires Valid() && pos == 8
      modifies this, buf
      ensures Valid() && pos == 0 && drawn == old(drawn) + 1
    {
      var v := NextValue();
      PutWord(v);
      drawn := drawn + 1;
      pos := 0;
    }

    /** The unread bytes of the buffer are the next bytes of the stream. */
    lemma Buffered(at: nat)
      requires Valid() && pos <= at < 8
      ensures buf[at] == StreamByte(seed, Consumed() + at - pos)
    {
      var k := drawn - 1;
      assert Consumed() + at - pos == 8 * k + at;
      assert (8 * k + at) / 8 == k && (8 * k + at) % 8 == at;
      assert buf[at] == buf[..][at];
    }

    /** copy(p[n:], buf[pos:]) */
    method CopyOut(p: array<Byte>, n: nat) returns (c: nat)
      requires Valid() && pos < 8 && p != buf && n < p.Length
      modifies this`pos, p
      ensures Valid() && 0 < c <= p.Length - n && Consumed() == old(Consumed()) + c
      ensures forall i :: 0 <= i < n ==> p[i] == old(p[i])
      ensures forall i :: n <= i < n + c ==> p[i] == StreamByte(seed, old(Consumed()) + i - n)
    {
      c := if p.Length - n < 8 - pos then p.Length - n else 8 - pos;
      forall at | pos <= at < pos + c ensures buf[at] == StreamByte(seed, Consumed() + at - pos) {
        Buffered(at);
      }
      forall i | n <= i < n + c {
        p[i] := buf[pos + i - n];
      }
      pos := pos + c;
    }

    /** Fills the whole buffer with the next bytes of the stream, however the reads are cut. */
    method Read(p: array<Byte>) returns (n: nat)
      requires Valid() && p != buf
      modifies this, buf, p
      ensures Valid() && n == p.Length
      ensures Consumed() == old(Consumed()) + n
      ensures p[..] == Stream(seed, old(Consumed()), n)
    {
      n := 0;
      while n < p.Length
        invariant Valid() && n <= p.Length
        invariant Consumed() == old(Consumed()) + n
        invariant forall i :: 0 <= i < n ==> p[i] == StreamByte(seed, old(Consumed()) + i)
      {
        if pos == 8 {
          Refill();
        }
        var c := CopyOut(p, n);
        n := n + c;
      }
    }
  }

  // ----- what the sender sees -----

  function Total(sizes: seq<nat>): nat { if sizes == [] then 0 else sizes[0] + Total(sizes[1..]) }

  /** The bytes successive reads of the given sizes return, one after the other. */
  function Reads(seed: Word, from: nat, sizes: seq<nat>): seq<Byte>
    decreases |sizes|
  {
    if sizes == [] then [] else Stream(seed, from, sizes[0]) + Reads(seed, from + sizes[0], sizes[1..])
  }

  /** Chunk independence: only the total matters, so a retry reproduces the ids however it is read. */
  lemma {:induction false} ChunkIndependence(seed: Word, from: nat, sizes: seq<nat>)
    ensures Reads(seed, from, sizes) == Stream(seed, from, Total(sizes))
    decreases |sizes|
  {
    if sizes == [] {
    } else {
      ChunkIndependence(seed, from + sizes[0], sizes[1..]);
      var whole := Stream(seed, from, Total(sizes));
      assert whole == whole[..sizes[0]] + whole[sizes[0]..];
      assert whole[..sizes[0]] == Stream(seed, from, sizes[0]);
      assert whole[sizes[0]..] == Stream(seed, from + sizes[0], Total(sizes[1..]));
    }
  }

  /** The k-th eight bytes, read as one little-endian number, are the k-th id; the first is the seed. */
  lemma IdsOnTheWire(seed: Word, k: nat)
    ensures ReadId(Stream(seed, 8 * k, 8)) == Draw(seed, k)
  {
    var bytes := Stream(seed, 8 * k, 8);
    forall i | 0 <= i < 8 ensures bytes[i] == LittleEndian(Draw(seed, k))[i] {
      assert (8 * k + i) / 8 == k && (8 * k + i) % 8 == i;
    }
    assert bytes == LittleEndian(Draw(seed, k));
    LittleEndianRoundTrip(Draw(seed, k));
  }

  /** A single-message send uses --random-id itself as its wire id. */
  lemma SingleMessageId(randomID: int)
    requires -0x8000_0000_0000_0000 <= randomID < 0x8000_0000_0000_0000
    ensures ToSigned(ReadId(Stream(FromSigned(randomID), 0, 8))) == randomID
  {
    IdsOnTheWire(FromSigned(randomID), 0);
    SignedRoundTrip(randomID);
  }

  /** Byte by byte: eight for each id, least significant first, and the seed is the first id. */
  lemma StreamDigits(seed: Word, k: nat)
    ensures StreamByte(seed, k) == Draw(seed, k / 8) / Pow256(k % 8) % 256
    ensures k < 8 ==> StreamByte(seed, k) == seed / Pow256(k) % 256
  {
    LowBytesDigit(Draw(seed, k / 8), 8, k % 8);
  }
}
