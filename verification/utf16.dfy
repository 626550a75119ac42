/** Entity offsets count UTF-16 code units (RFC 2781); the text itself is a sequence of scalar values. */
module Utf16 {
  import opened Sequences

  const REPLACEMENT: int := 0xFFFD

  type Unit = u: nat | u < 0x10000

  predicate IsScalar(r: int) { 0 <= r < 0xD800 || 0xE000 <= r < 0x110000 }

  predicate IsText(s: seq<int>) { forall i :: 0 <= i < |s| ==> IsScalar(s[i]) }

  predicate IsHigh(u: Unit) { 0xD800 <= u < 0xDC00 }

  predicate IsLow(u: Unit) { 0xDC00 <= u < 0xE000 }

  /** Section 2.1 of RFC 2781; what is not a scalar value becomes U+FFFD. */
  function EncodeRune(r: int): seq<Unit> {
    if !IsScalar(r) then [REPLACEMENT]
    else if r < 0x10000 then [r]
    else [0xD800 + (r - 0x10000) / 0x400, 0xDC00 + (r - 0x10000) % 0x400]
  }

  function Encode(s: seq<int>): (units: seq<Unit>)
    ensures |units| >= |s|
  {
    if s == [] then [] else EncodeRune(s[0]) + Encode(s[1..])
  }

  /** Section 2.2 of RFC 2781; a surrogate without its partner becomes U+FFFD. */
  function Decode(units: seq<Unit>): (s: seq<int>)
    ensures |s| <= |units|
  {
    if units == [] then []
    else if !IsHigh(units[0]) && !IsLow(units[0]) then [units[0]] + Decode(units[1..])
    else if IsHigh(units[0]) && |units| > 1 && IsLow(units[1]) then
      [0x10000 + (units[0] - 0xD800) * 0x400 + (units[1] - 0xDC00)] + Decode(units[2..])
    else [REPLACEMENT] + Decode(units[1..])
  }

  /** The text an entity covers, or the empty string when the request is out of range. */
  function Slice(text: seq<int>, offset: int, length: int): seq<int> {
    var units := Encode(text);
    if offset < 0 || length <= 0 || offset + length > |units| then []
    else Decode(units[offset..offset + length])
  }

  lemma {:induction false} EncodeConcat(a: seq<int>, b: seq<int>)
    ensures Encode(a + b) == Encode(a) + Encode(b)
  {
    if a == [] {
      assert a + b == b;
    } else {
      assert (a + b)[1..] == a[1..] + b;
      EncodeConcat(a[1..], b);
    }
  }

  lemma DecodeRuneFirst(r: int, rest: seq<Unit>)
    requires IsScalar(r)
    ensures Decode(EncodeRune(r) + rest) == [r] + Decode(rest)
  {
    var units := EncodeRune(r) + rest;
    if r < 0x10000 {
      assert units[1..] == rest;
    } else {
      assert units[2..] == rest;
    }
  }

  lemma {:induction false} DecodeTextFirst(s: seq<int>, rest: seq<Unit>)
    requires IsText(s)
    ensures Decode(Encode(s) + rest) == s + Decode(rest)
  {
    if s == [] {
      assert Encode(s) + rest == rest;
    } else {
      DecodeTextFirst(s[1..], rest);
      DecodeRuneFirst(s[0], Encode(s[1..]) + rest);
      Regroup(EncodeRune(s[0]), Encode(s[1..]), rest);
      Regroup([s[0]], s[1..], Decode(rest));
      assert s == [s[0]] + s[1..];
    }
  }

  lemma {:induction false} DecodeEncode(s: seq<int>)
    requires IsText(s)
    ensures Decode(Encode(s)) == s
  {
    DecodeTextFirst(s, []);
    assert Encode(s) + [] == Encode(s);
  }

  /** An entity over the middle part of a text is exactly that part, however many pairs surround it. */
  lemma SliceExact(a: seq<int>, b: seq<int>, c: seq<int>)
    requires IsText(b)
    ensures Slice(a + b + c, |Encode(a)|, |Encode(b)|) == b
  {
    EncodeConcat(a + b, c);
    EncodeConcat(a, b);
    if b != [] {
      var units := Encode(a + b + c);
      assert units[|Encode(a)|..|Encode(a)| + |Encode(b)|] == Encode(b);
      DecodeEncode(b);
    }
  }

  /** The empty string is the answer exactly for the requests out of range. */
  lemma EmptyIffOutOfRange(text: seq<int>, offset: int, length: int)
    ensures Slice(text, offset, length) == [] <==>
            offset < 0 || length <= 0 || offset + length > |Encode(text)|
  {
  }

  // ----- offsets that fall inside a surrogate pair -----

  /** Whole characters before unit `k`, and whether `k` splits the next one. */
  datatype Place = Place(chars: nat, split: bool) {
    function Whole(): nat { if split then chars + 1 else chars }
  }

  function Locate(text: seq<int>, k: nat): (p: Place)
    requires k <= |Encode(text)|
    ensures p.Whole() <= |text|
    ensures p.split && IsText(text) ==> text[p.chars] >= 0x10000
  {
    if k == 0 then Place(0, false)
    else
      var w := |EncodeRune(text[0])|;
      if k < w then Place(0, true)
      else
        var p := Locate(text[1..], k - w);
        Place(p.chars + 1, p.split)
  }

  predicate OnBoundary(text: seq<int>, k: nat)
    requires k <= |Encode(text)|
  {
    !Locate(text, k).split
  }

  /** The half of the split character that lies before unit `k`, and the half after it. */
  function HalfBefore(text: seq<int>, k: nat): seq<Unit>
    requires k <= |Encode(text)|
  {
    var p := Locate(text, k);
    if p.split then EncodeRune(text[p.chars])[..1] else []
  }

  function HalfAfter(text: seq<int>, k: nat): seq<Unit>
    requires k <= |Encode(text)|
  {
    var p := Locate(text, k);
    if p.split then EncodeRune(text[p.chars])[1..] else []
  }

  lemma {:induction false} UnitsBefore(text: seq<int>, k: nat)
    requires k <= |Encode(text)|
    ensures Encode(text)[..k] == Encode(text[..Locate(text, k).chars]) + HalfBefore(text, k)
  {
    var n := Locate(text, k).chars;
    if k == 0 || k < |EncodeRune(text[0])| {
      assert text[..0] == [];
    } else {
      var head, tail := EncodeRune(text[0]), text[1..];
      UnitsBefore(tail, k - |head|);
      PrefixOfConcat(head, Encode(tail), k);
      assert text[..n][1..] == tail[..n - 1];
      Regroup(head, Encode(tail[..n - 1]), HalfBefore(tail, k - |head|));
    }
  }

  /** Completing a split pair. */
  lemma UnitsOfWhole(text: seq<int>, k: nat)
    requires k <= |Encode(text)|
    ensures Encode(text[..Locate(text, k).Whole()]) == Encode(text)[..k] + HalfAfter(text, k)
  {
    UnitsBefore(text, k);
    var n := Locate(text, k).chars;
    if Locate(text, k).split {
      UnitsOfOneMore(text, n);
      Regroup(Encode(text[..n]), HalfBefore(text, k), HalfAfter(text, k));
    }
  }

  lemma UnitsOfOneMore(text: seq<int>, n: nat)
    requires n < |text|
    ensures Encode(text[..n + 1]) == Encode(text[..n]) + (EncodeRune(text[n])[..1] + EncodeRune(text[n])[1..])
  {
    assert text[..n + 1] == text[..n] + [text[n]];
    EncodeConcat(text[..n], [text[n]]);
    assert Encode([text[n]]) == EncodeRune(text[n]) + Encode([]);
  }

  lemma {:induction false} LocateMonotone(text: seq<int>, k: nat, k': nat)
    requires k < k' <= |Encode(text)|
    ensures Locate(text, k).Whole() <= Locate(text, k').chars
  {
    if k > 0 {
      var w := |EncodeRune(text[0])|;
      if k >= w { LocateMonotone(text[1..], k - w, k' - w); }
    }
  }

  /** The whole characters between two offsets. */
  function Between(text: seq<int>, offset: nat, end: nat): (s: seq<int>)
    requires offset < end <= |Encode(text)|
    ensures IsText(text) ==> IsText(s)
  {
    LocateMonotone(text, offset, end);
    text[Locate(text, offset).Whole()..Locate(text, end).chars]
  }

  lemma SliceUnits(text: seq<int>, offset: nat, end: nat)
    requires offset < end <= |Encode(text)|
    ensures Encode(text)[offset..end] ==
            HalfAfter(text, offset) + Encode(Between(text, offset, end)) + HalfBefore(text, end)
  {
    var first, last := Locate(text, offset).Whole(), Locate(text, end).chars;
    assert Encode(text[..last]) == Encode(text[..first]) + Encode(Between(text, offset, end)) by {
      LocateMonotone(text, offset, end);
      assert text[..last] == text[..first] + Between(text, offset, end);
      EncodeConcat(text[..first], Between(text, offset, end));
    }
    UnitsOfWhole(text, offset);
    UnitsBefore(text, end);
    SliceOfPrefix(Encode(text), offset, end, HalfAfter(text, offset),
      Encode(Between(text, offset, end)), HalfBefore(text, end));
  }

  lemma SliceOfPrefix<T>(units: seq<T>, offset: nat, end: nat, a: seq<T>, b: seq<T>, c: seq<T>)
    requires offset <= end <= |units| && units[..end] == units[..offset] + a + b + c
    ensures units[offset..end] == a + b + c
  {
    assert units[offset..end] == units[..end][offset..];
    assert units[..offset] + a + b + c == units[..offset] + (a + b + c);
  }

  function Mark(split: bool): seq<int> { if split then [REPLACEMENT] else [] }

  lemma DecodeLoneLow(lead: seq<Unit>, rest: seq<Unit>)
    requires lead == [] || (|lead| == 1 && IsLow(lead[0]))
    ensures Decode(lead + rest) == Mark(lead != []) + Decode(rest)
  {
    if lead != [] {
      assert (lead + rest)[1..] == rest;
    } else {
      assert lead + rest == rest;
    }
  }

  /** Decoding text between at most half a pair on either side. */
  lemma DecodeBetween(lead: seq<Unit>, s: seq<int>, half: seq<Unit>)
    requires IsText(s)
    requires lead == [] || (|lead| == 1 && IsLow(lead[0]))
    requires half == [] || (|half| == 1 && IsHigh(half[0]))
    ensures Decode(lead + Encode(s) + half) == Mark(lead != []) + s + Mark(half != [])
  {
    DecodeTextFirst(s, half);
    var rest := Encode(s) + half;
    Regroup(lead, Encode(s), half);
    Regroup(Mark(lead != []), s, Mark(half != []));
    assert Decode(half) == Mark(half != []);
    DecodeLoneLow(lead, rest);
  }

  lemma Halves(text: seq<int>, k: nat)
    requires IsText(text) && k <= |Encode(text)|
    ensures OnBoundary(text, k) <==> HalfBefore(text, k) == []
    ensures OnBoundary(text, k) <==> HalfAfter(text, k) == []
    ensures OnBoundary(text, k) || (|HalfBefore(text, k)| == 1 && IsHigh(HalfBefore(text, k)[0]))
    ensures OnBoundary(text, k) || (|HalfAfter(text, k)| == 1 && IsLow(HalfAfter(text, k)[0]))
  {
  }

  lemma SliceOfPieces(text: seq<int>, offset: nat, length: nat, lead: seq<Unit>, inner: seq<int>, half: seq<Unit>)
    requires length > 0 && offset + length <= |Encode(text)|
    requires Encode(text)[offset..offset + length] == lead + Encode(inner) + half && IsText(inner)
    requires lead == [] || (|lead| == 1 && IsLow(lead[0]))
    requires half == [] || (|half| == 1 && IsHigh(half[0]))
    ensures Slice(text, offset, length) == Mark(lead != []) + inner + Mark(half != [])
  {
    DecodeBetween(lead, inner, half);
  }

  /** The units of a request: at most half a pair, whole characters, at most half a pair. */
  lemma Pieces(text: seq<int>, offset: nat, end: nat) returns (lead: seq<Unit>, inner: seq<int>, half: seq<Unit>)
    requires IsText(text) && offset < end <= |Encode(text)|
    ensures lead == [] || (|lead| == 1 && IsLow(lead[0]))
    ensures half == [] || (|half| == 1 && IsHigh(half[0]))
    ensures OnBoundary(text, offset) == (lead == []) && OnBoundary(text, end) == (half == [])
    ensures inner == Between(text, offset, end) && IsText(inner)
    ensures Encode(text)[offset..end] == lead + Encode(inner) + half
  {
    lead, inner, half := HalfAfter(text, offset), Between(text, offset, end), HalfBefore(text, end);
    Halves(text, offset);
    Halves(text, end);
    SliceUnits(text, offset, end);
  }

  /**
    Every request in range: the whole characters inside it, with one U+FFFD for each end that splits a pair.
  */
  lemma SliceAnywhere(text: seq<int>, offset: nat, length: nat)
    requires IsText(text) && length > 0 && offset + length <= |Encode(text)|
    ensures var end := offset + length;
      Slice(text, offset, length) ==
      Mark(!OnBoundary(text, offset)) + Between(text, offset, end) + Mark(!OnBoundary(text, end))
  {
    var lead, inner, half := Pieces(text, offset, offset + length);
    var split, split' := !OnBoundary(text, offset), !OnBoundary(text, offset + length);
    assert Slice(text, offset, length) == Mark(split) + inner + Mark(split') by {
      SliceOfPieces(text, offset, length, lead, inner, half);
    }
  }

  /** Every request there is: the empty string out of range, and what it covers in range, which is never empty. */
  lemma SliceEveryRequest(text: seq<int>, offset: int, length: int)
    requires IsText(text)
    ensures Slice(text, offset, length) ==
            if offset < 0 || length <= 0 || offset + length > |Encode(text)| then []
            else
              Mark(!OnBoundary(text, offset)) + Between(text, offset, offset + length)
              + Mark(!OnBoundary(text, offset + length))
    ensures Slice(text, offset, length) == [] <==>
            offset < 0 || length <= 0 || offset + length > |Encode(text)|
  {
    EmptyIffOutOfRange(text, offset, length);
    if offset >= 0 && length > 0 && offset + length <= |Encode(text)| { SliceAnywhere(text, offset, length); }
  }

  lemma EncodeMarked(lead: bool, s: seq<int>, tail: bool)
    ensures Encode(Mark(lead) + s + Mark(tail)) == Mark(lead) + Encode(s) + Mark(tail)
  {
    EncodeConcat(Mark(lead) + s, Mark(tail));
    EncodeConcat(Mark(lead), s);
    assert Encode([REPLACEMENT]) == [REPLACEMENT] + Encode([]);
  }

  lemma ExactIffNoMark(lead: seq<Unit>, inner: seq<int>, half: seq<Unit>)
    requires lead == [] || (|lead| == 1 && IsLow(lead[0]))
    requires half == [] || (|half| == 1 && IsHigh(half[0]))
    ensures Encode(Mark(lead != []) + inner + Mark(half != [])) == lead + Encode(inner) + half <==>
            lead == [] && half == []
  {
    EncodeMarked(lead != [], inner, half != []);
    var a, b := Mark(lead != []) + Encode(inner) + Mark(half != []), lead + Encode(inner) + half;
    if lead != [] {
      assert a[0] != b[0];
    } else if half != [] {
      assert a[|a| - 1] != b[|b| - 1];
    }
  }

  /** Nothing is lost or replaced exactly when both ends are character boundaries. */
  lemma ExactIffOnBoundaries(text: seq<int>, offset: nat, length: nat)
    requires IsText(text) && length > 0 && offset + length <= |Encode(text)|
    ensures Encode(Slice(text, offset, length)) == Encode(text)[offset..offset + length] <==>
            OnBoundary(text, offset) && OnBoundary(text, offset + length)
  {
    var lead, inner, half := Pieces(text, offset, offset + length);
    SliceOfPieces(text, offset, length, lead, inner, half);
    ExactIffNoMark(lead, inner, half);
  }

  /** Section 2.1 of RFC 2781: one unit below U+10000, and above it a high and a low surrogate of ten bits each. */
  lemma UnitsOfRune(r: int)
    ensures var units := EncodeRune(r);
      if !(0 <= r < 0xD800 || 0xE000 <= r < 0x110000) then units == [0xFFFD]
      else if r < 0x10000 then units == [r]
      else
        && |units| == 2 && 0xD800 <= units[0] < 0xDC00 <= units[1] < 0xE000
        && 0x10000 + (units[0] as int - 0xD800) * 0x400 + (units[1] as int - 0xDC00) == r
  {
  }
}
