/** The few text operations the parsers are made of: prefixes, splitting, decimal numbers. */
module Text {
  import opened Sequences
  import opened Wrappers

  predicate HasPrefix(s: string, p: string) { p <= s }

  predicate Lacks(s: string, c: char) { forall i :: 0 <= i < |s| ==> s[i] != c }

  // ----- splitting -----

  /** Position of the first `c`, or the length. */
  function IndexOf(s: string, c: char): (i: nat)
    ensures i <= |s| && (forall k :: 0 <= k < i ==> s[k] != c) && (i < |s| ==> s[i] == c)
  {
    if s == "" || s[0] == c then 0 else 1 + IndexOf(s[1..], c)
  }

  /** Position just after the last `c`, or 0 when there is none. */
  function AfterLast(s: string, c: char): (i: nat)
    ensures i <= |s| && (forall k :: i <= k < |s| ==> s[k] != c) && (i > 0 ==> s[i - 1] == c)
  {
    if s == "" then 0 else if s[|s| - 1] == c then |s| else AfterLast(s[..|s| - 1], c)
  }

  function Split(s: string, c: char): (parts: seq<string>)
    ensures |parts| >= 1
    decreases |s|
  {
    var i := IndexOf(s, c);
    if i == |s| then [s] else [s[..i]] + Split(s[i + 1..], c)
  }

  function Join(parts: seq<string>, c: char): string
    requires |parts| >= 1
  {
    if |parts| == 1 then parts[0] else parts[0] + [c] + Join(parts[1..], c)
  }

  lemma IndexOfUnique(a: string, rest: string, c: char)
    requires Lacks(a, c)
    ensures IndexOf(a + [c] + rest, c) == |a|
  {
    var s := a + [c] + rest;
    assert s[|a|] == c;
    assert forall k :: 0 <= k < |a| ==> s[k] == a[k];
  }

  lemma SplitOne(s: string, c: char)
    requires Lacks(s, c)
    ensures Split(s, c) == [s]
  {
  }

  lemma SplitCons(a: string, rest: string, c: char)
    requires Lacks(a, c)
    ensures Split(a + [c] + rest, c) == [a] + Split(rest, c)
  {
    var s := a + [c] + rest;
    IndexOfUnique(a, rest, c);
    assert s[..|a|] == a && s[|a| + 1..] == rest;
  }

  lemma JoinCons(a: string, parts: seq<string>, c: char)
    requires |parts| >= 1
    ensures Join([a] + parts, c) == a + [c] + Join(parts, c)
  {
    assert ([a] + parts)[1..] == parts;
  }

  /** Splitting loses nothing and leaves no separator in a part. */
  lemma {:induction false} SplitJoin(s: string, c: char)
    ensures Join(Split(s, c), c) == s
    ensures forall k :: 0 <= k < |Split(s, c)| ==> Lacks(Split(s, c)[k], c)
    decreases |s|
  {
    var i := IndexOf(s, c);
    if i == |s| {
      assert s[..i] == s;
    } else {
      SplitJoin(s[i + 1..], c);
      var rest := Split(s[i + 1..], c);
      JoinCons(s[..i], rest, c);
      assert s == s[..i] + [c] + s[i + 1..];
    }
  }

  lemma {:induction false} AfterLastIs(s: string, c: char, i: nat)
    requires 0 < i <= |s| && s[i - 1] == c && Lacks(s[i..], c)
    ensures AfterLast(s, c) == i
  {
    if i < |s| {
      var front := s[..|s| - 1];
      assert s[i..][|s| - 1 - i] != c;
      assert front[i..] == s[i..][..|s| - 1 - i];
      AfterLastIs(front, c, i);
    }
  }

  lemma AfterLastUnique(a: string, b: string, c: char)
    requires Lacks(b, c)
    ensures AfterLast(a + [c] + b, c) == |a| + 1
  {
    AfterLastIs(a + [c] + b, c, |a| + 1);
  }

  // ----- decimal numbers -----

  predicate IsDigit(c: char) { '0' <= c <= '9' }

  predicate AllDigits(s: string) { forall i :: 0 <= i < |s| ==> IsDigit(s[i]) }

  function DigitValue(c: char): nat
    requires IsDigit(c)
  {
    c as int - '0' as int
  }

  function Value(s: string): nat
    requires AllDigits(s)
  {
    if s == "" then 0 else 10 * Value(s[..|s| - 1]) + DigitValue(s[|s| - 1])
  }

  function Digits(n: nat): (s: string)
    ensures s != "" && AllDigits(s)
  {
    var last := ['0' + (n % 10) as char];
    if n < 10 then last else Digits(n / 10) + last
  }

  lemma {:induction false} ValueOfDigits(n: nat)
    ensures Value(Digits(n)) == n
  {
    var s := Digits(n);
    if n >= 10 {
      ValueOfDigits(n / 10);
      assert s[..|s| - 1] == Digits(n / 10);
    } else {
      assert s[..0] == "";
    }
  }

  predicate InInt64(n: int) { -0x8000_0000_0000_0000 <= n < 0x8000_0000_0000_0000 }

  /** An integer as it is printed. */
  function FormatInt(n: int): (s: string)
    ensures s != ""
  {
    if n < 0 then "-" + Digits(-n) else Digits(n)
  }

  /** Digits behind a sign, within the 64-bit range. */
  function ParseDigits(negative: bool, digits: string): (r: Option<int>)
    ensures r.Some? ==> InInt64(r.value)
  {
    if digits == "" || !AllDigits(digits) then None
    else
      var n := if negative then 0 - Value(digits) else Value(digits);
      if InInt64(n) then Some(n) else None
  }

  /** A 64-bit integer as it is read: an optional sign, one or more digits, any number of leading zeros. */
  function ParseInt(s: string): (r: Option<int>)
    ensures r.Some? ==> InInt64(r.value)
  {
    if s != "" && (s[0] == '-' || s[0] == '+') then ParseDigits(s[0] == '-', s[1..])
    else ParseDigits(false, s)
  }

  /** Every 64-bit integer is read back from its printed form. */
  lemma ParseFormat(n: int)
    ensures ParseInt(FormatInt(n)) == if InInt64(n) then Some(n) else None
  {
    var s := FormatInt(n);
    if n < 0 {
      ValueOfDigits(-n);
      assert s[1..] == Digits(-n);
    } else {
      ValueOfDigits(n);
      assert IsDigit(s[0]);
    }
  }

  lemma FormatIntLacks(n: int, c: char)
    requires !IsDigit(c) && c != '-'
    ensures Lacks(FormatInt(n), c)
  {
  }

  // ----- which texts read as which number -----

  function Zeros(k: nat): string { seq(k, _ => '0') }

  /** A sign that fits, any number of zeros, then the digits. */
  predicate SpelledAs(s: string, n: int, sign: string, k: nat) {
    && s == sign + (Zeros(k) + Digits(if n >= 0 then n else -n))
    && ((n >= 0 && (sign == "" || sign == "+")) || (n <= 0 && sign == "-"))
  }

  ghost predicate Spells(s: string, n: int) { exists sign, k :: SpelledAs(s, n, sign, k) }

  lemma {:induction false} ValueOfZeros(k: nat, n: nat)
    ensures AllDigits(Zeros(k) + Digits(n)) && Value(Zeros(k) + Digits(n)) == n
    decreases n
  {
    var s := Zeros(k) + Digits(n);
    if n >= 10 {
      ValueOfZeros(k, n / 10);
      assert s[..|s| - 1] == Zeros(k) + Digits(n / 10);
    } else {
      assert s[..|s| - 1] == Zeros(k);
      ValueOfOnlyZeros(k);
    }
  }

  lemma {:induction false} ValueOfOnlyZeros(k: nat)
    ensures Value(Zeros(k)) == 0
  {
    if k > 0 {
      assert Zeros(k)[..k - 1] == Zeros(k - 1);
      ValueOfOnlyZeros(k - 1);
    }
  }

  lemma DigitsOfTen(high: nat, c: char)
    requires IsDigit(c)
    ensures Digits(10 * high + DigitValue(c)) == if high == 0 then [c] else Digits(high) + [c]
  {
    var n := 10 * high + DigitValue(c);
    assert n / 10 == high && n % 10 == DigitValue(c);
    assert '0' + DigitValue(c) as char == c;
  }

  lemma ZeroDigits(k: nat)
    ensures Zeros(k) + Digits(0) == Zeros(k + 1)
  {
    assert Digits(0) == "0";
  }

  lemma AppendDigit(front: string, c: char, k: nat, high: nat)
    requires front == Zeros(k) + Digits(high) && IsDigit(c)
    ensures front + [c] == Zeros(if high == 0 then k + 1 else k) + Digits(10 * high + DigitValue(c))
  {
    DigitsOfTen(high, c);
    if high == 0 {
      ZeroDigits(k);
    } else {
      Regroup(Zeros(k), Digits(high), [c]);
    }
  }

  /** Every digit string is zeros and the digits of its value. */
  lemma {:induction false} DigitsOfValue(s: string) returns (k: nat)
    requires s != "" && AllDigits(s)
    ensures s == Zeros(k) + Digits(Value(s))
  {
    var front, last := s[..|s| - 1], s[|s| - 1];
    assert s == front + [last];
    if front == "" {
      DigitsOfTen(0, last);
      assert Zeros(0) + Digits(Value(s)) == Digits(Value(s));
      k := 0;
    } else {
      k := DigitsOfValue(front);
      AppendDigit(front, last, k, Value(front));
      k := if Value(front) == 0 then k + 1 else k;
    }
  }

  lemma ReadsSigned(sign: string, digits: string)
    requires digits != "" && IsDigit(digits[0]) && (sign == "" || sign == "+" || sign == "-")
    ensures ParseInt(sign + digits) == ParseDigits(sign == "-", digits)
  {
    var s := sign + digits;
    if sign == "" {
      assert s == digits;
    } else {
      assert s[0] == sign[0] && s[1..] == digits;
    }
  }

  lemma ReadsSpelling(s: string, n: int, sign: string, k: nat)
    requires SpelledAs(s, n, sign, k) && InInt64(n)
    ensures ParseInt(s) == Some(n)
  {
    var m := if n >= 0 then n else -n;
    ValueOfZeros(k, m);
    ReadsSigned(sign, Zeros(k) + Digits(m));
  }

  lemma SpellingRead(s: string, n: int) returns (sign: string, k: nat)
    requires ParseInt(s) == Some(n)
    ensures SpelledAs(s, n, sign, k)
  {
    if s[0] == '-' || s[0] == '+' {
      sign := s[..1];
      k := DigitsOfValue(s[1..]);
      assert s == sign + s[1..];
    } else {
      sign := "";
      k := DigitsOfValue(s);
      assert s == sign + s;
    }
  }

  /** The texts read as `n` are exactly its spellings. */
  lemma ParseIntReads(s: string, n: int)
    ensures ParseInt(s) == Some(n) <==> InInt64(n) && Spells(s, n)
  {
    if ParseInt(s) == Some(n) {
      var sign, k := SpellingRead(s, n);
    } else if InInt64(n) && Spells(s, n) {
      var sign, k :| SpelledAs(s, n, sign, k);
      ReadsSpelling(s, n, sign, k);
    }
  }

  lemma SpellingLacks(s: string, n: int, c: char)
    requires Spells(s, n) && !IsDigit(c) && c != '+' && c != '-'
    ensures s != "" && Lacks(s, c)
  {
    var sign, k :| SpelledAs(s, n, sign, k);
    var digits := Digits(if n >= 0 then n else -n);
    assert forall i :: 0 <= i < k ==> Zeros(k)[i] == '0';
    assert Lacks(Zeros(k), c) && Lacks(digits, c) && Lacks(sign, c);
    LacksBoth(Zeros(k), digits, c);
    LacksBoth(sign, Zeros(k) + digits, c);
  }

  lemma LacksBoth(a: string, b: string, c: char)
    requires Lacks(a, c) && Lacks(b, c)
    ensures Lacks(a + b, c)
  {
  }
}
