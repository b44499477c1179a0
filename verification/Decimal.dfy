/**
 Decimal notation as the Redis client writes, measures and reads it: the digit counters of
 harvester/producer-cli/hiredis.c:193-203 and harvester/producer-cli/hiutil.c:250-266, the in-place
 printer of hiutil.c:189-236 and the number a RESP line spells (harvester/producer-cli/read.c:148-173).
 */
module Decimal {
  function Digit(d: nat): (c: char)
    requires d < 10
  {
    (48 + d) as char
  }

  predicate IsDigit(c: char) { '0' <= c <= '9' }

  function DigitValue(c: char): int { c as int - 48 }

  /** Decimal digits, most significant first. */
  function Digits(n: nat): (s: string) {
    if n < 10 then [Digit(n)] else Digits(n / 10) + [Digit(n % 10)]
  }

  /** The text of an integer. */
  function Text(n: int): string {
    if n < 0 then "-" + Digits(-n) else Digits(n)
  }

  predicate AllDigits(s: string) { forall i :: 0 <= i < |s| ==> IsDigit(s[i]) }

  /** The number a digit string spells. */
  function Value(s: string): int {
    if s == "" then 0 else Value(s[..|s| - 1]) * 10 + DigitValue(s[|s| - 1])
  }

  lemma {:induction false} DigitsSpell(n: nat)
    ensures |Digits(n)| >= 1 && AllDigits(Digits(n)) && Value(Digits(n)) == n
    ensures n > 0 ==> Digits(n)[0] != '0'
  {
    if n >= 10 {
      DigitsSpell(n / 10);
      assert Digits(n)[..|Digits(n)| - 1] == Digits(n / 10);
    } else {
      assert Digits(n)[..0] == "";
    }
  }

  lemma {:induction false} FewerDigits(n: nat, m: nat)
    requires n <= m
    ensures |Digits(n)| <= |Digits(m)|
  {
    if n >= 10 {
      FewerDigits(n / 10, m / 10);
    }
  }

  /** A number is read the same whatever follows its digits one at a time. */
  lemma ValueSnoc(s: string, c: char)
    ensures Value(s + [c]) == Value(s) * 10 + DigitValue(c)
  {
    assert (s + [c])[..|s|] == s;
  }

  /** countDigits: four digits a turn. */
  method CountDigits(v: nat) returns (count: nat)
    ensures count == |Digits(v)|
  {
    var w := v;
    count := 1;
    while w >= 10000
      invariant count - 1 + |Digits(w)| == |Digits(v)|
      decreases w
    {
      FourDigits(w);
      w := w / 10000;
      count := count + 4;
    }
    if w < 10 {
    } else if w < 100 {
      OneDigit(w);
      count := count + 1;
    } else if w < 1000 {
      OneDigit(w);
      OneDigit(w / 10);
      count := count + 2;
    } else {
      count := count + 3;
      OneDigit(w);
      OneDigit(w / 10);
      OneDigit(w / 10 / 10);
    }
  }

  lemma FourDigits(w: nat)
    requires w >= 10000
    ensures |Digits(w)| == |Digits(w / 10000)| + 4
  {
    OneDigit(w);
    OneDigit(w / 10);
    OneDigit(w / 10 / 10);
    OneDigit(w / 10 / 10 / 10);
    assert w / 10 / 10 / 10 / 10 == w / 10000;
  }

  lemma OneDigit(w: nat)
    requires w >= 10
    ensures |Digits(w)| == |Digits(w / 10)| + 1
  {
  }

  /** _uint_len. */
  method UintLen(num: nat) returns (n: nat)
    ensures n == |Digits(num)|
  {
    n := 0;
    if num == 0 { return 1; }
    var rest := num;
    while rest != 0
      invariant n + (if rest == 0 then 0 else |Digits(rest)|) == |Digits(num)|
    {
      n := n + 1;
      rest := rest / 10;
    }
  }

  /** The digits of n, least significant first; none for zero. */
  function LowFirst(n: nat): string {
    if n == 0 then "" else [Digit(n % 10)] + LowFirst(n / 10)
  }

  function Reversed(s: string): (r: string)
    ensures |r| == |s| && forall i :: 0 <= i < |s| ==> r[i] == s[|s| - 1 - i]
  {
    if s == "" then "" else Reversed(s[1..]) + [s[0]]
  }

  lemma {:induction false} LowFirstReversed(n: nat)
    requires n > 0
    ensures Reversed(LowFirst(n)) == Digits(n)
  {
    if n >= 10 { LowFirstReversed(n / 10); }
    assert LowFirst(n)[1..] == LowFirst(n / 10);
  }

  lemma {:induction false} ReversedSnoc(s: string, c: char)
    ensures Reversed(s + [c]) == [c] + Reversed(s)
  {
    if s != "" {
      assert (s + [c])[1..] == s[1..] + [c];
      ReversedSnoc(s[1..], c);
    }
  }

  lemma LowFirstSigned(n: int)
    requires n != 0
    ensures Reversed(if n < 0 then LowFirst(-n) + "-" else LowFirst(n)) == Text(n)
  {
    LowFirstReversed(if n < 0 then -n else n);
    ReversedSnoc(LowFirst(if n < 0 then -n else n), '-');
  }

  /** The digit loop of _hi_itoa. */
  method WriteLowFirst(s: array<char>, num: nat) returns (len: nat)
    requires |LowFirst(num)| < s.Length
    modifies s
    ensures len == |LowFirst(num)| && s[..len] == LowFirst(num)
  {
    hide LowFirst;
    len := 0;
    var rest := num;
    assert s[..0] + LowFirst(num) == LowFirst(num);
    while rest % 10 != 0 || rest / 10 != 0
      invariant len + |LowFirst(rest)| < s.Length && s[..len] + LowFirst(rest) == LowFirst(num)
      decreases rest
    {
      var c := Digit(rest % 10);
      LowFirstStep(rest);
      ghost var before, more := s[..len], LowFirst(rest / 10);
      rest := rest / 10;
      s[len + 1] := s[len];
      s[len] := c;
      len := len + 1;
      assert s[..len] == before + [c];
      assert before + ([c] + more) == s[..len] + more;
    }
    LowFirstNone();
    assert s[..len] + "" == s[..len];
  }

  lemma LowFirstStep(n: nat)
    requires n > 0
    ensures LowFirst(n) == [Digit(n % 10)] + LowFirst(n / 10)
  {
  }

  lemma LowFirstNone()
    ensures LowFirst(0) == ""
  {
  }

  /** The reversing loop of _hi_itoa. */
  method ReversePrefix(s: array<char>, len: nat)
    requires len <= s.Length
    modifies s
    ensures s[..len] == Reversed(old(s[..len])) && s[len..] == old(s[len..])
  {
    var i := 0;
    while i < len / 2
      invariant 0 <= i <= len / 2
      invariant forall k :: 0 <= k < i ==> s[k] == old(s[len - 1 - k]) && s[len - 1 - k] == old(s[k])
      invariant forall k :: i <= k < len - i || len <= k < s.Length ==> s[k] == old(s[k])
    {
      s[i], s[len - i - 1] := s[len - i - 1], s[i];
      i := i + 1;
    }
  }

  lemma MagnitudeLength(num: int)
    requires num != 0
    ensures |Text(num)| == |LowFirst(if num < 0 then -num else num)| + if num < 0 then 1 else 0
  {
    LowFirstReversed(if num < 0 then -num else num);
  }

  lemma TextOfZero()
    ensures Text(0) == "0"
  {
  }

  /**
   _hi_itoa: prints every integer but zero with its terminator; for zero it writes one digit and
   leaves whatever follows it in the buffer.
   */
  method Itoa(s: array<char>, num: int)
    requires |Text(num)| + 1 < s.Length
    modifies s
    ensures s[..|Text(num)|] == Text(num)
    ensures num != 0 ==> s[|Text(num)|] == '\0'
    ensures num == 0 ==> s[1..] == old(s[1..])
  {
    hide Digits, LowFirst, Reversed;
    if num == 0 {
      TextOfZero();
      s[0] := '0';
      return;
    }
    var sign, magnitude := num < 0, if num < 0 then -num else num;
    MagnitudeLength(num);
    var len := WriteLowFirst(s, magnitude);
    ghost var low := LowFirst(magnitude);
    if sign {
      s[len] := '-';
      len := len + 1;
      assert s[..len] == low + "-";
    }
    s[len] := '\0';
    assert s[..len] == if sign then low + "-" else low;
    LowFirstSigned(num);
    ReversePrefix(s, len);
    assert s[len] == s[len..][0];
  }
}
