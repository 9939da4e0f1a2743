/** Number conversions of lib.c and ece391support.c: itoa with its in-place reversal, and the padding of %#x. */
module Numbers {
  import opened Bytes

  const WORDS := 0x1_0000_0000

  // ---------------------------------------------------------------- numerals and their values

  predicate Radix(r: int) {
    2 <= r <= 36
  }

  const ZERO: byte := 48

  /** Entry `d` of the lookup string: 0-9, then A-Z. */
  function Digit(d: nat): (b: byte)
    requires d < 36
    ensures b != NUL && (b == ZERO <==> d == 0)
  {
    if d < 10 then 48 + d else 55 + d
  }

  predicate IsDigit(b: byte, r: nat)
    requires Radix(r)
  {
    exists d :: 0 <= d < r && Digit(d) == b
  }

  function DigitValue(b: byte): int {
    if b < 65 then b as int - 48 else b as int - 55
  }

  predicate Digits(s: seq<byte>, r: nat)
    requires Radix(r)
  {
    forall i :: 0 <= i < |s| ==> IsDigit(s[i], r)
  }

  /** The reader's side: the value of a string of digits. */
  function Parse(s: seq<byte>, r: nat): int {
    if s == [] then 0 else Parse(s[..|s| - 1], r) * r + DigitValue(s[|s| - 1])
  }

  function Rest(v: nat, r: nat): (d: nat)
    requires Radix(r)
    ensures d < r
  {
    v % r
  }

  function Quotient(v: nat, r: nat): (q: nat)
    requires Radix(r)
    ensures v == q * r + Rest(v, r) && (v > 0 ==> q < v) && (v < r <==> q == 0)
  {
    QuotientFacts(v, r);
    v / r
  }

  lemma QuotientFacts(v: nat, r: nat)
    requires Radix(r)
    ensures v == v / r * r + v % r && v / r >= 0 && (v > 0 ==> v / r < v) && (v < r <==> v / r == 0)
  {
    MultipleIsLarge(v / r, r);
    if v / r >= 1 {
      assert v / r * r >= v / r * 2;
    }
  }

  /** A number's digits, highest place first. */
  function Numeral(v: nat, r: nat): (s: seq<byte>)
    requires Radix(r)
    ensures |s| > 0
    decreases v
  {
    if v < r then [Digit(v)] else Numeral(Quotient(v, r), r) + [Digit(Rest(v, r))]
  }

  /** The digits in the order itoa first writes them: lowest place first, none for 0. */
  function LowFirst(v: nat, r: nat): seq<byte>
    requires Radix(r)
    decreases v
  {
    if v == 0 then [] else [Digit(Rest(v, r))] + LowFirst(Quotient(v, r), r)
  }

  function Reversed(s: seq<byte>): (t: seq<byte>)
    ensures |t| == |s|
  {
    if s == [] then [] else Reversed(s[1..]) + [s[0]]
  }

  lemma DigitIsItsValue(d: nat, r: nat)
    requires Radix(r) && d < r
    ensures IsDigit(Digit(d), r) && DigitValue(Digit(d)) == d
  {
  }

  lemma DigitOfValue(b: byte, r: nat)
    requires Radix(r) && IsDigit(b, r)
    ensures 0 <= DigitValue(b) < r && Digit(DigitValue(b)) == b
  {
  }

  lemma ParseMore(s: seq<byte>, b: byte, r: nat)
    ensures Parse(s + [b], r) == Parse(s, r) * r + DigitValue(b)
  {
    assert (s + [b])[..|s|] == s;
  }

  /** Reading back what was written gives the number, in digits of the radix, without leading zeros. */
  lemma {:induction false} ReadsBack(v: nat, r: nat)
    requires Radix(r)
    ensures Parse(Numeral(v, r), r) == v && Digits(Numeral(v, r), r)
    ensures v > 0 ==> Numeral(v, r)[0] != ZERO
    decreases v
  {
    hide Quotient, Rest, Digit, DigitValue, IsDigit;
    DigitIsItsValue(Rest(v, r), r);
    if v < r {
      DigitIsItsValue(v, r);
      ParseMore([], Digit(v), r);
      assert Parse([], r) * r == 0 && [] + [Digit(v)] == [Digit(v)];
    } else {
      ReadsBack(Quotient(v, r), r);
      ParseMore(Numeral(Quotient(v, r), r), Digit(Rest(v, r)), r);
    }
  }

  lemma DivMod(q: nat, d: nat, r: nat)
    requires Radix(r) && d < r
    ensures q * r + d >= 0 && Quotient(q * r + d, r) == q && Rest(q * r + d, r) == d
  {
    var n := q * r + d;
    var k := q - n / r;
    assert k * r == n % r - d;
    MultipleIsLarge(k, r);
  }

  lemma MultipleIsLarge(k: int, r: int)
    requires r > 0
    ensures (k >= 1 ==> k * r >= r) && (k <= -1 ==> k * r <= -r)
  {
  }

  lemma {:induction false} ParseBounds(s: seq<byte>, r: nat)
    requires Radix(r) && Digits(s, r)
    ensures Parse(s, r) >= 0 && (s != [] && s[0] != ZERO ==> Parse(s, r) > 0)
  {
    hide Digit, DigitValue, IsDigit;
    if s != [] {
      var front, last := s[..|s| - 1], s[|s| - 1];
      ParseBounds(front, r);
      DigitOfValue(last, r);
      TimesRadix(Parse(front, r), r);
      if front != [] {
        assert front[0] == s[0];
      }
    }
  }

  lemma TimesRadix(v: int, r: nat)
    requires Radix(r)
    ensures (v >= 0 ==> v * r >= 0) && (v > 0 ==> v * r > 0)
  {
  }

  /** The other direction: a string of digits without a leading zero is the numeral of its value. */
  lemma {:induction false} WritesBack(s: seq<byte>, r: nat)
    requires Radix(r) && Digits(s, r) && s != [] && (s[0] != ZERO || |s| == 1)
    ensures Parse(s, r) >= 0 && Numeral(Parse(s, r), r) == s
    decreases |s|
  {
    hide Quotient, Rest, Digit, DigitValue, IsDigit, Parse, Numeral;
    var front, last := s[..|s| - 1], s[|s| - 1];
    ParseBounds(s, r);
    DigitOfValue(last, r);
    assert s == front + [last];
    ParseMore(front, last, r);
    if front == [] {
      ParseNothing(r);
      OneDigit(DigitValue(last), r);
    } else {
      ParseBounds(front, r);
      assert front[0] == s[0];
      WritesBack(front, r);
      NumeralMore(Parse(front, r), DigitValue(last), r);
    }
  }

  lemma ParseNothing(r: nat)
    ensures Parse([], r) * r == 0
  {
  }

  lemma OneDigit(d: nat, r: nat)
    requires Radix(r) && d < r
    ensures Numeral(d, r) == [Digit(d)]
  {
  }

  lemma NumeralMore(q: nat, d: nat, r: nat)
    requires Radix(r) && q > 0 && d < r
    ensures q * r + d >= 0 && Numeral(q * r + d, r) == Numeral(q, r) + [Digit(d)]
  {
    DivMod(q, d, r);
    hide Quotient, Rest, Digit;
    MultipleIsLarge(q, r);
  }

  /** Two equally long strings of digits with the same value are the same. */
  lemma {:induction false} SameLengthSameValue(s: seq<byte>, t: seq<byte>, r: nat)
    requires Radix(r) && Digits(s, r) && Digits(t, r) && |s| == |t| && Parse(s, r) == Parse(t, r)
    ensures s == t
  {
    hide Quotient, Rest, Digit, DigitValue, IsDigit;
    if s != [] {
      var n := |s| - 1;
      ParseBounds(s[..n], r);
      ParseBounds(t[..n], r);
      DigitOfValue(s[n], r);
      DigitOfValue(t[n], r);
      DivMod(Parse(s[..n], r), DigitValue(s[n]), r);
      DivMod(Parse(t[..n], r), DigitValue(t[n]), r);
      SameLengthSameValue(s[..n], t[..n], r);
      assert s == s[..n] + [s[n]] && t == t[..n] + [t[n]];
    }
  }

  function Power(r: nat, n: nat): nat {
    if n == 0 then 1 else r * Power(r, n - 1)
  }

  /** A number below r^n has at most n digits. */
  lemma {:induction false} DigitCount(v: nat, r: nat, n: nat)
    requires Radix(r) && n > 0 && v < Power(r, n)
    ensures |Numeral(v, r)| <= n
    decreases n
  {
    hide Quotient, Rest;
    if v >= r {
      assert n > 1 by {
        assert Power(r, 1) == r * Power(r, 0);
      }
      var q := Quotient(v, r);
      assert (q - Power(r, n - 1)) * r < r;
      MultipleIsLarge(q - Power(r, n - 1), r);
      DigitCount(q, r, n - 1);
    }
  }

  lemma {:induction false} PowerGrows(r: nat, n: nat)
    requires r >= 2
    ensures Power(r, n) >= Power(2, n) > 0
  {
    if n > 0 {
      PowerGrows(r, n - 1);
      assert r * Power(r, n - 1) >= 2 * Power(2, n - 1);
    }
  }

  lemma PowersOfTwo()
    ensures Power(2, 32) == WORDS && Power(16, 8) == WORDS
  {
    assert Power(2, 8) == 256;
    assert Power(2, 16) == 65536;
    assert Power(2, 24) == 0x100_0000;
    assert Power(16, 4) == 65536;
  }

  /** No 32-bit value takes more than 32 digits, and none more than 8 hexadecimal ones. */
  lemma WordDigits(v: nat, r: nat)
    requires Radix(r) && v < WORDS
    ensures |Numeral(v, r)| <= 32 && |Numeral(v, 16)| <= 8
  {
    PowersOfTwo();
    PowerGrows(r, 32);
    DigitCount(v, r, 32);
    DigitCount(v, 16, 8);
  }

  /** Reversing the digits as written gives the numeral. */
  lemma {:induction false} ReversedDigits(v: nat, r: nat)
    requires Radix(r) && v > 0
    ensures Reversed(LowFirst(v, r)) == Numeral(v, r)
    decreases v
  {
    hide Quotient, Rest;
    var low := LowFirst(v, r);
    assert low[1..] == LowFirst(Quotient(v, r), r) && low[0] == Digit(Rest(v, r));
    if v >= r {
      ReversedDigits(Quotient(v, r), r);
    } else {
      assert low[1..] == [];
    }
  }

  lemma {:induction false} ReversedAt(s: seq<byte>, k: nat)
    requires k < |s|
    ensures Reversed(s)[k] == s[|s| - 1 - k]
  {
    if k < |s| - 1 {
      ReversedAt(s[1..], k);
    }
  }

  // ---------------------------------------------------------------- the code

  method StringLength(buf: array<byte>, at: nat, ghost s: seq<byte>) returns (len: nat)
    requires StringAt(buf[..], at, s)
    ensures len == |s|
  {
    len := 0;
    ByteOfString(buf[..], at, s, 0);
    while buf[at + len] != NUL
      invariant len <= |s| && (buf[at + len] == NUL <==> len == |s|)
      decreases |s| - len
    {
      len := len + 1;
      ByteOfString(buf[..], at, s, len);
    }
  }

  /** strrev: the string at `at` is reversed in place. */
  method StrRev(buf: array<byte>, at: nat, ghost s: seq<byte>)
    requires StringAt(buf[..], at, s)
    modifies buf
    ensures StringAt(buf[..], at, Reversed(s))
    ensures SameOutside(old(buf[..]), buf[..], at, at + |s|)
  {
    var len := StringLength(buf, at, s);
    var beg: int, end: int := 0, len - 1;
    forall k | at <= k < at + len ensures buf[k] == s[k - at] {
      ByteOfString(buf[..], at, s, k - at);
    }
    while beg < end
      invariant 0 <= beg <= end + 2 && beg + end == len - 1 && end < len
      invariant forall k :: at <= k < at + len ==>
                buf[k] == if k - at < beg || k - at > end then s[len - 1 - (k - at)] else s[k - at]
      invariant SameOutside(old(buf[..]), buf[..], at, at + |s|)
    {
      var tmp := buf[at + end];
      buf[at + end] := buf[at + beg];
      buf[at + beg] := tmp;
      beg := beg + 1;
      end := end - 1;
    }
    ReversedString(buf[..], at, s);
  }

  lemma ReversedString(data: seq<byte>, at: nat, s: seq<byte>)
    requires at + |s| < |data| && data[at + |s|] == NUL && NulFree(s)
    requires forall k :: at <= k < at + |s| ==> data[k] == s[|s| - 1 - (k - at)]
    ensures StringAt(data, at, Reversed(s))
  {
    forall k | 0 <= k < |s| ensures Reversed(s)[k] == data[at + k] && Reversed(s)[k] != NUL {
      ReversedAt(s, k);
      assert s[|s| - 1 - k] in s;
    }
    assert data[at..at + |s|] == Reversed(s);
  }

  /** The digit loop of itoa, lowest place first. */
  method WriteDigits(value: nat, buf: array<byte>, at: nat, radix: nat) returns (next: nat)
    requires Radix(radix) && at + |LowFirst(value, radix)| < buf.Length
    modifies buf
    ensures next == at + |LowFirst(value, radix)| && buf[at..next] == LowFirst(value, radix)
    ensures SameOutside(old(buf[..]), buf[..], at, next)
  {
    hide Quotient, Rest, LowFirst, Digit;
    ghost var all := LowFirst(value, radix);
    var val: nat := value;
    next := at;
    assert buf[at..at] + all == all;
    while val > 0
      invariant at <= next <= at + |all| && buf[at..next] + LowFirst(val, radix) == all
      invariant SameOutside(old(buf[..]), buf[..], at, next)
      decreases val
    {
      LowFirstStep(val, radix);
      ghost var soFar := buf[at..next];
      var i := val % radix;
      buf[next] := Digit(i);
      assert buf[at..next + 1] == soFar + [Digit(i)];
      next := next + 1;
      val := val / radix;
    }
    LowFirstOfZero(radix);
  }

  /** itoa into the buffer at `at`: the digits lowest first, a NUL, then the reversal. */
  method Itoa(value: nat, buf: array<byte>, at: nat, radix: nat)
    requires Radix(radix) && value < WORDS && at + |Numeral(value, radix)| < buf.Length
    modifies buf
    ensures StringAt(buf[..], at, Numeral(value, radix))
    ensures SameOutside(old(buf[..]), buf[..], at, at + |Numeral(value, radix)| + 1)
  {
    hide LowFirst, Numeral, Reversed, Digit;
    if value == 0 {
      NumeralOfZero(radix);
      buf[at], buf[at + 1] := ZERO, NUL;
      return;
    }
    ReversedDigits(value, radix);
    DigitsNoNul(value, radix);
    var next := WriteDigits(value, buf, at, radix);
    ghost var all := buf[at..next];
    buf[next] := NUL;
    assert buf[at..next] == all;
    StrRev(buf, at, all);
  }

  lemma NumeralOfZero(r: nat)
    requires Radix(r)
    ensures Numeral(0, r) == [ZERO]
  {
  }

  lemma LowFirstOfZero(r: nat)
    requires Radix(r)
    ensures LowFirst(0, r) == []
  {
  }

  lemma LowFirstStep(v: nat, r: nat)
    requires Radix(r) && v > 0
    ensures 0 <= v % r < r && 0 <= v / r < v
    ensures LowFirst(v, r) == [Digit(v % r)] + LowFirst(v / r, r)
  {
    assert Quotient(v, r) == v / r && Rest(v, r) == v % r;
  }

  lemma {:induction false} DigitsNoNul(v: nat, r: nat)
    requires Radix(r)
    ensures NulFree(LowFirst(v, r))
    decreases v
  {
    if v > 0 {
      DigitsNoNul(Quotient(v, r), r);
    }
  }

  // ---------------------------------------------------------------- %#x

  /** A value in exactly eight hexadecimal digits. */
  function Padded(value: nat): seq<byte>
    requires |Numeral(value, 16)| <= 8
  {
    Fill(8 - |Numeral(value, 16)|, ZERO) + Numeral(value, 16)
  }

  lemma {:induction false} LeadingZeros(n: nat, s: seq<byte>, r: nat)
    ensures Parse(Fill(n, ZERO) + s, r) == Parse(s, r)
    decreases n, |s|
  {
    if s == [] {
      if n > 0 {
        LeadingZeros(n - 1, [], r);
        assert Fill(n - 1, ZERO) + [] == Fill(n - 1, ZERO) && Fill(n, ZERO) + [] == Fill(n - 1, ZERO) + [ZERO];
        ParseMore(Fill(n - 1, ZERO), ZERO, r);
        assert Parse([], r) * r == 0;
      } else {
        assert Fill(0, ZERO) + s == s;
      }
    } else {
      var front, last := s[..|s| - 1], s[|s| - 1];
      LeadingZeros(n, front, r);
      assert Fill(n, ZERO) + s == Fill(n, ZERO) + front + [last] && s == front + [last];
      ParseMore(Fill(n, ZERO) + front, last, r);
      ParseMore(front, last, r);
    }
  }

  /** The padding keeps the value: eight digits for every 32-bit number. */
  lemma PaddedIsValue(value: nat)
    requires value < WORDS
    ensures |Numeral(value, 16)| <= 8 && |Padded(value)| == 8 && Digits(Padded(value), 16) && NulFree(Padded(value))
    ensures Parse(Padded(value), 16) == value
  {
    WordDigits(value, 16);
    ReadsBack(value, 16);
    LeadingZeros(8 - |Numeral(value, 16)|, Numeral(value, 16), 16);
    hide Numeral, Parse;
    DigitIsItsValue(0, 16);
  }

  /** The %#x branch of printf: the number goes to the middle of the buffer and zeros in front of it, so that
      the string that starts at the number's length has eight digits. */
  method PrintHex(value: nat) returns (printed: seq<byte>)
    requires value < WORDS
    ensures |printed| == 8 && Digits(printed, 16) && Parse(printed, 16) == value
  {
    hide Numeral, Parse, Digits, Padded;
    PaddedIsValue(value);
    var buf := new byte[64];
    Itoa(value, buf, 8, 16);
    ghost var numeral := Numeral(value, 16);
    var start := StringLength(buf, 8, numeral);
    var i := start;
    ghost var upper := buf[..][8..];
    InUpperPart(buf[..], 8, numeral);
    while i < 8
      invariant start <= i <= 8
      invariant forall k :: start <= k < i ==> buf[k] == ZERO
      invariant buf[..][8..] == upper
    {
      buf[i] := ZERO;
      i := i + 1;
    }
    StillThere(upper, buf[..], 8, numeral);
    PaddedAt(buf[..], value);
    var len := StringLength(buf, start, Padded(value));
    printed := buf[start..start + len];
  }

  lemma StillThere(upper: seq<byte>, data: seq<byte>, at: nat, s: seq<byte>)
    requires at <= |data| && data[at..] == upper && StringAt(upper, 0, s)
    ensures StringAt(data, at, s)
  {
    assert data[at..at + |s|] == upper[..|s|] && data[at + |s|] == upper[|s|];
  }

  lemma InUpperPart(data: seq<byte>, at: nat, s: seq<byte>)
    requires StringAt(data, at, s)
    ensures StringAt(data[at..], 0, s)
  {
    assert data[at..at + |s|] == data[at..][..|s|];
  }

  /** Zeros from the number's length up to the number itself make one padded string. */
  lemma PaddedAt(data: seq<byte>, value: nat)
    requires |Numeral(value, 16)| <= 8 && StringAt(data, 8, Numeral(value, 16))
    requires forall k :: |Numeral(value, 16)| <= k < 8 ==> data[k] == ZERO
    ensures StringAt(data, |Numeral(value, 16)|, Padded(value))
  {
    hide Numeral;
    var numeral := Numeral(value, 16);
    var start := |numeral|;
    assert data[start..8] == Fill(8 - start, ZERO);
    assert data[start..8 + start] == data[start..8] + data[8..8 + start];
  }
}
