/** The number routines among the C solutions of the code browser
    (codes.js): `ft_atoi`, `ft_itoa` in its complete and its compact exam
    form, and `ft_range`. C's `int` is modelled by unbounded integers
    with the range of a 32-bit `int` stated where the C code would
    overflow; `malloc` always succeeds. */
module CNumbers {
  import opened Text

  const IntMin := -0x8000_0000
  const IntMax := 0x7fff_ffff

  /** A value of a 32-bit C `int`. */
  predicate IsInt(n: int) {
    -0x8000_0000 <= n <= 0x7fff_ffff
  }

  function Abs(n: int): nat {
    if n < 0 then -n else n
  }

  // ---- ft_atoi ----

  /** `is_space` of ft_atoi: the blank and the characters 9 to 13. */
  predicate IsCSpace(c: char) {
    c == ' ' || 9 <= c as int <= 13
  }

  /** The end of the run of white space starting at i: the first
      position from i on that holds no white space. */
  function SpacesEnd(s: string, i: nat): (j: nat)
    requires i <= |s|
    ensures i <= j <= |s|
    decreases |s| - i
  {
    if i < |s| && IsCSpace(s[i]) then SpacesEnd(s, i + 1) else i
  }

  /** The end of the run of digits starting at i. */
  function DigitsEnd(s: string, i: nat): (j: nat)
    requires i <= |s|
    ensures i <= j <= |s|
    ensures forall k :: i <= k < j ==> IsDigit(s[k])
    decreases |s| - i
  {
    if i < |s| && IsDigit(s[i]) then DigitsEnd(s, i + 1) else i
  }

  /** Where the digits ft_atoi reads begin: after the white space and one
      optional sign. */
  function DigitsStart(s: string): (a: nat)
    ensures a <= |s|
  {
    var t := SpacesEnd(s, 0);
    if t < |s| && (s[t] == '-' || s[t] == '+') then t + 1 else t
  }

  /** The value of the digits at positions a up to i, accumulated the way
      ft_atoi does: ten times the value so far plus the next digit. */
  function RunValue(s: string, a: nat, i: nat): nat
    requires a <= i <= |s| && forall k :: a <= k < i ==> IsDigit(s[k])
    decreases i
  {
    if i == a then 0
    else
      assert IsDigit(s[i - 1]);
      RunValue(s, a, i - 1) * 10 + (s[i - 1] as int - '0' as int)
  }

  /** The magnitude ft_atoi accumulates: the value of the digits from
      DigitsStart up to the first other character. */
  function AtoiMagnitude(s: string): nat {
    var a := DigitsStart(s);
    RunValue(s, a, DigitsEnd(s, a))
  }

  /** ft_atoi's result with unbounded integers: the magnitude, negated
      after a '-'. */
  function AtoiValue(s: string): int {
    var t := SpacesEnd(s, 0);
    if t < |s| && s[t] == '-' then -(AtoiMagnitude(s) as int) else AtoiMagnitude(s)
  }

  /** ft_atoi accumulates the magnitude in an `int`: beyond `IntMax` the C
      behaviour is undefined. */
  predicate AtoiDefined(s: string) {
    AtoiMagnitude(s) <= IntMax
  }

  /** A run of white space ends at the first position that holds none. */
  lemma {:induction false} SpacesEndAt(s: string, i: nat, j: nat)
    requires i <= j <= |s| && forall k :: i <= k < j ==> IsCSpace(s[k])
    requires j == |s| || !IsCSpace(s[j])
    ensures SpacesEnd(s, i) == j
    decreases j - i
  {
    if i < j {
      SpacesEndAt(s, i + 1, j);
    }
  }

  /** A run of digits ends at the first position that holds none. */
  lemma {:induction false} DigitsEndAt(s: string, i: nat, j: nat)
    requires i <= j <= |s| && forall k :: i <= k < j ==> IsDigit(s[k])
    requires j == |s| || !IsDigit(s[j])
    ensures DigitsEnd(s, i) == j
    decreases j - i
  {
    if i < j {
      DigitsEndAt(s, i + 1, j);
    }
  }

  /** More digits are worth at least as much. */
  lemma {:induction false} RunValueMono(s: string, a: nat, i: nat, j: nat)
    requires a <= i <= j <= |s| && forall k :: a <= k < j ==> IsDigit(s[k])
    ensures RunValue(s, a, i) <= RunValue(s, a, j)
    decreases j
  {
    if i < j {
      RunValueMono(s, a, i, j - 1);
    }
  }

  /** The accumulated value is the decimal value of the digits read. */
  lemma {:induction false} RunValueDecimal(s: string, a: nat, i: nat)
    requires a <= i <= |s| && forall k :: a <= k < i ==> IsDigit(s[k])
    ensures AllDigits(s[a..i]) && RunValue(s, a, i) == DecimalValue(s[a..i])
    decreases i
  {
    if i > a {
      RunValueDecimal(s, a, i - 1);
      assert s[a..i][..i - 1 - a] == s[a..i - 1];
    }
  }

  /** `ft_atoi`: white space skipped, one optional sign read, then digits
      accumulated until the first non-digit. The caller must keep the
      magnitude within `int`, which the loop then never leaves. */
  method FtAtoi(str: string) returns (r: int)
    requires AtoiDefined(str)
    ensures r == AtoiValue(str) && IsInt(r)
  {
    var i := 0;
    while i < |str| && IsCSpace(str[i])
      invariant 0 <= i <= |str| && SpacesEnd(str, i) == SpacesEnd(str, 0)
    {
      i := i + 1;
    }
    var sign := 1;
    if i < |str| && (str[i] == '-' || str[i] == '+') {
      if str[i] == '-' {
        sign := -1;
      }
      i := i + 1;
    }
    ghost var start := i;
    assert start == DigitsStart(str);
    ghost var end := DigitsEnd(str, start);
    var result := 0;
    while i < |str| && IsDigit(str[i])
      invariant start <= i <= end && DigitsEnd(str, i) == end
      invariant result == RunValue(str, start, i)
    {
      RunValueMono(str, start, i + 1, end);
      result := result * 10;
      assert IsInt(result);
      result := result + (str[i] as int - '0' as int);
      assert IsInt(result);
      i := i + 1;
    }
    r := result * sign;
  }

  /** What ft_atoi reads: white space, an optional sign and digits are
      taken, and whatever follows the digits is ignored. */
  lemma AtoiParts(spaces: string, sign: string, digits: string, rest: string)
    requires forall k :: 0 <= k < |spaces| ==> IsCSpace(spaces[k])
    requires sign == "" || sign == "-" || sign == "+"
    requires AllDigits(digits) && (rest == [] || !IsDigit(rest[0]))
    requires sign + digits + rest == [] || !IsCSpace((sign + digits + rest)[0])
    requires sign == "" && digits == [] && rest != [] ==> rest[0] != '-' && rest[0] != '+'
    ensures AtoiValue(spaces + sign + digits + rest) ==
      if sign == "-" then -(DecimalValue(digits) as int) else DecimalValue(digits)
  {
    var t := sign + digits + rest;
    var p := spaces + sign;
    var s := spaces + sign + digits + rest;
    assert s == spaces + t && s == p + digits + rest;
    SpacesEndConcat(spaces, t);
    if sign != "" {
      assert s[|spaces|] == t[0] == sign[0];
    } else if digits != [] {
      assert s[|spaces|] == digits[0];
    } else if rest != [] {
      assert s[|spaces|] == rest[0];
    }
    assert DigitsStart(s) == |p|;
    RunOfDigits(p, digits, rest);
  }

  /** White space followed by anything else: the run ends where the rest
      begins. */
  lemma SpacesEndConcat(spaces: string, t: string)
    requires forall k :: 0 <= k < |spaces| ==> IsCSpace(spaces[k])
    requires t == [] || !IsCSpace(t[0])
    ensures SpacesEnd(spaces + t, 0) == |spaces|
  {
    var s := spaces + t;
    if t != [] {
      assert s[|spaces|] == t[0];
    }
    SpacesEndAt(s, 0, |spaces|);
  }

  /** Digits followed by a non-digit: the run covers exactly the digits and
      is worth their decimal value. */
  lemma RunOfDigits(p: string, digits: string, rest: string)
    requires AllDigits(digits) && (rest == [] || !IsDigit(rest[0]))
    ensures DigitsEnd(p + digits + rest, |p|) == |p| + |digits|
    ensures RunValue(p + digits + rest, |p|, |p| + |digits|) == DecimalValue(digits)
  {
    var s := p + digits + rest;
    var a := |p|;
    forall k | a <= k < a + |digits|
      ensures IsDigit(s[k])
    {
      assert s[k] == digits[k - a];
    }
    if rest != [] {
      assert s[a + |digits|] == rest[0];
    }
    DigitsEndAt(s, a, a + |digits|);
    RunValueDecimal(s, a, a + |digits|);
    assert s[a..a + |digits|] == digits;
  }

  // ---- ft_itoa ----

  /** The text ft_itoa produces: the decimal digits of |n|, after a '-'
      when n is negative. */
  function ItoaText(n: int): (s: string)
    ensures |s| >= 1
  {
    if n < 0 then "-" + Decimal(-n) else Decimal(n)
  }

  /** The text starts with '-' exactly for a negative number, is as long
      as the digits of |n| and the sign, and is "0" for 0. */
  lemma ItoaShape(n: int)
    ensures ItoaText(n)[0] == '-' <==> n < 0
    ensures |ItoaText(n)| == |Decimal(Abs(n))| + (if n < 0 then 1 else 0)
    ensures n == 0 ==> ItoaText(n) == "0"
  {
    if n >= 0 {
      assert IsDigit(Decimal(n)[0]);
    }
  }

  /** ft_atoi's reading of ft_itoa's text, with unbounded integers, is the
      number itself: the magnitude is |n| and the sign is kept. */
  lemma AtoiItoa(n: int)
    ensures AtoiMagnitude(ItoaText(n)) == Abs(n)
    ensures AtoiValue(ItoaText(n)) == n
  {
    var d := Decimal(Abs(n));
    DecimalRoundTrip(Abs(n));
    var sign := if n < 0 then "-" else "";
    assert d != [] && IsDigit(d[0]);
    AtoiParts("", sign, d, "");
    assert "" + sign + d + "" == ItoaText(n);
  }

  /** Among `int` values, the round trip stays within C's defined behaviour
      exactly for those other than INT_MIN, whose magnitude does not fit an
      `int`. */
  lemma AtoiItoaDefined(n: int)
    requires IsInt(n)
    ensures AtoiDefined(ItoaText(n)) <==> n != IntMin
  {
    AtoiItoa(n);
  }

  /** `count_digits`: the number of decimal digits of n >= 0. */
  method CountDigits(n: int) returns (len: int)
    requires n >= 0
    ensures len == |Decimal(n)|
  {
    len := 1;
    var m := n;
    while m >= 10
      invariant m >= 0 && len + |Decimal(m)| - 1 == |Decimal(n)|
      decreases m
    {
      m := m / 10;
      len := len + 1;
    }
  }

  /** The k lowest decimal digits of n, most significant first, with
      leading zeros. */
  function LowDigits(n: nat, k: nat): (r: string)
    ensures |r| == k && AllDigits(r)
  {
    if k == 0 then [] else LowDigits(n / 10, k - 1) + [DigitChar(n % 10)]
  }

  lemma {:induction false} LowDigitsZero(k: nat)
    ensures LowDigits(0, k) == Repeat('0', k)
  {
    if k > 0 {
      LowDigitsZero(k - 1);
      assert Repeat('0', k) == Repeat('0', k - 1) + ['0'];
    }
  }

  /** With room for all of n's digits, the k lowest digits are n's decimal
      text behind zeros. */
  lemma {:induction false} LowDigitsDecimal(n: nat, k: nat)
    requires |Decimal(n)| <= k
    ensures LowDigits(n, k) == Repeat('0', k - |Decimal(n)|) + Decimal(n)
  {
    var d := DigitChar(n % 10);
    if n < 10 {
      LowDigitsZero(k - 1);
      assert Repeat('0', k - 1) + [d] == Repeat('0', k - 1) + Decimal(n);
    } else {
      LowDigitsDecimal(n / 10, k - 1);
      var z := Repeat('0', k - |Decimal(n)|);
      assert LowDigits(n, k) == z + Decimal(n / 10) + [d];
    }
  }

  /** `fill_digits_from_right`: positions `index` down to 0 receive the
      lowest digits of n, the last digit at `index`. */
  method FillDigitsFromRight(str: array<char>, index: int, n: int)
    requires -1 <= index < str.Length && n >= 0
    modifies str
    ensures str[..index + 1] == LowDigits(n, index + 1)
    ensures str[index + 1..] == old(str[index + 1..])
  {
    var i := index;
    var m := n;
    while i >= 0
      invariant -1 <= i <= index && m >= 0
      invariant LowDigits(n, index + 1) == LowDigits(m, i + 1) + str[i + 1..index + 1]
      invariant str[index + 1..] == old(str[index + 1..])
    {
      ghost var before := str[i + 1..index + 1];
      str[i] := DigitChar(m % 10);
      assert str[i..index + 1] == [DigitChar(m % 10)] + before;
      m := m / 10;
      i := i - 1;
    }
    assert str[..index + 1] == str[i + 1..index + 1];
  }

  /** `ft_itoa`: a NUL-terminated array holding ItoaText(nbr); INT_MIN is
      handled by widening to `long` before negating. */
  method FtItoa(nbr: int) returns (str: array<char>)
    requires IsInt(nbr)
    ensures str.Length == |ItoaText(nbr)| + 1
    ensures str[..str.Length - 1] == ItoaText(nbr) && str[str.Length - 1] == '\0'
  {
    var n := nbr;
    var sign := 0;
    if n < 0 {
      sign := 1;
      n := -n;
    }
    var digits := CountDigits(n);
    var len := digits + sign;
    str := new char[len + 1];
    str[len] := '\0';
    FillDigitsFromRight(str, len - 1, n);
    LowDigitsDecimal(n, len);
    if sign == 1 {
      str[0] := '-';
      assert str[..len] == "-" + Decimal(n);
    } else {
      assert str[..len] == Decimal(n);
    }
    assert str[..str.Length - 1] == str[..len];
  }

  // ---- ft_itoa, compact exam version ----

  /** C's `a / 10` on `int`, which truncates toward zero. */
  function CDiv10(a: int): (q: int)
    ensures Abs(q) == Abs(a) / 10
  {
    if a >= 0 then a / 10 else -((-a) / 10)
  }

  /** The number of decimal digits of k, none for 0. */
  function NonZeroDigits(k: nat): nat {
    if k == 0 then 0 else |Decimal(k)|
  }

  /** `ft_count_len`: one for a sign or a lone zero, then one per digit. */
  method FtCountLen(nbr: int) returns (len: int)
    requires IsInt(nbr)
    ensures len == |ItoaText(nbr)|
  {
    var i := 0;
    var m := nbr;
    if m <= 0 {
      i := i + 1;
    }
    while m != 0
      invariant i + NonZeroDigits(Abs(m)) == |ItoaText(nbr)|
      decreases Abs(m)
    {
      m := CDiv10(m);
      i := i + 1;
    }
    len := i;
  }

  /** Writing c just in front of the slice i+1..len extends it by c. */
  lemma WriteInFront(a: seq<char>, i: nat, len: nat, c: char)
    requires i < len <= |a|
    ensures a[i := c][i..len] == [c] + a[i + 1..len]
  {
    assert a[i := c][i + 1..len] == a[i + 1..len];
  }

  /** The compact `ft_itoa`: the sign written first, then the digits from
      the right while more than one remains, then the last one. */
  method FtItoaExam(nbr: int) returns (str: array<char>)
    requires IsInt(nbr)
    ensures str.Length == |ItoaText(nbr)| + 1
    ensures str[..str.Length - 1] == ItoaText(nbr) && str[str.Length - 1] == '\0'
  {
    var num := nbr;
    var len := FtCountLen(nbr);
    str := new char[len + 1];
    str[len] := '\0';
    var i := len - 1;
    ghost var sign := if nbr < 0 then 1 else 0;
    ItoaShape(nbr);
    if num < 0 {
      str[0] := '-';
      num := -num;
    }
    ghost var written := "";
    while num > 9
      invariant num >= 0 && i == sign + |Decimal(num)| - 1 && sign <= i < len
      invariant Decimal(Abs(nbr)) == Decimal(num) + written
      invariant str[i + 1..len] == written
      invariant str[len] == '\0' && (sign == 1 ==> str[0] == '-')
      decreases num
    {
      ghost var before := str[..];
      str[i] := DigitChar(num % 10);
      ItoaExamStep(before, i, len, num, written);
      assert str[..] == before[i := DigitChar(num % 10)];
      written := [DigitChar(num % 10)] + written;
      num := num / 10;
      i := i - 1;
    }
    ghost var before := str[..];
    str[i] := DigitChar(num);
    ItoaExamFinish(before, len, nbr, num, written);
    assert str[..] == before[i := DigitChar(num)];
  }

  /** One step of the compact ft_itoa's loop: the lowest digit of num
      written in front of the digits already written. */
  lemma ItoaExamStep(a: seq<char>, i: nat, len: nat, num: nat, written: string)
    requires num > 9 && i < len <= |a| && a[i + 1..len] == written
    ensures a[i := DigitChar(num % 10)][i..len] == [DigitChar(num % 10)] + written
    ensures Decimal(num) + written == Decimal(num / 10) + ([DigitChar(num % 10)] + written)
    ensures |Decimal(num)| == |Decimal(num / 10)| + 1
  {
    WriteInFront(a, i, len, DigitChar(num % 10));
  }

  /** The last step of the compact ft_itoa: with the sign in place and all
      digits but the first written behind position `sign`, writing the
      first digit there completes the text. */
  lemma ItoaExamFinish(a: seq<char>, len: nat, nbr: int, num: nat, written: string)
    requires num <= 9 && len < |a|
    requires len == (if nbr < 0 then 1 else 0) + |Decimal(Abs(nbr))|
    requires Decimal(Abs(nbr)) == Decimal(num) + written
    requires nbr < 0 ==> a[0] == '-'
    requires a[len - |written|..len] == written
    ensures var i := if nbr < 0 then 1 else 0;
      a[i := DigitChar(num)][..len] == ItoaText(nbr)
  {
    var i := if nbr < 0 then 1 else 0;
    var b := a[i := DigitChar(num)];
    assert Decimal(num) == [DigitChar(num)];
    assert |written| == len - i - 1;
    WriteInFront(a, i, len, DigitChar(num));
    assert b[i..len] == Decimal(Abs(nbr));
    if i == 1 {
      assert b[..len] == "-" + b[1..len];
    } else {
      assert b[..len] == b[0..len];
    }
  }

  // ---- ft_range ----

  /** The range's direction: -1 when it counts down. */
  function RangeStep(start: int, end: int): int {
    if start > end then -1 else 1
  }

  /** The element at position i of the range from start to end. */
  function RangeAt(start: int, end: int, i: nat): int {
    if start > end then start - i else start + i
  }

  /** The values the variable `value` of ft_range takes, one per loop
      iteration and one more after the last: the loop adds the step again
      after storing the last element. */
  function RangeValuesComputed(start: int, end: int): (vs: seq<int>)
    ensures |vs| == Abs(end - start) + 2
  {
    seq(Abs(end - start) + 2, i requires 0 <= i => RangeAt(start, end, i))
  }

  /** `ft_range` as written: `Abs(end - start) + 1` elements from start to
      end by steps of one. The ghost result lists the values `value`
      takes, the last of which is computed but never stored. */
  method FtRange(start: int, end: int) returns (tab: array<int>, ghost computed: seq<int>)
    requires IsInt(start) && IsInt(end) && IsInt(end - start) && IsInt(Abs(end - start) + 1)
    ensures tab.Length == Abs(end - start) + 1
    ensures forall i :: 0 <= i < tab.Length ==> tab[i] == RangeAt(start, end, i)
    ensures tab[0] == start && tab[tab.Length - 1] == end
    ensures computed == RangeValuesComputed(start, end)
  {
    var size := Abs(end - start) + 1;
    tab := new int[size];
    var step := 1;
    if start > end {
      step := -1;
    }
    var i := 0;
    var value := start;
    computed := [value];
    while i < size
      invariant 0 <= i <= size && value == RangeAt(start, end, i)
      invariant forall k :: 0 <= k < i ==> tab[k] == RangeAt(start, end, k)
      invariant computed == RangeValuesComputed(start, end)[..i + 1]
    {
      tab[i] := value;
      value := value + step;
      computed := computed + [value];
      i := i + 1;
    }
  }

  /** For start == end == INT_MAX the last value ft_range computes is
      INT_MAX + 1: a signed overflow, undefined in C. */
  lemma RangeOverflowsAtIntMax()
    ensures !IsInt(RangeValuesComputed(IntMax, IntMax)[1])
  {
  }

  /** Whichever the direction, the value computed after the last element
      leaves `int` exactly when the range ends at INT_MAX going up or at
      INT_MIN going down. */
  lemma RangeOverflowCases(start: int, end: int)
    requires IsInt(start) && IsInt(end)
    ensures var vs := RangeValuesComputed(start, end);
      vs[|vs| - 1] == end + RangeStep(start, end)
      && (!IsInt(vs[|vs| - 1]) <==> (start <= end && end == IntMax) || (start > end && end == IntMin))
  {
  }

  /** ft_range with the step added only between two stores: every value
      computed is an element of the range, so no `int` overflows. */
  method FtRangeGuarded(start: int, end: int) returns (tab: array<int>)
    requires IsInt(start) && IsInt(end) && IsInt(end - start) && IsInt(Abs(end - start) + 1)
    ensures tab.Length == Abs(end - start) + 1
    ensures forall i :: 0 <= i < tab.Length ==> tab[i] == RangeAt(start, end, i) && IsInt(tab[i])
    ensures tab[0] == start && tab[tab.Length - 1] == end
  {
    var size := Abs(end - start) + 1;
    tab := new int[size];
    var step := 1;
    if start > end {
      step := -1;
    }
    var i := 0;
    var value := start;
    while i < size
      invariant 0 <= i <= size && value == RangeAt(start, end, if i < size then i else size - 1)
      invariant forall k :: 0 <= k < i ==> tab[k] == RangeAt(start, end, k) && IsInt(tab[k])
    {
      tab[i] := value;
      if i + 1 < size {
        value := value + step;
        assert IsInt(value);
      }
      i := i + 1;
    }
  }
}
