/** String operations of JavaScript used by the application: `trim`,
    `split` on one character, `join`, the `\s` class, `includes`,
    `replace` of a character or of a run of characters, `padStart`,
    `String(n)` for non-negative integers and UTF-16 lengths. */
module Text {
  import opened Lists

  /** ECMAScript WhiteSpace and LineTerminator: the characters `trim`
      removes and the regular-expression class `\s` matches. */
  predicate IsSpace(c: char) {
    var n := c as int;
    (0x09 <= n <= 0x0D) || n == 0x20 || n == 0xA0 || n == 0x1680
    || (0x2000 <= n <= 0x200A) || n == 0x2028 || n == 0x2029
    || n == 0x202F || n == 0x205F || n == 0x3000 || n == 0xFEFF
  }

  /** The line terminators the regular-expression `.` does not match. */
  predicate IsLineTerminator(c: char) {
    c == '\n' || c == '\r' || c as int == 0x2028 || c as int == 0x2029
  }

  predicate AllSpace(s: string) {
    forall k :: 0 <= k < |s| ==> IsSpace(s[k])
  }

  /** Neither starts nor ends with white space. */
  predicate IsTrimmed(s: string) {
    s == [] || (!IsSpace(s[0]) && !IsSpace(s[|s| - 1]))
  }

  function TrimStart(s: string): (r: string)
    ensures |r| <= |s|
    ensures r == [] || !IsSpace(r[0])
  {
    if s != [] && IsSpace(s[0]) then TrimStart(s[1..]) else s
  }

  /** TrimStart drops a prefix of white space. */
  lemma {:induction false} TrimStartShape(s: string)
    ensures TrimStart(s) == s[|s| - |TrimStart(s)|..]
    ensures AllSpace(s[..|s| - |TrimStart(s)|])
  {
    if s != [] && IsSpace(s[0]) {
      TrimStartShape(s[1..]);
      SpaceHead(s, TrimStart(s));
    }
  }

  lemma SpaceHead(s: string, r: string)
    requires s != [] && IsSpace(s[0]) && |r| <= |s| - 1
    requires AllSpace(s[1..][..|s| - 1 - |r|])
    ensures AllSpace(s[..|s| - |r|])
  {
    forall k | 0 <= k < |s| - |r| ensures IsSpace(s[k]) {
      if k > 0 {
        assert s[k] == s[1..][..|s| - 1 - |r|][k - 1];
      }
    }
  }

  function TrimEnd(s: string): (r: string)
    ensures |r| <= |s|
    ensures r == [] || !IsSpace(r[|r| - 1])
  {
    if s != [] && IsSpace(s[|s| - 1]) then TrimEnd(s[..|s| - 1]) else s
  }

  /** TrimEnd drops a suffix of white space. */
  lemma {:induction false} TrimEndShape(s: string)
    ensures TrimEnd(s) == s[..|TrimEnd(s)|]
    ensures AllSpace(s[|TrimEnd(s)|..])
  {
    if s != [] && IsSpace(s[|s| - 1]) {
      TrimEndShape(s[..|s| - 1]);
      SpaceTail(s, |TrimEnd(s)|);
    }
  }

  lemma SpaceTail(s: string, n: nat)
    requires s != [] && IsSpace(s[|s| - 1]) && n <= |s| - 1 && AllSpace(s[..|s| - 1][n..])
    ensures AllSpace(s[n..])
  {
    forall k | n <= k < |s| ensures IsSpace(s[k]) {
      if k < |s| - 1 {
        assert s[k] == s[..|s| - 1][n..][k - n];
      }
    }
  }

  /** `String.prototype.trim`. */
  function Trim(s: string): (r: string)
    ensures IsTrimmed(r)
    ensures |r| <= |s|
  {
    TrimEndShape(TrimStart(s));
    TrimEnd(TrimStart(s))
  }

  lemma TrimOfTrimmed(s: string)
    requires IsTrimmed(s)
    ensures Trim(s) == s
  {
  }

  lemma TrimIdempotent(s: string)
    ensures Trim(Trim(s)) == Trim(s)
  {
    TrimOfTrimmed(Trim(s));
  }

  lemma {:induction false} TrimStartSpaces(pre: string, s: string)
    requires AllSpace(pre)
    ensures TrimStart(pre + s) == TrimStart(s)
  {
    if pre != [] {
      assert (pre + s)[1..] == pre[1..] + s;
      TrimStartSpaces(pre[1..], s);
    } else {
      assert pre + s == s;
    }
  }

  lemma {:induction false} TrimEndSpaces(s: string, post: string)
    requires AllSpace(post)
    ensures TrimEnd(s + post) == TrimEnd(s)
  {
    if post != [] {
      var n := |s + post|;
      assert (s + post)[..n - 1] == s + post[..|post| - 1];
      TrimEndSpaces(s, post[..|post| - 1]);
    } else {
      assert s + post == s;
    }
  }

  /** Trimming a trimmed string wrapped in white space gives it back. */
  lemma TrimPadded(pre: string, s: string, post: string)
    requires AllSpace(pre) && AllSpace(post) && IsTrimmed(s)
    ensures Trim(pre + s + post) == s
  {
    var t := s + post;
    assert pre + s + post == pre + t;
    TrimStartSpaces(pre, t);
    if s == [] {
      TrimBlank(post);
    } else {
      TrimEndOfWord(s, post);
    }
  }

  /** Nothing but white space trims to nothing. */
  lemma TrimBlank(post: string)
    requires AllSpace(post)
    ensures TrimEnd(TrimStart([] + post)) == []
  {
    assert [] + post == post + [];
    TrimStartSpaces(post, []);
  }

  /** A text that starts and ends with a non-space character, followed by
      white space, trims to itself. */
  lemma TrimEndOfWord(s: string, post: string)
    requires s != [] && IsTrimmed(s) && AllSpace(post)
    ensures TrimEnd(TrimStart(s + post)) == s
  {
    assert (s + post)[0] == s[0];
    assert TrimStart(s + post) == s + post;
    TrimEndSpaces(s, post);
  }

  /** `s.split(sep)` with a one-character separator. */
  function Split(s: string, sep: char): (parts: seq<string>)
    ensures |parts| >= 1
    ensures forall p :: p in parts ==> sep !in p
    decreases |s|
  {
    var i := IndexOf(s, sep);
    if i < 0 then [s] else [s[..i]] + Split(s[i + 1..], sep)
  }

  /** `parts.join(sep)`. */
  function Join(parts: seq<string>, sep: string): (r: string)
    ensures parts == [] ==> r == ""
    ensures |parts| == 1 ==> r == parts[0]
    decreases |parts|
  {
    if parts == [] then []
    else if |parts| == 1 then parts[0]
    else parts[0] + sep + Join(parts[1..], sep)
  }

  /** Joining one more part appends the separator and that part. */
  lemma {:induction false} JoinSnoc(parts: seq<string>, w: string, sep: string)
    requires parts != []
    ensures Join(parts + [w], sep) == Join(parts, sep) + sep + w
    decreases |parts|
  {
    var ps := parts + [w];
    assert ps[1..] == parts[1..] + [w];
    if |parts| > 1 {
      JoinSnoc(parts[1..], w, sep);
    }
  }

  lemma IndexOfAfter(a: string, x: char, b: string)
    requires x !in a
    ensures IndexOf(a + [x] + b, x) == |a|
  {
    var s := a + [x] + b;
    var r := IndexOf(s, x);
    assert s[|a|] == x;
    assert s[..|a|] == a;
  }

  /** Splitting at the first separator, when the first part holds none. */
  lemma SplitFirst(a: string, sep: char, b: string)
    requires sep !in a
    ensures Split(a + [sep] + b, sep) == [a] + Split(b, sep)
  {
    var s := a + [sep] + b;
    IndexOfAfter(a, sep, b);
    assert s[..|a|] == a;
    assert s[|a| + 1..] == b;
  }

  /** Splitting a joined list gives the list back when no part holds the
      separator. */
  lemma {:induction false} SplitJoin(parts: seq<string>, sep: char)
    requires |parts| >= 1
    requires forall p :: p in parts ==> sep !in p
    ensures Split(Join(parts, [sep]), sep) == parts
  {
    if |parts| == 1 {
      assert IndexOf(parts[0], sep) == -1;
    } else {
      var rest := Join(parts[1..], [sep]);
      assert Join(parts, [sep]) == parts[0] + [sep] + rest;
      SplitFirst(parts[0], sep, rest);
      SplitJoin(parts[1..], sep);
      assert parts == [parts[0]] + parts[1..];
    }
  }

  /** `.filter(Boolean)` on strings: the non-empty ones. */
  function NonEmpty(parts: seq<string>): (r: seq<string>)
    ensures forall p :: p in r ==> p != [] && p in parts
  {
    Filter(parts, (p: string) => p != [])
  }

  /** `.map((x) => x.trim())`. */
  function MapTrim(parts: seq<string>): (r: seq<string>)
    ensures |r| == |parts|
    ensures forall i :: 0 <= i < |parts| ==> r[i] == Trim(parts[i])
  {
    Map(parts, Trim)
  }

  /** A piece trimmed, kept when not blank. */
  function TrimmedPart(p: string): seq<string> {
    if Trim(p) == [] then [] else [Trim(p)]
  }

  /** `.map((part) => part.trim()).filter(Boolean)`: the trimmed pieces
      that are not blank. */
  function TrimmedParts(ps: seq<string>): seq<string> {
    if ps == [] then [] else TrimmedPart(ps[0]) + TrimmedParts(ps[1..])
  }

  lemma {:induction false} TrimmedPartsAppend(a: seq<string>, b: seq<string>)
    ensures TrimmedParts(a + b) == TrimmedParts(a) + TrimmedParts(b)
  {
    if a == [] {
      assert a + b == b;
    } else {
      TailAppend(a, b);
      TrimmedPartsAppend(a[1..], b);
      AppendAssoc(TrimmedPart(a[0]), TrimmedParts(a[1..]), TrimmedParts(b));
    }
  }

  /** `s.replace(/c/g, rep)`: every occurrence of c replaced by rep. */
  function ReplaceChar(s: string, c: char, rep: string): (r: string)
    ensures forall x :: x in r ==> (x in s && x != c) || x in rep
  {
    if s == [] then []
    else (if s[0] == c then rep else [s[0]]) + ReplaceChar(s[1..], c, rep)
  }

  /** The longest prefix made of characters satisfying p, dropped. */
  function DropRun(s: string, p: char -> bool): (r: string)
    ensures |r| <= |s| && r == s[|s| - |r|..]
    ensures r == [] || !p(r[0])
  {
    if s != [] && p(s[0]) then DropRun(s[1..], p) else s
  }

  /** `s.replace(/[class]+/g, rep)`: every maximal run of characters
      satisfying inRun replaced by rep. */
  function CollapseRuns(s: string, inRun: char -> bool, rep: string): (r: string)
    ensures forall x :: x in r ==> (x in s && !inRun(x)) || x in rep
    decreases |s|
  {
    if s == [] then []
    else if inRun(s[0]) then rep + CollapseRuns(DropRun(s, inRun), inRun, rep)
    else [s[0]] + CollapseRuns(s[1..], inRun, rep)
  }

  /** `s.includes(sub)`. */
  predicate Contains(s: string, sub: string) {
    exists i :: 0 <= i <= |s| && sub <= s[i..]
  }

  /** `s.length`: UTF-16 code units, two for a character outside the
      Basic Multilingual Plane. */
  function Utf16Length(s: string): (n: nat)
    ensures n >= |s|
  {
    if s == [] then 0 else (if s[0] as int >= 0x10000 then 2 else 1) + Utf16Length(s[1..])
  }

  /** The UTF-16 code units of s (what `charCodeAt` walks over). */
  function Utf16Units(s: string): (u: seq<int>)
    ensures |u| == Utf16Length(s)
    ensures forall k :: 0 <= k < |u| ==> 0 <= u[k] < 0x10000
  {
    if s == [] then []
    else
      var c := s[0] as int;
      (if c < 0x10000 then [c]
       else [0xD800 + (c - 0x10000) / 0x400, 0xDC00 + (c - 0x10000) % 0x400])
      + Utf16Units(s[1..])
  }

  predicate IsDigit(c: char) {
    '0' <= c <= '9'
  }

  predicate AllDigits(s: string) {
    forall k :: 0 <= k < |s| ==> IsDigit(s[k])
  }

  function DigitChar(d: nat): (c: char)
    requires d < 10
    ensures IsDigit(c) && c as int - '0' as int == d
  {
    ('0' as int + d) as char
  }

  /** `String(n)` for a non-negative integer: its decimal digits, without
      leading zeros. */
  function Decimal(n: nat): (r: string)
    ensures |r| >= 1 && AllDigits(r)
    ensures |r| > 1 ==> r[0] != '0'
    decreases n
  {
    if n < 10 then [DigitChar(n)] else Decimal(n / 10) + [DigitChar(n % 10)]
  }

  /** The number a string of decimal digits denotes (leading zeros allowed). */
  function DecimalValue(s: string): nat
    requires AllDigits(s)
    decreases |s|
  {
    if s == [] then 0
    else DecimalValue(s[..|s| - 1]) * 10 + (s[|s| - 1] as int - '0' as int)
  }

  lemma {:induction false} DecimalRoundTrip(n: nat)
    ensures DecimalValue(Decimal(n)) == n
    decreases n
  {
    if n >= 10 {
      var d := Decimal(n / 10) + [DigitChar(n % 10)];
      assert d[..|d| - 1] == Decimal(n / 10);
      DecimalRoundTrip(n / 10);
    }
  }

  function Repeat(c: char, k: nat): (r: string)
    ensures |r| == k && forall i :: 0 <= i < k ==> r[i] == c
  {
    seq(k, _ => c)
  }

  /** `s.padStart(width, pad)` with a one-character pad string. */
  function PadStart(s: string, width: nat, pad: char): (r: string)
    ensures |r| == if |s| < width then width else |s|
    ensures r == Repeat(pad, |r| - |s|) + s
  {
    if |s| >= width then
      assert Repeat(pad, 0) + s == s;
      s
    else Repeat(pad, width - |s|) + s
  }

  lemma {:induction false} LeadingZeros(k: nat, s: string)
    requires AllDigits(s)
    ensures AllDigits(Repeat('0', k) + s)
    ensures DecimalValue(Repeat('0', k) + s) == DecimalValue(s)
    decreases |s|
  {
    var z := Repeat('0', k);
    if s == [] {
      assert z + s == z;
      Zeros(k);
    } else {
      var t := z + s;
      assert t[..|t| - 1] == z + s[..|s| - 1];
      LeadingZeros(k, s[..|s| - 1]);
    }
  }

  lemma {:induction false} Zeros(k: nat)
    ensures DecimalValue(Repeat('0', k)) == 0
  {
    if k > 0 {
      assert Repeat('0', k)[..k - 1] == Repeat('0', k - 1);
      Zeros(k - 1);
    }
  }

  /** A zero-padded decimal number reads back as that number. */
  lemma PaddedDecimal(n: nat, width: nat)
    ensures AllDigits(PadStart(Decimal(n), width, '0'))
    ensures DecimalValue(PadStart(Decimal(n), width, '0')) == n
  {
    var d := Decimal(n);
    LeadingZeros(|PadStart(d, width, '0')| - |d|, d);
    DecimalRoundTrip(n);
  }

  /** Padded decimal numbers are distinct for distinct numbers. */
  lemma PaddedDecimalInjective(m: nat, n: nat, width: nat)
    requires PadStart(Decimal(m), width, '0') == PadStart(Decimal(n), width, '0')
    ensures m == n
  {
    PaddedDecimal(m, width);
    PaddedDecimal(n, width);
  }
}
