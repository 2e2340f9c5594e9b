/** The string routines among the C solutions of the code browser
    (codes.js): `ft_strlen`, `ft_strdup` and `ft_strrev` on NUL-terminated
    character buffers, and the programs `union`, `inter` and `wdmatch`,
    whose output is the text they write. `malloc` always succeeds. */
module CStrings {
  import Lists

  // ---- NUL-terminated buffers ----

  /** The buffer holds a C string: a NUL somewhere. */
  predicate Terminated(a: seq<char>) {
    '\0' in a
  }

  /** The length of the C string a buffer holds: the position of its first
      NUL. */
  function Len(a: seq<char>): (n: nat)
    requires Terminated(a)
    ensures n < |a| && a[n] == '\0'
    ensures forall k :: 0 <= k < n ==> a[k] != '\0'
  {
    var n := Lists.IndexOf(a, '\0');
    assert forall k :: 0 <= k < n ==> a[k] == a[..n][k];
    n
  }

  /** The characters of the C string, without its terminator. */
  function Content(a: seq<char>): (s: string)
    requires Terminated(a)
    ensures NoNul(s)
  {
    a[..Len(a)]
  }

  predicate NoNul(s: string) {
    forall k :: 0 <= k < |s| ==> s[k] != '\0'
  }

  /** A text followed by its terminator reads back as that text. */
  lemma ContentOfTerminated(s: string, rest: seq<char>)
    requires NoNul(s)
    ensures Terminated(s + ['\0'] + rest) && Content(s + ['\0'] + rest) == s
  {
    var a := s + ['\0'] + rest;
    assert forall k :: 0 <= k < |s| ==> a[k] == s[k];
    assert a[|s|] == '\0';
    assert a[..|s|] == s;
  }

  /** `ft_strlen`: the characters before the first NUL are counted. */
  method FtStrlen(str: array<char>) returns (i: int)
    requires Terminated(str[..])
    ensures i == Len(str[..]) && i == |Content(str[..])|
  {
    i := 0;
    while str[i] != '\0'
      invariant 0 <= i <= Len(str[..])
      decreases Len(str[..]) - i
    {
      i := i + 1;
    }
  }

  /** `ft_strdup`: a fresh buffer holding the same C string. */
  method FtStrdup(src: array<char>) returns (dup: array<char>)
    requires Terminated(src[..])
    ensures fresh(dup) && dup.Length == Len(src[..]) + 1
    ensures dup[..] == Content(src[..]) + ['\0']
    ensures Terminated(dup[..]) && Content(dup[..]) == Content(src[..])
  {
    var len := FtStrlen(src);
    dup := new char[len + 1];
    var i := 0;
    while src[i] != '\0'
      invariant 0 <= i <= len
      invariant dup[..i] == src[..i]
      decreases len - i
    {
      dup[i] := src[i];
      i := i + 1;
    }
    dup[i] := '\0';
    assert dup[..] == dup[..i] + ['\0'];
    ContentOfTerminated(Content(src[..]), []);
    assert Content(src[..]) + ['\0'] + [] == dup[..];
  }

  /** The characters of s in the opposite order. */
  function Reverse(s: string): (r: string)
    ensures |r| == |s| && forall k :: 0 <= k < |s| ==> r[k] == s[|s| - 1 - k]
  {
    if s == [] then [] else Reverse(s[1..]) + [s[0]]
  }

  /** Reversing twice gives the text back. */
  lemma ReverseReverse(s: string)
    ensures Reverse(Reverse(s)) == s
  {
  }

  /** The buffer s after the first i swaps of ft_strrev on a C string of
      length len: the first i and the last i characters of the string have
      traded places, everything else is as it was. */
  function Swapped(s: seq<char>, len: nat, i: nat): (r: seq<char>)
    requires len <= |s|
    ensures |r| == |s|
  {
    seq(|s|, k requires 0 <= k < |s| =>
      if k < len && (k < i || len - i <= k) then s[len - 1 - k] else s[k])
  }

  /** One more swap, of positions i and len - 1 - i. */
  lemma SwapStep(s: seq<char>, len: nat, i: nat, a: seq<char>)
    requires len <= |s| && i < len - 1 - i && a == Swapped(s, len, i)
    ensures a[i := a[len - 1 - i]][len - 1 - i := a[i]] == Swapped(s, len, i + 1)
  {
  }

  /** Once the two ends meet, the string is reversed. */
  lemma SwapDone(s: seq<char>, len: nat, i: nat)
    requires len <= |s| && len - 1 - i <= i <= len - i
    ensures Swapped(s, len, i) == Reverse(s[..len]) + s[len..]
  {
  }

  /** `ft_strrev`: the characters of the C string reversed in place, the
      terminator and whatever follows it untouched; the same buffer is
      returned. */
  method FtStrrev(str: array<char>) returns (r: array<char>)
    requires Terminated(str[..])
    modifies str
    ensures r == str
    ensures str[..] == Reverse(Content(old(str[..]))) + old(str[..])[Len(old(str[..]))..]
  {
    ghost var s := str[..];
    var len := FtStrlen(str);
    var i := 0;
    var j := len - 1;
    while i < j
      invariant 0 <= i && j == len - 1 - i && i <= len - i
      invariant str[..] == Swapped(s, len, i)
    {
      ghost var before := str[..];
      SwapStep(s, len, i, before);
      var tmp := str[i];
      str[i] := str[j];
      str[j] := tmp;
      assert str[..] == before[i := before[j]][j := before[i]];
      i := i + 1;
      j := j - 1;
    }
    SwapDone(s, len, i);
    r := str;
  }

  /** Reversing in place twice restores the C string. */
  lemma StrrevTwice(a: seq<char>)
    requires Terminated(a)
    ensures var b := Reverse(Content(a)) + a[Len(a)..];
      Terminated(b) && Len(b) == Len(a) && Reverse(Content(b)) + b[Len(b)..] == a
  {
    var c := Content(a);
    var rest := a[Len(a)..];
    var b := Reverse(c) + rest;
    assert rest == ['\0'] + a[Len(a) + 1..];
    ContentOfTerminated(Reverse(c), a[Len(a) + 1..]);
    assert b == Reverse(c) + ['\0'] + a[Len(a) + 1..];
    assert Len(b) == |Reverse(c)| == Len(a);
    assert b[Len(b)..] == rest;
    ReverseReverse(c);
    assert a == c + rest;
  }

  // ---- the command-line programs ----

  // A program receives its name and its arguments in `argv`; an argument
  // is a C string, so it holds no NUL.

  /** `argv[i][k]` in C: the character, or the terminator past the end. */
  function At(s: string, k: nat): char {
    if k < |s| then s[k] else '\0'
  }

  /** A C `char` read as `unsigned char`: the program indexes a table of
      256 entries with it. */
  predicate Bytes(s: string) {
    forall k :: 0 <= k < |s| ==> s[k] as int < 256
  }

  /** The characters of s at their first occurrence, in order. */
  function FirstOccurrences(s: string): (r: string)
    decreases |s|
  {
    if s == [] then []
    else
      var p := s[..|s| - 1];
      var c := s[|s| - 1];
      if c in p then FirstOccurrences(p) else FirstOccurrences(p) + [c]
  }

  /** The first occurrences hold every character of s, and each once. */
  lemma {:induction false} FirstOccurrencesFacts(s: string)
    ensures forall c :: c in FirstOccurrences(s) <==> c in s
    ensures Lists.Distinct(FirstOccurrences(s))
    decreases |s|
  {
    if s != [] {
      var p := s[..|s| - 1];
      FirstOccurrencesFacts(p);
      assert s == p + [s[|s| - 1]];
    }
  }

  /** One more character is kept exactly when it has not occurred yet. */
  lemma FirstOccurrencesSnoc(s: string, c: char)
    ensures FirstOccurrences(s + [c]) ==
      if c in FirstOccurrences(s) then FirstOccurrences(s) else FirstOccurrences(s) + [c]
  {
    assert (s + [c])[..|s|] == s;
    FirstOccurrencesFacts(s);
  }

  /** A table of 256 flags, indexed by `unsigned char`, that marks the
      characters of `marked`. */
  predicate Marks(table: seq<int>, marked: string) {
    |table| == 256
    && (forall b :: 0 <= b < 256 ==> (table[b] == 1 <==> (b as char) in marked))
    && (forall b :: 0 <= b < 256 ==> table[b] == 0 || table[b] == 1)
  }

  /** The flag of a character tells whether it is marked. */
  lemma MarksAt(table: seq<int>, marked: string, c: char)
    requires Marks(table, marked) && c as int < 256
    ensures table[c as int] == 1 <==> c in marked
  {
    assert (c as int) as char == c;
  }

  /** Setting the flag of c marks c as well. */
  lemma MarksSet(table: seq<int>, marked: string, c: char)
    requires Marks(table, marked) && c as int < 256
    ensures Marks(table[c as int := 1], marked + [c])
  {
    assert (c as int) as char == c;
  }

  /** Marking a character a second time changes nothing. */
  lemma MarksAgain(table: seq<int>, marked: string, c: char)
    requires Marks(table, marked) && c in marked
    ensures Marks(table, marked + [c])
  {
  }

  /** `init_seen`: every flag cleared. */
  method InitSeen(seen: array<int>)
    requires seen.Length == 256
    modifies seen
    ensures Marks(seen[..], "")
  {
    var i := 0;
    while i < 256
      invariant 0 <= i <= 256 && forall b :: 0 <= b < i ==> seen[b] == 0
    {
      seen[i] := 0;
      i := i + 1;
    }
  }

  /** `print_unique_from`: the characters of str not marked yet are written
      and marked. With `scanned` the text the table has seen so far, the
      output grows from the first occurrences of `scanned` to those of
      `scanned + str`. */
  method PrintUniqueFrom(str: string, seen: array<int>, ghost scanned: string, out: string)
    returns (out': string)
    requires NoNul(str) && Bytes(str)
    requires Marks(seen[..], scanned) && out == FirstOccurrences(scanned)
    modifies seen
    ensures Marks(seen[..], scanned + str) && out' == FirstOccurrences(scanned + str)
  {
    out' := out;
    var i := 0;
    assert scanned + str[..0] == scanned;
    while At(str, i) != '\0'
      invariant 0 <= i <= |str|
      invariant Marks(seen[..], scanned + str[..i])
      invariant out' == FirstOccurrences(scanned + str[..i])
      decreases |str| - i
    {
      var c := str[i] as int;
      ghost var before := seen[..];
      ghost var printed := out';
      if seen[c] == 0 {
        seen[c] := 1;
        out' := out' + [str[i]];
      }
      UniqueStep(before, seen[..], scanned, str, i, printed, out');
      i := i + 1;
    }
    assert str[..i] == str;
  }

  /** One character of print_unique_from: written and marked when its flag
      was clear, left alone otherwise. */
  lemma UniqueStep(before: seq<int>, after: seq<int>, scanned: string, str: string, i: nat,
                   out: string, out': string)
    requires i < |str| && str[i] as int < 256
    requires Marks(before, scanned + str[..i]) && out == FirstOccurrences(scanned + str[..i])
    requires before[str[i] as int] == 0 ==> after == before[str[i] as int := 1] && out' == out + [str[i]]
    requires before[str[i] as int] != 0 ==> after == before && out' == out
    ensures Marks(after, scanned + str[..i + 1]) && out' == FirstOccurrences(scanned + str[..i + 1])
  {
    var t := scanned + str[..i];
    assert scanned + str[..i + 1] == t + [str[i]];
    FirstOccurrencesSnoc(t, str[i]);
    FirstOccurrencesFacts(t);
    MarksAt(before, t, str[i]);
    if before[str[i] as int] == 0 {
      MarksSet(before, t, str[i]);
    } else {
      MarksAgain(before, t, str[i]);
    }
  }

  /** `union`: with two arguments, every character of either, once, in
      the order of first appearance, then a newline; otherwise a lone
      newline. */
  method Union(argv: seq<string>) returns (out: string)
    requires |argv| == 3 ==> NoNul(argv[1]) && NoNul(argv[2]) && Bytes(argv[1]) && Bytes(argv[2])
    ensures |argv| != 3 ==> out == "\n"
    ensures |argv| == 3 ==> out == FirstOccurrences(argv[1] + argv[2]) + "\n"
  {
    if |argv| != 3 {
      out := "\n";
      return;
    }
    var seen := new int[256];
    InitSeen(seen);
    out := PrintUniqueFrom(argv[1], seen, "", "");
    assert "" + argv[1] == argv[1];
    out := PrintUniqueFrom(argv[2], seen, argv[1], out);
    out := out + "\n";
  }

  /** The characters of s that also occur in t, in the order of s. */
  function Common(s: string, t: string): string
    decreases |s|
  {
    if s == [] then []
    else
      var p := s[..|s| - 1];
      var c := s[|s| - 1];
      if c in t then Common(p, t) + [c] else Common(p, t)
  }

  /** The common characters are those of s that occur in t. */
  lemma {:induction false} CommonChars(s: string, t: string)
    ensures forall c :: c in Common(s, t) <==> c in s && c in t
    decreases |s|
  {
    if s != [] {
      var p := s[..|s| - 1];
      CommonChars(p, t);
      assert s == p + [s[|s| - 1]];
    }
  }

  lemma CommonSnoc(s: string, c: char, t: string)
    ensures Common(s + [c], t) == Common(s, t) + (if c in t then [c] else [])
  {
    assert (s + [c])[..|s|] == s;
  }

  /** `mark_seen`: the characters of str marked. */
  method MarkSeen(str: string, seen: array<int>)
    requires NoNul(str) && Bytes(str) && Marks(seen[..], "")
    modifies seen
    ensures Marks(seen[..], str)
  {
    var i := 0;
    while At(str, i) != '\0'
      invariant 0 <= i <= |str| && Marks(seen[..], str[..i])
      decreases |str| - i
    {
      var c := str[i] as int;
      ghost var before := seen[..];
      assert str[..i + 1] == str[..i] + [str[i]];
      seen[c] := 1;
      assert seen[..] == before[c := 1];
      MarksSet(before, str[..i], str[i]);
      i := i + 1;
    }
    assert str[..i] == str;
  }

  /** `print_intersection`: the characters of str that are marked in
      `seen` and not yet in `printed` are written and recorded. The output
      is the first occurrences of str's characters that are also in the
      first argument. */
  method PrintIntersection(str: string, seen: array<int>, printed: array<int>, ghost first: string)
    returns (out: string)
    requires NoNul(str) && Bytes(str) && seen != printed
    requires Marks(seen[..], first) && Marks(printed[..], "")
    modifies printed
    ensures out == FirstOccurrences(Common(str, first))
    ensures Marks(printed[..], out)
  {
    out := "";
    var i := 0;
    ghost var table := seen[..];
    while At(str, i) != '\0'
      invariant 0 <= i <= |str|
      invariant seen[..] == table
      invariant out == FirstOccurrences(Common(str[..i], first))
      invariant Marks(printed[..], out)
      decreases |str| - i
    {
      var c := str[i] as int;
      ghost var before := printed[..];
      ghost var written := out;
      if seen[c] == 1 && printed[c] == 0 {
        printed[c] := 1;
        out := out + [str[i]];
      }
      InterStep(table, first, before, printed[..], str, i, written, out);
      i := i + 1;
    }
    assert str[..i] == str;
  }

  /** One character of print_intersection: written and recorded when it
      is marked in the first table and not yet in the second, left alone
      otherwise. */
  lemma InterStep(table: seq<int>, first: string, before: seq<int>, after: seq<int>,
                  str: string, i: nat, out: string, out': string)
    requires i < |str| && str[i] as int < 256
    requires Marks(table, first) && Marks(before, out)
    requires out == FirstOccurrences(Common(str[..i], first))
    requires table[str[i] as int] == 1 && before[str[i] as int] == 0 ==>
      after == before[str[i] as int := 1] && out' == out + [str[i]]
    requires !(table[str[i] as int] == 1 && before[str[i] as int] == 0) ==>
      after == before && out' == out
    ensures Marks(after, out') && out' == FirstOccurrences(Common(str[..i + 1], first))
  {
    var p := str[..i];
    assert str[..i + 1] == p + [str[i]];
    CommonSnoc(p, str[i], first);
    FirstOccurrencesSnoc(Common(p, first), str[i]);
    MarksAt(table, first, str[i]);
    MarksAt(before, out, str[i]);
    if table[str[i] as int] == 1 && before[str[i] as int] == 0 {
      MarksSet(before, out, str[i]);
    }
  }

  /** `inter`: with two arguments, the characters of the second that also
      occur in the first, once each, in the order of the second, then a
      newline; otherwise a lone newline. */
  method Inter(argv: seq<string>) returns (out: string)
    requires |argv| == 3 ==> NoNul(argv[1]) && NoNul(argv[2]) && Bytes(argv[1]) && Bytes(argv[2])
    ensures |argv| != 3 ==> out == "\n"
    ensures |argv| == 3 ==> out == FirstOccurrences(Common(argv[2], argv[1])) + "\n"
  {
    if |argv| != 3 {
      out := "\n";
      return;
    }
    var seen := new int[256];
    var printed := new int[256];
    InitSeen(seen);
    InitSeen(printed);
    MarkSeen(argv[1], seen);
    out := PrintIntersection(argv[2], seen, printed, argv[1]);
    out := out + "\n";
  }

  /** What inter writes before its newline holds exactly the characters
      found in both arguments, each once. */
  lemma InterIsIntersection(a: string, b: string)
    ensures forall c :: c in FirstOccurrences(Common(b, a)) <==> c in a && c in b
    ensures Lists.Distinct(FirstOccurrences(Common(b, a)))
  {
    FirstOccurrencesFacts(Common(b, a));
    CommonChars(b, a);
  }

  /** What union writes before its newline holds exactly the characters
      found in either argument, each once. */
  lemma UnionIsUnion(a: string, b: string)
    ensures forall c :: c in FirstOccurrences(a + b) <==> c in a || c in b
    ensures Lists.Distinct(FirstOccurrences(a + b))
  {
    FirstOccurrencesFacts(a + b);
  }

  // ---- wdmatch ----

  /** s can be read off t left to right, skipping characters of t. */
  predicate Subsequence(s: string, t: string)
    decreases |t|
  {
    s == []
    || (t != [] && ((s[0] == t[0] && Subsequence(s[1..], t[1..])) || Subsequence(s, t[1..])))
  }

  /** How far into s the greedy scan of wdmatch gets: starting with i
      characters of s matched, each character of t that equals the next
      one of s matches it. */
  function Greedy(s: string, i: nat, t: string): (r: nat)
    requires i <= |s|
    ensures i <= r <= |s|
    decreases |t|
  {
    if t == [] then i
    else Greedy(s, if i < |s| && s[i] == t[0] then i + 1 else i, t[1..])
  }

  /** Dropping the first character of a subsequence leaves a subsequence. */
  lemma {:induction false} SubsequenceTail(s: string, t: string)
    requires s != [] && Subsequence(s, t)
    ensures Subsequence(s[1..], t)
    decreases |t|
  {
    if s[1..] != [] {
      if s[0] == t[0] && Subsequence(s[1..], t[1..]) {
        if s[1..] != [] {
          SubsequenceTail(s[1..], t[1..]);
        }
      } else {
        SubsequenceTail(s, t[1..]);
      }
    }
  }

  /** The greedy scan matches all of s exactly when the rest of s is a
      subsequence of t: greed loses no match. */
  lemma {:induction false} GreedyComplete(s: string, i: nat, t: string)
    requires i <= |s|
    ensures Greedy(s, i, t) == |s| <==> Subsequence(s[i..], t)
    decreases |t|
  {
    if t != [] {
      if i < |s| && s[i] == t[0] {
        GreedyComplete(s, i + 1, t[1..]);
        assert s[i..][1..] == s[i + 1..];
        if Subsequence(s[i..], t[1..]) {
          SubsequenceTail(s[i..], t[1..]);
        }
      } else {
        GreedyComplete(s, i, t[1..]);
      }
    }
  }

  /** `wdmatch`: with two arguments, the first is written when its
      characters can be found in the second in order, and a newline
      follows; otherwise a lone newline. */
  method Wdmatch(argv: seq<string>) returns (out: string)
    requires |argv| == 3 ==> NoNul(argv[1]) && NoNul(argv[2])
    ensures |argv| != 3 ==> out == "\n"
    ensures |argv| == 3 ==> out == (if Greedy(argv[1], 0, argv[2]) == |argv[1]| then argv[1] else "") + "\n"
  {
    if |argv| != 3 {
      out := "\n";
      return;
    }
    var s := argv[1];
    var t := argv[2];
    var i := 0;
    var j := 0;
    while At(t, j) != '\0'
      invariant 0 <= j <= |t| && 0 <= i <= |s|
      invariant Greedy(s, i, t[j..]) == Greedy(s, 0, t)
      decreases |t| - j
    {
      assert t[j..][1..] == t[j + 1..];
      if At(s, i) == t[j] {
        i := i + 1;
      }
      j := j + 1;
    }
    out := "";
    if At(s, i) == '\0' {
      out := s;
    }
    out := out + "\n";
  }

  /** wdmatch writes its first argument exactly when that argument is a
      subsequence of the second. */
  lemma WdmatchSpec(s: string, t: string)
    ensures Greedy(s, 0, t) == |s| <==> Subsequence(s, t)
  {
    GreedyComplete(s, 0, t);
    assert s[0..] == s;
  }
}
