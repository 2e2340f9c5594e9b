/** The word routines among the C solutions of the code browser
    (codes.js): the program `last_word` and `ft_split` with its helpers
    `count_words`, `word_len` and `copy_word`. Both are specified by one
    reference definition of the words of a text, the maximal runs of
    characters that are not separators. `malloc` always succeeds. */
module CWords {
  import opened Lists
  import opened Text
  import CStrings

  /** The separators of last_word (its `is_space`: space and tab) and of
      ft_split (its `is_sep`: space, tab and newline). */
  const Blanks: set<char> := {' ', '\t'}
  const Separators: set<char> := {' ', '\t', '\n'}

  predicate IsBlank(c: char) {
    c in Blanks
  }

  predicate IsSep(c: char) {
    c in Separators
  }

  /** No character of w is a separator. */
  predicate NoSep(w: string, sep: set<char>) {
    forall k :: 0 <= k < |w| ==> w[k] !in sep
  }

  /** One more character c read after the words ws: a separator adds
      nothing, a non-separator that follows a non-separator extends the
      last word, any other starts a new word. */
  function Push(ws: seq<string>, afterSep: bool, c: char, sep: set<char>): seq<string> {
    if c in sep then ws
    else if !afterSep && ws != [] then ws[..|ws| - 1] + [ws[|ws| - 1] + [c]]
    else ws + [[c]]
  }

  /** Every character of s[i..k] is in sep (read from the right, so that
      extending the run by one character is one unfolding). */
  predicate AllIn(s: string, i: nat, k: nat, sep: set<char>)
    requires i <= k <= |s|
    decreases k - i
  {
    i == k || (s[k - 1] in sep && AllIn(s, i, k - 1, sep))
  }

  /** No character of s[i..k] is in sep. */
  predicate NoneIn(s: string, i: nat, k: nat, sep: set<char>)
    requires i <= k <= |s|
    decreases k - i
  {
    i == k || (s[k - 1] !in sep && NoneIn(s, i, k - 1, sep))
  }

  lemma {:induction false} NoneInAt(s: string, i: nat, k: nat, sep: set<char>, j: nat)
    requires i <= j < k <= |s| && NoneIn(s, i, k, sep)
    ensures s[j] !in sep
    decreases k - i
  {
    if j < k - 1 {
      NoneInAt(s, i, k - 1, sep, j);
    }
  }

  lemma {:induction false} AllInOf(s: string, i: nat, k: nat, sep: set<char>)
    requires i <= k <= |s| && forall j :: i <= j < k ==> s[j] in sep
    ensures AllIn(s, i, k, sep)
    decreases k - i
  {
    if i < k {
      AllInOf(s, i, k - 1, sep);
    }
  }

  lemma {:induction false} NoneInOf(s: string, i: nat, k: nat, sep: set<char>)
    requires i <= k <= |s| && forall j :: i <= j < k ==> s[j] !in sep
    ensures NoneIn(s, i, k, sep)
    decreases k - i
  {
    if i < k {
      NoneInOf(s, i, k - 1, sep);
    }
  }

  /** The words of the first n characters of s: their maximal runs of
      non-separators, in order. */
  function WordsTo(s: string, n: nat, sep: set<char>): (ws: seq<string>)
    requires n <= |s|
    ensures n > 0 && s[n - 1] !in sep ==> ws != []
  {
    if n == 0 then []
    else Push(WordsTo(s, n - 1, sep), n == 1 || s[n - 2] in sep, s[n - 1], sep)
  }

  /** The words of s. */
  function Words(s: string, sep: set<char>): seq<string> {
    WordsTo(s, |s|, sep)
  }

  /** Every word is non-empty and holds no separator. */
  lemma {:induction false} WordsShape(s: string, n: nat, sep: set<char>)
    requires n <= |s|
    ensures forall i :: 0 <= i < |WordsTo(s, n, sep)| ==>
      WordsTo(s, n, sep)[i] != [] && NoSep(WordsTo(s, n, sep)[i], sep)
  {
    if n > 0 {
      WordsShape(s, n - 1, sep);
    }
  }

  /** The words of a prefix do not depend on what follows it. */
  lemma {:induction false} WordsToPrefix(s: string, t: string, n: nat, sep: set<char>)
    requires n <= |s| && n <= |t| && s[..n] == t[..n]
    ensures WordsTo(s, n, sep) == WordsTo(t, n, sep)
  {
    if n > 0 {
      assert s[n - 1] == s[..n][n - 1] == t[n - 1];
      if n > 1 {
        assert s[n - 2] == s[..n][n - 2] == t[n - 2];
      }
      assert s[..n - 1] == s[..n][..n - 1];
      WordsToPrefix(s, t, n - 1, sep);
    }
  }

  /** Separators at the end add no word. */
  lemma {:induction false} WordsTrailing(s: string, i: nat, k: nat, sep: set<char>)
    requires i <= k <= |s| && AllIn(s, i, k, sep)
    ensures WordsTo(s, k, sep) == WordsTo(s, i, sep)
  {
    if i < k {
      WordsTrailing(s, i, k - 1, sep);
    }
  }

  /** A run of non-separators that starts the text or follows a separator
      is one more word. */
  lemma {:induction false} WordsRun(s: string, i: nat, k: nat, sep: set<char>)
    requires i < k <= |s| && (i == 0 || s[i - 1] in sep) && NoneIn(s, i, k, sep)
    ensures WordsTo(s, k, sep) == WordsTo(s, i, sep) + [s[i..k]]
  {
    if k - 1 > i {
      assert s[k - 2] !in sep;
      WordsRun(s, i, k - 1, sep);
      WordsRunStep(s, i, k, sep);
    } else {
      WordsRunStart(s, i, sep);
    }
  }

  /** The first character of a run starts a new word. */
  lemma WordsRunStart(s: string, i: nat, sep: set<char>)
    requires i < |s| && (i == 0 || s[i - 1] in sep) && s[i] !in sep
    ensures WordsTo(s, i + 1, sep) == WordsTo(s, i, sep) + [s[i..i + 1]]
  {
    assert s[i..i + 1] == [s[i]];
  }

  /** A later character of a run extends its word. */
  lemma WordsRunStep(s: string, i: nat, k: nat, sep: set<char>)
    requires i + 1 < k <= |s| && s[k - 2] !in sep && s[k - 1] !in sep
    requires WordsTo(s, k - 1, sep) == WordsTo(s, i, sep) + [s[i..k - 1]]
    ensures WordsTo(s, k, sep) == WordsTo(s, i, sep) + [s[i..k]]
  {
    PushExtend(WordsTo(s, i, sep), s[i..k - 1], s[k - 1], sep);
    SliceSnoc(s, i, k);
  }

  lemma SliceSnoc(s: string, i: nat, k: nat)
    requires i < k <= |s|
    ensures s[i..k] == s[i..k - 1] + [s[k - 1]]
  {
  }

  /** A non-separator read right after a word extends that word. */
  lemma PushExtend(x: seq<string>, w: string, c: char, sep: set<char>)
    requires c !in sep
    ensures Push(x + [w], false, c, sep) == x + [w + [c]]
  {
    var xw := x + [w];
    assert xw[..|xw| - 1] == x;
  }

  /** The word count never drops as the text grows. */
  lemma {:induction false} WordsGrow(s: string, i: nat, k: nat, sep: set<char>)
    requires i <= k <= |s|
    ensures |WordsTo(s, i, sep)| <= |WordsTo(s, k, sep)|
  {
    if i < k {
      WordsGrow(s, i, k - 1, sep);
    }
  }

  /** A word after a separator is one more word. */
  lemma WordsAppendWord(a: string, c: char, w: string, sep: set<char>)
    requires c in sep && w != [] && NoSep(w, sep)
    ensures Words(a + [c] + w, sep) == Words(a, sep) + [w]
  {
    var s := a + [c] + w;
    var m := |a| + 1;
    assert s[..|a|] == a[..|a|];
    WordsToPrefix(s, a, |a|, sep);
    assert s[|a|] == c;
    WordsTrailing(s, |a|, m, sep);
    forall j | m <= j < |s|
      ensures s[j] !in sep
    {
      assert s[j] == w[j - m];
    }
    NoneInOf(s, m, |s|, sep);
    WordsRun(s, m, |s|, sep);
    assert s[m..|s|] == w;
  }

  /** A single run of non-separators is one word. */
  lemma {:induction false} WordsSingle(w: string, n: nat, sep: set<char>)
    requires 0 < n <= |w| && NoSep(w, sep)
    ensures WordsTo(w, n, sep) == [w[..n]]
  {
    NoneInOf(w, 0, n, sep);
    WordsRun(w, 0, n, sep);
    assert w[0..n] == w[..n];
  }

  /** Words joined by a separator split back into the same words. */
  lemma {:induction false} WordsJoin(ws: seq<string>, c: char, sep: set<char>)
    requires c in sep && forall i :: 0 <= i < |ws| ==> ws[i] != [] && NoSep(ws[i], sep)
    ensures Words(Join(ws, [c]), sep) == ws
    decreases |ws|
  {
    if |ws| == 1 {
      WordsSingle(ws[0], |ws[0]|, sep);
      assert ws[0][..|ws[0]|] == ws[0];
    } else if |ws| > 1 {
      var init := ws[..|ws| - 1];
      var w := ws[|ws| - 1];
      assert ws == init + [w];
      JoinSnoc(init, w, [c]);
      WordsJoin(init, c, sep);
      WordsAppendWord(Join(init, [c]), c, w, sep);
    }
  }

  /** One round of ft_split's loop: from a position that starts the text or
      holds a separator, skipping separators up to p and then a run of
      non-separators up to e adds exactly the word s[p..e]. */
  lemma SplitRound(s: string, q: nat, p: nat, e: nat, sep: set<char>)
    requires q <= p < e <= |s| && (q == 0 || s[q] in sep)
    requires AllIn(s, q, p, sep) && NoneIn(s, p, e, sep)
    ensures WordsTo(s, e, sep) == WordsTo(s, q, sep) + [s[p..e]]
    ensures |WordsTo(s, e, sep)| <= |Words(s, sep)|
  {
    WordsTrailing(s, q, p, sep);
    NoneInAt(s, p, e, sep, p);
    WordsRun(s, p, e, sep);
    WordsGrow(s, e, |s|, sep);
  }

  // ---- last_word ----

  /** The last word of a list of words, or nothing. */
  function LastOf(ws: seq<string>): string {
    if ws == [] then "" else ws[|ws| - 1]
  }

  /** `last_word`: with one argument, its last word (blanks are spaces and
      tabs) and a newline; otherwise a lone newline. */
  method LastWord(argv: seq<string>) returns (out: string)
    requires |argv| == 2 ==> CStrings.NoNul(argv[1])
    ensures |argv| != 2 ==> out == "\n"
    ensures |argv| == 2 ==> out == LastOf(Words(argv[1], Blanks)) + "\n"
  {
    if |argv| != 2 {
      out := "\n";
      return;
    }
    var s := argv[1];
    var i := 0;
    while CStrings.At(s, i) != '\0'
      invariant 0 <= i <= |s|
      decreases |s| - i
    {
      i := i + 1;
    }
    assert i == |s|;
    ghost var n := i;
    while i > 0 && IsBlank(s[i - 1])
      invariant 0 <= i <= n && forall j :: i <= j < n ==> IsBlank(s[j])
    {
      i := i - 1;
    }
    var start := i;
    while start > 0 && !IsBlank(s[start - 1])
      invariant 0 <= start <= i && forall j :: start <= j < i ==> !IsBlank(s[j])
    {
      start := start - 1;
    }
    out := "";
    var k := start;
    while k < i
      invariant start <= k <= i && out == s[start..k]
    {
      out := out + [s[k]];
      k := k + 1;
    }
    AllInOf(s, i, n, Blanks);
    WordsTrailing(s, i, n, Blanks);
    if start < i {
      NoneInOf(s, start, i, Blanks);
      WordsRun(s, start, i, Blanks);
      assert LastOf(Words(s, Blanks)) == s[start..i];
    } else {
      assert i == 0;
    }
    out := out + "\n";
  }

  // ---- ft_split ----

  /** `count_words`: the number of words, separators being space, tab and
      newline. */
  method CountWords(str: string) returns (count: int)
    requires CStrings.NoNul(str)
    ensures count == |Words(str, Separators)|
  {
    count := 0;
    var p := 0;
    while CStrings.At(str, p) != '\0'
      invariant 0 <= p <= |str| && (p == 0 || p == |str| || IsSep(str[p]))
      invariant count == |WordsTo(str, p, Separators)|
      decreases |str| - p
    {
      var q := p;
      p := SkipSeparators(str, p);
      WordsTrailing(str, q, p, Separators);
      if CStrings.At(str, p) != '\0' {
        count := count + 1;
        var w := p;
        while CStrings.At(str, p) != '\0' && !IsSep(str[p])
          invariant w <= p <= |str| && NoneIn(str, w, p, Separators)
          decreases |str| - p
        {
          p := p + 1;
        }
        WordsRun(str, w, p, Separators);
      }
    }
  }

  /** The inner `while (*str && is_sep(*str)) str++;` of count_words and
      ft_split: the end of the run of separators at position p. */
  method SkipSeparators(str: string, p: nat) returns (q: nat)
    requires CStrings.NoNul(str) && p <= |str|
    ensures p <= q <= |str| && AllIn(str, p, q, Separators)
    ensures q == |str| || !IsSep(str[q])
  {
    q := p;
    while CStrings.At(str, q) != '\0' && IsSep(str[q])
      invariant p <= q <= |str| && AllIn(str, p, q, Separators)
      decreases |str| - q
    {
      q := q + 1;
    }
  }

  /** `word_len`: the length of the run of non-separators at position p. */
  method WordLen(str: string, p: nat) returns (len: int)
    requires CStrings.NoNul(str) && p <= |str|
    ensures 0 <= len && p + len <= |str|
    ensures NoneIn(str, p, p + len, Separators)
    ensures p + len == |str| || IsSep(str[p + len])
  {
    len := 0;
    while CStrings.At(str, p + len) != '\0' && !IsSep(str[p + len])
      invariant 0 <= len && p + len <= |str| && NoneIn(str, p, p + len, Separators)
      decreases |str| - p - len
    {
      len := len + 1;
    }
  }

  /** One round of ft_split's loop before the copy: skip the separators at
      p, then measure the word that starts there, if any. */
  method ScanWord(s: string, p: nat) returns (start: nat, len: nat)
    requires CStrings.NoNul(s) && p <= |s| && (p == 0 || p == |s| || IsSep(s[p]))
    ensures p <= start <= start + len <= |s| && (start < |s| <==> len > 0)
    ensures start + len == |s| || IsSep(s[start + len])
    ensures WordsTo(s, start + len, Separators)
      == WordsTo(s, p, Separators) + (if len > 0 then [s[start..start + len]] else [])
    ensures |WordsTo(s, start + len, Separators)| <= |Words(s, Separators)|
  {
    start := SkipSeparators(s, p);
    if CStrings.At(s, start) != '\0' {
      var n := WordLen(s, start);
      len := n;
      SplitRound(s, p, start, start + len, Separators);
    } else {
      len := 0;
      WordsTrailing(s, p, start, Separators);
      WordsGrow(s, start, |s|, Separators);
    }
  }

  /** `copy_word`: the len characters at position p, copied. */
  method CopyWord(src: string, p: nat, len: nat) returns (word: string)
    requires p + len <= |src|
    ensures word == src[p..p + len]
  {
    word := "";
    var i := 0;
    while i < len
      invariant 0 <= i <= len && word == src[p..p + i]
    {
      word := word + [src[p + i]];
      i := i + 1;
    }
  }

  /** The table entries of the words ws. */
  function Somes(ws: seq<string>): seq<Option<string>> {
    seq(|ws|, k requires 0 <= k < |ws| => Some(ws[k]))
  }

  /** Storing the next word in ft_split's table. */
  lemma TableStep(before: seq<Option<string>>, after: seq<Option<string>>, i: nat,
                  ws: seq<string>, word: string)
    requires i < |before| && before[..i] == Somes(ws) && after == before[i := Some(word)]
    ensures after[..i + 1] == Somes(ws + [word])
  {
  }

  /** Closing ft_split's table with NULL keeps the words before it. */
  lemma TableFinish(before: seq<Option<string>>, after: seq<Option<string>>, ws: seq<string>)
    requires |before| == |ws| + 1 && before[..|ws|] == Somes(ws)
    requires after == before[|ws| := None]
    ensures after[|ws|] == None && forall k :: 0 <= k < |ws| ==> after[k] == Some(ws[k])
  {
    assert forall k :: 0 <= k < |ws| ==> after[k] == before[..|ws|][k];
  }

  /** `ft_split`: NULL for a NULL text; otherwise a table of the words of
      the text, in order, closed by a NULL entry. */
  method FtSplit(str: Option<string>) returns (tab: Option<array<Option<string>>>)
    requires str.Some? ==> CStrings.NoNul(str.value)
    ensures str.None? <==> tab.None?
    ensures str.Some? ==> var ws := Words(str.value, Separators);
      tab.value.Length == |ws| + 1 && tab.value[|ws|] == None
      && forall k :: 0 <= k < |ws| ==> tab.value[k] == Some(ws[k])
  {
    if str.None? {
      return None;
    }
    var s := str.value;
    var words := CountWords(s);
    var t := new Option<string>[words + 1];
    var i := 0;
    var p := 0;
    ghost var ws: seq<string> := [];
    while CStrings.At(s, p) != '\0'
      invariant 0 <= p <= |s| && (p == 0 || p == |s| || IsSep(s[p]))
      invariant ws == WordsTo(s, p, Separators) && i == |ws| <= words
      invariant t[..i] == Somes(ws)
      decreases |s| - p
    {
      var start, len := ScanWord(s, p);
      if CStrings.At(s, start) != '\0' {
        var word := CopyWord(s, start, len);
        ghost var before := t[..];
        t[i] := Some(word);
        TableStep(before, t[..], i, ws, word);
        ws := ws + [word];
        i := i + 1;
        p := start + len;
      } else {
        p := start;
      }
    }
    assert ws == Words(s, Separators);
    ghost var before := t[..];
    t[i] := None;
    TableFinish(before, t[..], ws);
    tab := Some(t);
  }
}
