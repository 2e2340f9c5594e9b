/** The checks and the final steps of the quiz dataset generator
    (scripts/generate_quiz_dataset.js): `sentenceCount`,
    `hasActionContext`, `normalizeText`, `validateQuestion`, and in
    `buildDataset` the de-duplication of the generated questions, the
    count check and the numbering of the ids. The question templates
    themselves are French text and are a parameter here. */
module QuizGen {
  import opened Lists
  import opened Text
  import AnswerText

  // ---- sentenceCount ----

  const SentenceMarks: set<char> := {'.', '!', '?'}

  /** `s.split(/[.!?]+/)`: the pieces between the maximal runs of marks
      (an empty piece in front of a leading run and after a trailing one). */
  function Pieces(s: string, marks: set<char>): (ps: seq<string>)
    ensures |ps| >= 1
  {
    if s == [] then [""]
    else
      var rest := Pieces(s[1..], marks);
      if s[0] in marks then
        (if |s| > 1 && s[1] in marks then rest else [""] + rest)
      else [[s[0]] + rest[0]] + rest[1..]
  }

  /** The pieces between single marks: a reference split in which a run of
      n marks leaves n - 1 empty pieces. */
  function Cut(s: string, marks: set<char>): (ps: seq<string>)
    ensures |ps| >= 1
  {
    if s == [] then [""]
    else
      var rest := Cut(s[1..], marks);
      if s[0] in marks then [""] + rest
      else [[s[0]] + rest[0]] + rest[1..]
  }

  /** `sentenceCount`: the non-blank pieces of the text between runs of
      `.`, `!` and `?`. */
  function SentenceCount(s: string): (n: nat)
    ensures s == [] ==> n == 0
  {
    assert s == [] ==> Pieces(s, SentenceMarks) == [""] && TrimmedParts([""]) == [];
    |TrimmedParts(Pieces(s, SentenceMarks))|
  }

  /** A text that starts with a mark has an empty first piece. */
  lemma {:induction false} PiecesMarkFirst(s: string, marks: set<char>)
    requires s != [] && s[0] in marks
    ensures Pieces(s, marks)[0] == ""
  {
    if |s| > 1 && s[1] in marks {
      PiecesMarkFirst(s[1..], marks);
    }
  }

  /** Splitting on runs and splitting on single marks give the same first
      piece and the same sentences. */
  lemma {:induction false} PiecesLikeCut(s: string, marks: set<char>)
    ensures Pieces(s, marks)[0] == Cut(s, marks)[0]
    ensures TrimmedParts(Pieces(s, marks)) == TrimmedParts(Cut(s, marks))
  {
    if s != [] {
      var p, c := Pieces(s[1..], marks), Cut(s[1..], marks);
      PiecesLikeCut(s[1..], marks);
      if s[0] in marks {
        if |s| > 1 && s[1] in marks {
          PiecesMarkFirst(s[1..], marks);
          assert TrimmedParts(Cut(s, marks)) == TrimmedParts(c);
        } else {
          assert TrimmedParts(Pieces(s, marks)) == TrimmedParts(p);
          assert TrimmedParts(Cut(s, marks)) == TrimmedParts(c);
        }
      } else {
        PiecesLikeCutTail(s, marks, p, c);
      }
    }
  }

  /** The inductive step of PiecesLikeCut for a text that starts with a
      character other than a mark. */
  lemma PiecesLikeCutTail(s: string, marks: set<char>, p: seq<string>, c: seq<string>)
    requires s != [] && s[0] !in marks
    requires p == Pieces(s[1..], marks) && c == Cut(s[1..], marks)
    requires p[0] == c[0] && TrimmedParts(p) == TrimmedParts(c)
    ensures Pieces(s, marks)[0] == Cut(s, marks)[0]
    ensures TrimmedParts(Pieces(s, marks)) == TrimmedParts(Cut(s, marks))
  {
    var ps, cs := Pieces(s, marks), Cut(s, marks);
    assert ps[1..] == p[1..] && cs[1..] == c[1..];
    var head := TrimmedPart(p[0]);
    assert TrimmedParts(p) == head + TrimmedParts(p[1..]);
    assert TrimmedParts(c) == head + TrimmedParts(c[1..]);
    assert TrimmedParts(p[1..]) == TrimmedParts(c[1..]) by {
      assert TrimmedParts(p[1..]) == TrimmedParts(p)[|head|..];
      assert TrimmedParts(c[1..]) == TrimmedParts(c)[|head|..];
    }
  }

  /** A mark ends the pieces of the text before it and starts those of the
      text after it. */
  lemma {:induction false} CutJoin(a: string, m: char, b: string, marks: set<char>)
    requires m in marks
    ensures Cut(a + [m] + b, marks) == Cut(a, marks) + Cut(b, marks)
  {
    var s := a + [m] + b;
    if a == [] {
      assert s[1..] == b;
    } else {
      assert s[1..] == a[1..] + [m] + b;
      CutJoin(a[1..], m, b, marks);
    }
  }

  /** Text without a mark is one piece. */
  lemma {:induction false} CutPlain(s: string, marks: set<char>)
    requires forall k :: 0 <= k < |s| ==> s[k] !in marks
    ensures Cut(s, marks) == [s]
  {
    if s != [] {
      CutPlain(s[1..], marks);
      assert [s[0]] + s[1..] == s;
    }
  }

  /** A mark separates sentences: the count of the text around it is the
      sum of the counts on either side. */
  lemma SentenceCountJoin(a: string, m: char, b: string)
    requires m in SentenceMarks
    ensures SentenceCount(a + [m] + b) == SentenceCount(a) + SentenceCount(b)
  {
    PiecesLikeCut(a + [m] + b, SentenceMarks);
    PiecesLikeCut(a, SentenceMarks);
    PiecesLikeCut(b, SentenceMarks);
    CutJoin(a, m, b, SentenceMarks);
    TrimmedPartsAppend(Cut(a, SentenceMarks), Cut(b, SentenceMarks));
  }

  /** Text without a mark is one sentence, or none when it is blank. */
  lemma SentenceCountPlain(s: string)
    requires forall k :: 0 <= k < |s| ==> s[k] !in SentenceMarks
    ensures SentenceCount(s) == if Trim(s) == [] then 0 else 1
  {
    PiecesLikeCut(s, SentenceMarks);
    CutPlain(s, SentenceMarks);
    assert TrimmedParts([s]) == TrimmedPart(s) + TrimmedParts([]);
  }

  // ---- normalizeText ----

  /** `toLowerCase` on the letters that can end up as a-z: the ASCII and
      Latin-1 capitals. */
  function Lower(c: char): char {
    var n := c as int;
    if 'A' <= c <= 'Z' || (0xC0 <= n <= 0xDE && n != 0xD7) then (n + 32) as char else c
  }

  /** `normalize('NFD')` followed by the removal of the combining marks
      U+0300..U+036F, on a lower-case Latin-1 letter: its base letter. */
  function Unaccent(c: char): char {
    var n := c as int;
    if 0xE0 <= n <= 0xE5 then 'a'
    else if n == 0xE7 then 'c'
    else if 0xE8 <= n <= 0xEB then 'e'
    else if 0xEC <= n <= 0xEF then 'i'
    else if n == 0xF1 then 'n'
    else if 0xF2 <= n <= 0xF6 then 'o'
    else if 0xF9 <= n <= 0xFC then 'u'
    else if n == 0xFD || n == 0xFF then 'y'
    else c
  }

  predicate IsCombiningMark(c: char) {
    0x300 <= c as int <= 0x36F
  }

  /** Lower case, accents dropped, combining marks removed. */
  function Folded(s: string): string {
    if s == [] then []
    else (if IsCombiningMark(s[0]) then [] else [Unaccent(Lower(s[0]))]) + Folded(s[1..])
  }

  predicate IsAlnum(c: char) {
    'a' <= c <= 'z' || '0' <= c <= '9'
  }

  function NotAlnum(c: char): bool {
    !IsAlnum(c)
  }

  /** `normalizeText`: folded, every run of characters other than a-z and
      0-9 turned into one space, trimmed. The result holds only a-z, 0-9
      and inner spaces. */
  function NormalizeText(s: string): (r: string)
    ensures IsTrimmed(r)
  {
    Trim(CollapseRuns(Folded(s), NotAlnum, " "))
  }

  /** A normalised text holds only a-z, 0-9 and single inner spaces. */
  lemma NormalizedChars(s: string)
    ensures forall k :: 0 <= k < |NormalizeText(s)| ==> IsAlnum(NormalizeText(s)[k]) || NormalizeText(s)[k] == ' '
    ensures IsTrimmed(NormalizeText(s))
  {
    var collapsed := CollapseRuns(Folded(s), NotAlnum, " ");
    TrimInside(collapsed);
    forall k | 0 <= k < |NormalizeText(s)| ensures IsAlnum(NormalizeText(s)[k]) || NormalizeText(s)[k] == ' ' {
      assert NormalizeText(s)[k] in collapsed;
    }
  }

  /** Trimming keeps characters of the text only. */
  lemma TrimInside(s: string)
    ensures forall x :: x in Trim(s) ==> x in s
  {
    var t := TrimStart(s);
    TrimStartShape(s);
    TrimEndShape(t);
    assert forall x :: x in TrimEnd(t) ==> x in t;
    assert forall x :: x in t ==> x in s;
  }

  /** Two texts with the same letters and digits in the same words have the
      same key: case and accents do not matter. */
  lemma NormalizeIgnoresCase(s: string)
    ensures NormalizeText(Folded(s)) == NormalizeText(s)
  {
    FoldedTwice(s);
  }

  lemma {:induction false} FoldedTwice(s: string)
    ensures Folded(Folded(s)) == Folded(s)
  {
    if s != [] {
      FoldedTwice(s[1..]);
      var head := if IsCombiningMark(s[0]) then [] else [Unaccent(Lower(s[0]))];
      FoldedAppend(head, Folded(s[1..]));
    }
  }

  lemma {:induction false} FoldedAppend(a: string, b: string)
    ensures Folded(a + b) == Folded(a) + Folded(b)
  {
    if a == [] {
      assert a + b == b;
    } else {
      assert (a + b)[1..] == a[1..] + b;
      FoldedAppend(a[1..], b);
    }
  }

  // ---- hasActionContext ----

  const ActionWords: seq<string> := ["action", "decision", "décision", "malloc", "free", "unlink",
    "retour", "return", "avancer", "pointeur", "supprimer", "tester", "null", "swap", "boucle",
    "argc", "prototype", "segfault", "off-by-one", "cas limite", "cas", "erreur", "sortie",
    "allouer", "taille", "parcours", "suppression"]

  function LowerText(s: string): (r: string)
    ensures |r| == |s| && forall k :: 0 <= k < |s| ==> r[k] == Lower(s[k])
  {
    seq(|s|, k requires 0 <= k < |s| => Lower(s[k]))
  }

  /** `hasActionContext`: the question and its choices, joined by spaces
      and in lower case, mention one of the action words. */
  predicate HasActionContext(question: string, choices: seq<string>) {
    var haystack := LowerText(question + " " + Join(choices, " "));
    exists w :: w in ActionWords && Contains(haystack, w)
  }

  /** An action word in the question alone is enough, whatever the
      choices. */
  lemma ActionWordInQuestion(question: string, choices: seq<string>, w: string)
    requires w in ActionWords && Contains(LowerText(question), w)
    ensures HasActionContext(question, choices)
  {
    var lq := LowerText(question);
    var haystack := LowerText(question + " " + Join(choices, " "));
    assert haystack[..|lq|] == lq;
    var i :| 0 <= i <= |lq| && w <= lq[i..];
    assert lq[i..] <= haystack[i..];
    assert Contains(haystack, w);
  }

  // ---- validateQuestion ----

  /** The `fn` of every profile. */
  const FunctionNames: seq<string> := ["ft_split", "ft_range", "ft_list_remove_if", "sort_list",
    "itoa", "wdmatch", "union", "atoi"]

  /** The words of `/quel|quelle|quand|comment|qui|dois-tu|decision|décision/i`. */
  const DecisionWords: seq<string> := ["quel", "quelle", "quand", "comment", "qui", "dois-tu",
    "decision", "décision"]

  /** The question names the function of a profile. */
  predicate NamesFunction(q: string) {
    exists fn :: fn in FunctionNames && Contains(q, fn)
  }

  /** The question holds a question word, letter case aside. */
  predicate AsksDecision(q: string) {
    exists w :: w in DecisionWords && AnswerText.CiContains(q, w)
  }

  /** The question tests of validateQuestion: a colon and a question mark,
      the name of a profile function, not the implicit-rules phrasing, and
      a question word. */
  predicate QuestionShaped(q: string) {
    && ':' in q && '?' in q
    && NamesFunction(q)
    && !Contains(q, "Dans les règles implicites")
    && AsksDecision(q)
  }

  /** `[ABCD]` under the `i` flag. */
  predicate IsChoiceLetter(c: char) {
    AnswerText.Fold(c) in {'A', 'B', 'C', 'D'}
  }

  /** `\b[ABCD]\s*<conn>\s*[ABCD]\b` (with the `i` flag) matches at i. The
      `\s*` runs are taken whole: the character after them is never a
      space, so a shorter run cannot match. */
  predicate PairAt(s: string, i: nat, conn: string)
    requires |conn| == 2
  {
    && i < |s| && (i == 0 || !AnswerText.IsWordChar(s[i - 1])) && IsChoiceLetter(s[i])
    && var j := AnswerText.SkipWhile(s, i + 1, IsSpace);
    && AnswerText.CiPrefix(s[j..], conn)
    && var k := AnswerText.SkipWhile(s, j + 2, IsSpace);
    && k < |s| && IsChoiceLetter(s[k]) && (k + 1 == |s| || !AnswerText.IsWordChar(s[k + 1]))
  }

  /** A choice that refers to other choices ("A et B", "C ou D"). */
  predicate MentionsChoicePair(s: string) {
    exists i :: 0 <= i < |s| && (PairAt(s, i, "et") || PairAt(s, i, "ou"))
  }

  /** The test of one choice: at least 25 UTF-16 units once trimmed, and no
      reference to other choices. */
  predicate ChoiceOk(c: string) {
    Utf16Length(Trim(c)) >= 25 && !MentionsChoicePair(c)
  }

  /** A generated question: its theme, the template's fields, and its tags. */
  datatype Item = Item(theme: string, question: string, choices: seq<string>, correct: int,
                       explanation: string, tags: seq<string>)

  /** The tests on the choices: each one passes ChoiceOk and no two have
      the same normalised text. */
  predicate ChoicesOk(choices: seq<string>) {
    && (forall i :: 0 <= i < |choices| ==> ChoiceOk(choices[i]))
    && (forall i, j :: 0 <= i < j < |choices| ==> NormalizeText(choices[i]) != NormalizeText(choices[j]))
  }

  /** What validateQuestion accepts. */
  predicate ValidQuestion(item: Item) {
    && QuestionShaped(item.question)
    && |item.choices| == 4
    && 0 <= item.correct <= 3
    && Utf16Length(item.explanation) >= 70
    && SentenceCount(item.explanation) <= 3
    && HasActionContext(item.question, item.choices)
    && ChoicesOk(item.choices)
  }

  /** The pass over the choices has checked the first k of them with ok
      and holds their keys in seen. */
  ghost predicate ChoicesReach(choices: seq<string>, k: int, seen: set<string>,
                               ok: string -> bool, key: string -> string) {
    && 0 <= k <= |choices|
    && (forall i :: 0 <= i < k ==> key(choices[i]) in seen)
    && (forall x :: x in seen ==> exists i :: 0 <= i < k && key(choices[i]) == x)
    && (forall i :: 0 <= i < k ==> ok(choices[i]))
    && (forall i, j :: 0 <= i < j < k ==> key(choices[i]) != key(choices[j]))
  }

  lemma ChoicesStep(choices: seq<string>, k: int, seen: set<string>,
                    ok: string -> bool, key: string -> string)
    requires ChoicesReach(choices, k, seen, ok, key) && k < |choices|
    requires ok(choices[k]) && key(choices[k]) !in seen
    ensures ChoicesReach(choices, k + 1, seen + {key(choices[k])}, ok, key)
  {
  }

  /** A normalised text seen before rejects the choices. */
  lemma ChoicesRepeat(choices: seq<string>, k: int, seen: set<string>)
    requires ChoicesReach(choices, k, seen, ChoiceOk, NormalizeText) && k < |choices|
    requires NormalizeText(choices[k]) in seen
    ensures !ChoicesOk(choices)
  {
    var i :| 0 <= i < k && NormalizeText(choices[i]) == NormalizeText(choices[k]);
  }

  /** The pass that reaches the end has checked ChoicesOk. */
  lemma ChoicesDone(choices: seq<string>, seen: set<string>)
    requires ChoicesReach(choices, |choices|, seen, ChoiceOk, NormalizeText)
    ensures ChoicesOk(choices)
  {
  }

  /** `validateQuestion`: the tests in the order of the source, then one
      pass over the choices that checks each one and records its
      normalised text in a set, rejecting a text already there. */
  method ValidateQuestion(item: Item) returns (ok: bool)
    ensures ok <==> ValidQuestion(item)
  {
    if !(':' in item.question && '?' in item.question) {
      return false;
    }
    if !NamesFunction(item.question) {
      return false;
    }
    if |item.choices| != 4 {
      return false;
    }
    if item.correct < 0 || item.correct > 3 {
      return false;
    }
    if Utf16Length(item.explanation) < 70 {
      return false;
    }
    if SentenceCount(item.explanation) > 3 {
      return false;
    }
    if Contains(item.question, "Dans les règles implicites") {
      return false;
    }
    if !AsksDecision(item.question) {
      return false;
    }
    if !HasActionContext(item.question, item.choices) {
      return false;
    }
    ok := CheckChoices(item.choices);
  }

  /** The loop of validateQuestion over the choices: each one is checked
      and its normalised text recorded in a set; a text already there
      rejects the question. */
  method CheckChoices(choices: seq<string>) returns (ok: bool)
    ensures ok <==> ChoicesOk(choices)
  {
    var normalizedChoices: set<string> := {};
    var k := 0;
    while k < |choices|
      invariant ChoicesReach(choices, k, normalizedChoices, ChoiceOk, NormalizeText)
    {
      var choice := choices[k];
      if Utf16Length(Trim(choice)) < 25 {
        return false;
      }
      if MentionsChoicePair(choice) {
        return false;
      }
      var key := NormalizeText(choice);
      if key in normalizedChoices {
        ChoicesRepeat(choices, k, normalizedChoices);
        return false;
      }
      ChoicesStep(choices, k, normalizedChoices, ChoiceOk, NormalizeText);
      normalizedChoices := normalizedChoices + {key};
      k := k + 1;
    }
    ChoicesDone(choices, normalizedChoices);
    return true;
  }

  // ---- de-duplication ----

  function ExactKey(item: Item): string {
    item.theme + "|" + item.question
  }

  function NormalizedKey(item: Item): string {
    item.theme + "|" + NormalizeText(item.question)
  }

  function ExactKeys(items: seq<Item>): set<string> {
    if items == [] then {} else ExactKeys(items[..|items| - 1]) + {ExactKey(items[|items| - 1])}
  }

  function NormalizedKeys(items: seq<Item>): set<string> {
    if items == [] then {} else NormalizedKeys(items[..|items| - 1]) + {NormalizedKey(items[|items| - 1])}
  }

  lemma KeysSnoc(items: seq<Item>, x: Item)
    ensures ExactKeys(items + [x]) == ExactKeys(items) + {ExactKey(x)}
    ensures NormalizedKeys(items + [x]) == NormalizedKeys(items) + {NormalizedKey(x)}
  {
    assert (items + [x])[..|items|] == items;
  }

  /** Every item's normalised key is among the keys of the items. */
  lemma {:induction false} NormalizedKeyIn(items: seq<Item>, i: nat)
    requires i < |items|
    ensures NormalizedKey(items[i]) in NormalizedKeys(items)
  {
    if i < |items| - 1 {
      NormalizedKeyIn(items[..|items| - 1], i);
    }
  }

  /** With themes free of `|`, an item whose exact key is among those of
      other items also has its normalised key among theirs. */
  lemma {:induction false} ExactKeyNormalized(items: seq<Item>, x: Item)
    requires PlainThemes(items) && '|' !in x.theme
    requires ExactKey(x) in ExactKeys(items)
    ensures NormalizedKey(x) in NormalizedKeys(items)
  {
    var init, y := items[..|items| - 1], items[|items| - 1];
    if ExactKey(x) == ExactKey(y) {
      KeyParts(x.theme, x.question, y.theme, y.question);
    } else {
      assert PlainThemes(init) by {
        assert forall i :: 0 <= i < |init| ==> init[i] == items[i];
      }
      ExactKeyNormalized(init, x);
    }
  }

  /** The filter of buildDataset over the first items: an item is kept
      unless a kept item before it has the same theme and question, or the
      same theme and normalised question. */
  function Deduped(items: seq<Item>): (r: seq<Item>)
    ensures |r| <= |items|
    ensures forall x :: x in r ==> x in items
  {
    if items == [] then []
    else
      var kept := Deduped(items[..|items| - 1]);
      var x := items[|items| - 1];
      if ExactKey(x) in ExactKeys(kept) || NormalizedKey(x) in NormalizedKeys(kept) then kept
      else kept + [x]
  }

  /** One more item: the filter keeps it unless its exact or normalised
      key is already among those kept. */
  lemma DedupedPrefix(items: seq<Item>, i: int)
    requires 0 <= i < |items|
    ensures Deduped(items[..i + 1]) ==
      var kept := Deduped(items[..i]);
      if ExactKey(items[i]) in ExactKeys(kept) || NormalizedKey(items[i]) in NormalizedKeys(kept)
      then kept else kept + [items[i]]
  {
    assert items[..i + 1][..i] == items[..i];
  }

  /** The filter has gone over the first i items: filtered is what it
      kept and the two sets hold the kept items' keys. */
  ghost predicate DedupReaches(dataset: seq<Item>, i: int, filtered: seq<Item>,
                               unique: set<string>, uniqueNormalized: set<string>) {
    && 0 <= i <= |dataset|
    && filtered == Deduped(dataset[..i])
    && unique == ExactKeys(filtered) && uniqueNormalized == NormalizedKeys(filtered)
  }

  /** One turn of the filter: the item is skipped when one of its keys is
      in the sets, otherwise kept and its keys added. */
  lemma DedupStep(dataset: seq<Item>, i: int, filtered: seq<Item>, unique: set<string>,
                  uniqueNormalized: set<string>, filtered': seq<Item>, unique': set<string>,
                  uniqueNormalized': set<string>)
    requires DedupReaches(dataset, i, filtered, unique, uniqueNormalized) && i < |dataset|
    requires ExactKey(dataset[i]) in unique || NormalizedKey(dataset[i]) in uniqueNormalized ==>
      filtered' == filtered && unique' == unique && uniqueNormalized' == uniqueNormalized
    requires !(ExactKey(dataset[i]) in unique || NormalizedKey(dataset[i]) in uniqueNormalized) ==>
      && filtered' == filtered + [dataset[i]] && unique' == unique + {ExactKey(dataset[i])}
      && uniqueNormalized' == uniqueNormalized + {NormalizedKey(dataset[i])}
    ensures DedupReaches(dataset, i + 1, filtered', unique', uniqueNormalized')
  {
    DedupedPrefix(dataset, i);
    KeysSnoc(filtered, dataset[i]);
  }

  lemma DedupDone(dataset: seq<Item>, filtered: seq<Item>,
                  unique: set<string>, uniqueNormalized: set<string>)
    requires DedupReaches(dataset, |dataset|, filtered, unique, uniqueNormalized)
    ensures filtered == Deduped(dataset)
  {
    assert dataset[..|dataset|] == dataset;
  }

  /** The de-duplicating filter of `buildDataset`, with its two sets of
      keys seen. */
  method DedupQuestions(dataset: seq<Item>) returns (filtered: seq<Item>)
    ensures filtered == Deduped(dataset)
  {
    var unique: set<string> := {};
    var uniqueNormalized: set<string> := {};
    filtered := [];
    var i := 0;
    while i < |dataset|
      invariant DedupReaches(dataset, i, filtered, unique, uniqueNormalized)
    {
      var item := dataset[i];
      ghost var before, beforeUnique, beforeNormalized := filtered, unique, uniqueNormalized;
      if !(ExactKey(item) in unique || NormalizedKey(item) in uniqueNormalized) {
        unique := unique + {ExactKey(item)};
        uniqueNormalized := uniqueNormalized + {NormalizedKey(item)};
        filtered := filtered + [item];
      }
      DedupStep(dataset, i, before, beforeUnique, beforeNormalized, filtered, unique, uniqueNormalized);
      i := i + 1;
    }
    DedupDone(dataset, filtered, unique, uniqueNormalized);
  }

  /** No two items share a theme and a normalised question. */
  predicate KeysDistinct(items: seq<Item>) {
    forall i, j :: 0 <= i < j < |items| ==> NormalizedKey(items[i]) != NormalizedKey(items[j])
  }

  lemma KeysDistinctSnoc(items: seq<Item>, x: Item)
    requires KeysDistinct(items) && NormalizedKey(x) !in NormalizedKeys(items)
    ensures KeysDistinct(items + [x])
  {
    var d := items + [x];
    forall i, j | 0 <= i < j < |d| ensures NormalizedKey(d[i]) != NormalizedKey(d[j]) {
      if j == |items| {
        NormalizedKeyIn(items, i);
      } else {
        assert d[i] == items[i] && d[j] == items[j];
      }
    }
  }

  /** No two kept items share a theme and a normalised question (nor,
      therefore, a theme and a question). */
  lemma {:induction false} DedupedDistinct(items: seq<Item>)
    ensures KeysDistinct(Deduped(items))
  {
    if items != [] {
      var init, x := items[..|items| - 1], items[|items| - 1];
      DedupedDistinct(init);
      var kept := Deduped(init);
      if !(ExactKey(x) in ExactKeys(kept) || NormalizedKey(x) in NormalizedKeys(kept)) {
        KeysDistinctSnoc(kept, x);
      }
    }
  }

  /** The reference: the first item of each theme and normalised question,
      in order. */
  function FirstByKey(items: seq<Item>): seq<Item> {
    if items == [] then []
    else
      var init := items[..|items| - 1];
      var x := items[|items| - 1];
      FirstByKey(init) + (if NormalizedKey(x) in NormalizedKeys(init) then [] else [x])
  }

  /** A theme and question joined by `|` split back apart when the theme
      holds no `|`. */
  lemma KeyParts(a: string, b: string, c: string, d: string)
    requires '|' !in a && '|' !in c
    requires a + "|" + b == c + "|" + d
    ensures a == c && b == d
  {
    var s := a + "|" + b;
    assert s[|a|] == '|' && s[|c|] == '|';
    assert s[..|a|] == a && (c + "|" + d)[..|c|] == c;
    assert s[|a| + 1..] == b && (c + "|" + d)[|c| + 1..] == d;
  }

  predicate PlainThemes(items: seq<Item>) {
    forall i :: 0 <= i < |items| ==> '|' !in items[i].theme
  }

  lemma PlainThemesInit(items: seq<Item>)
    requires items != [] && PlainThemes(items)
    ensures PlainThemes(items[..|items| - 1])
  {
    assert forall i :: 0 <= i < |items| - 1 ==> items[..|items| - 1][i] == items[i];
  }

  lemma PlainThemesSnoc(items: seq<Item>, x: Item)
    requires PlainThemes(items) && '|' !in x.theme
    ensures PlainThemes(items + [x])
  {
    forall i | 0 <= i < |items| + 1 ensures '|' !in (items + [x])[i].theme {
      if i < |items| {
        assert (items + [x])[i] == items[i];
      }
    }
  }

  /** With themes free of `|`, the kept items have such themes and the
      same normalised keys as all the items. */
  lemma {:induction false} DedupedKeys(items: seq<Item>)
    requires PlainThemes(items)
    ensures PlainThemes(Deduped(items))
    ensures NormalizedKeys(Deduped(items)) == NormalizedKeys(items)
  {
    if items != [] {
      var init, x := items[..|items| - 1], items[|items| - 1];
      PlainThemesInit(items);
      DedupedKeys(init);
      var kept := Deduped(init);
      if ExactKey(x) in ExactKeys(kept) {
        ExactKeyNormalized(kept, x);
      }
      KeysSnoc(kept, x);
      PlainThemesSnoc(kept, x);
    }
  }

  /** With themes free of `|` (the generator's are), the filter keeps
      exactly the first item of each theme and normalised question: the
      test on the exact key never decides. */
  lemma {:induction false} DedupedIsFirstByKey(items: seq<Item>)
    requires PlainThemes(items)
    ensures Deduped(items) == FirstByKey(items)
  {
    if items != [] {
      var init, x := items[..|items| - 1], items[|items| - 1];
      PlainThemesInit(items);
      DedupedIsFirstByKey(init);
      DedupedKeys(init);
      if ExactKey(x) in ExactKeys(Deduped(init)) {
        ExactKeyNormalized(Deduped(init), x);
      }
    }
  }

  // ---- ids and the final dataset ----

  /** `q${String(index + 1).padStart(4, '0')}`. */
  function EntryId(index: nat): string {
    "q" + PadStart(Decimal(index + 1), 4, '0')
  }

  /** Ids read back as their position plus one, so they are distinct and
      consecutive. */
  lemma EntryIdNumber(index: nat)
    ensures EntryId(index)[0] == 'q'
    ensures AllDigits(EntryId(index)[1..]) && DecimalValue(EntryId(index)[1..]) == index + 1
  {
    PaddedDecimal(index + 1, 4);
    assert EntryId(index)[1..] == PadStart(Decimal(index + 1), 4, '0');
  }

  lemma EntryIdsDistinct(m: nat, n: nat)
    requires m != n
    ensures EntryId(m) != EntryId(n)
  {
    EntryIdNumber(m);
    EntryIdNumber(n);
  }

  /** A question of the final dataset: its id, then the item's fields. */
  datatype Entry = Entry(id: string, item: Item)

  function Numbered(items: seq<Item>): (r: seq<Entry>)
    ensures |r| == |items|
    ensures forall k :: 0 <= k < |r| ==> r[k] == Entry(EntryId(k), items[k])
  {
    seq(|items|, k requires 0 <= k < |items| => Entry(EntryId(k), items[k]))
  }

  // ---- buildDataset ----

  const StandardThemes: seq<string> := ["patterns", "pieges", "reflexes_memoire", "pointeurs",
    "malloc", "conditions_limites", "regles_implicites"]

  /** What a question template yields. */
  datatype Question = Question(question: string, choices: seq<string>, correct: int,
                               explanation: string, tags: seq<string>)

  /** A cell of the template grid: a standard theme, a profile (0..7) and a
      template (0..4), or one of the two list profiles (2 and 3), a context
      (0..3) and a template. */
  datatype Slot = Standard(theme: string, profile: nat, template: nat)
                | ListSlot(profile: nat, context: nat, template: nat)

  /** The cells the loops of buildDataset visit, in order: themes, then
      profiles, then templates; then the list profiles, contexts and
      templates. */
  function Slots(): (r: seq<Slot>)
    ensures |r| == 320
  {
    StandardSlots() + ListSlots()
  }

  function StandardSlots(): (r: seq<Slot>)
    ensures |r| == 280
  {
    seq(280, k requires 0 <= k < 280 => Standard(StandardThemes[k / 40], k / 5 % 8, k % 5))
  }

  function ListSlots(): (r: seq<Slot>)
    ensures |r| == 40
  {
    seq(40, k requires 0 <= k < 40 => ListSlot(2 + k / 20, k / 5 % 4, k % 5))
  }

  function ThemeOf(s: Slot): string {
    if s.Standard? then s.theme else "listes_chainees"
  }

  /** The dataset before de-duplication, for templates `make`. */
  function Generated(make: Slot -> Question): (r: seq<Item>)
    ensures |r| == 320
  {
    var slots := Slots();
    seq(320, k requires 0 <= k < 320 => ItemAt(slots[k], make(slots[k])))
  }

  function ItemAt(slot: Slot, q: Question): Item {
    Item(ThemeOf(slot), q.question, q.choices, q.correct, q.explanation, q.tags)
  }

  lemma StandardThemesPlain()
    ensures forall t :: 0 <= t < |StandardThemes| ==> '|' !in StandardThemes[t]
  {
  }

  /** No cell's theme holds a `|`. */
  lemma SlotsPlain()
    ensures forall k :: 0 <= k < |Slots()| ==> '|' !in ThemeOf(Slots()[k])
  {
    StandardThemesPlain();
    forall k | 0 <= k < 320 ensures '|' !in ThemeOf(Slots()[k]) {
      if k < 280 {
        assert Slots()[k] == StandardSlots()[k];
      } else {
        assert Slots()[k] == ListSlots()[k - 280];
      }
    }
  }

  /** The generator's themes hold no `|`, so its de-duplication keeps the
      first question of each theme and normalised text. */
  lemma GeneratedFirstByKey(make: Slot -> Question)
    ensures PlainThemes(Generated(make))
    ensures Deduped(Generated(make)) == FirstByKey(Generated(make))
  {
    SlotsPlain();
    var r := Generated(make);
    assert forall k :: 0 <= k < 320 ==> r[k].theme == ThemeOf(Slots()[k]);
    DedupedIsFirstByKey(r);
  }

  /** Removing nothing is the only way for the de-duplication to keep as
      many items as it was given. */
  lemma {:induction false} DedupedFull(items: seq<Item>)
    ensures |Deduped(items)| <= |items|
    ensures |Deduped(items)| == |items| ==> Deduped(items) == items
  {
    if items != [] {
      var init, x := items[..|items| - 1], items[|items| - 1];
      DedupedFull(init);
      var kept := Deduped(init);
      assert Deduped(items) == kept || Deduped(items) == kept + [x];
      if |Deduped(items)| == |items| {
        assert Deduped(items) == kept + [x] && kept == init;
        SnocInit(items);
      }
    }
  }

  /** The first k items pass validateQuestion. */
  predicate AllValid(items: seq<Item>, k: int)
    requires 0 <= k <= |items|
  {
    forall i :: 0 <= i < k ==> ValidQuestion(items[i])
  }

  lemma AllValidStep(items: seq<Item>, k: int)
    requires 0 <= k < |items| && AllValid(items, k) && ValidQuestion(items[k])
    ensures AllValid(items, k + 1)
  {
  }

  const CountHead := "Dataset inattendu: "
  const CountTail := " questions (attendu: 320)"

  /** The message of the throw when the count after de-duplication is not
      320: the count in decimal reads back between its two fixed parts. */
  function CountMessage(n: nat): (m: string)
    ensures |m| > |CountHead| + |CountTail|
    ensures m[..|CountHead|] == CountHead && m[|m| - |CountTail|..] == CountTail
    ensures AllDigits(m[|CountHead|..|m| - |CountTail|])
      && DecimalValue(m[|CountHead|..|m| - |CountTail|]) == n
  {
    var m := CountHead + Decimal(n) + CountTail;
    assert m[|CountHead|..|m| - |CountTail|] == Decimal(n);
    DecimalRoundTrip(n);
    m
  }

  /** `buildDataset` after the loops: de-duplicate, throw unless exactly
      320 questions are left, throw on the first question validateQuestion
      rejects, then number them. */
  method BuildDataset(make: Slot -> Question) returns (r: Result<seq<Entry>>)
    ensures r.Ok? <==> |Deduped(Generated(make))| == 320 && AllValid(Generated(make), 320)
    ensures r.Ok? ==> r.value == Numbered(Generated(make))
    ensures |Deduped(Generated(make))| != 320 ==>
      r == Failure(CountMessage(|Deduped(Generated(make))|))
    ensures |Deduped(Generated(make))| == 320 && !AllValid(Generated(make), 320) ==>
      exists k :: 0 <= k < 320 && AllValid(Generated(make), k) && !ValidQuestion(Generated(make)[k])
        && r == Failure("Question invalide: " + Generated(make)[k].question)
  {
    var dataset := Generated(make);
    var filtered := DedupQuestions(dataset);
    DedupedFull(dataset);
    if |filtered| != 320 {
      return Failure(CountMessage(|filtered|));
    }
    var k := 0;
    while k < |filtered|
      invariant 0 <= k <= |filtered| == 320 && filtered == dataset
      invariant AllValid(filtered, k)
    {
      var ok := ValidateQuestion(filtered[k]);
      if !ok {
        return Failure("Question invalide: " + filtered[k].question);
      }
      AllValidStep(filtered, k);
      k := k + 1;
    }
    return Ok(Numbered(filtered));
  }
}
