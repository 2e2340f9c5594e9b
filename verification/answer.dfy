/** `parseAnswer` of the flashcard page (flashcards.js): the expected answer
    text of a card cut into an optional objective and a list of steps.

    Three of its four patterns (flashcards.js:302, 308, 309) are written with
    doubled backslashes inside regular-expression literals, so each `\\`
    matches one literal backslash and the following `s*` a run of the letter
    s; they are modelled that way. The fourth (flashcards.js:315) does not
    parse at all (see `GroupsBalanced`); the model uses the pattern it
    evidently means, `^\s*\d+\)\s*`. */
module AnswerText {
  import opened Lists
  import opened Text

  const DefaultTitle := "Réponse attendue"

  datatype ParsedAnswer = ParsedAnswer(title: string, steps: seq<string>, objective: string)

  // ---- pattern syntax: the literal at flashcards.js:315 ----

  /** Scans a pattern source from position i: each `(` opens a group that a
      later `)` must close; an escaped character and the inside of a
      character class are skipped. `depth` counts the groups still open. */
  function ScanGroups(src: string, i: nat, depth: nat, inClass: bool): bool
    decreases |src| - i
  {
    if i >= |src| then depth == 0 && !inClass
    else if src[i] == '\\' then i + 1 < |src| && ScanGroups(src, i + 2, depth, inClass)
    else if inClass then ScanGroups(src, i + 1, depth, src[i] != ']')
    else if src[i] == '[' then ScanGroups(src, i + 1, depth, true)
    else if src[i] == '(' then ScanGroups(src, i + 1, depth + 1, false)
    else if src[i] == ')' then depth > 0 && ScanGroups(src, i + 1, depth - 1, false)
    else ScanGroups(src, i + 1, depth, false)
  }

  /** ECMAScript's rule that every `)` closes a group; a regular-expression
      literal that breaks it is an early SyntaxError, which stops the whole
      script from loading. */
  predicate GroupsBalanced(src: string) {
    ScanGroups(src, 0, 0, false)
  }

  /** The literal as written at flashcards.js:315, `^\\s*\\d+\\)\\s*`: each
      `\\` is an escaped backslash, so the `)` closes no group. */
  const StepPatternAsWritten := "^\\\\s*\\\\d+\\\\)\\\\s*"

  /** The pattern it evidently means, `^\s*\d+\)\s*`. */
  const StepPatternIntended := "^\\s*\\d+\\)\\s*"

  lemma StepPatternAsWrittenRejected()
    ensures !GroupsBalanced(StepPatternAsWritten)
    ensures GroupsBalanced(StepPatternIntended)
  {
  }

  // ---- matching with the `i` flag ----

  /** Character comparison of a pattern with the `i` flag and without `u`,
      for the characters the patterns spell out (ASCII letters, space, é):
      both sides are brought to upper case, and no character outside ASCII
      folds onto an ASCII letter. */
  function Fold(c: char): (f: char)
    ensures 'a' <= c <= 'z' ==> f as int == c as int - 32
    ensures !('a' <= c <= 'z') && c != 'é' ==> f == c
  {
    if 'a' <= c <= 'z' then (c as int - 32) as char
    else if c == 'é' then 'É'
    else c
  }

  /** s starts with word, letter case aside. */
  predicate CiPrefix(s: string, word: string) {
    |word| <= |s| && forall k :: 0 <= k < |word| ==> Fold(s[k]) == Fold(word[k])
  }

  /** s contains word, letter case aside (the `i` flag). */
  predicate CiContains(s: string, word: string) {
    exists i: nat | i <= |s| :: CiAt(s, i, word)
  }

  /** word occurs in s at position i, letter case aside. */
  predicate CiAt(s: string, i: nat, word: string) {
    i + |word| <= |s| && forall k :: 0 <= k < |word| ==> Fold(s[i + k]) == Fold(word[k])
  }

  /** `\w` of a regular expression without the `u` flag. */
  predicate IsWordChar(c: char) {
    'a' <= c <= 'z' || 'A' <= c <= 'Z' || '0' <= c <= '9' || c == '_'
  }

  /** The letter `s` in either case: what `s` matches under the `i` flag. */
  predicate IsLetterS(c: char) {
    Fold(c) == 'S'
  }

  /** The index in t just past `\\s*:\\s*` starting at a, if it matches:
      a backslash, letters s, a colon, a backslash, letters s. */
  function AfterMarker(t: string, a: nat): (e: Option<nat>)
    requires a <= |t|
    ensures e.Some? ==> a + 3 <= e.value <= |t| && t[a] == '\\'
  {
    if a < |t| && t[a] == '\\' then
      var b := |t| - |DropRun(t[a + 1..], IsLetterS)|;
      if b + 1 < |t| && t[b] == ':' && t[b + 1] == '\\' then
        Some(|t| - |DropRun(t[b + 2..], IsLetterS)|)
      else None
    else None
  }

  predicate HasLineTerminator(s: string) {
    exists k :: 0 <= k < |s| && IsLineTerminator(s[k])
  }

  /** `Objectif\\s*:\\s*(.+)$` tried at position p: the captured group. The
      group runs to the end of the text with no line terminator; when the
      letters s eat everything, the last one is given back to `.+`. */
  function ObjectiveAt(text: string, p: nat): (g: Option<string>)
    requires p <= |text|
    ensures g.Some? ==> p + 9 < |text| && text[p + 8] == '\\' && g.value != []
  {
    var t := text[p..];
    if !(CiPrefix(t, "Objectif") && |t| > 8 && t[8] == '\\') then None
    else GroupAfterColon(DropRun(t[9..], IsLetterS))
  }

  /** The group runs to the end of the text: it is a tail of the text,
      shorter than the text from p. */
  lemma ObjectiveAtTail(text: string, p: nat)
    requires p <= |text|
    ensures var g := ObjectiveAt(text, p);
      g.Some? ==> |g.value| < |text| - p && g.value == text[|text| - |g.value|..]
  {
    var g := ObjectiveAt(text, p);
    if g.Some? {
      var u := text[p..][9..];
      var a := DropRun(u, IsLetterS);
      assert g == GroupAfterColon(a);
    }
  }

  /** `:\\s*(.+)$` on the text after `Objectif\\s*`: the group runs to
      the end with no line terminator; when the letters s eat everything,
      the last one is given back to `.+`. */
  function GroupAfterColon(a: string): (g: Option<string>)
    ensures g.Some? ==> 0 < |g.value| < |a| && g.value == a[|a| - |g.value|..]
  {
    if !(|a| >= 2 && a[0] == ':' && a[1] == '\\') then None
    else
      var g := GroupOf(a[2..]);
      if g.Some? then TailOfTail(a, a[2..], g.value); g else g
  }

  /** `\\s*(.+)$` after the colon: none when the rest is empty or breaks
      the line. */
  function GroupOf(tail: string): (g: Option<string>)
    ensures g.Some? ==> 0 < |g.value| <= |tail| && g.value == tail[|tail| - |g.value|..]
  {
    if tail == [] || HasLineTerminator(tail) then None
    else
      var rest := DropRun(tail, IsLetterS);
      Some(if rest != [] then rest else tail[|tail| - 1..])
  }

  /** A tail of a tail of s is a tail of s. */
  lemma TailOfTail(s: string, a: string, b: string)
    requires |a| <= |s| && a == s[|s| - |a|..]
    requires |b| <= |a| && b == a[|a| - |b|..]
    ensures b == s[|s| - |b|..]
  {
  }

  /** The leftmost match from position p on (what `match` reports). */
  function FirstObjective(text: string, p: nat): (g: Option<string>)
    requires p <= |text|
    ensures g.Some? ==> 0 < |g.value| < |text| && g.value == text[|text| - |g.value|..]
    decreases |text| - p
  {
    if ObjectiveAt(text, p).Some? then ObjectiveAtTail(text, p); ObjectiveAt(text, p)
    else if p == |text| then None
    else FirstObjective(text, p + 1)
  }

  /** `objectiveMatch[1].trim()`, or "" without a match. The group runs to
      the end of the text (the pattern ends with `$`), so the objective is
      a trimmed tail of the text, after the marker. */
  function Objective(text: string): (o: string)
    ensures IsTrimmed(o)
    ensures FirstObjective(text, 0).None? ==> o == ""
    ensures FirstObjective(text, 0).Some? ==>
      exists k :: 0 < k < |text| && o == Trim(text[k..])
  {
    match FirstObjective(text, 0)
    case Some(g) => Trim(g)
    case None => ""
  }

  /** `replace` of `^Checklist(?: opérationnelle)?\\s*:\\s*` (flag `i`) by "": the optional
      group is tried first, then the pattern without it. */
  function StripChecklistPrefix(text: string): (r: string)
    ensures |r| <= |text| && r == text[|text| - |r|..]
  {
    if CiPrefix(text, "Checklist") then
      var long := if CiPrefix(text[9..], " opérationnelle") then AfterMarker(text, 24) else None;
      var end := if long.Some? then long else AfterMarker(text, 9);
      if end.Some? then text[end.value..] else text
    else text
  }

  /** `Objectif\\s*:.+$` tried at position p. */
  predicate ObjectiveTailAt(text: string, p: nat)
    requires p <= |text|
  {
    var t := text[p..];
    CiPrefix(t, "Objectif") && |t| > 8 && t[8] == '\\'
    && var a := DropRun(t[9..], IsLetterS);
       |a| >= 2 && a[0] == ':' && !HasLineTerminator(a[1..])
  }

  function FirstObjectiveTail(text: string, p: nat): (q: Option<nat>)
    requires p <= |text|
    ensures q.Some? ==> p <= q.value && q.value + 8 < |text| && text[q.value + 8] == '\\'
    decreases |text| - p
  {
    if ObjectiveTailAt(text, p) then Some(p)
    else if p == |text| then None
    else FirstObjectiveTail(text, p + 1)
  }

  /** `replace` of `Objectif\\s*:.+$` (flag `i`) by "": the text before the leftmost match. */
  function StripObjective(text: string): (r: string)
    ensures |r| <= |text| && r == text[..|r|]
  {
    match FirstObjectiveTail(text, 0)
    case Some(p) => text[..p]
    case None => text
  }

  /** The first position from i on whose character fails p (or |s|). */
  function SkipWhile(s: string, i: nat, p: char -> bool): (j: nat)
    requires i <= |s|
    ensures i <= j <= |s| && (j == |s| || !p(s[j]))
    decreases |s| - i
  {
    if i < |s| && p(s[i]) then SkipWhile(s, i + 1, p) else i
  }

  /** Where the step text starts once `^\s*\d+\)\s*` is matched at the
      start of s; 0 when it does not match. */
  function StepStart(s: string): (n: nat)
    ensures n <= |s|
  {
    var i := SkipWhile(s, 0, IsSpace);
    var j := SkipWhile(s, i, IsDigit);
    if i < j < |s| && s[j] == ')' then SkipWhile(s, j + 1, IsSpace) else 0
  }

  /** `replace` of `^\s*\d+\)\s*` by "": a leading "12) " numbering, with
      the white space around it, removed. */
  function StripStepNumber(s: string): (r: string)
    ensures |r| <= |s| && r == s[|s| - |r|..]
  {
    s[StepStart(s)..]
  }

  /** One step: numbering removed, then trimmed. */
  function CleanStep(s: string): string {
    Trim(StripStepNumber(s))
  }

  /** `parseAnswer`. */
  function ParseAnswer(answer: string): (out: ParsedAnswer)
    ensures IsTrimmed(out.objective)
    ensures out.title == if out.objective == [] then DefaultTitle
                         else DefaultTitle + " - " + out.objective
    ensures Trim(answer) == [] ==> out == ParsedAnswer(DefaultTitle, [], "")
  {
    var text := Trim(answer);
    if text == [] then ParsedAnswer(DefaultTitle, [], "")
    else
      var objective := Objective(text);
      var checklist := Trim(StripObjective(StripChecklistPrefix(text)));
      var steps := if |checklist| > 0 then NonEmpty(Map(Split(checklist, '|'), CleanStep)) else [];
      ParsedAnswer(if objective != [] then DefaultTitle + " - " + objective else DefaultTitle,
                   steps, objective)
  }

  /** Every step is a non-empty, trimmed piece with no `|` in it. */
  lemma ParsedSteps(answer: string)
    ensures forall s :: s in ParseAnswer(answer).steps ==> s != [] && IsTrimmed(s) && '|' !in s
  {
    var text := Trim(answer);
    if text != [] {
      var checklist := Trim(StripObjective(StripChecklistPrefix(text)));
      if |checklist| > 0 {
        var parts := Split(checklist, '|');
        var cleaned := Map(parts, CleanStep);
        forall s | s in NonEmpty(cleaned) ensures s != [] && IsTrimmed(s) && '|' !in s {
          CleanedPart(parts, s);
        }
        assert ParseAnswer(answer).steps == NonEmpty(cleaned);
      }
    }
  }

  lemma CleanedPart(parts: seq<string>, s: string)
    requires forall p :: p in parts ==> '|' !in p
    requires s in Map(parts, CleanStep)
    ensures IsTrimmed(s) && '|' !in s
  {
    var k :| 0 <= k < |parts| && Map(parts, CleanStep)[k] == s;
    assert parts[k] in parts;
    CleanStepKeepsOut(parts[k], '|');
  }

  /** A character absent from a step is absent from the cleaned step. */
  lemma CleanStepKeepsOut(s: string, c: char)
    requires c !in s
    ensures c !in CleanStep(s)
  {
    var r := StripStepNumber(s);
    NotInSuffix(r, s, c);
    TrimKeepsOut(r, c);
  }

  lemma NotInSuffix(r: string, s: string, c: char)
    requires |r| <= |s| && r == s[|s| - |r|..] && c !in s
    ensures c !in r
  {
  }

  lemma NotInPrefix(r: string, s: string, c: char)
    requires |r| <= |s| && r == s[..|r|] && c !in s
    ensures c !in r
  {
  }

  /** A character absent from s is absent from its trimmed form. */
  lemma TrimKeepsOut(s: string, c: char)
    requires c !in s
    ensures c !in Trim(s)
  {
    var a := TrimStart(s);
    TrimStartShape(s);
    TrimEndShape(a);
    NotInSuffix(a, s, c);
    NotInPrefix(TrimEnd(a), a, c);
  }

  // ---- what the patterns leave alone ----

  lemma {:induction false} NoObjectiveWithoutBackslash(text: string, p: nat)
    requires p <= |text| && '\\' !in text
    ensures FirstObjective(text, p) == None
    decreases |text| - p
  {
    if ObjectiveAt(text, p).None? && p < |text| {
      NoObjectiveWithoutBackslash(text, p + 1);
    }
  }

  lemma NoChecklistPrefixWithoutBackslash(text: string)
    requires '\\' !in text
    ensures StripChecklistPrefix(text) == text
  {
    if |text| > 24 {
      assert text[24] in text;
    }
    if |text| > 9 {
      assert text[9] in text;
    }
  }

  /** On a text without a backslash the three written patterns never match:
      the objective is empty, the title is the default one, and the steps
      are the `|`-separated pieces of the trimmed text, each cleaned, with
      the empty ones dropped. */
  lemma ParseWithoutBackslash(answer: string)
    requires '\\' !in answer
    ensures ParseAnswer(answer)
      == ParsedAnswer(DefaultTitle, NonEmpty(Map(Split(Trim(answer), '|'), CleanStep)), "")
  {
    var text := Trim(answer);
    TrimKeepsOut(answer, '\\');
    if text == [] {
      assert Split(text, '|') == [text];
      assert Map([text], CleanStep) == [""];
      assert NonEmpty([""]) == [];
    } else {
      TrimIdempotent(answer);
      PlainText(text);
    }
  }

  /** A trimmed text without a backslash has no objective, and its
      checklist is the whole text. */
  lemma PlainText(text: string)
    requires '\\' !in text && Trim(text) == text
    ensures Objective(text) == ""
    ensures Trim(StripObjective(StripChecklistPrefix(text))) == text
  {
    NoObjectiveWithoutBackslash(text, 0);
    NoChecklistPrefixWithoutBackslash(text);
    assert FirstObjectiveTail(text, 0) == None;
    assert StripObjective(text) == text;
  }

  /** A numbered step loses its number: "  3)  relire" becomes "relire". */
  lemma NumberedStepStripped(ws: string, digits: string, rest: string)
    requires AllSpace(ws) && digits != [] && AllDigits(digits)
    requires rest == [] || !IsSpace(rest[0])
    ensures StripStepNumber(ws + digits + ")" + rest) == rest
  {
    var s := ws + digits + ")" + rest;
    var i := |ws|;
    var j := i + |digits|;
    SkipRun(s, 0, i, IsSpace);
    SkipRun(s, i, j, IsDigit);
    assert s[j] == ')';
    SkipRun(s, j + 1, j + 1, IsSpace);
    assert StepStart(s) == j + 1;
    assert s[j + 1..] == rest;
  }

  /** A step that does not start with white space, digits and `)` is left
      as it is. */
  lemma UnnumberedStepKept(s: string)
    requires s == [] || !IsSpace(s[0])
    requires s == [] || !IsDigit(s[0])
    ensures StripStepNumber(s) == s
  {
    assert StepStart(s) == 0;
  }

  /** SkipWhile stops at the end of a run. */
  lemma {:induction false} SkipRun(s: string, i: nat, j: nat, p: char -> bool)
    requires i <= j <= |s|
    requires forall k :: i <= k < j ==> p(s[k])
    requires j == |s| || !p(s[j])
    ensures SkipWhile(s, i, p) == j
    decreases j - i
  {
    if i < j {
      SkipRun(s, i + 1, j, p);
    }
  }
}
