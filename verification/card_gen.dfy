/** The flashcard deck generator (scripts/generate_flashcards_dataset.js):
    `makeAnswer`, the loops of `buildCards` and their count check,
    `toJsonCards`, `toTextDeck` and `validate`. The French card texts
    (`cardForTheme`, `listCard`, `makeExplanation`) are a parameter. */
module CardGen {
  import opened Lists
  import opened Text
  import opened Json
  import AnswerText

  // ---- makeAnswer ----

  /** One line of an answer: every `|` turned into " ou ", every run of
      white space into one space, trimmed. */
  function CleanLine(line: string): string {
    Trim(CollapseRuns(ReplaceChar(line, '|', " ou "), IsSpace, " "))
  }

  function CleanLines(lines: seq<string>): (r: seq<string>)
    ensures |r| == |lines|
    ensures forall i :: 0 <= i < |lines| ==> r[i] == CleanLine(lines[i])
  {
    seq(|lines|, i requires 0 <= i < |lines| => CleanLine(lines[i]))
  }

  /** `makeAnswer`: the cleaned lines joined by " | ". */
  function MakeAnswer(lines: seq<string>): (r: string)
    ensures lines == [] ==> r == ""
    ensures |lines| == 1 ==> r == CleanLine(lines[0])
  {
    Join(CleanLines(lines), " | ")
  }

  /** `answer.split('|').map((line) => line.trim()).filter(Boolean)`: how
      toJsonCards, toTextDeck and validate read the lines of an answer. */
  function AnswerLines(answer: string): seq<string> {
    TrimmedParts(Split(answer, '|'))
  }

  /** The non-empty strings, in order. */
  function NonBlank(ps: seq<string>): seq<string> {
    if ps == [] then [] else (if ps[0] == [] then [] else [ps[0]]) + NonBlank(ps[1..])
  }

  /** A cleaned line is trimmed and holds no `|` and no line break. */
  lemma CleanLineShape(line: string)
    ensures IsTrimmed(CleanLine(line))
    ensures '|' !in CleanLine(line) && '\n' !in CleanLine(line)
  {
    var replaced := ReplaceChar(line, '|', " ou ");
    var collapsed := CollapseRuns(replaced, IsSpace, " ");
    assert '|' !in replaced;
    assert '|' !in collapsed && '\n' !in collapsed;
    AnswerText.TrimKeepsOut(collapsed, '|');
    AnswerText.TrimKeepsOut(collapsed, '\n');
  }

  lemma {:induction false} TrimmedPartsOfTrimmed(ps: seq<string>)
    requires forall i :: 0 <= i < |ps| ==> IsTrimmed(ps[i])
    ensures TrimmedParts(ps) == NonBlank(ps)
  {
    if ps != [] {
      TrimOfTrimmed(ps[0]);
      TrimmedPartsOfTrimmed(ps[1..]);
    }
  }

  /** A string without `|` splits into itself. */
  lemma SplitPlain(s: string)
    requires '|' !in s
    ensures Split(s, '|') == [s]
  {
    assert IndexOf(s, '|') == -1;
  }

  /** Reading back lines joined by " | " behind some white space: each
      piece is a line with a space on either side, which trimming drops. */
  lemma {:induction false} SplitJoinedLines(pre: string, parts: seq<string>)
    requires parts != [] && AllSpace(pre) && '|' !in pre
    requires forall i :: 0 <= i < |parts| ==> IsTrimmed(parts[i]) && '|' !in parts[i]
    ensures TrimmedParts(Split(pre + Join(parts, " | "), '|')) == TrimmedParts(parts)
    decreases |parts|
  {
    if |parts| == 1 {
      SplitJoinedOne(pre, parts[0]);
    } else {
      var rest := Join(parts[1..], " | ");
      SplitJoinedFirst(pre, parts);
      SplitJoinedLines(" ", parts[1..]);
      TrimPadded(pre, parts[0], " ");
      TrimOfTrimmed(parts[0]);
      assert TrimmedParts(parts) == TrimmedPart(parts[0]) + TrimmedParts(parts[1..]);
    }
  }

  lemma SplitJoinedOne(pre: string, p: string)
    requires AllSpace(pre) && '|' !in pre && IsTrimmed(p) && '|' !in p
    ensures TrimmedParts(Split(pre + Join([p], " | "), '|')) == TrimmedParts([p])
  {
    assert pre + Join([p], " | ") == pre + p + "";
    SplitPlain(pre + p + "");
    TrimPadded(pre, p, "");
    TrimOfTrimmed(p);
  }

  /** The first piece of lines joined by " | " is the first line and a
      space. */
  lemma SplitJoinedFirst(pre: string, parts: seq<string>)
    requires |parts| >= 2 && '|' !in pre && '|' !in parts[0]
    ensures Split(pre + Join(parts, " | "), '|')
            == [pre + parts[0] + " "] + Split(" " + Join(parts[1..], " | "), '|')
  {
    var rest := Join(parts[1..], " | ");
    var head := pre + parts[0] + " ";
    assert pre + Join(parts, " | ") == head + ['|'] + (" " + rest);
    SplitFirst(head, '|', " " + rest);
  }

  /** The lines read back from an answer made by makeAnswer are its
      cleaned lines without the blank ones. */
  lemma MakeAnswerRoundTrip(lines: seq<string>)
    ensures AnswerLines(MakeAnswer(lines)) == NonBlank(CleanLines(lines))
  {
    var parts := CleanLines(lines);
    forall i | 0 <= i < |parts| ensures IsTrimmed(parts[i]) && '|' !in parts[i] {
      CleanLineShape(lines[i]);
    }
    TrimmedPartsOfTrimmed(parts);
    if parts == [] {
      SplitPlain("");
      assert TrimmedParts([""]) == [];
    } else {
      SplitJoinedLines("", parts);
      assert "" + Join(parts, " | ") == MakeAnswer(lines);
    }
  }

  /** Lines that are already clean and not blank come back unchanged. */
  lemma {:induction false} CleanLinesComeBack(lines: seq<string>)
    requires forall i :: 0 <= i < |lines| ==> lines[i] != [] && CleanLine(lines[i]) == lines[i]
    ensures AnswerLines(MakeAnswer(lines)) == lines
  {
    MakeAnswerRoundTrip(lines);
    NonBlankKeepsAll(lines);
    assert CleanLines(lines) == lines;
  }

  lemma {:induction false} NonBlankKeepsAll(ps: seq<string>)
    requires forall i :: 0 <= i < |ps| ==> ps[i] != []
    ensures NonBlank(ps) == ps
  {
    if ps != [] {
      NonBlankKeepsAll(ps[1..]);
    }
  }

  // ---- the deck ----

  const Themes: seq<string> := ["Patterns", "Pièges", "Réflexes mémoire", "Pointeurs", "Malloc",
    "Listes chaînées", "Conditions limites", "Règles implicites des énoncés"]

  const ListThemeName := "Listes chaînées"

  /** The `fn` of every profile, in order; also the alternatives of the
      function-name pattern of validate. */
  const FunctionNames: seq<string> := ["ft_split", "ft_range", "ft_list_remove_if", "sort_list",
    "itoa", "wdmatch", "union", "atoi", "last_word", "inter"]

  /** The profiles kept by `listProfiles`: ft_list_remove_if and sort_list. */
  const ListProfiles: seq<nat> := [2, 3]

  /** `difficultyByTheme`. */
  const DifficultyByTheme: map<string, string> := map[
    "Patterns" := "medium", "Pièges" := "hard", "Réflexes mémoire" := "medium",
    "Pointeurs" := "medium", "Malloc" := "medium", "Listes chaînées" := "hard",
    "Conditions limites" := "hard", "Règles implicites des énoncés" := "medium"]

  /** `difficultyByTheme[card.theme] || 'medium'`. */
  function Difficulty(theme: string): string {
    if theme in DifficultyByTheme then DifficultyByTheme[theme] else "medium"
  }

  /** The three hard themes are hard, every other theme is medium. */
  lemma DifficultyOfTheme(theme: string)
    ensures Difficulty(theme) == if theme in {"Pièges", "Listes chaînées", "Conditions limites"}
                                 then "hard" else "medium"
  {
  }

  /** What a card template yields: the question, the answer lines given to
      makeAnswer, and the explanation. */
  datatype CardText = CardText(question: string, lines: seq<string>, explanation: string)

  datatype Card = Card(theme: string, question: string, answer: string, explanation: string)

  /** A cell of the loops of buildCards: a theme other than the list one,
      a profile (0..9) and a variant (0..1); or, in the list theme, a list
      profile and a variant (0..9). */
  datatype CardSlot = ThemeSlot(theme: string, profile: nat, variant: nat)
                    | ListSlot(profile: nat, variant: nat)

  function CardAt(theme: string, text: CardText): Card {
    Card(theme, text.question, MakeAnswer(text.lines), text.explanation)
  }

  /** The twenty cards of theme t, in the order of the inner loops. */
  function ThemeCards(t: nat, make: CardSlot -> CardText): (r: seq<Card>)
    requires t < |Themes|
    ensures |r| == 20
  {
    seq(20, k requires 0 <= k < 20 => CardAt(Themes[t], make(SlotAt(Themes[t], k))))
  }

  lemma ThemeCardAt(t: nat, make: CardSlot -> CardText, k: nat)
    requires t < |Themes| && k < 20
    ensures ThemeCards(t, make)[k] == CardAt(Themes[t], make(SlotAt(Themes[t], k)))
  {
  }

  lemma ThemeCardsTheme(t: nat, make: CardSlot -> CardText)
    requires t < |Themes|
    ensures forall k :: 0 <= k < 20 ==> ThemeCards(t, make)[k].theme == Themes[t]
  {
    forall k | 0 <= k < 20 ensures ThemeCards(t, make)[k].theme == Themes[t] {
      ThemeCardAt(t, make, k);
    }
  }

  /** The cell of the k-th card of a theme. */
  function SlotAt(theme: string, k: nat): CardSlot
    requires k < 20
  {
    if theme == ListThemeName then ListSlot(ListProfiles[k / 10], k % 10)
    else ThemeSlot(theme, k / 2, k % 2)
  }

  /** The cards of the first t themes. */
  function CardsUpTo(t: nat, make: CardSlot -> CardText): seq<Card>
    requires t <= |Themes|
  {
    if t == 0 then [] else CardsUpTo(t - 1, make) + ThemeCards(t - 1, make)
  }

  lemma ListSlotAt(p: nat, v: nat)
    requires p < 2 && v < 10
    ensures SlotAt(ListThemeName, 10 * p + v) == ListSlot(ListProfiles[p], v)
  {
    assert (10 * p + v) / 10 == p && (10 * p + v) % 10 == v;
  }

  lemma ThemeSlotAt(theme: string, p: nat, v: nat)
    requires theme != ListThemeName && p < 10 && v < 2
    ensures SlotAt(theme, 2 * p + v) == ThemeSlot(theme, p, v)
  {
    assert (2 * p + v) / 2 == p && (2 * p + v) % 2 == v;
  }

  /** `if (cards.length !== 160) throw`. */
  function CheckCount(cards: seq<Card>): (r: Result<seq<Card>>)
    ensures r.Ok? <==> |cards| == 160
    ensures r.Ok? ==> r.value == cards
  {
    if |cards| != 160 then Failure("Deck invalide: " + Decimal(|cards|) + " cartes (attendu 160).")
    else Ok(cards)
  }

  /** One more card pushed: the cards so far are the prefix and the
      first k cards of the block. */
  lemma Pushed(prefix: seq<Card>, block: seq<Card>, k: nat, cards: seq<Card>)
    requires k < |block| && cards == prefix + block[..k]
    ensures cards + [block[k]] == prefix + block[..k + 1]
  {
    assert block[..k + 1] == block[..k] + [block[k]];
  }

  lemma BlockDone(prefix: seq<Card>, block: seq<Card>, cards: seq<Card>)
    requires cards == prefix + block[..|block|]
    ensures cards == prefix + block
  {
    assert block[..|block|] == block;
  }

  /** `buildCards`: for each theme, the list profiles and ten variants in
      the list theme, otherwise every profile and two variants; then the
      count check. */
  method BuildCards(make: CardSlot -> CardText) returns (r: Result<seq<Card>>)
    ensures r.Ok? <==> |CardsUpTo(|Themes|, make)| == 160
    ensures r.Ok? ==> r.value == CardsUpTo(|Themes|, make)
  {
    var cards: seq<Card> := [];
    var t := 0;
    while t < |Themes|
      invariant 0 <= t <= |Themes| && cards == CardsUpTo(t, make)
    {
      var theme := Themes[t];
      ghost var block := ThemeCards(t, make);
      ghost var prefix := cards;
      if theme == ListThemeName {
        var p := 0;
        while p < |ListProfiles|
          invariant 0 <= p <= 2 && cards == prefix + block[..10 * p]
        {
          var v := 0;
          while v < 10
            invariant 0 <= v <= 10 && cards == prefix + block[..10 * p + v]
          {
            Pushed(prefix, block, 10 * p + v, cards);
            ListSlotAt(p, v);
            ThemeCardAt(t, make, 10 * p + v);
            cards := cards + [CardAt(theme, make(ListSlot(ListProfiles[p], v)))];
            v := v + 1;
          }
          p := p + 1;
        }
      } else {
        var p := 0;
        while p < |FunctionNames|
          invariant 0 <= p <= 10 && cards == prefix + block[..2 * p]
        {
          var v := 0;
          while v < 2
            invariant 0 <= v <= 2 && cards == prefix + block[..2 * p + v]
          {
            Pushed(prefix, block, 2 * p + v, cards);
            ThemeSlotAt(theme, p, v);
            ThemeCardAt(t, make, 2 * p + v);
            cards := cards + [CardAt(theme, make(ThemeSlot(theme, p, v)))];
            v := v + 1;
          }
          p := p + 1;
        }
      }
      BlockDone(prefix, block, cards);
      t := t + 1;
    }
    r := CheckCount(cards);
  }

  // ---- counting cards by theme ----

  function ThemeCount(cards: seq<Card>, theme: string): nat {
    if cards == [] then 0
    else ThemeCount(cards[..|cards| - 1], theme) + (if cards[|cards| - 1].theme == theme then 1 else 0)
  }

  lemma {:induction false} ThemeCountAppend(a: seq<Card>, b: seq<Card>, theme: string)
    ensures ThemeCount(a + b, theme) == ThemeCount(a, theme) + ThemeCount(b, theme)
    decreases |b|
  {
    if b == [] {
      assert a + b == a;
    } else {
      var b' := b[..|b| - 1];
      assert (a + b)[..|a + b| - 1] == a + b';
      assert (a + b)[|a + b| - 1] == b[|b| - 1];
      ThemeCountAppend(a, b', theme);
    }
  }

  /** Cards that all have theme x count |cards| for x and 0 for any other
      theme. */
  lemma {:induction false} ThemeCountUniform(cards: seq<Card>, x: string, theme: string)
    requires forall k :: 0 <= k < |cards| ==> cards[k].theme == x
    ensures ThemeCount(cards, theme) == if theme == x then |cards| else 0
  {
    if cards != [] {
      ThemeCountUniform(cards[..|cards| - 1], x, theme);
    }
  }

  /** The theme names differ from one another. */
  lemma ThemesDistinct(i: nat, j: nat)
    requires i < j < |Themes|
    ensures Themes[i] != Themes[j]
  {
    assert |Themes[0]| == 8 && |Themes[1]| == 6 && |Themes[2]| == 16 && |Themes[3]| == 9;
    assert |Themes[4]| == 6 && |Themes[5]| == 15 && |Themes[6]| == 18 && |Themes[7]| == 29;
    assert Themes[1][0] != Themes[4][0];
  }

  lemma {:induction false} CardsUpToLength(t: nat, make: CardSlot -> CardText)
    requires t <= |Themes|
    ensures |CardsUpTo(t, make)| == 20 * t
  {
    if t > 0 {
      CardsUpToLength(t - 1, make);
    }
  }

  /** The first t themes have twenty cards each, the others none. */
  lemma {:induction false} CardsUpToCounts(t: nat, make: CardSlot -> CardText, u: nat)
    requires t <= |Themes| && u < |Themes|
    ensures ThemeCount(CardsUpTo(t, make), Themes[u]) == if u < t then 20 else 0
  {
    if t > 0 {
      CardsUpToCounts(t - 1, make, u);
      ThemeCountAppend(CardsUpTo(t - 1, make), ThemeCards(t - 1, make), Themes[u]);
      ThemeCardsTheme(t - 1, make);
      ThemeCountUniform(ThemeCards(t - 1, make), Themes[t - 1], Themes[u]);
      if u < t - 1 {
        ThemesDistinct(u, t - 1);
      } else if u > t - 1 {
        ThemesDistinct(t - 1, u);
      }
    }
  }

  /** buildCards never throws: it makes 160 cards, twenty per theme, so the
      distribution test of validate always passes on them. */
  lemma BuildCardsCounts(make: CardSlot -> CardText)
    ensures |CardsUpTo(|Themes|, make)| == 160
    ensures forall u :: 0 <= u < |Themes| ==> ThemeCount(CardsUpTo(|Themes|, make), Themes[u]) == 20
  {
    forall u | 0 <= u < |Themes| ensures ThemeCount(CardsUpTo(|Themes|, make), Themes[u]) == 20 {
      CardsUpToCounts(|Themes|, make, u);
    }
    CardsUpToLength(|Themes|, make);
  }

  // ---- toJsonCards ----

  /** `String(index + 1).padStart(3, '0')`. */
  function CardNumber(index: nat): string {
    PadStart(Decimal(index + 1), 3, '0')
  }

  function CardId(index: nat): string {
    "fc-" + CardNumber(index)
  }

  /** Ids read back as their position plus one, so they are distinct. */
  lemma CardIdNumber(index: nat)
    ensures CardId(index)[..3] == "fc-"
    ensures AllDigits(CardId(index)[3..]) && DecimalValue(CardId(index)[3..]) == index + 1
  {
    PaddedDecimal(index + 1, 3);
    assert CardId(index)[3..] == CardNumber(index);
  }

  lemma CardIdsDistinct(m: nat, n: nat)
    requires m != n
    ensures CardId(m) != CardId(n)
  {
    CardIdNumber(m);
    CardIdNumber(n);
  }

  /** A card of flashcards.json. */
  datatype JsonCard = JsonCard(id: string, category: string, question: string, answer: string,
                               explanation: string, difficulty: string, successCount: int,
                               failCount: int, lastSeen: int, nextDue: int)

  /** `oldById.get(id) || {}`. */
  function Previous(oldById: map<string, Value>, id: string): Value {
    if id in oldById && Truthy(oldById[id]) then oldById[id] else Obj(map[])
  }

  /** The JSON card made from the card at position index. */
  function ToJsonCard(index: nat, card: Card, oldById: map<string, Value>): JsonCard {
    var id := CardId(index);
    var prev := Previous(oldById, id);
    JsonCard(id, card.theme, card.question, card.answer, card.explanation, Difficulty(card.theme),
             SafeNumber(Get(prev, "successCount"), 0), SafeNumber(Get(prev, "failCount"), 0),
             SafeNumber(Get(prev, "lastSeen"), 0), SafeNumber(Get(prev, "nextDue"), 0))
  }

  /** The old card's counters and dates carry over when they are numbers;
      everything else comes from the new card, and a counter or date that
      the old entry lacks, or holds as something other than a number,
      starts at 0. */
  lemma ToJsonCardCarries(index: nat, card: Card, oldById: map<string, Value>, field: string)
    requires field in {"successCount", "failCount", "lastSeen", "nextDue"}
    ensures var c := ToJsonCard(index, card, oldById);
            var kept := if field == "successCount" then c.successCount
                         else if field == "failCount" then c.failCount
                         else if field == "lastSeen" then c.lastSeen else c.nextDue;
            var id := CardId(index);
            var present := id in oldById && oldById[id].Obj? && field in oldById[id].fields
                           && oldById[id].fields[field].Num?;
            && (present ==> kept == oldById[id].fields[field].n)
            && (!present ==> kept == 0)
  {
  }

  /** The number of lines read back lies in 1..6. */
  predicate LinesOk(answer: string) {
    0 < |AnswerLines(answer)| <= 6
  }

  /** The message `toJsonCards` throws for the card at position index. */
  function LinesError(index: nat, card: Card): string {
    "Verso invalide pour " + CardId(index) + ": " + Decimal(|AnswerLines(card.answer)|) + " lignes."
  }

  /** `toJsonCards`: the first card whose answer has no line or more than
      six stops the conversion. */
  function ToJsonCards(cards: seq<Card>, oldById: map<string, Value>): (r: Result<seq<JsonCard>>)
    ensures cards == [] ==> r == Ok([])
    ensures cards != [] && !LinesOk(cards[0].answer) ==> r == Failure(LinesError(0, cards[0]))
  {
    MapOrThrow(cards, 0, AnswerFits, JsonMaker(oldById), LinesError)
  }

  predicate AnswerFits(card: Card) {
    LinesOk(card.answer)
  }

  function JsonMaker(oldById: map<string, Value>): (nat, Card) -> JsonCard {
    (k: nat, c: Card) => ToJsonCard(k, c, oldById)
  }

  /** `toJsonCards` succeeds exactly when every answer has one to six lines. */
  lemma ToJsonCardsOk(cards: seq<Card>, oldById: map<string, Value>)
    ensures ToJsonCards(cards, oldById).Ok? <==> forall k :: 0 <= k < |cards| ==> LinesOk(cards[k].answer)
  {
    MapOrThrowOk(cards, 0, AnswerFits, JsonMaker(oldById), LinesError);
  }

  /** It then makes one JSON card per card, at the same position. */
  lemma ToJsonCardsValues(cards: seq<Card>, oldById: map<string, Value>)
    requires ToJsonCards(cards, oldById).Ok?
    ensures |ToJsonCards(cards, oldById).value| == |cards|
    ensures forall k :: 0 <= k < |cards| ==> ToJsonCards(cards, oldById).value[k] == ToJsonCard(k, cards[k], oldById)
  {
    MapOrThrowValues(cards, 0, AnswerFits, JsonMaker(oldById), LinesError);
  }

  /** Otherwise the message names the first card whose answer fails, with
      its number of lines. */
  lemma ToJsonCardsFailure(cards: seq<Card>, oldById: map<string, Value>)
    requires ToJsonCards(cards, oldById).Failure?
    ensures exists k :: 0 <= k < |cards| && !LinesOk(cards[k].answer)
              && (forall j :: 0 <= j < k ==> LinesOk(cards[j].answer))
              && ToJsonCards(cards, oldById).error == LinesError(k, cards[k])
  {
    MapOrThrowFailure(cards, 0, AnswerFits, JsonMaker(oldById), LinesError);
  }

  // ---- toTextDeck ----

  /** The lines of one card of Flashcards.txt. */
  function DeckLines(index: nat, card: Card): seq<string> {
    DeckHead(index, card) + Bullets(AnswerLines(card.answer)) + ["", "---", ""]
  }

  function DeckHead(index: nat, card: Card): seq<string> {
    ["CARD " + CardNumber(index) + " — " + card.theme, "", "Face :", card.question, "", "Dos :"]
  }

  /** `lines.map((line) => `• ${line}`)`. */
  function Bullets(lines: seq<string>): (r: seq<string>)
    ensures |r| == |lines|
  {
    seq(|lines|, k requires 0 <= k < |lines| => "• " + lines[k])
  }

  function DeckBlock(index: nat, card: Card): string {
    Join(DeckLines(index, card), "\n")
  }

  /** `toTextDeck`: the blocks of the cards, one after the other. */
  function ToTextDeck(cards: seq<Card>): (r: string)
    ensures cards == [] ==> r == ""
    ensures |cards| == 1 ==> r == DeckBlock(0, cards[0])
  {
    Join(DeckBlocks(cards), "")
  }

  function DeckBlocks(cards: seq<Card>): (r: seq<string>)
    ensures |r| == |cards| && forall k :: 0 <= k < |cards| ==> r[k] == DeckBlock(k, cards[k])
  {
    seq(|cards|, k requires 0 <= k < |cards| => DeckBlock(k, cards[k]))
  }

  /** One more card appends its block, numbered after the others, to the
      deck text. */
  lemma ToTextDeckSnoc(cards: seq<Card>, c: Card)
    ensures ToTextDeck(cards + [c]) == ToTextDeck(cards) + DeckBlock(|cards|, c)
  {
    assert DeckBlocks(cards + [c]) == DeckBlocks(cards) + [DeckBlock(|cards|, c)];
    if cards != [] {
      JoinSnoc(DeckBlocks(cards), DeckBlock(|cards|, c), "");
    }
  }

  lemma DeckHeadPlain(index: nat, card: Card)
    requires '\n' !in card.theme && '\n' !in card.question
    ensures forall p :: p in DeckHead(index, card) ==> '\n' !in p
  {
    PaddedDigitsPlain(index);
  }

  lemma BulletsPlain(lines: seq<string>)
    requires forall k :: 0 <= k < |lines| ==> '\n' !in lines[k]
    ensures forall p :: p in Bullets(lines) ==> '\n' !in p
  {
    forall p | p in Bullets(lines) ensures '\n' !in p {
      var k :| 0 <= k < |lines| && Bullets(lines)[k] == p;
      assert p == "• " + lines[k];
    }
  }

  /** A card whose theme, question and answer lines hold no line break
      gives lines that hold none either. */
  lemma DeckLinesPlain(index: nat, card: Card)
    requires '\n' !in card.theme && '\n' !in card.question
    requires forall k :: 0 <= k < |AnswerLines(card.answer)| ==> '\n' !in AnswerLines(card.answer)[k]
    ensures forall p :: p in DeckLines(index, card) ==> '\n' !in p
  {
    DeckHeadPlain(index, card);
    BulletsPlain(AnswerLines(card.answer));
    var foot := ["", "---", ""];
    assert forall p :: p in foot ==> '\n' !in p;
    ConcatPlain(DeckHead(index, card), Bullets(AnswerLines(card.answer)), foot);
  }

  lemma ConcatPlain(a: seq<string>, b: seq<string>, c: seq<string>)
    requires forall p :: p in a ==> '\n' !in p
    requires forall p :: p in b ==> '\n' !in p
    requires forall p :: p in c ==> '\n' !in p
    ensures forall p :: p in a + b + c ==> '\n' !in p
  {
  }

  /** A block of a card made from a template reads back, line by line, as
      its header, one bullet per non-blank cleaned answer line, and its
      separator, when the theme and the question hold no line break. */
  lemma DeckBlockLines(index: nat, theme: string, text: CardText)
    requires '\n' !in theme && '\n' !in text.question
    ensures Split(DeckBlock(index, CardAt(theme, text)), '\n') == DeckLines(index, CardAt(theme, text))
    ensures DeckLines(index, CardAt(theme, text))[6..|DeckLines(index, CardAt(theme, text))| - 3]
            == Bullets(NonBlank(CleanLines(text.lines)))
  {
    var card := CardAt(theme, text);
    MakeAnswerRoundTrip(text.lines);
    NonBlankKeepsOut(CleanLines(text.lines), text.lines);
    DeckLinesPlain(index, card);
    SplitJoin(DeckLines(index, card), '\n');
  }

  /** No non-blank cleaned line holds a line break. */
  lemma {:induction false} NonBlankKeepsOut(parts: seq<string>, lines: seq<string>)
    requires parts == CleanLines(lines)
    ensures forall k :: 0 <= k < |NonBlank(parts)| ==> '\n' !in NonBlank(parts)[k]
  {
    if parts != [] {
      CleanLineShape(lines[0]);
      assert parts[1..] == CleanLines(lines[1..]);
      NonBlankKeepsOut(parts[1..], lines[1..]);
    }
  }

  lemma PaddedDigitsPlain(index: nat)
    ensures '\n' !in CardNumber(index)
  {
    PaddedDecimal(index + 1, 3);
  }

  // ---- validate ----

  /** `fn` occurs in s as a whole word (`\b...\b`) at position i. */
  predicate WordAt(s: string, i: nat, fn: string) {
    && i + |fn| <= |s| && s[i..i + |fn|] == fn
    && (i == 0 || !AnswerText.IsWordChar(s[i - 1]))
    && (i + |fn| == |s| || !AnswerText.IsWordChar(s[i + |fn|]))
  }

  /** `fnRegex.test(question)`. */
  predicate NamesFunction(q: string) {
    exists i: nat, fn :: i <= |q| && fn in FunctionNames && WordAt(q, i, fn)
  }

  /** `/qu['’]est-ce qu|définis|définition/i`. */
  predicate TooTheoretical(q: string) {
    || AnswerText.CiContains(q, "qu'est-ce qu") || AnswerText.CiContains(q, "qu’est-ce qu")
    || AnswerText.CiContains(q, "définis") || AnswerText.CiContains(q, "définition")
  }

  /** `/\?|quel|quelle|que fais-tu|quelle action/i`. */
  predicate AsksDecision(q: string) {
    || '?' in q || AnswerText.CiContains(q, "quel") || AnswerText.CiContains(q, "quelle")
    || AnswerText.CiContains(q, "que fais-tu") || AnswerText.CiContains(q, "quelle action")
  }

  /** The tests validate makes on each card. */
  predicate CardOk(card: Card) {
    && NamesFunction(card.question)
    && !TooTheoretical(card.question)
    && AsksDecision(card.question)
    && |AnswerLines(card.answer)| <= 6
  }

  /** `byTheme` after the cards: the number of cards of each theme present. */
  function Tally(cards: seq<Card>): map<string, nat> {
    if cards == [] then map[]
    else
      var m := Tally(cards[..|cards| - 1]);
      var theme := cards[|cards| - 1].theme;
      m[theme := (if theme in m then m[theme] else 0) + 1]
  }

  /** The tally holds the themes present, with their counts. */
  lemma {:induction false} TallyCounts(cards: seq<Card>, theme: string)
    ensures theme in Tally(cards) ==> Tally(cards)[theme] == ThemeCount(cards, theme)
    ensures theme !in Tally(cards) ==> ThemeCount(cards, theme) == 0
  {
    if cards != [] {
      TallyCounts(cards[..|cards| - 1], theme);
    }
  }

  lemma TallyPrefix(cards: seq<Card>, i: nat)
    requires i < |cards|
    ensures Tally(cards[..i + 1]) ==
      var m := Tally(cards[..i]);
      m[cards[i].theme := (if cards[i].theme in m then m[cards[i].theme] else 0) + 1]
  {
    assert cards[..i + 1][..i] == cards[..i];
  }

  /** The first n elements of s pass ok. */
  ghost predicate Passing<T>(s: seq<T>, n: nat, ok: T -> bool) {
    n <= |s| && forall k :: 0 <= k < n ==> PassesAt(s, k, ok)
  }

  ghost predicate PassesAt<T>(s: seq<T>, k: nat, ok: T -> bool) {
    k < |s| && ok(s[k])
  }

  lemma PassingStep<T>(s: seq<T>, n: nat, ok: T -> bool)
    requires n < |s| && Passing(s, n, ok) && ok(s[n])
    ensures Passing(s, n + 1, ok)
  {
    assert PassesAt(s, n, ok);
  }

  lemma PassingAll<T>(s: seq<T>, ok: T -> bool)
    requires Passing(s, |s|, ok)
    ensures forall k :: 0 <= k < |s| ==> ok(s[k])
  {
    forall k | 0 <= k < |s| ensures ok(s[k]) {
      assert PassesAt(s, k, ok);
    }
  }

  /** After the first i cards: they all pass, and byTheme is their tally. */
  ghost predicate CardsChecked(cards: seq<Card>, i: nat, byTheme: map<string, nat>) {
    i <= |cards| && byTheme == Tally(cards[..i]) && Passing(cards, i, CardOk)
  }

  lemma CardChecked(cards: seq<Card>, i: nat, before: map<string, nat>, after: map<string, nat>)
    requires i < |cards| && CardsChecked(cards, i, before) && CardOk(cards[i])
    requires after == before[cards[i].theme := (if cards[i].theme in before then before[cards[i].theme] else 0) + 1]
    ensures CardsChecked(cards, i + 1, after)
  {
    TallyStep(cards, i, before, after);
    PassingStep(cards, i, CardOk);
  }

  lemma TallyStep(cards: seq<Card>, i: nat, before: map<string, nat>, after: map<string, nat>)
    requires i < |cards| && before == Tally(cards[..i])
    requires after == before[cards[i].theme := (if cards[i].theme in before then before[cards[i].theme] else 0) + 1]
    ensures after == Tally(cards[..i + 1])
  {
    TallyPrefix(cards, i);
  }

  /** The first t themes hold twenty cards each. */
  ghost predicate ThemesFull(cards: seq<Card>, t: nat) {
    t <= |Themes| && forall u :: 0 <= u < t ==> ThemeCount(cards, Themes[u]) == 20
  }

  lemma ThemeFull(cards: seq<Card>, t: nat)
    requires t < |Themes| && ThemesFull(cards, t) && ThemeCount(cards, Themes[t]) == 20
    ensures ThemesFull(cards, t + 1)
  {
  }

  /** The four tests of validate on one card, in their order: the message
      of the first that fails, or None. */
  method CheckCard(card: Card) returns (error: Option<string>)
    ensures error.None? <==> CardOk(card)
  {
    if !NamesFunction(card.question) {
      return Some("Fonction non explicite dans la question: " + card.question);
    }
    if TooTheoretical(card.question) {
      return Some("Carte trop théorique: " + card.question);
    }
    if !AsksDecision(card.question) {
      return Some("Face insuffisamment orientée décision: " + card.question);
    }
    if |AnswerLines(card.answer)| > 6 {
      return Some("Verso > 6 lignes: " + card.question);
    }
    return None;
  }

  /** The first loop of validate: count the cards of each theme while
      testing each card. */
  method TallyCards(cards: seq<Card>) returns (r: Result<map<string, nat>>)
    ensures r.Ok? <==> forall k :: 0 <= k < |cards| ==> CardOk(cards[k])
    ensures r.Ok? ==> r.value == Tally(cards)
  {
    var byTheme: map<string, nat> := map[];
    var i := 0;
    while i < |cards|
      invariant CardsChecked(cards, i, byTheme)
    {
      var card := cards[i];
      ghost var before := byTheme;
      byTheme := byTheme[card.theme := (if card.theme in byTheme then byTheme[card.theme] else 0) + 1];
      var error := CheckCard(card);
      if error.Some? {
        return Failure(error.value);
      }
      CardChecked(cards, i, before, byTheme);
      i := i + 1;
    }
    assert cards[..i] == cards;
    PassingAll(cards, CardOk);
    return Ok(byTheme);
  }

  /** The second loop of validate: twenty cards in every theme. */
  method CheckThemes(cards: seq<Card>, byTheme: map<string, nat>) returns (r: Result<map<string, nat>>)
    requires byTheme == Tally(cards)
    ensures r.Ok? <==> forall u :: 0 <= u < |Themes| ==> ThemeCount(cards, Themes[u]) == 20
    ensures r.Ok? ==> r.value == byTheme
  {
    var t := 0;
    while t < |Themes|
      invariant ThemesFull(cards, t)
    {
      var theme := Themes[t];
      TallyCounts(cards, theme);
      if !(theme in byTheme && byTheme[theme] == 20) {
        assert ThemeCount(cards, Themes[t]) != 20;
        return Failure("Répartition invalide sur " + theme + ": "
                       + Decimal(if theme in byTheme then byTheme[theme] else 0));
      }
      ThemeFull(cards, t);
      t := t + 1;
    }
    return Ok(byTheme);
  }

  /** `validate`: every card passes its tests and every theme holds twenty
      cards; the result is the count of each theme. */
  method Validate(cards: seq<Card>) returns (r: Result<map<string, nat>>)
    ensures r.Ok? <==> (forall k :: 0 <= k < |cards| ==> CardOk(cards[k]))
                       && forall u :: 0 <= u < |Themes| ==> ThemeCount(cards, Themes[u]) == 20
    ensures r.Ok? ==> r.value == Tally(cards)
  {
    r := TallyCards(cards);
    if r.Ok? {
      r := CheckThemes(cards, r.value);
    }
  }
}
