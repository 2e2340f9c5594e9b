/** The quiz page (quiz.js): the checked question file, the weighted draw of
    a session's questions, the shuffled answer choices, the time allowed per
    question with the penalty carried over, and the scoring and history kept
    when a session ends. */
module Quiz {
  import opened Json
  import opened Lists
  import opened Text
  import opened Seeded
  import opened Store

  datatype Question = Question(
    question: string, choices: seq<string>, correct: int,
    explanation: string, theme: string, tags: seq<string>)

  /** What a question needs to be asked: a text, two choices at least and
      a correct index among them. */
  predicate Playable(q: Question) {
    |q.question| > 0 && |q.choices| >= 2 && 0 <= q.correct < |q.choices|
  }

  // ---- loading (sanitizeQuizData) ----

  /** The map step of `sanitizeQuizData` on one object item. Numbers are
      integers here, so `Number.isInteger` is a test for a number. */
  function SanitizeQuestion(item: Value): (q: Question)
    ensures IsTrimmed(q.question) && IsTrimmed(q.explanation)
    ensures q.choices == Strings(Get(item, "choices")) && q.tags == Strings(Get(item, "tags"))
    ensures q.correct == SafeNumber(Get(item, "correct"), -1)
    ensures q.theme == StringOr(Get(item, "theme"), "patterns")
  {
    var qv := Get(item, "question");
    var ev := Get(item, "explanation");
    Question(
      if qv.Str? then Trim(qv.s) else "",
      Strings(Get(item, "choices")),
      SafeNumber(Get(item, "correct"), -1),
      if ev.Str? then Trim(ev.s) else "",
      StringOr(Get(item, "theme"), "patterns"),
      Strings(Get(item, "tags")))
  }

  /** The sanitised object items, before the playability filter: one
      question per object item of the payload, in the payload's order. */
  function Candidates(payload: Value): (qs: seq<Question>)
    ensures |qs| == |Filter(ItemsOf(payload), IsObjectLike)|
    ensures forall i :: 0 <= i < |qs| ==>
      qs[i] == SanitizeQuestion(Filter(ItemsOf(payload), IsObjectLike)[i])
  {
    Map(Filter(ItemsOf(payload), IsObjectLike), SanitizeQuestion)
  }

  /** `sanitizeQuizData`: nothing from a payload that is not an array;
      otherwise the sanitised object items that can be asked, in order. */
  function SanitizeQuizData(payload: Value): (qs: seq<Question>)
    ensures !payload.Arr? ==> qs == []
    ensures |qs| <= |ItemsOf(payload)|
    ensures forall q :: q in qs ==> Playable(q) && IsTrimmed(q.question) && IsTrimmed(q.explanation)
  {
    Filter(Candidates(payload), Playable)
  }

  /** Every object item that sanitises to a playable question is kept. */
  lemma SanitizeKeepsPlayable(payload: Value, item: Value)
    requires item in ItemsOf(payload) && IsObjectLike(item)
    requires Playable(SanitizeQuestion(item))
    ensures SanitizeQuestion(item) in SanitizeQuizData(payload)
  {
    FilterKeeps(ItemsOf(payload), IsObjectLike, item);
    var kept := Filter(ItemsOf(payload), IsObjectLike);
    var i :| 0 <= i < |kept| && kept[i] == item;
    assert Candidates(payload)[i] == SanitizeQuestion(item);
    FilterKeeps(Candidates(payload), Playable, SanitizeQuestion(item));
  }

  /** Every kept question is the sanitised form of an object item of the
      payload, and can be asked. */
  lemma SanitizeQuizDataSound(payload: Value, q: Question)
    requires q in SanitizeQuizData(payload)
    ensures Playable(q)
    ensures exists item :: item in ItemsOf(payload) && IsObjectLike(item) && q == SanitizeQuestion(item)
  {
    var cands := Candidates(payload);
    var kept := Filter(ItemsOf(payload), IsObjectLike);
    assert q in cands;
    var i :| 0 <= i < |cands| && cands[i] == q;
    assert kept[i] in kept;
    assert q == SanitizeQuestion(kept[i]);
  }

  /** The JSON form of a question, as the question file holds it. */
  function QuestionValue(q: Question): Value {
    Obj(map[
      "question" := Str(q.question), "choices" := StringsValue(q.choices),
      "correct" := Num(q.correct), "explanation" := Str(q.explanation),
      "theme" := Str(q.theme), "tags" := StringsValue(q.tags)])
  }

  lemma QuestionRoundTrip(q: Question)
    requires IsTrimmed(q.question) && IsTrimmed(q.explanation)
    ensures SanitizeQuestion(QuestionValue(q)) == q
  {
    var v := QuestionValue(q);
    assert Get(v, "question") == Str(q.question);
    assert Get(v, "explanation") == Str(q.explanation);
    assert Get(v, "choices") == StringsValue(q.choices);
    assert Get(v, "tags") == StringsValue(q.tags);
    assert Get(v, "correct") == Num(q.correct);
    assert Get(v, "theme") == Str(q.theme);
    StringsRoundTrip(q.choices);
    StringsRoundTrip(q.tags);
    TrimOfTrimmed(q.question);
    TrimOfTrimmed(q.explanation);
  }

  /** A question file written from playable questions with trimmed texts
      reads back as the same questions. */
  lemma QuizFileRoundTrip(qs: seq<Question>)
    requires forall q :: q in qs ==> Playable(q) && IsTrimmed(q.question) && IsTrimmed(q.explanation)
    ensures SanitizeQuizData(Arr(Map(qs, QuestionValue))) == qs
  {
    var items := Map(qs, QuestionValue);
    FilterAll(items, IsObjectLike);
    var cands := Candidates(Arr(items));
    forall i | 0 <= i < |qs| ensures cands[i] == qs[i] {
      assert qs[i] in qs;
      QuestionRoundTrip(qs[i]);
    }
    assert cands == qs;
    FilterAll(qs, Playable);
  }

  // ---- the clock display (formatTimer) ----

  /** `String(n).padStart(2, "0")`: the decimal digits of n, with a
      leading zero below 10. */
  function TwoDigits(n: nat): (r: string)
    ensures |r| >= 2 && AllDigits(r) && DecimalValue(r) == n
    ensures n < 100 ==> |r| == 2
  {
    PaddedDecimal(n, 2);
    ShortDecimal(n);
    PadStart(Decimal(n), 2, '0')
  }

  /** A number below 100 has at most two digits. */
  lemma ShortDecimal(n: nat)
    ensures n < 100 ==> |Decimal(n)| <= 2
  {
    if 10 <= n < 100 {
      assert Decimal(n) == Decimal(n / 10) + [DigitChar(n % 10)];
    }
  }

  /** `formatTimer`: minutes and seconds, each zero-padded to two digits,
      negative input counting as 0. */
  function FormatTimer(seconds: int): (r: string)
    ensures |r| >= 5 && r[|r| - 3] == ':'
    ensures seconds < 6000 ==> |r| == 5
  {
    var safe := Max(0, seconds);
    TwoDigits(safe / 60) + ":" + TwoDigits(safe % 60)
  }

  /** A clock display: digits, a colon, two digits. */
  predicate IsClock(r: string) {
    |r| >= 5 && r[|r| - 3] == ':' && AllDigits(r[..|r| - 3]) && AllDigits(r[|r| - 2..])
  }

  function Minutes(r: string): nat
    requires IsClock(r)
  {
    DecimalValue(r[..|r| - 3])
  }

  function Seconds(r: string): nat
    requires IsClock(r)
  {
    DecimalValue(r[|r| - 2..])
  }

  /** The display reads back as the minutes and the seconds below 60 of the
      count, which they give back together. */
  lemma FormatTimerRoundTrip(seconds: int)
    ensures IsClock(FormatTimer(seconds))
    ensures Minutes(FormatTimer(seconds)) == Max(0, seconds) / 60
    ensures Seconds(FormatTimer(seconds)) == Max(0, seconds) % 60 < 60
    ensures Minutes(FormatTimer(seconds)) * 60 + Seconds(FormatTimer(seconds)) == Max(0, seconds)
  {
    var safe := Max(0, seconds);
    var mm := TwoDigits(safe / 60);
    var ss := TwoDigits(safe % 60);
    var r := FormatTimer(seconds);
    assert r == mm + ":" + ss;
    assert r[..|r| - 3] == mm;
    assert r[|r| - 2..] == ss;
  }

  /** A negative count shows as "00:00". */
  lemma FormatTimerNegative(seconds: int)
    requires seconds <= 0
    ensures FormatTimer(seconds) == "00:00"
  {
    assert TwoDigits(0) == "00" by {
      assert Decimal(0) == "0";
      assert PadStart("0", 2, '0') == Repeat('0', 1) + "0";
    }
  }

  // ---- the weighted draw (weightedOrder, buildQuestionSet) ----

  /** One entry of the pool: an item and its weight. */
  datatype Entry<T> = Entry(item: T, weight: real)

  function Items<T>(pool: seq<Entry<T>>): (r: seq<T>)
    ensures |r| == |pool| && forall i :: 0 <= i < |pool| ==> r[i] == pool[i].item
  {
    seq(|pool|, i requires 0 <= i < |pool| => pool[i].item)
  }

  function Weights<T>(pool: seq<Entry<T>>): (r: seq<real>)
    ensures |r| == |pool| && forall i :: 0 <= i < |pool| ==> r[i] == pool[i].weight
  {
    seq(|pool|, i requires 0 <= i < |pool| => pool[i].weight)
  }

  /** The pool `weightedOrder` starts from: every item with its weight,
      raised to 0.001 at least. */
  function MakePool<T>(items: seq<T>, weightFn: T -> real): (pool: seq<Entry<T>>)
    ensures Items(pool) == items
    ensures forall i :: 0 <= i < |pool| ==> pool[i].weight >= 0.001
  {
    seq(|items|, i requires 0 <= i < |items| =>
      Entry(items[i], if weightFn(items[i]) < 0.001 then 0.001 else weightFn(items[i])))
  }

  /** The sum of the weights, from the left. */
  function Total(ws: seq<real>): real
    decreases |ws|
  {
    if ws == [] then 0.0 else Total(ws[..|ws| - 1]) + ws[|ws| - 1]
  }

  /** The index the inner loop of `weightedOrder` settles on, from position
      i with `pick` left: the first position whose weight brings `pick` to
      0 or below, or 0 when none does. */
  function ChosenFrom(ws: seq<real>, pick: real, i: nat): (c: nat)
    requires i <= |ws|
    ensures |ws| > 0 ==> c < |ws|
    ensures c != 0 ==> i <= c
    decreases |ws| - i
  {
    if i == |ws| then 0
    else if pick - ws[i] <= 0.0 then i
    else ChosenFrom(ws, pick - ws[i], i + 1)
  }

  /** The draw the k-th step makes from the pool. */
  function Chosen<T>(pool: seq<Entry<T>>, rng: nat -> real, k: nat): (c: nat)
    requires pool != []
    ensures c < |pool|
  {
    ChosenFrom(Weights(pool), Scaled(pool, rng, k), 0)
  }

  /** `rng() * totalWeight` for the k-th draw. */
  function Scaled<T>(pool: seq<Entry<T>>, rng: nat -> real, k: nat): real {
    rng(k) * Total(Weights(pool))
  }

  /** The order `weightedOrder` produces from `pool` when the draws start at
      number k: the entry chosen by the k-th draw, then the order of the
      rest. */
  function WeightedOrderFrom<T>(pool: seq<Entry<T>>, rng: nat -> real, k: nat): (r: seq<T>)
    ensures |r| == |pool|
    decreases |pool|
  {
    if pool == [] then []
    else
      var c := Chosen(pool, rng, k);
      [pool[c].item] + WeightedOrderFrom(Remove(pool, c), rng, k + 1)
  }

  /** Whatever the weights and the draws, every item comes out exactly
      once. */
  lemma {:induction false} WeightedOrderPermutes<T>(pool: seq<Entry<T>>, rng: nat -> real, k: nat)
    ensures multiset(WeightedOrderFrom(pool, rng, k)) == multiset(Items(pool))
    decreases |pool|
  {
    if pool != [] {
      var c := Chosen(pool, rng, k);
      var rest := Remove(pool, c);
      WeightedOrderPermutes(rest, rng, k + 1);
      ItemsRemove(pool, c);
    }
  }

  /** Removing an entry from the pool removes its item from the items. */
  lemma ItemsRemove<T>(pool: seq<Entry<T>>, c: nat)
    requires c < |pool|
    ensures Items(Remove(pool, c)) == Remove(Items(pool), c)
    ensures Items(pool)[c] == pool[c].item
  {
    var rest := Remove(pool, c);
    forall j | 0 <= j < |rest| ensures Items(rest)[j] == Remove(Items(pool), c)[j] {
      if j < c {
        assert rest[j] == pool[j];
      } else {
        assert rest[j] == pool[j + 1];
      }
    }
  }

  /** The inner loop of `weightedOrder`: `pick` less each weight in turn,
      stopping at the first position that brings it to 0 or below. */
  method ChooseIndex(ws: seq<real>, pick0: real) returns (chosen: nat)
    requires |ws| > 0
    ensures chosen == ChosenFrom(ws, pick0, 0) && chosen < |ws|
  {
    var pick := pick0;
    chosen := 0;
    var i := 0;
    while i < |ws|
      invariant 0 <= i <= |ws|
      invariant ChosenFrom(ws, pick, i) == ChosenFrom(ws, pick0, 0)
    {
      ghost var before := pick;
      pick := pick - ws[i];
      if pick <= 0.0 {
        assert ChosenFrom(ws, before, i) == i;
        chosen := i;
        return;
      }
      i := i + 1;
    }
  }

  /** The loop of `weightedOrder` with `out` drawn so far and `pool` left
      after k draws is on its way to the order of `start`. */
  ghost predicate OrderReaches<T>(out: seq<T>, pool: seq<Entry<T>>, k: nat, start: seq<Entry<T>>, rng: nat -> real) {
    WeightedOrderFrom(start, rng, 0) == out + WeightedOrderFrom(pool, rng, k)
  }

  /** One draw of the loop: the chosen item moves from the pool to the
      output. */
  lemma OrderStep<T>(out: seq<T>, pool: seq<Entry<T>>, k: nat, start: seq<Entry<T>>, rng: nat -> real, chosen: nat)
    requires OrderReaches(out, pool, k, start, rng) && pool != []
    requires chosen == ChosenFrom(Weights(pool), Scaled(pool, rng, k), 0)
    ensures chosen < |pool|
    ensures OrderReaches(out + [pool[chosen].item], Remove(pool, chosen), k + 1, start, rng)
  {
    assert WeightedOrderFrom(pool, rng, k)
      == [pool[chosen].item] + WeightedOrderFrom(Remove(pool, chosen), rng, k + 1);
    AppendAssoc(out, [pool[chosen].item], WeightedOrderFrom(Remove(pool, chosen), rng, k + 1));
  }

  /** With the pool empty, the output is the whole order. */
  lemma OrderDone<T>(out: seq<T>, pool: seq<Entry<T>>, k: nat, start: seq<Entry<T>>, rng: nat -> real)
    requires OrderReaches(out, pool, k, start, rng) && pool == []
    ensures out == WeightedOrderFrom(start, rng, 0)
  {
    assert out + WeightedOrderFrom(pool, rng, k) == out;
  }

  /** `weightedOrder`: draws an entry from the pool in proportion to its
      weight, moves it to the output and repeats until the pool is empty.
      Draw number k of `rng` is used for the k-th entry. */
  method WeightedOrder<T>(items: seq<T>, weightFn: T -> real, rng: nat -> real) returns (out: seq<T>)
    ensures out == WeightedOrderFrom(MakePool(items, weightFn), rng, 0)
    ensures multiset(out) == multiset(items)
  {
    var pool := MakePool(items, weightFn);
    out := [];
    var k: nat := 0;
    assert OrderReaches(out, pool, k, MakePool(items, weightFn), rng) by {
      assert out + WeightedOrderFrom(pool, rng, k) == WeightedOrderFrom(pool, rng, k);
    }
    while |pool| > 0
      invariant OrderReaches(out, pool, k, MakePool(items, weightFn), rng)
      decreases |pool|
    {
      var ws := Weights(pool);
      var pick := Scaled(pool, rng, k);
      var chosen := ChooseIndex(ws, pick);
      OrderStep(out, pool, k, MakePool(items, weightFn), rng, chosen);
      out := out + [pool[chosen].item];
      pool := Remove(pool, chosen);
      k := k + 1;
    }
    OrderDone(out, pool, k, MakePool(items, weightFn), rng);
    WeightedOrderPermutes(MakePool(items, weightFn), rng, 0);
  }

  /** `s.slice(0, end)`: the first `end` elements; a negative end counts
      from the back. */
  function SliceTo<T>(s: seq<T>, end: int): (r: seq<T>)
    ensures |r| <= |s| && r == s[..|r|]
    ensures 0 <= end ==> |r| == Min(end, |s|)
    ensures end < 0 ==> |r| == Max(0, |s| + end)
  {
    if end >= 0 then s[..Min(end, |s|)] else s[..Max(0, |s| + end)]
  }

  /** `buildQuestionSet`: the first `count` questions of the weighted
      order. */
  method BuildQuestionSet(all: seq<Question>, count: int, weightFn: Question -> real, rng: nat -> real)
    returns (picked: seq<Question>)
    ensures picked == SliceTo(WeightedOrderFrom(MakePool(all, weightFn), rng, 0), Min(count, |all|))
    ensures 0 <= count ==> |picked| == Min(count, |all|)
    ensures multiset(picked) <= multiset(all)
    ensures Distinct(all) ==> Distinct(picked)
  {
    var weighted := WeightedOrder(all, weightFn, rng);
    assert |weighted| == |all|;
    picked := SliceTo(weighted, Min(count, |all|));
    PrefixSubMultiset(weighted, |picked|);
    if Distinct(all) {
      SubMultisetDistinct(picked, all);
    }
  }

  lemma PrefixSubMultiset<T>(s: seq<T>, n: nat)
    requires n <= |s|
    ensures multiset(s[..n]) <= multiset(s)
  {
    assert s == s[..n] + s[n..];
  }

  /** Drawn from a sequence without repeats, a sub-multiset has none. */
  lemma SubMultisetDistinct<T>(a: seq<T>, b: seq<T>)
    requires multiset(a) <= multiset(b) && Distinct(b)
    ensures Distinct(a)
  {
    forall i, j | 0 <= i < j < |a| ensures a[i] != a[j] {
      if a[i] == a[j] {
        var x := a[i];
        assert multiset([x, x]) <= multiset(a) by {
          assert a == a[..i] + [x] + a[i + 1..j] + [x] + a[j + 1..];
        }
        DistinctOnce(b, x);
      }
    }
  }

  lemma {:induction false} DistinctOnce<T>(b: seq<T>, x: T)
    requires Distinct(b)
    ensures multiset(b)[x] <= 1
  {
    if b != [] {
      assert b == [b[0]] + b[1..];
      assert Distinct(b[1..]);
      DistinctOnce(b[1..], x);
      if b[0] == x {
        assert x !in b[1..];
      }
    }
  }

  // ---- shuffled choices (remapQuestionChoices) ----

  /** A choice with its position in the question file. */
  datatype Tagged = Tagged(choice: string, index: int)

  function TagChoice(t: Tagged): string { t.choice }
  function TagIndex(t: Tagged): int { t.index }

  function Tag(choices: seq<string>): (r: seq<Tagged>)
    ensures |r| == |choices| && forall i :: 0 <= i < |r| ==> r[i] == Tagged(choices[i], i)
  {
    seq(|choices|, i requires 0 <= i < |choices| => Tagged(choices[i], i))
  }

  /** `remapQuestionChoices`: the choices shuffled by `shuffleArray`, and
      the correct index moved to where the correct choice went. */
  function RemapQuestionChoices(q: Question, rng: nat -> real): (r: Question)
    requires IsUnitOracle(rng)
    ensures |r.choices| == |q.choices|
    ensures r.question == q.question && r.explanation == q.explanation
    ensures r.theme == q.theme && r.tags == q.tags
  {
    var shuffled := FisherYates(Tag(q.choices), rng);
    var newCorrect := IndexOf(Map(shuffled, TagIndex), q.correct);
    q.(choices := Map(shuffled, TagChoice), correct := if newCorrect >= 0 then newCorrect else q.correct)
  }

  /** The choices come out in the order `shuffleArray` gives the bare
      choices, so they are a permutation of them; the correct index points
      at the same choice as before; everything else is unchanged. */
  lemma RemapKeepsAnswer(q: Question, rng: nat -> real)
    requires IsUnitOracle(rng)
    ensures var r := RemapQuestionChoices(q, rng);
      && r.choices == FisherYates(q.choices, rng)
      && multiset(r.choices) == multiset(q.choices)
      && r.question == q.question && r.explanation == q.explanation
      && r.theme == q.theme && r.tags == q.tags
      && (0 <= q.correct < |q.choices| ==> 0 <= r.correct < |r.choices| && r.choices[r.correct] == q.choices[q.correct])
      && (!(0 <= q.correct < |q.choices|) ==> r.correct == q.correct)
  {
    var tagged := Tag(q.choices);
    TagChoices(q.choices);
    FisherYatesMap(tagged, rng, TagChoice);
    FisherYatesPermutes(q.choices, rng);
    if 0 <= q.correct < |q.choices| {
      ShuffledTagFound(q.choices, rng, q.correct);
    } else {
      ShuffledTagMissing(q.choices, rng, q.correct);
    }
  }

  /** An index outside the choices is not among the shuffled tags. */
  lemma ShuffledTagMissing(choices: seq<string>, rng: nat -> real, c: int)
    requires IsUnitOracle(rng) && !(0 <= c < |choices|)
    ensures IndexOf(Map(FisherYates(Tag(choices), rng), TagIndex), c) == -1
  {
    var idx := Map(FisherYates(Tag(choices), rng), TagIndex);
    forall j | 0 <= j < |idx| ensures idx[j] != c {
      ShuffledTagIn(choices, rng, j);
    }
  }

  /** Dropping the tags gives the choices back. */
  lemma TagChoices(choices: seq<string>)
    ensures Map(Tag(choices), TagChoice) == choices
  {
  }

  /** A shuffled tagged choice is one of the tagged choices. */
  lemma ShuffledTagIn(choices: seq<string>, rng: nat -> real, j: int)
    requires IsUnitOracle(rng) && 0 <= j < |choices|
    ensures exists i :: 0 <= i < |choices| && FisherYates(Tag(choices), rng)[j] == Tagged(choices[i], i)
  {
    var tagged := Tag(choices);
    var shuffled := FisherYates(tagged, rng);
    FisherYatesPermutes(tagged, rng);
    assert shuffled[j] in multiset(tagged);
    var i :| 0 <= i < |tagged| && tagged[i] == shuffled[j];
  }

  /** The tag of the choice at position c is found in the shuffle, at a
      position holding the same choice. */
  lemma ShuffledTagFound(choices: seq<string>, rng: nat -> real, c: int)
    requires IsUnitOracle(rng) && 0 <= c < |choices|
    ensures var shuffled := FisherYates(Tag(choices), rng);
      var n := IndexOf(Map(shuffled, TagIndex), c);
      0 <= n < |shuffled| && shuffled[n].choice == choices[c]
  {
    var tagged := Tag(choices);
    var shuffled := FisherYates(tagged, rng);
    var idx := Map(shuffled, TagIndex);
    FisherYatesPermutes(tagged, rng);
    assert tagged[c] in multiset(shuffled);
    var j :| 0 <= j < |shuffled| && shuffled[j] == tagged[c];
    assert idx[j] == c;
    var n := IndexOf(idx, c);
    ShuffledTagIn(choices, rng, n);
  }

  /** A playable question stays playable. */
  lemma RemapPlayable(q: Question, rng: nat -> real)
    requires IsUnitOracle(rng) && Playable(q)
    ensures Playable(RemapQuestionChoices(q, rng))
  {
    RemapKeepsAnswer(q, rng);
  }

  // ---- the history list (sessionPercent) ----

  /** `sessionPercent`: the share of correct answers as a percentage,
      rounded to an integer at most one half away, 0 for a session without
      questions. */
  function SessionPercent(s: QuizSessionEntry): (r: int)
    ensures s.total <= 0 ==> r == 0
    ensures s.total > 0 ==> 2 * s.total * r - s.total <= 200 * s.score <= 2 * s.total * r + s.total
    ensures 0 <= s.score <= s.total ==> 0 <= r <= 100
  {
    if s.total <= 0 then 0 else RoundedPercent(s.score, s.total)
  }

  lemma SessionPercentExtremes(s: QuizSessionEntry)
    requires s.total > 0
    ensures s.score == s.total ==> SessionPercent(s) == 100
    ensures s.score == 0 ==> SessionPercent(s) == 0
  {
    var t := s.total;
    if s.score == t {
      DivUnique(200 * t + t, 2 * t, 100, t);
    }
    if s.score == 0 {
      DivUnique(t, 2 * t, 0, t);
    }
  }

  // ---- the session (state in quiz.js) ----

  /** One cell of the result grid. */
  datatype ResultEntry = ResultEntry(
    question: string, selected: string, correct: string,
    explanation: string, isCorrect: bool, timedOut: bool)

  /** The text of the selected choice; -1 means the time ran out. */
  function SelectedText(q: Question, selected: int): string
    requires selected < |q.choices|
  {
    if selected >= 0 then q.choices[selected] else "Aucune réponse"
  }

  /** The text of the correct choice. */
  function CorrectText(q: Question): string {
    if 0 <= q.correct < |q.choices| then q.choices[q.correct] else ""
  }

  /** The adjusted score of the final panel: one point off per full
      question time of penalty, never below 0. */
  function AdjustedScore(score: int, penaltyTotal: int, timerPerQuestion: int): (r: int)
    ensures r >= 0
    ensures penaltyTotal >= 0 && score >= 0 ==> r <= score
    ensures 0 <= penaltyTotal < Max(1, timerPerQuestion) && score >= 0 ==> r == score
  {
    var t := Max(1, timerPerQuestion);
    Max(0, score - penaltyTotal / t)
  }

  /** The session state of the quiz page over the shared progress object. */
  class QuizSession {
    const store: ProgressStore
    var sessionQuestions: seq<Question>
    var index: int
    var score: int
    var answered: bool
    var selectedTheme: string
    var timerPerQuestion: int
    var penaltySeconds: int
    var penaltyTotal: int
    var penaltyCarry: int
    var sessionErrors: seq<QuizErrorEntry>
    var sessionResults: map<int, ResultEntry>

    predicate Valid()
      reads this, store
    {
      Store.Valid(store.data) && forall q :: q in sessionQuestions ==> Playable(q)
    }

    function CurrentQuestion(): (q: Option<Question>)
      reads this
      ensures q.Some? <==> 0 <= index < |sessionQuestions|
    {
      if 0 <= index < |sessionQuestions| then Some(sessionQuestions[index]) else None
    }

    constructor(store: ProgressStore)
      requires Store.Valid(store.data)
      ensures this.store == store && Valid()
      ensures sessionQuestions == [] && index == 0 && score == 0 && !answered
      ensures selectedTheme == "random" && timerPerQuestion == 20 && penaltySeconds == 3
      ensures penaltyTotal == 0 && penaltyCarry == 0
      ensures sessionErrors == [] && sessionResults == map[]
    {
      this.store := store;
      sessionQuestions := [];
      index := 0;
      score := 0;
      answered := false;
      selectedTheme := "random";
      timerPerQuestion := 20;
      penaltySeconds := 3;
      penaltyTotal := 0;
      penaltyCarry := 0;
      sessionErrors := [];
      sessionResults := map[];
    }

    /** `getQuestionTime`: the question time less the penalty carried over,
        never below 5 seconds; what is taken off leaves the carry. */
    method GetQuestionTime() returns (available: int)
      modifies this
      ensures available == Max(5, old(timerPerQuestion) - Min(old(penaltyCarry), old(timerPerQuestion) - 5))
      ensures penaltyCarry == Max(0, old(penaltyCarry) - (timerPerQuestion - available))
      ensures old(penaltyCarry) >= 0 && timerPerQuestion >= 5 ==>
        && available == Max(5, timerPerQuestion - old(penaltyCarry))
        && 5 <= available <= timerPerQuestion
        && penaltyCarry == old(penaltyCarry) - (timerPerQuestion - available) >= 0
      ensures sessionQuestions == old(sessionQuestions) && index == old(index) && score == old(score)
      ensures answered == old(answered) && selectedTheme == old(selectedTheme)
      ensures timerPerQuestion == old(timerPerQuestion) && penaltySeconds == old(penaltySeconds)
      ensures penaltyTotal == old(penaltyTotal)
      ensures sessionErrors == old(sessionErrors) && sessionResults == old(sessionResults)
    {
      available := Max(5, timerPerQuestion - Min(penaltyCarry, timerPerQuestion - 5));
      var used := timerPerQuestion - available;
      penaltyCarry := Max(0, penaltyCarry - used);
    }

    /** `evaluateAnswer`: nothing without a current question or once it is
        answered. Otherwise the answer is recorded in the result grid and
        the day's heat map; a correct one scores a point, a wrong one adds
        an error entry and the penalty to both the total and the carry. */
    method EvaluateAnswer(selected: int, timedOut: bool, day: string, nowIso: string)
      requires Valid() && IsDayKey(day)
      requires CurrentQuestion().Some? ==> selected < |CurrentQuestion().value.choices|
      modifies this, store
      ensures Valid()
      ensures sessionQuestions == old(sessionQuestions) && index == old(index)
      ensures selectedTheme == old(selectedTheme) && timerPerQuestion == old(timerPerQuestion)
      ensures penaltySeconds == old(penaltySeconds)
      ensures old(CurrentQuestion()).None? || old(answered) ==> unchanged(this, store)
      ensures old(CurrentQuestion()).Some? && !old(answered) ==>
        var q := old(CurrentQuestion()).value;
        var ok := selected == q.correct;
        && answered
        && sessionResults == old(sessionResults)[index := ResultEntry(q.question,
             SelectedText(q, selected), CorrectText(q), q.explanation, ok, timedOut)]
        && store.data == Recorded(old(store.data), day, ok)
        && score == old(score) + (if ok then 1 else 0)
        && sessionErrors == old(sessionErrors) + (if ok then [] else
             [QuizErrorEntry(nowIso, q.question, SelectedText(q, selected), CorrectText(q), q.tags, "quiz")])
        && penaltyTotal == old(penaltyTotal) + (if ok then 0 else penaltySeconds)
        && penaltyCarry == old(penaltyCarry) + (if ok then 0 else penaltySeconds)
    {
      if CurrentQuestion().Some? && !answered {
        var ok := RecordAnswer(selected, timedOut, nowIso);
        RecordedValid(store.data, day, ok);
        store.data := Recorded(store.data, day, ok);
      }
    }

    /** The page's part of `evaluateAnswer` once a current question awaits
        its answer: the result grid, the score, the errors and the
        penalties; `ok` says whether the answer was the correct one. */
    method RecordAnswer(selected: int, timedOut: bool, nowIso: string) returns (ok: bool)
      requires 0 <= index < |sessionQuestions| && !answered
      requires selected < |sessionQuestions[index].choices|
      modifies this
      ensures sessionQuestions == old(sessionQuestions) && index == old(index)
      ensures selectedTheme == old(selectedTheme) && timerPerQuestion == old(timerPerQuestion)
      ensures penaltySeconds == old(penaltySeconds)
      ensures var q := sessionQuestions[index];
        && ok == (selected == q.correct)
        && answered
        && sessionResults == old(sessionResults)[index := ResultEntry(q.question,
             SelectedText(q, selected), CorrectText(q), q.explanation, ok, timedOut)]
        && score == old(score) + (if ok then 1 else 0)
        && sessionErrors == old(sessionErrors) + (if ok then [] else
             [QuizErrorEntry(nowIso, q.question, SelectedText(q, selected), CorrectText(q), q.tags, "quiz")])
        && penaltyTotal == old(penaltyTotal) + (if ok then 0 else penaltySeconds)
        && penaltyCarry == old(penaltyCarry) + (if ok then 0 else penaltySeconds)
    {
      var q := sessionQuestions[index];
      answered := true;
      ok := selected == q.correct;
      var selectedText := SelectedText(q, selected);
      var correctText := CorrectText(q);
      sessionResults := sessionResults[index := ResultEntry(q.question, selectedText, correctText, q.explanation, ok, timedOut)];
      if ok {
        score := score + 1;
      } else {
        sessionErrors := sessionErrors + [QuizErrorEntry(nowIso, q.question, selectedText, correctText, q.tags, "quiz")];
        penaltyTotal := penaltyTotal + penaltySeconds;
        penaltyCarry := penaltyCarry + penaltySeconds;
      }
    }

    /** `finishQuiz`: the session is appended to the stored sessions, of
        which the last `SessionLimit` are kept; the session's errors go in
        front of the stored ones, of which the first `ErrorLimit` are kept;
        the progress is saved. Returns the adjusted score. */
    method FinishQuiz(nowIso: string) returns (adjusted: int)
      requires Valid()
      modifies store
      ensures Valid()
      ensures store.data == old(store.data).(quiz := QuizProgress(
        TakeLast(old(store.data).quiz.sessions
          + [QuizSessionEntry(nowIso, "quiz", score, |sessionQuestions|, penaltyTotal, timerPerQuestion)], SessionLimit),
        Take(sessionErrors + old(store.data).quiz.errors, ErrorLimit)))
      ensures adjusted == AdjustedScore(score, penaltyTotal, timerPerQuestion)
    {
      var entry := QuizSessionEntry(nowIso, "quiz", score, |sessionQuestions|, penaltyTotal, timerPerQuestion);
      var sessions := TakeLast(store.data.quiz.sessions + [entry], SessionLimit);
      var errors := Take(sessionErrors + store.data.quiz.errors, ErrorLimit);
      store.data := store.data.(quiz := QuizProgress(sessions, errors));
      TruncateQueueNoop(store.data);
      store.Persist(nowIso);
      adjusted := AdjustedScore(score, penaltyTotal, timerPerQuestion);
    }
  }
}
