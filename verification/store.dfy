/** The persisted progress object of the study application (main.js):
    its shape, the defaults, the normalisation applied on every load and
    save, the heat-map tally and the merge of data cards into the records. */
module Store {
  import opened Json
  import opened Lists
  import opened Text

  const HistoryLimit := 200
  const QueueLimit := 200
  const SessionLimit := 150
  const ErrorLimit := 300

  /** Per-card learning record (one Leitner card). */
  datatype Record = Record(
    id: string, category: string, question: string, answer: string,
    explanation: string, difficulty: string,
    successCount: int, failCount: int, lastSeen: int, nextDue: int, box: int)

  datatype HistoryEntry = HistoryEntry(id: string, result: string, at: int, category: string)

  datatype SessionState = SessionState(
    queueIds: seq<string>, cursor: int, category: string,
    errorsOnly: bool, sortMode: string, queueSize: int)

  datatype FlashcardProgress = FlashcardProgress(
    records: map<string, Record>, history: seq<HistoryEntry>,
    streak: int, bestStreak: int, session: SessionState)

  datatype QuizSessionEntry = QuizSessionEntry(
    date: string, mode: string, score: int, total: int, penalty: int, timer: int)

  datatype QuizErrorEntry = QuizErrorEntry(
    date: string, question: string, selected: string, correct: string,
    tags: seq<string>, mode: string)

  datatype QuizProgress = QuizProgress(sessions: seq<QuizSessionEntry>, errors: seq<QuizErrorEntry>)

  datatype DayTally = DayTally(good: int, bad: int)

  datatype UiState = UiState(
    lastPage: string, lastSessionLink: string, lastVisitedAt: string,
    heatmap: map<string, DayTally>)

  datatype Progress = Progress(version: int, flashcards: FlashcardProgress, quiz: QuizProgress, ui: UiState)

  function Max(a: int, b: int): int { if a < b then b else a }
  function Min(a: int, b: int): int { if a < b then a else b }

  /** `clamp(value, min, max)`. */
  function Clamp(v: int, lo: int, hi: int): (r: int)
    ensures lo <= r
    ensures lo <= hi ==> r <= hi
    ensures lo <= v <= hi ==> r == v
    ensures v < lo ==> r == lo
    ensures lo <= hi < v ==> r == hi
  {
    Max(lo, Min(hi, v))
  }

  predicate IsDifficulty(d: string) {
    d == "easy" || d == "medium" || d == "hard"
  }

  /** What every stored record satisfies after normalisation. */
  predicate ValidRecord(r: Record) {
    IsDifficulty(r.difficulty)
    && r.successCount >= 0 && r.failCount >= 0 && r.lastSeen >= 0 && r.nextDue >= 0
    && 1 <= r.box <= 5
  }

  function DefaultRecord(id: string, category: string, question: string, answer: string,
                         explanation: string, difficulty: string): (r: Record)
    ensures r.successCount == 0 && r.failCount == 0 && r.lastSeen == 0 && r.nextDue == 0
    ensures r.box == 1
    ensures IsDifficulty(difficulty) ==> ValidRecord(r)
  {
    Record(id, category, question, answer, explanation, difficulty, 0, 0, 0, 0, 1)
  }

  function DefaultSession(): SessionState {
    SessionState([], 0, "all", false, "weak", 20)
  }

  /** `createDefaultProgress`. */
  function DefaultProgress(): (p: Progress)
    ensures Valid(p)
  {
    Progress(2,
      FlashcardProgress(map[], [], 0, 0, DefaultSession()),
      QuizProgress([], []),
      UiState("index", "", "", map[]))
  }

  /** `/^\d{4}-\d{2}-\d{2}$/`: a calendar day key. */
  predicate IsDayKey(s: string) {
    |s| == 10 && s[4] == '-' && s[7] == '-'
    && forall k :: 0 <= k < 10 && k != 4 && k != 7 ==> IsDigit(s[k])
  }

  predicate ValidHeatmap(h: map<string, DayTally>) {
    forall d :: d in h ==> IsDayKey(d) && h[d].good >= 0 && h[d].bad >= 0
  }

  /** The invariant the stored progress keeps: what normalisation guarantees. */
  predicate Valid(p: Progress) {
    Saveable(p) && |p.flashcards.session.queueIds| <= QueueLimit
  }

  /** Everything `Valid` asks except the bound on the saved queue, which a
      page may overrun before it saves: saving then keeps its first
      `QueueLimit` ids. */
  predicate Saveable(p: Progress) {
    && p.version == 2
    && (forall id :: id in p.flashcards.records ==>
          p.flashcards.records[id].id == id && ValidRecord(p.flashcards.records[id]))
    && |p.flashcards.history| <= HistoryLimit
    && (forall h :: h in p.flashcards.history ==> h.result == "known" || h.result == "unknown")
    && (p.flashcards.session.sortMode == "weak" || p.flashcards.session.sortMode == "due")
    && 10 <= p.flashcards.session.queueSize <= 30
    && |p.quiz.sessions| <= SessionLimit
    && |p.quiz.errors| <= ErrorLimit
    && ValidHeatmap(p.ui.heatmap)
  }

  /** Replacing the records by valid ones keeps the progress valid. */
  lemma WithRecordsValid(p: Progress, recs: map<string, Record>)
    requires Valid(p)
    requires forall id :: id in recs ==> recs[id].id == id && ValidRecord(recs[id])
    ensures Valid(p.(flashcards := p.flashcards.(records := recs)))
  {
  }

  /** The progress with its saved queue cut to `QueueLimit` ids. */
  function TruncateQueue(p: Progress): Progress {
    var s := p.flashcards.session;
    p.(flashcards := p.flashcards.(session := s.(queueIds := Take(s.queueIds, QueueLimit))))
  }

  /** A queue within the bound is left as it is. */
  lemma TruncateQueueNoop(p: Progress)
    requires |p.flashcards.session.queueIds| <= QueueLimit
    ensures TruncateQueue(p) == p
  {
  }

  function NormalizeRecord(id: string, raw: Value): (r: Record)
    ensures r.id == id && ValidRecord(r)
  {
    var d := Get(raw, "difficulty");
    Record(id,
      StringOr(Get(raw, "category"), ""),
      StringOr(Get(raw, "question"), ""),
      StringOr(Get(raw, "answer"), ""),
      StringOr(Get(raw, "explanation"), ""),
      if d == Str("hard") || d == Str("easy") then d.s else "medium",
      Max(0, SafeNumber(Get(raw, "successCount"), 0)),
      Max(0, SafeNumber(Get(raw, "failCount"), 0)),
      Max(0, SafeNumber(Get(raw, "lastSeen"), 0)),
      Max(0, SafeNumber(Get(raw, "nextDue"), 0)),
      Clamp(SafeNumber(Get(raw, "box"), 1), 1, 5))
  }

  function NormalizeHistoryEntry(h: Value): (e: HistoryEntry)
    ensures e.result == "known" || e.result == "unknown"
  {
    HistoryEntry(
      StringOr(Get(h, "id"), ""),
      if Get(h, "result") == Str("known") then "known" else "unknown",
      SafeNumber(Get(h, "at"), 0),
      StringOr(Get(h, "category"), ""))
  }

  function NormalizeQuizSession(s: Value, nowIso: string): QuizSessionEntry {
    QuizSessionEntry(
      StringOr(Get(s, "date"), nowIso),
      StringOr(Get(s, "mode"), "training"),
      SafeNumber(Get(s, "score"), 0),
      SafeNumber(Get(s, "total"), 0),
      SafeNumber(Get(s, "penalty"), 0),
      SafeNumber(Get(s, "timer"), 20))
  }

  function NormalizeQuizError(e: Value, nowIso: string): QuizErrorEntry {
    QuizErrorEntry(
      StringOr(Get(e, "date"), nowIso),
      StringOr(Get(e, "question"), ""),
      StringOr(Get(e, "selected"), ""),
      StringOr(Get(e, "correct"), ""),
      Strings(Get(e, "tags")),
      StringOr(Get(e, "mode"), "training"))
  }

  /** The items of an array value, or none. */
  function ItemsOf(v: Value): seq<Value> {
    if v.Arr? then v.items else []
  }

  function NormalizeRecords(v: Value): (m: map<string, Record>)
    ensures forall id :: id in m ==> m[id].id == id && ValidRecord(m[id])
  {
    if v.Obj? then
      map id | id in v.fields && IsObj(v.fields[id]) :: NormalizeRecord(id, v.fields[id])
    else map[]
  }

  function NormalizeHeatmap(v: Value): (h: map<string, DayTally>)
    ensures ValidHeatmap(h)
  {
    if v.Obj? then
      map day | day in v.fields && IsDayKey(day) && IsObj(v.fields[day]) ::
        DayTally(Max(0, SafeNumber(Get(v.fields[day], "good"), 0)),
                 Max(0, SafeNumber(Get(v.fields[day], "bad"), 0)))
    else map[]
  }

  function NormalizeSession(ses: Value): (s: SessionState)
    ensures |s.queueIds| <= QueueLimit
    ensures s.sortMode == "weak" || s.sortMode == "due"
    ensures 10 <= s.queueSize <= 30
  {
    SessionState(
      Take(Strings(Get(ses, "queueIds")), QueueLimit),
      SafeNumber(Get(ses, "cursor"), 0),
      StringOr(Get(ses, "category"), "all"),
      Truthy(Get(ses, "errorsOnly")),
      if Get(ses, "sortMode") == Str("due") then "due" else "weak",
      Clamp(SafeNumber(Get(ses, "queueSize"), 20), 10, 30))
  }

  function NormalizeHistory(v: Value): (h: seq<HistoryEntry>)
    ensures |h| <= HistoryLimit
    ensures forall e :: e in h ==> e.result == "known" || e.result == "unknown"
  {
    TakeLast(Map(Filter(ItemsOf(v), IsObj), NormalizeHistoryEntry), HistoryLimit)
  }

  function NormalizeFlashcards(fc: Value): (f: FlashcardProgress)
    ensures forall id :: id in f.records ==> f.records[id].id == id && ValidRecord(f.records[id])
    ensures |f.history| <= HistoryLimit
    ensures forall e :: e in f.history ==> e.result == "known" || e.result == "unknown"
    ensures |f.session.queueIds| <= QueueLimit
    ensures f.session.sortMode == "weak" || f.session.sortMode == "due"
    ensures 10 <= f.session.queueSize <= 30
  {
    FlashcardProgress(
      NormalizeRecords(Get(fc, "records")),
      NormalizeHistory(Get(fc, "history")),
      SafeNumber(Get(fc, "streak"), 0),
      SafeNumber(Get(fc, "bestStreak"), 0),
      NormalizeSession(Get(fc, "session")))
  }

  function NormalizeSessions(v: Value, nowIso: string): (r: seq<QuizSessionEntry>)
    ensures |r| <= SessionLimit
  {
    var f := (s: Value) => NormalizeQuizSession(s, nowIso);
    TakeLast(Map(Filter(ItemsOf(v), IsObj), f), SessionLimit)
  }

  function NormalizeErrors(v: Value, nowIso: string): (r: seq<QuizErrorEntry>)
    ensures |r| <= ErrorLimit
  {
    var f := (e: Value) => NormalizeQuizError(e, nowIso);
    TakeLast(Map(Filter(ItemsOf(v), IsObj), f), ErrorLimit)
  }

  function NormalizeQuiz(quiz: Value, nowIso: string): (q: QuizProgress)
    ensures |q.sessions| <= SessionLimit && |q.errors| <= ErrorLimit
  {
    QuizProgress(NormalizeSessions(Get(quiz, "sessions"), nowIso),
                 NormalizeErrors(Get(quiz, "errors"), nowIso))
  }

  function NormalizeUi(ui: Value): (u: UiState)
    ensures ValidHeatmap(u.heatmap)
  {
    UiState(
      StringOr(Get(ui, "lastPage"), "index"),
      StringOr(Get(ui, "lastSessionLink"), ""),
      StringOr(Get(ui, "lastVisitedAt"), ""),
      NormalizeHeatmap(Get(ui, "heatmap")))
  }

  /** `normalizeProgress`: any parsed value becomes a progress object that
      satisfies the stored invariant. `nowIso` stands for the current time
      written into quiz entries that lack a date. */
  function NormalizeProgress(input: Value, nowIso: string): (p: Progress)
    ensures Valid(p)
    ensures !IsObj(input) ==> p == DefaultProgress()
  {
    if !IsObj(input) then DefaultProgress()
    else
      Progress(2,
        NormalizeFlashcards(Get(input, "flashcards")),
        NormalizeQuiz(Get(input, "quiz"), nowIso),
        NormalizeUi(Get(input, "ui")))
  }

  /** `loadProgress`: None stands for a missing entry or text that does not
      parse as JSON. */
  function LoadProgress(stored: Option<Value>, nowIso: string): (p: Progress)
    ensures Valid(p)
  {
    if stored.None? then DefaultProgress() else NormalizeProgress(stored.value, nowIso)
  }

  /** `saveProgress`: the object it keeps and writes is the normalised one. */
  function SaveProgress(p: Progress, nowIso: string): (r: Progress)
    ensures Valid(r)
  {
    NormalizeProgress(ProgressValue(p), nowIso)
  }

  // ---- serialisation (the object tree `JSON.stringify` writes) ----

  function RecordsValue(recs: map<string, Record>): Value {
    Obj(map id | id in recs :: RecordValue(recs[id]))
  }

  function RecordValue(r: Record): Value {
    Obj(map["id" := Str(r.id), "category" := Str(r.category), "question" := Str(r.question),
            "answer" := Str(r.answer), "explanation" := Str(r.explanation),
            "difficulty" := Str(r.difficulty), "successCount" := Num(r.successCount),
            "failCount" := Num(r.failCount), "lastSeen" := Num(r.lastSeen),
            "nextDue" := Num(r.nextDue), "box" := Num(r.box)])
  }

  function HistoryValue(h: HistoryEntry): Value {
    Obj(map["id" := Str(h.id), "result" := Str(h.result), "at" := Num(h.at),
            "category" := Str(h.category)])
  }

  function QuizSessionValue(s: QuizSessionEntry): Value {
    Obj(map["date" := Str(s.date), "mode" := Str(s.mode), "score" := Num(s.score),
            "total" := Num(s.total), "penalty" := Num(s.penalty), "timer" := Num(s.timer)])
  }

  function QuizErrorValue(e: QuizErrorEntry): Value {
    Obj(map["date" := Str(e.date), "question" := Str(e.question), "selected" := Str(e.selected),
            "correct" := Str(e.correct), "tags" := StringsValue(e.tags), "mode" := Str(e.mode)])
  }

  function TallyValue(t: DayTally): Value {
    Obj(map["good" := Num(t.good), "bad" := Num(t.bad)])
  }

  function SessionValue(s: SessionState): Value {
    Obj(map["queueIds" := StringsValue(s.queueIds), "cursor" := Num(s.cursor),
            "category" := Str(s.category), "errorsOnly" := Bool(s.errorsOnly),
            "sortMode" := Str(s.sortMode), "queueSize" := Num(s.queueSize)])
  }

  function FlashcardsValue(f: FlashcardProgress): Value {
    Obj(map[
      "records" := RecordsValue(f.records),
      "history" := Arr(Map(f.history, HistoryValue)),
      "streak" := Num(f.streak),
      "bestStreak" := Num(f.bestStreak),
      "session" := SessionValue(f.session)])
  }

  function QuizValue(q: QuizProgress): Value {
    Obj(map["sessions" := Arr(Map(q.sessions, QuizSessionValue)),
            "errors" := Arr(Map(q.errors, QuizErrorValue))])
  }

  function UiValue(u: UiState): Value {
    Obj(map["lastPage" := Str(u.lastPage), "lastSessionLink" := Str(u.lastSessionLink),
            "lastVisitedAt" := Str(u.lastVisitedAt),
            "heatmap" := Obj(map d | d in u.heatmap :: TallyValue(u.heatmap[d]))])
  }

  function ProgressValue(p: Progress): Value {
    Obj(map["version" := Num(p.version), "flashcards" := FlashcardsValue(p.flashcards),
            "quiz" := QuizValue(p.quiz), "ui" := UiValue(p.ui)])
  }

  // ---- round trip: normalising what was saved changes nothing ----

  lemma {:induction false} MapFilterRoundTrip<T>(s: seq<T>, enc: T -> Value, dec: Value -> T)
    requires forall i :: 0 <= i < |s| ==> IsObj(enc(s[i])) && dec(enc(s[i])) == s[i]
    ensures Map(Filter(Map(s, enc), IsObj), dec) == s
  {
    FilterAll(Map(s, enc), IsObj);
  }

  lemma RecordRoundTrip(r: Record)
    requires ValidRecord(r)
    ensures NormalizeRecord(r.id, RecordValue(r)) == r
  {
    RecordValueTexts(r);
    RecordValueCounts(r);
  }

  /** The text fields of a record's JSON object. */
  lemma RecordValueTexts(r: Record)
    ensures var v := RecordValue(r);
      && Get(v, "id") == Str(r.id) && Get(v, "category") == Str(r.category)
      && Get(v, "question") == Str(r.question) && Get(v, "answer") == Str(r.answer)
      && Get(v, "explanation") == Str(r.explanation) && Get(v, "difficulty") == Str(r.difficulty)
  {
    var v := RecordValue(r);
    assert Get(v, "id") == Str(r.id);
    assert Get(v, "category") == Str(r.category);
    assert Get(v, "question") == Str(r.question);
    assert Get(v, "answer") == Str(r.answer);
    assert Get(v, "explanation") == Str(r.explanation);
    assert Get(v, "difficulty") == Str(r.difficulty);
  }

  /** The counters of a record's JSON object. */
  lemma RecordValueCounts(r: Record)
    ensures var v := RecordValue(r);
      && Get(v, "successCount") == Num(r.successCount) && Get(v, "failCount") == Num(r.failCount)
      && Get(v, "lastSeen") == Num(r.lastSeen) && Get(v, "nextDue") == Num(r.nextDue)
      && Get(v, "box") == Num(r.box)
  {
    var v := RecordValue(r);
    assert Get(v, "successCount") == Num(r.successCount);
    assert Get(v, "failCount") == Num(r.failCount);
    assert Get(v, "lastSeen") == Num(r.lastSeen);
    assert Get(v, "nextDue") == Num(r.nextDue);
    assert Get(v, "box") == Num(r.box);
  }

  lemma RecordEntryRoundTrip(recs: map<string, Record>, id: string)
    requires id in recs && recs[id].id == id && ValidRecord(recs[id])
    ensures id in NormalizeRecords(RecordsValue(recs))
    ensures NormalizeRecords(RecordsValue(recs))[id] == recs[id]
  {
    var v := RecordsValue(recs);
    assert v.fields[id] == RecordValue(recs[id]);
    RecordRoundTrip(recs[id]);
  }

  lemma RecordsKeys(recs: map<string, Record>)
    ensures NormalizeRecords(RecordsValue(recs)).Keys == recs.Keys
  {
  }

  lemma RecordsRoundTrip(recs: map<string, Record>)
    requires forall id :: id in recs ==> recs[id].id == id && ValidRecord(recs[id])
    ensures NormalizeRecords(RecordsValue(recs)) == recs
  {
    var m := NormalizeRecords(RecordsValue(recs));
    RecordsKeys(recs);
    forall id | id in recs
      ensures m[id] == recs[id]
    {
      RecordEntryRoundTrip(recs, id);
    }
  }

  lemma HeatmapRoundTrip(h: map<string, DayTally>)
    requires ValidHeatmap(h)
    ensures NormalizeHeatmap(Obj(map d | d in h :: TallyValue(h[d]))) == h
  {
    var v := Obj(map d | d in h :: TallyValue(h[d]));
    var m := NormalizeHeatmap(v);
    assert m.Keys == h.Keys;
    forall d | d in h
      ensures m[d] == h[d]
    {
      assert v.fields[d] == TallyValue(h[d]);
    }
  }

  lemma SessionRoundTrip(s: SessionState)
    requires s.sortMode == "weak" || s.sortMode == "due"
    requires 10 <= s.queueSize <= 30
    ensures NormalizeSession(SessionValue(s)) == s.(queueIds := Take(s.queueIds, QueueLimit))
  {
    StringsRoundTrip(s.queueIds);
  }

  lemma HistoryEntryRoundTrip(h: HistoryEntry)
    requires h.result == "known" || h.result == "unknown"
    ensures NormalizeHistoryEntry(HistoryValue(h)) == h
  {
    var v := HistoryValue(h);
    assert Get(v, "id") == Str(h.id);
    assert Get(v, "result") == Str(h.result);
    assert Get(v, "at") == Num(h.at);
    assert Get(v, "category") == Str(h.category);
  }

  lemma HistoryRoundTrip(h: seq<HistoryEntry>)
    requires |h| <= HistoryLimit
    requires forall e :: e in h ==> e.result == "known" || e.result == "unknown"
    ensures NormalizeHistory(Arr(Map(h, HistoryValue))) == h
  {
    forall i | 0 <= i < |h|
      ensures IsObj(HistoryValue(h[i])) && NormalizeHistoryEntry(HistoryValue(h[i])) == h[i]
    {
      HistoryEntryRoundTrip(h[i]);
    }
    MapFilterRoundTrip(h, HistoryValue, NormalizeHistoryEntry);
  }

  lemma FlashcardsRoundTrip(f: FlashcardProgress)
    requires forall id :: id in f.records ==> f.records[id].id == id && ValidRecord(f.records[id])
    requires |f.history| <= HistoryLimit
    requires forall e :: e in f.history ==> e.result == "known" || e.result == "unknown"
    requires f.session.sortMode == "weak" || f.session.sortMode == "due"
    requires 10 <= f.session.queueSize <= 30
    ensures NormalizeFlashcards(FlashcardsValue(f))
            == f.(session := f.session.(queueIds := Take(f.session.queueIds, QueueLimit)))
  {
    var v := FlashcardsValue(f);
    assert Get(v, "records") == RecordsValue(f.records);
    assert Get(v, "history") == Arr(Map(f.history, HistoryValue));
    assert Get(v, "streak") == Num(f.streak);
    assert Get(v, "bestStreak") == Num(f.bestStreak);
    assert Get(v, "session") == SessionValue(f.session);
    RecordsRoundTrip(f.records);
    HistoryRoundTrip(f.history);
    SessionRoundTrip(f.session);
  }

  lemma QuizSessionRoundTrip(s: QuizSessionEntry, nowIso: string)
    ensures NormalizeQuizSession(QuizSessionValue(s), nowIso) == s
  {
    var v := QuizSessionValue(s);
    assert Get(v, "date") == Str(s.date);
    assert Get(v, "mode") == Str(s.mode);
    assert Get(v, "score") == Num(s.score);
    assert Get(v, "total") == Num(s.total);
    assert Get(v, "penalty") == Num(s.penalty);
    assert Get(v, "timer") == Num(s.timer);
  }

  lemma QuizErrorRoundTrip(e: QuizErrorEntry, nowIso: string)
    ensures NormalizeQuizError(QuizErrorValue(e), nowIso) == e
  {
    var v := QuizErrorValue(e);
    assert Get(v, "date") == Str(e.date);
    assert Get(v, "question") == Str(e.question);
    assert Get(v, "selected") == Str(e.selected);
    assert Get(v, "correct") == Str(e.correct);
    assert Get(v, "tags") == StringsValue(e.tags);
    assert Get(v, "mode") == Str(e.mode);
    StringsRoundTrip(e.tags);
  }

  lemma SessionsRoundTrip(ss: seq<QuizSessionEntry>, nowIso: string)
    requires |ss| <= SessionLimit
    ensures NormalizeSessions(Arr(Map(ss, QuizSessionValue)), nowIso) == ss
  {
    var f := (s: Value) => NormalizeQuizSession(s, nowIso);
    forall i | 0 <= i < |ss|
      ensures IsObj(QuizSessionValue(ss[i])) && f(QuizSessionValue(ss[i])) == ss[i]
    {
      QuizSessionRoundTrip(ss[i], nowIso);
    }
    MapFilterRoundTrip(ss, QuizSessionValue, f);
  }

  lemma ErrorsRoundTrip(es: seq<QuizErrorEntry>, nowIso: string)
    requires |es| <= ErrorLimit
    ensures NormalizeErrors(Arr(Map(es, QuizErrorValue)), nowIso) == es
  {
    var f := (e: Value) => NormalizeQuizError(e, nowIso);
    forall i | 0 <= i < |es|
      ensures IsObj(QuizErrorValue(es[i])) && f(QuizErrorValue(es[i])) == es[i]
    {
      QuizErrorRoundTrip(es[i], nowIso);
    }
    MapFilterRoundTrip(es, QuizErrorValue, f);
  }

  lemma QuizRoundTrip(q: QuizProgress, nowIso: string)
    requires |q.sessions| <= SessionLimit && |q.errors| <= ErrorLimit
    ensures NormalizeQuiz(QuizValue(q), nowIso) == q
  {
    var v := QuizValue(q);
    assert Get(v, "sessions") == Arr(Map(q.sessions, QuizSessionValue));
    assert Get(v, "errors") == Arr(Map(q.errors, QuizErrorValue));
    SessionsRoundTrip(q.sessions, nowIso);
    ErrorsRoundTrip(q.errors, nowIso);
  }

  /** Normalising what was saved changes nothing but the length of the
      saved queue; on a progress object that already satisfies the
      invariant it is the identity. */
  lemma NormalizeRoundTrip(p: Progress, nowIso: string)
    requires Saveable(p)
    ensures NormalizeProgress(ProgressValue(p), nowIso) == TruncateQueue(p)
  {
    var v := ProgressValue(p);
    assert Get(v, "flashcards") == FlashcardsValue(p.flashcards);
    assert Get(v, "quiz") == QuizValue(p.quiz);
    assert Get(v, "ui") == UiValue(p.ui);
    FlashcardsRoundTrip(p.flashcards);
    QuizRoundTrip(p.quiz, nowIso);
    UiRoundTrip(p.ui);
  }

  lemma UiRoundTrip(u: UiState)
    requires ValidHeatmap(u.heatmap)
    ensures NormalizeUi(UiValue(u)) == u
  {
    HeatmapRoundTrip(u.heatmap);
  }

  lemma SaveValid(p: Progress, nowIso: string)
    requires Valid(p)
    ensures SaveProgress(p, nowIso) == p
  {
    NormalizeRoundTrip(p, nowIso);
  }

  /** Saving keeps everything of a saveable object but the queue's tail
      beyond `QueueLimit`. */
  lemma SaveSaveable(p: Progress, nowIso: string)
    requires Saveable(p)
    ensures SaveProgress(p, nowIso) == TruncateQueue(p)
  {
    NormalizeRoundTrip(p, nowIso);
  }

  /** What `saveProgress` writes, `loadProgress` reads back unchanged. */
  lemma LoadAfterSave(p: Progress, nowIso: string, laterIso: string)
    ensures LoadProgress(Some(ProgressValue(SaveProgress(p, nowIso))), laterIso) == SaveProgress(p, nowIso)
  {
    NormalizeRoundTrip(SaveProgress(p, nowIso), laterIso);
  }

  // ---- heat map (recordPerformance) ----

  /** The heat map after one answer on `day`: that day's tally gains one
      good or one bad answer; a day not yet present starts from zero. */
  function Tally(h: map<string, DayTally>, day: string, success: bool): (r: map<string, DayTally>)
    ensures r.Keys == h.Keys + {day}
    ensures forall d :: d in h && d != day ==> r[d] == h[d]
    ensures var before := if day in h then h[day] else DayTally(0, 0);
            r[day] == if success then before.(good := before.good + 1)
                      else before.(bad := before.bad + 1)
  {
    var entry := if day in h then h[day] else DayTally(0, 0);
    h[day := if success then entry.(good := entry.good + 1) else entry.(bad := entry.bad + 1)]
  }

  lemma TallyKeepsHeatmapValid(h: map<string, DayTally>, day: string, success: bool)
    requires ValidHeatmap(h) && IsDayKey(day)
    ensures ValidHeatmap(Tally(h, day, success))
  {
  }

  /** `recordPerformance` on a progress: the heat map tallies one answer
      on `day`. */
  function Recorded(p: Progress, day: string, success: bool): Progress {
    p.(ui := p.ui.(heatmap := Tally(p.ui.heatmap, day, success)))
  }

  /** Tallying an answer on a day keeps the progress valid. */
  lemma RecordedValid(p: Progress, day: string, success: bool)
    requires Valid(p) && IsDayKey(day)
    ensures Valid(Recorded(p, day, success))
  {
    TallyKeepsHeatmapValid(p.ui.heatmap, day, success);
  }

  /** The progress object the pages share; `recordPerformance`,
      `upsertFlashcardRecords` and `saveProgress` update it in place. */
  class ProgressStore {
    var data: Progress

    constructor(initial: Progress)
      ensures data == initial
    {
      data := initial;
    }

    /** `recordPerformance`; `day` is today's key (`todayKey()`). */
    method RecordPerformance(day: string, success: bool)
      modifies this
      ensures data == Recorded(old(data), day, success)
    {
      data := data.(ui := data.ui.(heatmap := Tally(data.ui.heatmap, day, success)));
    }

    /** `state.progress = saveProgress(state.progress)`. */
    method Save(nowIso: string)
      modifies this
      ensures data == SaveProgress(old(data), nowIso)
      ensures Valid(data)
      ensures Valid(old(data)) ==> data == old(data)
    {
      if Valid(data) {
        SaveValid(data, nowIso);
      }
      data := SaveProgress(data, nowIso);
    }

    /** `saveProgress` on a progress a page keeps saveable: everything is
        kept but the saved queue's ids beyond `QueueLimit`. */
    method Persist(nowIso: string)
      requires Saveable(data)
      modifies this
      ensures data == TruncateQueue(old(data))
      ensures Valid(data)
    {
      SaveSaveable(data, nowIso);
      Save(nowIso);
    }

    /** `upsertFlashcardRecords`: each data card in turn is merged with the
        stored record of the same id and written back. */
    method UpsertFlashcardRecords(cards: seq<Record>) returns (merged: seq<Record>)
      modifies this
      ensures data.flashcards.records == Upsert(old(data.flashcards.records), cards).0
      ensures merged == Upsert(old(data.flashcards.records), cards).1
      ensures data == old(data).(flashcards := old(data).flashcards.(records := data.flashcards.records))
    {
      merged := [];
      var i := 0;
      assert cards[i..] == cards;
      while i < |cards|
        invariant 0 <= i <= |cards|
        invariant data == old(data).(flashcards := old(data).flashcards.(records := data.flashcards.records))
        invariant UpsertReaches(old(data.flashcards.records), cards, data.flashcards.records, merged, i)
      {
        var card := cards[i];
        var recs := data.flashcards.records;
        var m := Merge(card, Lookup(recs, card.id));
        UpsertStep(old(data.flashcards.records), cards, recs, merged, i);
        data := data.(flashcards := data.flashcards.(records := recs[card.id := m]));
        merged := merged + [m];
        i := i + 1;
      }
      UpsertDone(old(data.flashcards.records), cards, data.flashcards.records, merged);
    }
  }

  // ---- merging data cards into records (upsertFlashcardRecords) ----

  /** One data card merged with the stored record of its id, if any: the
      texts and difficulty come from the card, the learning counters and
      the box from the stored record when there is one. */
  function Merge(card: Record, prev: Option<Record>): (r: Record)
    ensures r.id == card.id && r.category == card.category && r.question == card.question
    ensures r.answer == card.answer && r.explanation == card.explanation
    ensures r.difficulty == card.difficulty
    ensures r.successCount >= 0 && r.failCount >= 0 && r.lastSeen >= 0 && r.nextDue >= 0
    ensures 1 <= r.box <= 5
    ensures IsDifficulty(card.difficulty) ==> ValidRecord(r)
    ensures prev.Some? && ValidRecord(prev.value) ==>
      r.successCount == prev.value.successCount && r.failCount == prev.value.failCount
      && r.lastSeen == prev.value.lastSeen && r.nextDue == prev.value.nextDue
      && r.box == prev.value.box
    ensures prev.None? ==>
      r.successCount == Max(0, card.successCount) && r.failCount == Max(0, card.failCount)
      && r.lastSeen == Max(0, card.lastSeen) && r.nextDue == Max(0, card.nextDue)
      && r.box == Clamp(card.box, 1, 5)
  {
    var base := DefaultRecord(card.id, card.category, card.question, card.answer,
                               card.explanation, card.difficulty).(
      successCount := Max(0, card.successCount), failCount := Max(0, card.failCount),
      lastSeen := Max(0, card.lastSeen), nextDue := Max(0, card.nextDue),
      box := Clamp(card.box, 1, 5));
    if prev.None? then base
    else base.(
      successCount := Max(0, prev.value.successCount), failCount := Max(0, prev.value.failCount),
      lastSeen := Max(0, prev.value.lastSeen), nextDue := Max(0, prev.value.nextDue),
      box := Clamp(prev.value.box, 1, 5))
  }

  function Lookup(recs: map<string, Record>, id: string): Option<Record> {
    if id in recs then Some(recs[id]) else None
  }

  /** The records and the merged list after upserting the cards in order. */
  function Upsert(recs: map<string, Record>, cards: seq<Record>): (r: (map<string, Record>, seq<Record>))
    ensures |r.1| == |cards|
    ensures recs.Keys <= r.0.Keys
    ensures forall c :: c in cards ==> c.id in r.0
    decreases |cards|
  {
    if cards == [] then (recs, [])
    else
      var card := cards[0];
      var m := Merge(card, Lookup(recs, card.id));
      var rest := Upsert(recs[card.id := m], cards[1..]);
      assert forall c :: c in cards ==> c == card || c in cards[1..];
      (rest.0, [m] + rest.1)
  }

  /** The loop of `upsertFlashcardRecords` after the first i cards, with
      `recs` stored and `merged` written so far, is on its way to the
      upsert of all the cards into `start`. */
  ghost predicate UpsertReaches(start: map<string, Record>, cards: seq<Record>, recs: map<string, Record>, merged: seq<Record>, i: nat)
    requires i <= |cards|
  {
    Upsert(start, cards).0 == Upsert(recs, cards[i..]).0
    && Upsert(start, cards).1 == merged + Upsert(recs, cards[i..]).1
  }

  lemma UpsertStep(start: map<string, Record>, cards: seq<Record>, recs: map<string, Record>, merged: seq<Record>, i: nat)
    requires i < |cards| && UpsertReaches(start, cards, recs, merged, i)
    ensures var m := Merge(cards[i], Lookup(recs, cards[i].id));
      UpsertReaches(start, cards, recs[cards[i].id := m], merged + [m], i + 1)
  {
    assert cards[i..] == [cards[i]] + cards[i + 1..];
    var m := Merge(cards[i], Lookup(recs, cards[i].id));
    var rest := Upsert(recs[cards[i].id := m], cards[i + 1..]);
    assert Upsert(recs, cards[i..]) == (rest.0, [m] + rest.1);
    assert merged + ([m] + rest.1) == merged + [m] + rest.1;
  }

  lemma UpsertDone(start: map<string, Record>, cards: seq<Record>, recs: map<string, Record>, merged: seq<Record>)
    requires UpsertReaches(start, cards, recs, merged, |cards|)
    ensures Upsert(start, cards) == (recs, merged)
  {
    assert cards[|cards|..] == [];
    assert merged + [] == merged;
  }

  predicate DistinctIds(cards: seq<Record>) {
    forall i, j :: 0 <= i < j < |cards| ==> cards[i].id != cards[j].id
  }

  /** A record whose id no card carries is left as it was. */
  lemma {:induction false} UpsertKeepsOthers(recs: map<string, Record>, cards: seq<Record>, id: string)
    requires id in recs
    requires forall c :: c in cards ==> c.id != id
    ensures id in Upsert(recs, cards).0 && Upsert(recs, cards).0[id] == recs[id]
    decreases |cards|
  {
    if cards != [] {
      var card := cards[0];
      var m := Merge(card, Lookup(recs, card.id));
      assert card in cards;
      assert forall c :: c in cards[1..] ==> c in cards;
      UpsertKeepsOthers(recs[card.id := m], cards[1..], id);
    }
  }

  /** With distinct ids, card i is merged with the record stored before the
      call and ends up stored under its id. */
  lemma {:induction false} UpsertAt(recs: map<string, Record>, cards: seq<Record>, i: nat)
    requires DistinctIds(cards) && i < |cards|
    ensures Upsert(recs, cards).1[i] == Merge(cards[i], Lookup(recs, cards[i].id))
    ensures Upsert(recs, cards).0[cards[i].id] == Upsert(recs, cards).1[i]
    decreases |cards|
  {
    var card := cards[0];
    var tail := cards[1..];
    var m := Merge(card, Lookup(recs, card.id));
    var recs' := recs[card.id := m];
    assert Upsert(recs, cards).0 == Upsert(recs', tail).0;
    assert Upsert(recs, cards).1 == [m] + Upsert(recs', tail).1;
    if i == 0 {
      forall c | c in tail ensures c.id != card.id {
        var k :| 0 <= k < |tail| && tail[k] == c;
        assert cards[k + 1] == c;
      }
      UpsertKeepsOthers(recs', tail, card.id);
    } else {
      assert DistinctIds(tail) by {
        forall a, b | 0 <= a < b < |tail| ensures tail[a].id != tail[b].id {
          assert tail[a] == cards[a + 1] && tail[b] == cards[b + 1];
        }
      }
      assert cards[i] == tail[i - 1];
      assert cards[i].id != card.id;
      UpsertAt(recs', tail, i - 1);
    }
  }

  lemma UpsertDistinct(recs: map<string, Record>, cards: seq<Record>)
    requires DistinctIds(cards)
    ensures forall i :: 0 <= i < |cards| ==>
      Upsert(recs, cards).1[i] == Merge(cards[i], Lookup(recs, cards[i].id))
      && Upsert(recs, cards).0[cards[i].id] == Upsert(recs, cards).1[i]
  {
    forall i | 0 <= i < |cards|
      ensures Upsert(recs, cards).1[i] == Merge(cards[i], Lookup(recs, cards[i].id))
      ensures Upsert(recs, cards).0[cards[i].id] == Upsert(recs, cards).1[i]
    {
      UpsertAt(recs, cards, i);
    }
  }

  /** Stored records stay valid through an upsert of sanitised cards. */
  lemma {:induction false} UpsertKeepsRecordsValid(recs: map<string, Record>, cards: seq<Record>)
    requires forall id :: id in recs ==> recs[id].id == id && ValidRecord(recs[id])
    requires forall c :: c in cards ==> IsDifficulty(c.difficulty)
    ensures forall id :: id in Upsert(recs, cards).0 ==>
      Upsert(recs, cards).0[id].id == id && ValidRecord(Upsert(recs, cards).0[id])
    decreases |cards|
  {
    if cards != [] {
      var card := cards[0];
      var m := Merge(card, Lookup(recs, card.id));
      assert card in cards;
      assert forall c :: c in cards[1..] ==> c in cards;
      UpsertKeepsRecordsValid(recs[card.id := m], cards[1..]);
      assert Upsert(recs, cards).0 == Upsert(recs[card.id := m], cards[1..]).0;
    }
  }

  // ---- mastery and difficulty ----

  /** `Math.round(part / total * 100)` for total > 0: an integer at most
      one half away from the exact percentage 100·part/total. The exact
      percentage is rounded here, a half upwards; JavaScript rounds the
      floating-point product, which can fall just below a half, so the
      contract keeps only what both roundings satisfy. */
  function RoundedPercent(part: int, total: int): (r: int)
    requires total > 0
    ensures 2 * total * r - total <= 200 * part <= 2 * total * r + total
    ensures 0 <= part <= total ==> 0 <= r <= 100
  {
    var r := (200 * part + total) / (2 * total);
    assert 2 * total * r <= 200 * part + total < 2 * total * r + 2 * total;
    assert 0 <= part <= total ==> 0 <= r <= 100 by {
      if 0 <= part <= total {
        assert 200 * part + total < 2 * total * 101;
        DivBounds(200 * part + total, 2 * total, 101);
      }
    }
    r
  }

  /** Away from the halves there is one integer within one half of the
      exact percentage: any rounding of 100·part/total that keeps the
      contract of `RoundedPercent` agrees with it there. */
  lemma RoundedPercentOffHalves(part: int, total: int, r: int)
    requires total > 0 && (200 * part + total) % (2 * total) != 0
    requires 2 * total * r - total <= 200 * part <= 2 * total * r + total
    ensures r == RoundedPercent(part, total)
  {
    var a, b := 200 * part + total, 2 * total;
    assert b * r == 2 * total * r;
    QuotientOffMultiples(a, b, r);
  }

  /** A quotient pinned between two multiples of the divisor, and equal to
      neither upper one, is the lower multiplier. */
  lemma QuotientOffMultiples(a: int, b: int, r: int)
    requires b > 0 && a % b != 0 && b * r <= a <= b * r + b
    ensures a / b == r
  {
    if a == b * r + b {
      assert a == b * (r + 1);
      MultipleMod(b, r + 1);
      assert false;
    }
    DivUnique(a, b, r, a - b * r);
  }

  lemma MultipleMod(b: int, k: int)
    requires b > 0
    ensures (b * k) % b == 0
  {
    DivUnique(b * k, b, k, 0);
  }

  lemma DivBounds(a: int, b: int, k: int)
    requires 0 <= a && b > 0 && a < b * k
    ensures 0 <= a / b < k
  {
  }

  lemma MulLe(b: int, x: int, y: int)
    requires b > 0 && x <= y
    ensures b * x <= b * y
  {
    assert b * y - b * x == b * (y - x);
  }

  lemma DivUnique(a: int, b: int, q: int, r: int)
    requires b > 0 && 0 <= r < b && a == b * q + r
    ensures a / b == q
  {
    var q' := a / b;
    assert a == b * q' + a % b && 0 <= a % b < b;
    if q' < q {
      MulLe(b, q' + 1, q);
    } else if q' > q {
      MulLe(b, q + 1, q');
    }
  }

  /** `masteryFromRecord`: the share of successful answers as a rounded
      percentage, 0 when the card was never answered. */
  function MasteryFromRecord(r: Record): (m: int)
    ensures r.successCount + r.failCount <= 0 ==> m == 0
    ensures ValidRecord(r) ==> 0 <= m <= 100
    ensures r.successCount + r.failCount > 0 ==>
      var t := r.successCount + r.failCount;
      2 * t * m - t <= 200 * r.successCount <= 2 * t * m + t
  {
    var total := r.successCount + r.failCount;
    if total <= 0 then 0 else RoundedPercent(r.successCount, total)
  }

  lemma MasteryExtremes(r: Record)
    requires ValidRecord(r) && r.successCount + r.failCount > 0
    ensures r.successCount == 0 ==> MasteryFromRecord(r) == 0
    ensures r.failCount == 0 ==> MasteryFromRecord(r) == 100
  {
    var t := r.successCount + r.failCount;
    if r.failCount == 0 {
      assert 200 * t + t == 2 * t * 100 + t;
      DivUnique(200 * t + t, 2 * t, 100, t);
    }
    if r.successCount == 0 {
      assert 200 * 0 + t == 2 * t * 0 + t;
      DivUnique(200 * 0 + t, 2 * t, 0, t);
    }
  }

  /** `difficultyRank`: hard 3, medium 2, anything else 1. */
  function DifficultyRank(d: string): (r: int)
    ensures 1 <= r <= 3
    ensures r == 3 <==> d == "hard"
    ensures r == 2 <==> d == "medium"
  {
    if d == "hard" then 3 else if d == "medium" then 2 else 1
  }
}
