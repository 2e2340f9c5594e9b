/** The flashcard page (flashcards.js): the five-box Leitner scheduler, the
    sanitising of the loaded deck, the category and error filter, and the
    review queue the page walks through with its cursor. */
module Flashcards {
  import opened Json
  import opened Lists
  import opened Store

  /** Delay before a failed card is due again, in minutes. */
  const QuickRetryMinutes := 3

  /** `KNOWN_INTERVAL_MINUTES[box] || 10`: the delay after a known answer
      that leaves the card in `box`. */
  function KnownIntervalMinutes(box: int): (m: int)
    ensures m >= 10
    ensures box < 1 || box > 5 ==> m == 10
    ensures box == 5 ==> m == 4320
  {
    if box == 1 then 10
    else if box == 2 then 60
    else if box == 3 then 360
    else if box == 4 then 1440
    else if box == 5 then 4320
    else 10
  }

  /** A higher box means a longer wait. */
  lemma IntervalsGrow(a: int, b: int)
    requires 1 <= a < b <= 5
    ensures KnownIntervalMinutes(a) < KnownIntervalMinutes(b)
  {
  }

  /** `Scheduler.mastery`: the share of known answers, 0 before any answer. */
  function Mastery(r: Record): (m: real)
    ensures r.successCount + r.failCount <= 0 ==> m == 0.0
    ensures r.successCount + r.failCount > 0 ==>
      m * ((r.successCount + r.failCount) as real) == r.successCount as real
    ensures r.successCount >= 0 && r.failCount >= 0 ==> 0.0 <= m <= 1.0
  {
    var total := r.successCount + r.failCount;
    if total <= 0 then 0.0 else r.successCount as real / total as real
  }

  /** The percentage shown on the home page (`masteryFromRecord`) is the
      scheduler's mastery ratio times 100, rounded to an integer at most one
      half away. */
  lemma MasteryPercent(r: Record)
    requires ValidRecord(r) && r.successCount + r.failCount > 0
    ensures 100.0 * Mastery(r) - 0.5 <= MasteryFromRecord(r) as real <= 100.0 * Mastery(r) + 0.5
  {
    var t := r.successCount + r.failCount;
    var m := MasteryFromRecord(r);
    BoundsAsReal(t, m, r.successCount);
    var q := Mastery(r);
    assert (2 * t) as real / 2.0 == t as real;
    ScaledBounds((2 * t) as real, m as real, r.successCount as real, q);
  }

  /** The integer bounds of the rounding, read in real arithmetic. */
  lemma BoundsAsReal(t: int, m: int, s: int)
    requires t > 0 && 2 * t * m - t <= 200 * s <= 2 * t * m + t
    ensures var tr := (2 * t) as real;
      tr * (m as real) - tr / 2.0 <= 200.0 * (s as real) <= tr * (m as real) + tr / 2.0
  {
    MulCast(2 * t, m);
  }

  /** The real-arithmetic core of `MasteryPercent`. */
  lemma ScaledBounds(tr: real, mr: real, sr: real, q: real)
    requires tr > 0.0 && q * (tr / 2.0) == sr
    requires tr * mr - tr / 2.0 <= 200.0 * sr <= tr * mr + tr / 2.0
    ensures 100.0 * q - 0.5 <= mr <= 100.0 * q + 0.5
  {
    var lo, hi, p := mr - 0.5, mr + 0.5, 100.0 * q;
    assert tr * p == 200.0 * sr;
    assert tr * lo == tr * mr - tr / 2.0;
    assert tr * hi == tr * mr + tr / 2.0;
    assert tr * lo <= 200.0 * sr <= tr * hi;
    ScaleLe(tr, lo, p);
    ScaleLe(tr, p, hi);
  }

  lemma MulCast(a: int, b: int)
    ensures (a * b) as real == (a as real) * (b as real)
  {
  }

  lemma ScaleLe(t: real, x: real, y: real)
    requires t > 0.0 && t * x <= t * y
    ensures x <= y
  {
    assert t * (y - x) == t * y - t * x;
  }

  /** `Scheduler.scheduleAfterAnswer`: a copy of the record after one answer
      at time `now` (milliseconds). A known card climbs one box, at most to
      5, and waits the interval of its new box; a failed card drops one box,
      at least to 1, and comes back after the quick-retry delay. */
  function ScheduleAfterAnswer(r: Record, knew: bool, now: int): (out: Record)
    ensures out.id == r.id && out.category == r.category && out.question == r.question
    ensures out.answer == r.answer && out.explanation == r.explanation
    ensures out.difficulty == r.difficulty
    ensures out.lastSeen == now
    ensures knew ==>
      && out.successCount == r.successCount + 1 && out.failCount == r.failCount
      && out.box == Min(5, r.box + 1)
      && out.nextDue == now + KnownIntervalMinutes(out.box) * 60 * 1000
    ensures !knew ==>
      && out.failCount == r.failCount + 1 && out.successCount == r.successCount
      && out.box == Max(1, r.box - 1)
      && out.nextDue == now + QuickRetryMinutes * 60 * 1000
    ensures 1 <= r.box <= 5 ==> 1 <= out.box <= 5
    ensures ValidRecord(r) && now >= 0 ==> ValidRecord(out) && out.nextDue > now
  {
    if knew then
      var box := Min(5, r.box + 1);
      r.(lastSeen := now, successCount := r.successCount + 1, box := box,
         nextDue := now + KnownIntervalMinutes(box) * 60 * 1000)
    else
      r.(lastSeen := now, failCount := r.failCount + 1, box := Max(1, r.box - 1),
         nextDue := now + QuickRetryMinutes * 60 * 1000)
  }

  /** The record after a series of answers, each with its time. */
  function Replay(r: Record, answers: seq<(bool, int)>): Record
    decreases |answers|
  {
    if answers == [] then r
    else Replay(ScheduleAfterAnswer(r, answers[0].0, answers[0].1), answers[1..])
  }

  function CountKnown(answers: seq<(bool, int)>): (n: nat)
    ensures n <= |answers|
  {
    if answers == [] then 0
    else (if answers[0].0 then 1 else 0) + CountKnown(answers[1..])
  }

  /** Every answer is counted once, as a success or as a failure. */
  lemma {:induction false} ReplayCounts(r: Record, answers: seq<(bool, int)>)
    ensures Replay(r, answers).successCount == r.successCount + CountKnown(answers)
    ensures Replay(r, answers).failCount == r.failCount + |answers| - CountKnown(answers)
    ensures Replay(r, answers).id == r.id
    decreases |answers|
  {
    if answers != [] {
      ReplayCounts(ScheduleAfterAnswer(r, answers[0].0, answers[0].1), answers[1..]);
    }
  }

  /** k known answers in a row lift the card k boxes, stopping at box 5. */
  lemma {:induction false} ReplayKnownBox(r: Record, answers: seq<(bool, int)>)
    requires 1 <= r.box <= 5
    requires forall i :: 0 <= i < |answers| ==> answers[i].0
    ensures Replay(r, answers).box == Min(5, r.box + |answers|)
    decreases |answers|
  {
    if answers != [] {
      var next := ScheduleAfterAnswer(r, answers[0].0, answers[0].1);
      var rest := answers[1..];
      assert forall i :: 0 <= i < |rest| ==> rest[i] == answers[i + 1];
      ReplayKnownBox(next, rest);
    }
  }

  /** k failed answers in a row drop the card k boxes, stopping at box 1. */
  lemma {:induction false} ReplayFailedBox(r: Record, answers: seq<(bool, int)>)
    requires 1 <= r.box <= 5
    requires forall i :: 0 <= i < |answers| ==> !answers[i].0
    ensures Replay(r, answers).box == Max(1, r.box - |answers|)
    decreases |answers|
  {
    if answers != [] {
      var next := ScheduleAfterAnswer(r, answers[0].0, answers[0].1);
      var rest := answers[1..];
      assert forall i :: 0 <= i < |rest| ==> rest[i] == answers[i + 1];
      ReplayFailedBox(next, rest);
    }
  }

  /** A valid record stays valid through any answers given at times >= 0. */
  lemma {:induction false} ReplayKeepsValid(r: Record, answers: seq<(bool, int)>)
    requires ValidRecord(r)
    requires forall i :: 0 <= i < |answers| ==> answers[i].1 >= 0
    ensures ValidRecord(Replay(r, answers))
    decreases |answers|
  {
    if answers != [] {
      var rest := answers[1..];
      assert forall i :: 0 <= i < |rest| ==> rest[i] == answers[i + 1];
      ReplayKeepsValid(ScheduleAfterAnswer(r, answers[0].0, answers[0].1), rest);
    }
  }

  /** Away from the end boxes, a known answer followed by a failed one puts
      the card back in its box. */
  lemma KnownThenFailed(r: Record, t1: int, t2: int)
    requires 1 <= r.box <= 4
    ensures ScheduleAfterAnswer(ScheduleAfterAnswer(r, true, t1), false, t2).box == r.box
  {
  }

  // ---- the loaded deck (sanitizeFlashcards) ----

  /** The five text properties every kept card carries as strings. */
  predicate HasCardTexts(v: Value) {
    Get(v, "id").Str? && Get(v, "category").Str? && Get(v, "question").Str?
    && Get(v, "answer").Str? && Get(v, "explanation").Str?
  }

  /** The card built from a kept item: unknown difficulties read as medium,
      non-numbers as 0, and every card starts in box 1. */
  function SanitizeCard(v: Value): (c: Record)
    ensures c.box == 1 && IsDifficulty(c.difficulty)
    ensures HasCardTexts(v) ==>
      Str(c.id) == Get(v, "id") && Str(c.category) == Get(v, "category")
      && Str(c.question) == Get(v, "question") && Str(c.answer) == Get(v, "answer")
      && Str(c.explanation) == Get(v, "explanation")
  {
    var d := Get(v, "difficulty");
    Record(
      StringOr(Get(v, "id"), ""), StringOr(Get(v, "category"), ""),
      StringOr(Get(v, "question"), ""), StringOr(Get(v, "answer"), ""),
      StringOr(Get(v, "explanation"), ""),
      if d == Str("hard") || d == Str("easy") then d.s else "medium",
      SafeNumber(Get(v, "successCount"), 0), SafeNumber(Get(v, "failCount"), 0),
      SafeNumber(Get(v, "lastSeen"), 0), SafeNumber(Get(v, "nextDue"), 0),
      1)
  }

  /** The items that survive both filters of `sanitizeFlashcards`. */
  function KeptItems(payload: Value): (items: seq<Value>)
    ensures forall v :: v in items ==> v in ItemsOf(payload) && IsObjectLike(v) && HasCardTexts(v)
  {
    Filter(Filter(ItemsOf(payload), IsObjectLike), HasCardTexts)
  }

  /** Every object item with the five texts is kept. */
  lemma KeptItemsComplete(payload: Value, v: Value)
    requires v in ItemsOf(payload) && IsObjectLike(v) && HasCardTexts(v)
    ensures v in KeptItems(payload)
  {
    FilterKeeps(ItemsOf(payload), IsObjectLike, v);
    FilterKeeps(Filter(ItemsOf(payload), IsObjectLike), HasCardTexts, v);
  }

  /** `sanitizeFlashcards`: a payload that is not an array gives no card;
      otherwise one card per object item whose five texts are strings, in
      the payload's order, each in box 1 with a known difficulty. */
  function SanitizeFlashcards(payload: Value): (cards: seq<Record>)
    ensures !payload.Arr? ==> cards == []
    ensures |cards| == |KeptItems(payload)| <= |ItemsOf(payload)|
    ensures forall i :: 0 <= i < |cards| ==> cards[i] == SanitizeCard(KeptItems(payload)[i])
    ensures forall c :: c in cards ==> c.box == 1 && IsDifficulty(c.difficulty)
  {
    Map(KeptItems(payload), SanitizeCard)
  }

  /** The deck file written from cards in box 1 with a known difficulty reads
      back as the same cards. */
  lemma DeckRoundTrip(cards: seq<Record>)
    requires forall c :: c in cards ==> c.box == 1 && IsDifficulty(c.difficulty)
    ensures SanitizeFlashcards(Arr(Map(cards, RecordValue))) == cards
  {
    var items := Map(cards, RecordValue);
    forall i | 0 <= i < |items|
      ensures IsObjectLike(items[i]) && HasCardTexts(items[i])
      ensures SanitizeCard(items[i]) == cards[i]
    {
      CardRoundTrip(cards[i]);
    }
    FilterAll(items, IsObjectLike);
    FilterAll(items, HasCardTexts);
  }

  lemma CardRoundTrip(c: Record)
    requires c.box == 1 && IsDifficulty(c.difficulty)
    ensures HasCardTexts(RecordValue(c)) && SanitizeCard(RecordValue(c)) == c
  {
    RecordValueTexts(c);
    RecordValueCounts(c);
  }

  // ---- the card filter (getFilteredCards) ----

  /** Whether a card passes the category selector and the errors-only
      toggle: under the toggle, only cards with a stored record that has
      at least one failure. */
  predicate Shown(card: Record, category: string, errorsOnly: bool, records: map<string, Record>) {
    (category == "all" || card.category == category)
    && (errorsOnly ==> card.id in records && records[card.id].failCount > 0)
  }

  /** `getFilteredCards`: the shown cards, in deck order. */
  function FilteredCards(cards: seq<Record>, category: string, errorsOnly: bool,
                         records: map<string, Record>): (r: seq<Record>)
    ensures forall c :: c in r ==> c in cards && Shown(c, category, errorsOnly, records)
    ensures forall i :: 0 <= i < |cards| && Shown(cards[i], category, errorsOnly, records) ==>
              cards[i] in r
    ensures multiset(r) <= multiset(cards)
  {
    FilterSubMultiset(cards, (c: Record) => Shown(c, category, errorsOnly, records));
    Filter(cards, (c: Record) => Shown(c, category, errorsOnly, records))
  }

  /** With every category and no error filter, the whole deck is shown. */
  lemma FilterShowsAll(cards: seq<Record>, records: map<string, Record>)
    ensures FilteredCards(cards, "all", false, records) == cards
  {
    FilterAll(cards, (c: Record) => Shown(c, "all", false, records));
  }

  /** `currentRecord`: the stored record of the id under the cursor, if the
      cursor is on the queue, the id is not empty and a record exists. */
  function CurrentRecord(queueIds: seq<string>, cursor: int, records: map<string, Record>): (r: Option<Record>)
    ensures r.Some? <==>
      0 <= cursor < |queueIds| && queueIds[cursor] != "" && queueIds[cursor] in records
    ensures r.Some? ==> r.value == records[queueIds[cursor]]
  {
    if 0 <= cursor < |queueIds| && queueIds[cursor] != "" && queueIds[cursor] in records
    then Some(records[queueIds[cursor]])
    else None
  }

  /** The progress after `applyAnswer` on `rec`, before it is saved: the
      record rescheduled, the streak grown or reset, the answer logged in
      the history and the heat map, and the page's queue and cursor copied
      into the saved session. */
  function Answered(d: Progress, rec: Record, knew: bool, now: int, day: string,
                    queue: seq<string>, cursor: int): Progress
  {
    var logged := Logged(Rescheduled(d, rec, knew, now), rec, if knew then "known" else "unknown", now);
    SessionKept(Recorded(logged, day, knew), queue, cursor)
  }

  /** The first steps of `applyAnswer`: the rescheduled copy of the record
      is stored and the streak grows (with the best streak) or resets. */
  function Rescheduled(d: Progress, rec: Record, knew: bool, now: int): Progress {
    var fc := d.flashcards;
    var streak := if knew then fc.streak + 1 else 0;
    d.(flashcards := fc.(
         records := fc.records[rec.id := ScheduleAfterAnswer(rec, knew, now)],
         streak := streak,
         bestStreak := if knew then Max(fc.bestStreak, streak) else fc.bestStreak))
  }

  /** `pushHistory`: one entry appended, the last `HistoryLimit` kept. */
  function Logged(d: Progress, card: Record, result: string, at: int): Progress {
    var fc := d.flashcards;
    d.(flashcards := fc.(history :=
         TakeLast(fc.history + [HistoryEntry(card.id, result, at, card.category)], HistoryLimit)))
  }

  /** The page's queue and cursor copied into the saved session. */
  function SessionKept(d: Progress, queue: seq<string>, cursor: int): Progress {
    var fc := d.flashcards;
    d.(flashcards := fc.(session := fc.session.(queueIds := queue, cursor := cursor)))
  }

  /** What an answer changes in the saved progress, field by field: the
      record is rescheduled, a known card grows the streak (and the best
      streak with it) and an unknown one resets it, the history gains the
      answer and keeps its last `HistoryLimit` entries, the heat map
      counts it on `day`, the session keeps the first `QueueLimit` ids of
      the queue; the quiz part and the version are untouched. */
  lemma AnsweredEffect(d: Progress, rec: Record, knew: bool, now: int, day: string,
                       queue: seq<string>, cursor: int)
    ensures var a := TruncateQueue(Answered(d, rec, knew, now, day, queue, cursor)).flashcards;
      && a.records == d.flashcards.records[rec.id := ScheduleAfterAnswer(rec, knew, now)]
      && a.records.Keys == d.flashcards.records.Keys + {rec.id}
      && (knew ==> a.streak == d.flashcards.streak + 1 && a.bestStreak >= a.streak
                   && a.bestStreak >= d.flashcards.bestStreak)
      && (!knew ==> a.streak == 0 && a.bestStreak == d.flashcards.bestStreak)
      && |a.history| == Min(|d.flashcards.history| + 1, HistoryLimit)
      && a.history[|a.history| - 1].id == rec.id
      && a.history[|a.history| - 1].result == (if knew then "known" else "unknown")
      && a.session.queueIds == Take(queue, QueueLimit) && a.session.cursor == cursor
    ensures var a := TruncateQueue(Answered(d, rec, knew, now, day, queue, cursor));
      && a.quiz == d.quiz && a.version == d.version
      && a.ui.heatmap == Tally(d.ui.heatmap, day, knew)
  {
  }

  /** An answer on a valid record at a time after the epoch keeps the
      progress saveable. */
  lemma AnsweredSaveable(d: Progress, rec: Record, knew: bool, now: int, day: string,
                         queue: seq<string>, cursor: int)
    requires Saveable(d) && ValidRecord(rec) && now >= 0 && IsDayKey(day)
    ensures Saveable(Answered(d, rec, knew, now, day, queue, cursor))
  {
    TallyKeepsHeatmapValid(d.ui.heatmap, day, knew);
  }

  /** The page state (`state` in flashcards.js) over the shared progress
      object. */
  class FlashcardPage {
    const store: ProgressStore
    var cards: seq<Record>
    var queueIds: seq<string>
    var cursor: int
    var flipped: bool

    /** The progress is valid and the cursor lies on the queue or just
        past its end. */
    predicate Valid()
      reads this, store
    {
      Store.Valid(store.data) && 0 <= cursor <= |queueIds|
    }

    function Current(): Option<Record>
      reads this, store
    {
      CurrentRecord(queueIds, cursor, store.data.flashcards.records)
    }

    constructor(store: ProgressStore)
      requires Store.Valid(store.data)
      ensures this.store == store && Valid()
      ensures cards == [] && queueIds == [] && cursor == 0 && !flipped
    {
      this.store := store;
      cards := [];
      queueIds := [];
      cursor := 0;
      flipped := false;
    }

    /** Loading the deck: the sanitised cards are merged into the stored
        records and the progress is saved. */
    method LoadDeck(payload: Value, nowIso: string)
      requires Valid()
      modifies this, store
      ensures Valid()
      ensures cards == Upsert(old(store.data.flashcards.records), SanitizeFlashcards(payload)).1
      ensures store.data.flashcards.records
              == Upsert(old(store.data.flashcards.records), SanitizeFlashcards(payload)).0
      ensures store.data == old(store.data).(flashcards :=
                old(store.data).flashcards.(records := store.data.flashcards.records))
      ensures queueIds == old(queueIds) && cursor == old(cursor) && flipped == old(flipped)
    {
      var deck := SanitizeFlashcards(payload);
      ghost var before := store.data;
      UpsertKeepsRecordsValid(before.flashcards.records, deck);
      WithRecordsValid(before, Upsert(before.flashcards.records, deck).0);
      cards := store.UpsertFlashcardRecords(deck);
      TruncateQueueNoop(store.data);
      store.Persist(nowIso);
    }

    /** The page's save of the shared progress; the page's own fields are
        left as they are. */
    method SaveStore(nowIso: string)
      requires Saveable(store.data)
      modifies store
      ensures store.data == TruncateQueue(old(store.data)) && Store.Valid(store.data)
    {
      store.Persist(nowIso);
    }

    /** `flipCard`: turns the current card over; nothing without one. */
    method FlipCard()
      requires Valid()
      modifies this
      ensures Valid()
      ensures flipped == if old(Current()).Some? then !old(flipped) else old(flipped)
      ensures cards == old(cards) && queueIds == old(queueIds) && cursor == old(cursor)
    {
      if Current().Some? {
        flipped := !flipped;
      }
    }

    /** `requeueFailedCard`: the id goes back into the queue two places
        after the cursor, or at the end when the queue is shorter. */
    method RequeueFailedCard(cardId: string)
      requires 0 <= cursor
      modifies this
      ensures queueIds == Insert(old(queueIds), Min(old(cursor) + 2, |old(queueIds)|), cardId)
      ensures var at := Min(old(cursor) + 2, |old(queueIds)|);
        && |queueIds| == |old(queueIds)| + 1
        && queueIds[at] == cardId
        && queueIds[..at] == old(queueIds)[..at]
        && queueIds[at + 1..] == old(queueIds)[at..]
      ensures cards == old(cards) && cursor == old(cursor) && flipped == old(flipped)
    {
      var at := Min(cursor + 2, |queueIds|);
      queueIds := Insert(queueIds, at, cardId);
    }

    /** `applyAnswer` at time `now` on day `day`: nothing unless a current
        card is flipped. Otherwise the card is rescheduled, the streak grows
        or resets, a failed card is requeued, the answer is logged in the
        history and the heat map, the cursor moves on by one and the
        progress is saved. */
    method ApplyAnswer(knew: bool, now: int, day: string, nowIso: string)
      requires Valid() && now >= 0 && IsDayKey(day)
      modifies this, store
      ensures Valid()
      ensures old(Current()).None? || !old(flipped) ==>
        store.data == old(store.data) && queueIds == old(queueIds)
        && cursor == old(cursor) && flipped == old(flipped) && cards == old(cards)
      ensures old(Current()).Some? && old(flipped) ==>
        var rec := old(Current()).value;
        && cursor == old(cursor) + 1
        && !flipped && cards == old(cards)
        && queueIds == (if knew then old(queueIds)
                        else Insert(old(queueIds), Min(old(cursor) + 2, |old(queueIds)|), rec.id))
        && store.data == TruncateQueue(Answered(old(store.data), rec, knew, now, day, queueIds, cursor))
    {
      var current := Current();
      if current.None? || !flipped {
        return;
      }
      var rec := current.value;
      var progress := store.data;
      progress := Rescheduled(progress, rec, knew, now);
      if !knew {
        RequeueFailedCard(rec.id);
      }
      progress := Logged(progress, rec, if knew then "known" else "unknown", now);
      progress := Recorded(progress, day, knew);
      cursor := cursor + 1;
      progress := SessionKept(progress, queueIds, cursor);
      AnsweredSaveable(store.data, rec, knew, now, day, queueIds, cursor);
      store.data := progress;
      SaveStore(nowIso);
      flipped := false;
    }

    /** `restoreSessionFromQuery` (queue and cursor): with `resume=1` and a
        saved queue, the page resumes it, keeping the ids that still have a
        record and bringing the saved cursor back within the queue. */
    method RestoreSessionFromQuery(wantsResume: bool) returns (restored: bool)
      requires Valid()
      modifies this
      ensures Valid()
      ensures cards == old(cards) && flipped == old(flipped)
      ensures var saved := old(store.data.flashcards.session);
        !wantsResume || saved.queueIds == [] ==>
          !restored && queueIds == old(queueIds) && cursor == old(cursor)
      ensures var saved := old(store.data.flashcards.session);
        var recs := old(store.data.flashcards.records);
        wantsResume && saved.queueIds != [] ==>
          && queueIds == Filter(saved.queueIds, (id: string) => id in recs)
          && (forall id :: id in queueIds ==> id in recs)
          && (forall i :: 0 <= i < |saved.queueIds| && saved.queueIds[i] in recs ==>
                saved.queueIds[i] in queueIds)
          && cursor == Clamp(saved.cursor, 0, |queueIds|)
          && (0 <= saved.cursor <= |queueIds| ==> cursor == saved.cursor)
          && restored == (|queueIds| > 0)
    {
      if !wantsResume {
        return false;
      }
      var session := store.data.flashcards.session;
      if |session.queueIds| == 0 {
        return false;
      }
      var recs := store.data.flashcards.records;
      queueIds := Filter(session.queueIds, (id: string) => id in recs);
      cursor := Max(0, Min(session.cursor, |queueIds|));
      restored := |queueIds| > 0;
    }
  }
}
