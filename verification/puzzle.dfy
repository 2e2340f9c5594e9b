/** The code-line puzzle page (puzzle.js): the stored puzzle statistics and
    their repair on load, the order of the lines being arranged, the
    shuffle that never hands out a solved order, the moves of one line and
    the bookkeeping after each check. */
module Puzzle {
  import opened Json
  import opened Lists
  import opened Text
  import opened Seeded
  import opened Store

  /** One puzzle of the catalogue. The C lines themselves are display data;
      what the page's logic uses of them is their number. */
  datatype PuzzleDef = PuzzleDef(id: string, title: string, lineCount: nat)

  /** `PUZZLES`, in catalogue order. */
  const Puzzles: seq<PuzzleDef> := [
    PuzzleDef("ft_split_words", "ft_split - Découpage de mots", 6),
    PuzzleDef("ft_range_core", "ft_range - Suite inclusive", 7),
    PuzzleDef("list_remove_if", "ft_list_remove_if - Suppression sûre", 6),
    PuzzleDef("sort_list_pass", "sort_list - Passage bubble", 8),
    PuzzleDef("itoa_safe", "itoa - Gestion signe et taille", 8),
    PuzzleDef("wdmatch_flow", "wdmatch - Parcours dans le bon sens", 10),
    PuzzleDef("union_seen", "union - seen[256]", 13),
    PuzzleDef("atoi_core", "atoi - Conversion simple", 11)]

  /** The stored history keeps this many outcomes. */
  const HistoryCap := 40

  function PuzzleId(p: PuzzleDef): string { p.id }

  /** The ids of a catalogue, in its order. */
  function Ids(cat: seq<PuzzleDef>): (ids: seq<string>)
    ensures |ids| == |cat| && forall i :: 0 <= i < |cat| ==> ids[i] == cat[i].id
  {
    Map(cat, PuzzleId)
  }

  predicate KnownId(cat: seq<PuzzleDef>, id: string) {
    id in Ids(cat)
  }

  /** What the page needs of its catalogue: a puzzle at least, and no id
      used twice. */
  predicate WellFormed(cat: seq<PuzzleDef>) {
    |cat| > 0 && Distinct(Ids(cat))
  }

  lemma PuzzlesWellFormed()
    ensures WellFormed(Puzzles)
  {
    assert Ids(Puzzles) == ["ft_split_words", "ft_range_core", "list_remove_if", "sort_list_pass",
      "itoa_safe", "wdmatch_flow", "union_seen", "atoi_core"];
  }

  lemma KnownPuzzle(cat: seq<PuzzleDef>, p: PuzzleDef)
    requires p in cat
    ensures KnownId(cat, p.id)
  {
    var k :| 0 <= k < |cat| && cat[k] == p;
    assert Ids(cat)[k] == p.id;
  }

  // ---- the stored statistics (defaultPuzzleState, loadPuzzleState) ----

  datatype Outcome = Outcome(at: string, puzzleId: string, title: string, success: bool)

  datatype PuzzleState = PuzzleState(
    solvedIds: seq<string>, attempts: int, success: int, streak: int, bestStreak: int,
    history: seq<Outcome>, lastPuzzleId: string)

  /** What a loaded state guarantees, for the catalogue `cat`. */
  predicate ValidState(cat: seq<PuzzleDef>, s: PuzzleState) {
    && s.attempts >= 0 && s.success >= 0 && s.streak >= 0 && s.bestStreak >= 0
    && (forall id :: id in s.solvedIds ==> KnownId(cat, id))
    && |s.history| <= HistoryCap
  }

  function DefaultPuzzleState(): (s: PuzzleState)
    ensures forall cat :: ValidState(cat, s)
    ensures s.solvedIds == [] && s.history == []
  {
    PuzzleState([], 0, 0, 0, 0, [], "")
  }

  /** One stored outcome, read back; `nowIso` stands for the time of the
      load. */
  function NormalizeOutcome(item: Value, nowIso: string): Outcome {
    Outcome(
      StringOr(Get(item, "at"), nowIso),
      StringOr(Get(item, "puzzleId"), ""),
      StringOr(Get(item, "title"), ""),
      Truthy(Get(item, "success")))
  }

  function NormalizeOutcomes(v: Value, nowIso: string): (h: seq<Outcome>)
    ensures |h| <= HistoryCap
  {
    Take(Map(Filter(ItemsOf(v), IsObjectLike), (item: Value) => NormalizeOutcome(item, nowIso)), HistoryCap)
  }

  /** `Number.isFinite(x) ? Math.max(0, x) : 0`. */
  function Counter(v: Value): (n: int)
    ensures n >= 0 && (v.Num? && v.n >= 0 ==> n == v.n)
  {
    Max(0, SafeNumber(v, 0))
  }

  /** `loadPuzzleState`: the default state when nothing is stored (None
      covers a missing entry and text that does not parse) or when the
      stored value is `null`, which makes the property reads throw;
      otherwise the stored state repaired field by field. */
  function LoadPuzzleState(cat: seq<PuzzleDef>, stored: Option<Value>, nowIso: string): (s: PuzzleState)
    ensures ValidState(cat, s)
    ensures stored.None? || stored.value.Null? ==> s == DefaultPuzzleState()
  {
    if stored.None? || stored.value.Null? then DefaultPuzzleState()
    else
      var v := stored.value;
      PuzzleState(
        Filter(Strings(Get(v, "solvedIds")), (id: string) => KnownId(cat, id)),
        Counter(Get(v, "attempts")),
        Counter(Get(v, "success")),
        Counter(Get(v, "streak")),
        Counter(Get(v, "bestStreak")),
        NormalizeOutcomes(Get(v, "history"), nowIso),
        StringOr(Get(v, "lastPuzzleId"), ""))
  }

  /** The JSON form `savePuzzleState` writes. */
  function OutcomeValue(o: Outcome): Value {
    Obj(map["at" := Str(o.at), "puzzleId" := Str(o.puzzleId), "title" := Str(o.title), "success" := Bool(o.success)])
  }

  function PuzzleStateValue(s: PuzzleState): Value {
    Obj(map[
      "solvedIds" := StringsValue(s.solvedIds), "attempts" := Num(s.attempts),
      "success" := Num(s.success), "streak" := Num(s.streak),
      "bestStreak" := Num(s.bestStreak), "history" := Arr(Map(s.history, OutcomeValue)),
      "lastPuzzleId" := Str(s.lastPuzzleId)])
  }

  lemma OutcomesRoundTrip(h: seq<Outcome>, nowIso: string)
    requires |h| <= HistoryCap
    ensures NormalizeOutcomes(Arr(Map(h, OutcomeValue)), nowIso) == h
  {
    var items := Map(h, OutcomeValue);
    FilterAll(items, IsObjectLike);
    var back := Map(items, (item: Value) => NormalizeOutcome(item, nowIso));
    forall i | 0 <= i < |h| ensures back[i] == h[i] {
      var v := OutcomeValue(h[i]);
      assert Get(v, "at") == Str(h[i].at);
      assert Get(v, "puzzleId") == Str(h[i].puzzleId);
      assert Get(v, "title") == Str(h[i].title);
      assert Get(v, "success") == Bool(h[i].success);
    }
    assert back == h;
  }

  /** A state the page saved reads back unchanged. */
  lemma LoadAfterSave(cat: seq<PuzzleDef>, s: PuzzleState, nowIso: string)
    requires ValidState(cat, s)
    ensures LoadPuzzleState(cat, Some(PuzzleStateValue(s)), nowIso) == s
  {
    var v := PuzzleStateValue(s);
    assert Get(v, "solvedIds") == StringsValue(s.solvedIds);
    assert Get(v, "history") == Arr(Map(s.history, OutcomeValue));
    assert Get(v, "attempts") == Num(s.attempts);
    assert Get(v, "success") == Num(s.success);
    assert Get(v, "streak") == Num(s.streak);
    assert Get(v, "bestStreak") == Num(s.bestStreak);
    assert Get(v, "lastPuzzleId") == Str(s.lastPuzzleId);
    StringsRoundTrip(s.solvedIds);
    FilterAll(s.solvedIds, (id: string) => KnownId(cat, id));
    OutcomesRoundTrip(s.history, nowIso);
  }

  // ---- the order being arranged ----

  /** One line on the board: its id and its place in the solution. */
  datatype Line = Line(lineId: string, originalIndex: int)

  /** `isCorrectOrder`: every line sits at its place in the solution. */
  predicate IsCorrectOrder(lines: seq<Line>) {
    forall i :: 0 <= i < |lines| ==> lines[i].originalIndex == i
  }

  /** A board has one solved arrangement: two correct orders of the same
      lines are the same order. */
  lemma CorrectOrderUnique(a: seq<Line>, b: seq<Line>)
    requires IsCorrectOrder(a) && IsCorrectOrder(b) && multiset(a) == multiset(b)
    ensures a == b
  {
    assert |a| == |multiset(a)| == |multiset(b)| == |b|;
    forall i | 0 <= i < |a| ensures a[i] == b[i] {
      assert a[i] in multiset(b);
      var j :| 0 <= j < |b| && b[j] == a[i];
    }
  }

  /** The lines of a puzzle in solution order (`loadPuzzle`, `showSolution`). */
  function SolutionLines(p: PuzzleDef): (lines: seq<Line>)
    ensures |lines| == p.lineCount && IsCorrectOrder(lines)
  {
    seq(p.lineCount, i requires 0 <= i < p.lineCount => Line(p.id + "-" + Decimal(i), i))
  }

  /** The order `shuffleCurrentOrder` sets: the shuffle of the current
      order, with its first two lines exchanged when it came out solved. */
  function ShuffledOrder(order: seq<Line>, rng: nat -> real): (r: seq<Line>)
    requires IsUnitOracle(rng)
    ensures |r| == |order|
  {
    var shuffled := FisherYates(order, rng);
    if |shuffled| > 1 && IsCorrectOrder(shuffled) then Swap(shuffled, 0, 1) else shuffled
  }

  /** The shuffle is a permutation of the current order, and with two
      lines or more it is never the solution. */
  lemma ShuffledNeverSolved(order: seq<Line>, rng: nat -> real)
    requires IsUnitOracle(rng)
    ensures multiset(ShuffledOrder(order, rng)) == multiset(order)
    ensures |order| > 1 ==> !IsCorrectOrder(ShuffledOrder(order, rng))
  {
    var shuffled := FisherYates(order, rng);
    FisherYatesPermutes(order, rng);
    if |shuffled| > 1 && IsCorrectOrder(shuffled) {
      SwapPermutes(shuffled, 0, 1);
      assert ShuffledOrder(order, rng)[0].originalIndex == 1;
    }
  }

  /** The order after `moveLine(from, to)` succeeds: the line taken out at
      `from` and put back at `to`. */
  function Moved(order: seq<Line>, from: nat, to: nat): (r: seq<Line>)
    requires from < |order| && to < |order|
    ensures |r| == |order| && r[to] == order[from]
  {
    Insert(Remove(order, from), to, order[from])
  }

  /** A move permutes the lines, and the other lines keep their relative
      order. */
  lemma MovedPermutes(order: seq<Line>, from: nat, to: nat)
    requires from < |order| && to < |order|
    ensures multiset(Moved(order, from, to)) == multiset(order)
    ensures Remove(Moved(order, from, to), to) == Remove(order, from)
  {
    RemoveInsert(Remove(order, from), to, order[from]);
    assert multiset(Remove(order, from)) + multiset{order[from]} == multiset(order);
  }

  /** Moving the line back where it came from restores the order. */
  lemma MoveBack(order: seq<Line>, from: nat, to: nat)
    requires from < |order| && to < |order|
    ensures Moved(Moved(order, from, to), to, from) == order
  {
    MovedPermutes(order, from, to);
    InsertRemove(order, from);
  }

  // ---- choosing a puzzle (pickRandomPuzzle, loadSelectedPuzzle) ----

  /** The catalogue without the puzzle `avoidId`. */
  function OtherThan(cat: seq<PuzzleDef>, avoidId: string): (r: seq<PuzzleDef>)
    ensures forall p :: p in r <==> p in cat && p.id != avoidId
  {
    Filter(cat, (p: PuzzleDef) => p.id != avoidId)
  }

  /** The puzzles of `ps` not yet solved. */
  function NotSolved(ps: seq<PuzzleDef>, solvedIds: seq<string>): (r: seq<PuzzleDef>)
    ensures forall p :: p in r <==> p in ps && p.id !in solvedIds
  {
    Filter(ps, (p: PuzzleDef) => p.id !in solvedIds)
  }

  /** The pool `pickRandomPuzzle` draws from: the unsolved puzzles other
      than `avoidId`, else all puzzles other than `avoidId`, else the
      whole catalogue. */
  function CandidatePool(cat: seq<PuzzleDef>, solvedIds: seq<string>, avoidId: string): (pool: seq<PuzzleDef>)
    requires cat != []
    ensures pool != [] && forall p :: p in pool ==> p in cat
  {
    var candidates := OtherThan(cat, avoidId);
    var unsolved := NotSolved(candidates, solvedIds);
    if |unsolved| > 0 then unsolved else if |candidates| > 0 then candidates else cat
  }

  /** `pickRandomPuzzle`: the first puzzle of the shuffled pool. */
  function PickRandomPuzzle(cat: seq<PuzzleDef>, solvedIds: seq<string>, avoidId: string, rng: nat -> real): (p: PuzzleDef)
    requires cat != [] && IsUnitOracle(rng)
    ensures p in CandidatePool(cat, solvedIds, avoidId) && p in cat
  {
    var pool := CandidatePool(cat, solvedIds, avoidId);
    FisherYatesPermutes(pool, rng);
    var shuffled := FisherYates(pool, rng);
    assert shuffled[0] in multiset(pool);
    shuffled[0]
  }

  /** The pool avoids `avoidId` whenever another puzzle exists, and holds
      only unsolved puzzles whenever one other than `avoidId` exists. */
  lemma PoolPrefersUnsolved(cat: seq<PuzzleDef>, solvedIds: seq<string>, avoidId: string, q: PuzzleDef)
    requires q in cat && q.id != avoidId
    ensures forall p :: p in CandidatePool(cat, solvedIds, avoidId) ==> p.id != avoidId
    ensures q.id !in solvedIds ==>
      forall p :: p in CandidatePool(cat, solvedIds, avoidId) ==> p.id !in solvedIds && p.id != avoidId
  {
    var candidates := OtherThan(cat, avoidId);
    assert q in candidates;
    if q.id !in solvedIds {
      assert q in NotSolved(candidates, solvedIds);
    }
  }

  /** The puzzle after the one at position `i` in the catalogue, wrapping
      from the last to the first (`(currentIndex + 1) % PUZZLES.length`). */
  function NextPuzzle(cat: seq<PuzzleDef>, i: int): (p: PuzzleDef)
    requires cat != [] && -1 <= i
    ensures p in cat
  {
    cat[(i + 1) % |cat|]
  }

  /** Stepping from a puzzle of a catalogue of two or more lands on
      another one: the one that follows it, and after the last the first. */
  lemma NextPuzzleDiffers(cat: seq<PuzzleDef>, i: nat)
    requires WellFormed(cat) && i < |cat|
    ensures |cat| > 1 ==> NextPuzzle(cat, i).id != cat[i].id
    ensures i < |cat| - 1 ==> NextPuzzle(cat, i) == cat[i + 1]
    ensures i == |cat| - 1 ==> NextPuzzle(cat, i) == cat[0]
  {
    var j := (i + 1) % |cat|;
    if |cat| > 1 {
      assert Ids(cat)[j] != Ids(cat)[i];
    }
  }

  /** `puzzleFromId`. */
  function PuzzleFromId(cat: seq<PuzzleDef>, id: string): (p: Option<PuzzleDef>)
    ensures p.Some? <==> KnownId(cat, id)
    ensures p.Some? ==> p.value in cat && p.value.id == id
  {
    var i := IndexOf(Ids(cat), id);
    if i >= 0 then Some(cat[i]) else None
  }

  /** The puzzle `loadSelectedPuzzle` loads for the selector value
      `selected`: "random" draws one, avoiding the current puzzle when
      asked; asking to avoid the current puzzle while it is selected
      steps to the next one in the catalogue; otherwise the selected
      puzzle, or a random one for an unknown id. */
  function SelectedPuzzle(cat: seq<PuzzleDef>, selected: string, avoidCurrent: bool,
                          current: Option<PuzzleDef>, solvedIds: seq<string>, rng: nat -> real): (p: PuzzleDef)
    requires cat != [] && IsUnitOracle(rng)
    ensures p in cat
  {
    if selected == "random" then
      PickRandomPuzzle(cat, solvedIds, if avoidCurrent && current.Some? then current.value.id else "", rng)
    else if avoidCurrent && current.Some? && selected == current.value.id then
      NextPuzzle(cat, IndexOf(Ids(cat), selected))
    else if KnownId(cat, selected) then PuzzleFromId(cat, selected).value
    else PickRandomPuzzle(cat, solvedIds, "", rng)
  }

  /** With two puzzles or more, asking to avoid the current puzzle always
      changes the puzzle, whether "random" or the current id is selected;
      a known selected id is honoured otherwise. */
  lemma SelectedPuzzleFacts(cat: seq<PuzzleDef>, selected: string, avoidCurrent: bool,
                            current: Option<PuzzleDef>, solvedIds: seq<string>, rng: nat -> real)
    requires WellFormed(cat) && |cat| > 1 && IsUnitOracle(rng)
    requires current.Some? ==> current.value in cat
    ensures var p := SelectedPuzzle(cat, selected, avoidCurrent, current, solvedIds, rng);
      && ((avoidCurrent && current.Some? && (selected == "random" || selected == current.value.id))
          ==> p.id != current.value.id)
      && ((selected != "random" && KnownId(cat, selected)
           && !(avoidCurrent && current.Some? && selected == current.value.id))
          ==> p.id == selected)
  {
    if current.Some? {
      var k :| 0 <= k < |cat| && cat[k] == current.value;
      IndexOfDistinct(Ids(cat), k);
      NextPuzzleDiffers(cat, k);
      PoolPrefersUnsolved(cat, solvedIds, current.value.id, NextPuzzle(cat, k));
    }
  }

  /** The page state: the shared progress, the catalogue, the statistics,
      the puzzle on the board and the order of its lines. */
  class PuzzlePage {
    const store: ProgressStore
    const catalogue: seq<PuzzleDef>
    var puzzleState: PuzzleState
    var current: Option<PuzzleDef>
    var currentOrder: seq<Line>

    predicate Valid()
      reads this, store
    {
      Store.Valid(store.data) && WellFormed(catalogue) && ValidState(catalogue, puzzleState)
      && (current.Some? ==> current.value in catalogue)
    }

    /** The page on start: the stored statistics loaded, no puzzle yet. */
    constructor(store: ProgressStore, stored: Option<Value>, nowIso: string)
      requires Store.Valid(store.data)
      ensures this.store == store && catalogue == Puzzles && Valid()
      ensures puzzleState == LoadPuzzleState(Puzzles, stored, nowIso)
      ensures current.None? && currentOrder == []
    {
      this.store := store;
      catalogue := Puzzles;
      PuzzlesWellFormed();
      puzzleState := LoadPuzzleState(Puzzles, stored, nowIso);
      current := None;
      currentOrder := [];
    }

    /** `shuffleCurrentOrder`: nothing without a puzzle on the board;
        otherwise the order is replaced by its shuffle. */
    method ShuffleCurrentOrder(rng: nat -> real)
      requires IsUnitOracle(rng)
      modifies this
      ensures current.None? ==> currentOrder == old(currentOrder)
      ensures current.Some? ==> currentOrder == ShuffledOrder(old(currentOrder), rng)
      ensures puzzleState == old(puzzleState) && current == old(current)
    {
      if current.None? {
        return;
      }
      var out := ShuffleArray(Some(currentOrder), rng);
      var shuffled := out[..];
      if |shuffled| > 1 && IsCorrectOrder(shuffled) {
        shuffled := Swap(shuffled, 0, 1);
      }
      currentOrder := shuffled;
    }

    /** `loadPuzzle`: the puzzle goes on the board in solution order, is
        remembered as the last one, and its lines are shuffled. */
    method LoadPuzzle(p: PuzzleDef, rng: nat -> real)
      requires Valid() && p in catalogue && IsUnitOracle(rng)
      modifies this
      ensures Valid()
      ensures current == Some(p) && currentOrder == ShuffledOrder(SolutionLines(p), rng)
      ensures puzzleState == old(puzzleState).(lastPuzzleId := p.id)
    {
      current := Some(p);
      currentOrder := SolutionLines(p);
      puzzleState := puzzleState.(lastPuzzleId := p.id);
      ShuffleCurrentOrder(rng);
    }

    /** `moveLine`: false, and nothing changes, unless both positions are
        on the board and differ; otherwise the line moves. */
    method MoveLine(from: int, to: int) returns (moved: bool)
      modifies this
      ensures moved <==> 0 <= from < |old(currentOrder)| && 0 <= to < |old(currentOrder)| && from != to
      ensures !moved ==> currentOrder == old(currentOrder)
      ensures moved ==> currentOrder == Moved(old(currentOrder), from, to)
      ensures puzzleState == old(puzzleState) && current == old(current)
    {
      if from < 0 || to < 0 || from >= |currentOrder| || to >= |currentOrder| || from == to {
        return false;
      }
      var line := currentOrder[from];
      var next := Remove(currentOrder, from);
      next := Insert(next, to, line);
      currentOrder := next;
      return true;
    }

    /** `markOutcome` for the puzzle on the board: one more attempt; a
        success raises the success count and the streak, the best streak
        follows, and the puzzle joins the solved ones if new; a failure
        resets the streak. The outcome goes first in the history, which
        keeps `HistoryCap` entries, and the answer is counted in the
        progress heat map, which is saved. */
    method MarkOutcome(success: bool, nowIso: string, day: string)
      requires Valid() && current.Some? && IsDayKey(day)
      modifies this, store
      ensures Valid()
      ensures current == old(current) && currentOrder == old(currentOrder)
      ensures var s := old(puzzleState); var p := current.value;
        && puzzleState.attempts == s.attempts + 1
        && puzzleState.success == s.success + (if success then 1 else 0)
        && puzzleState.streak == (if success then s.streak + 1 else 0)
        && puzzleState.bestStreak == (if success then Max(s.bestStreak, s.streak + 1) else s.bestStreak)
        && puzzleState.solvedIds == (if success && p.id !in s.solvedIds then s.solvedIds + [p.id] else s.solvedIds)
        && puzzleState.history == Take([Outcome(nowIso, p.id, p.title, success)] + s.history, HistoryCap)
        && puzzleState.lastPuzzleId == s.lastPuzzleId
      ensures store.data == old(store.data).(ui := old(store.data).ui.(heatmap := Tally(old(store.data).ui.heatmap, day, success)))
    {
      var p := current.value;
      var s := puzzleState;
      s := s.(attempts := s.attempts + 1);
      if success {
        s := s.(success := s.success + 1, streak := s.streak + 1);
        s := s.(bestStreak := Max(s.bestStreak, s.streak));
        if p.id !in s.solvedIds {
          KnownPuzzle(catalogue, p);
          s := s.(solvedIds := s.solvedIds + [p.id]);
        }
      } else {
        s := s.(streak := 0);
      }
      s := s.(history := Take([Outcome(nowIso, p.id, p.title, success)] + s.history, HistoryCap));
      puzzleState := s;
      TallyKeepsHeatmapValid(store.data.ui.heatmap, day, success);
      store.RecordPerformance(day, success);
      TruncateQueueNoop(store.data);
      store.Persist(nowIso);
    }

    /** `loadSelectedPuzzle` for the selector value `selected`. A random
        pick draws from `pickRng` and the shuffle of the loaded puzzle from
        `shuffleRng`: the page seeds a generator for each. */
    method LoadSelectedPuzzle(selected: string, avoidCurrent: bool,
                              pickRng: nat -> real, shuffleRng: nat -> real)
      requires Valid() && IsUnitOracle(pickRng) && IsUnitOracle(shuffleRng)
      modifies this
      ensures Valid()
      ensures current == Some(SelectedPuzzle(catalogue, selected, avoidCurrent, old(current),
        old(puzzleState).solvedIds, pickRng))
      ensures currentOrder == ShuffledOrder(SolutionLines(current.value), shuffleRng)
      ensures puzzleState == old(puzzleState).(lastPuzzleId := current.value.id)
    {
      if selected == "random" {
        var avoid := if avoidCurrent && current.Some? then current.value.id else "";
        LoadPuzzle(PickRandomPuzzle(catalogue, puzzleState.solvedIds, avoid, pickRng), shuffleRng);
        return;
      }
      if avoidCurrent && current.Some? && selected == current.value.id {
        var i := IndexOf(Ids(catalogue), selected);
        LoadPuzzle(NextPuzzle(catalogue, i), shuffleRng);
        return;
      }
      var found := PuzzleFromId(catalogue, selected);
      LoadPuzzle(if found.Some? then found.value
                 else PickRandomPuzzle(catalogue, puzzleState.solvedIds, "", pickRng), shuffleRng);
    }
  }
}
