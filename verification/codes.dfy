/** The code browser page (codes.js): the catalogue of C exercises, the
    exam filter, the selection kept valid under the filter, the cyclic
    previous/next moves, the choice between the complete solution and the
    compact exam variant, and the repair of the stored page state. The C
    programs themselves are modelled in the CStrings, CNumbers and CLists
    modules. */
module Codes {
  import opened Json
  import opened Lists
  import opened CodesCatalogue

  const Complete := "complete"
  const Opti := "opti"

  function ExerciseId(e: Exercise): string { e.id }

  /** The ids of a catalogue, in its order. */
  function Ids(cat: seq<Exercise>): (ids: seq<string>)
    ensures |ids| == |cat| && forall i :: 0 <= i < |cat| ==> ids[i] == cat[i].id
  {
    Map(cat, ExerciseId)
  }

  /** What the page needs of its catalogue: an exercise at least, and no id
      used twice. */
  predicate WellFormed(cat: seq<Exercise>) {
    |cat| > 0 && UniqueIds(cat)
  }

  predicate UniqueIds(cat: seq<Exercise>) {
    forall i, j :: 0 <= i < j < |cat| ==> cat[i].id != cat[j].id
  }

  lemma UniqueIdsDistinct(cat: seq<Exercise>)
    ensures UniqueIds(cat) <==> Distinct(Ids(cat))
  {
  }

  /** The ids of the catalogue of exercises. */
  const ExerciseIds: seq<string> := ["union", "atoi", "strdup", "strrev", "inter", "last_word", "wdmatch",
      "lstsize", "range", "list_remove_if", "lstforeach", "lstsort", "split", "itoa"]

  lemma ExerciseIdsOf()
    ensures Ids(Exercises) == ExerciseIds
  {
  }

  lemma ExerciseIdsDistinct()
    ensures Distinct(ExerciseIds)
  {
  }

  lemma ExercisesWellFormed()
    ensures WellFormed(Exercises)
  {
    ExerciseIdsOf();
    ExerciseIdsDistinct();
    UniqueIdsDistinct(Exercises);
  }

  // ---- the stored page state (loadState) ----

  /** The page state `state` holds and `saveState` stores. */
  datatype PageState = PageState(exam: string, exerciseId: string, version: string)

  predicate IsExamFilter(exam: string) {
    exam == "all" || exam == "EX2" || exam == "EX3" || exam == "EX4"
  }

  predicate IsVersion(version: string) {
    version == Complete || version == Opti
  }

  /** What `loadState` guarantees of the state it returns. */
  predicate ValidPageState(cat: seq<Exercise>, s: PageState) {
    IsExamFilter(s.exam) && s.exerciseId in Ids(cat) && IsVersion(s.version)
  }

  function DefaultState(cat: seq<Exercise>): PageState
    requires cat != []
  {
    PageState("all", cat[0].id, Complete)
  }

  /** `loadState`: None stands for nothing stored, an empty string or text
      `JSON.parse` rejects, which all give the default state; so does a
      stored `null`, whose property reads throw. Otherwise each field is
      kept when it is one of the allowed values and replaced by its default
      when not. */
  function LoadState(cat: seq<Exercise>, stored: Option<Value>): (s: PageState)
    requires cat != []
    ensures ValidPageState(cat, s)
    ensures stored.None? || stored == Some(Null) ==> s == DefaultState(cat)
    ensures stored.Some? && stored.value != Null ==>
      && (Get(stored.value, "exam").Str? && IsExamFilter(Get(stored.value, "exam").s)
          ==> s.exam == Get(stored.value, "exam").s)
      && (Get(stored.value, "exerciseId").Str? && Get(stored.value, "exerciseId").s in Ids(cat)
          ==> s.exerciseId == Get(stored.value, "exerciseId").s)
      && (Get(stored.value, "version").Str? && IsVersion(Get(stored.value, "version").s)
          ==> s.version == Get(stored.value, "version").s)
  {
    if stored.None? || stored.value == Null then DefaultState(cat)
    else
      var v := stored.value;
      var exam := Get(v, "exam");
      var id := Get(v, "exerciseId");
      var version := Get(v, "version");
      PageState(
        if exam.Str? && IsExamFilter(exam.s) then exam.s else "all",
        if id.Str? && id.s in Ids(cat) then id.s else cat[0].id,
        if version.Str? && IsVersion(version.s) then version.s else Complete)
  }

  /** The JSON `saveState` writes. */
  function PageStateValue(s: PageState): Value {
    Obj(map["exam" := Str(s.exam), "exerciseId" := Str(s.exerciseId), "version" := Str(s.version)])
  }

  /** A valid state saved and loaded again is the same state. */
  lemma LoadAfterSave(cat: seq<Exercise>, s: PageState)
    requires cat != [] && ValidPageState(cat, s)
    ensures LoadState(cat, Some(PageStateValue(s))) == s
  {
  }

  // ---- filtering and selection ----

  /** `filteredExercises`: every exercise for "all", otherwise those of the
      chosen exam, in catalogue order. */
  function Filtered(cat: seq<Exercise>, exam: string): (r: seq<Exercise>)
    ensures |r| <= |cat|
  {
    if exam == "all" then cat else OfExam(cat, exam)
  }

  /** `EXERCISES.filter((item) => item.exam === exam)`. */
  function OfExam(cat: seq<Exercise>, exam: string): (r: seq<Exercise>)
    ensures |r| <= |cat|
  {
    if cat == [] then [] else (if cat[0].exam == exam then [cat[0]] else []) + OfExam(cat[1..], exam)
  }

  /** The filter keeps exactly the exercises of the chosen exam, all of
      them for "all", and keeps ids distinct. */
  lemma FilteredMembers(cat: seq<Exercise>, exam: string, e: Exercise)
    ensures e in Filtered(cat, exam) <==> e in cat && (exam == "all" || e.exam == exam)
  {
    if exam != "all" {
      OfExamMembers(cat, exam, e);
    }
  }

  lemma {:induction false} OfExamMembers(cat: seq<Exercise>, exam: string, e: Exercise)
    ensures e in OfExam(cat, exam) <==> e in cat && e.exam == exam
  {
    if cat != [] {
      OfExamMembers(cat[1..], exam, e);
      assert e in cat <==> e == cat[0] || e in cat[1..];
    }
  }

  lemma FilteredUnique(cat: seq<Exercise>, exam: string)
    requires UniqueIds(cat)
    ensures UniqueIds(Filtered(cat, exam))
  {
    if exam != "all" {
      OfExamUnique(cat, exam);
    }
  }

  lemma {:induction false} OfExamUnique(cat: seq<Exercise>, exam: string)
    requires UniqueIds(cat)
    ensures UniqueIds(OfExam(cat, exam))
  {
    if cat != [] {
      var tail := cat[1..];
      OfExamUnique(tail, exam);
      var rest := OfExam(tail, exam);
      if cat[0].exam == exam {
        forall e | e in rest ensures e.id != cat[0].id {
          OfExamMembers(tail, exam, e);
          var k :| 0 <= k < |tail| && tail[k] == e;
          assert cat[k + 1] == e;
        }
        UniqueCons(cat[0], rest);
      } else {
        assert OfExam(cat, exam) == rest;
      }
    }
  }

  lemma UniqueCons(x: Exercise, rest: seq<Exercise>)
    requires UniqueIds(rest) && forall e :: e in rest ==> e.id != x.id
    ensures UniqueIds([x] + rest)
  {
    var r := [x] + rest;
    forall i, j | 0 <= i < j < |r| ensures r[i].id != r[j].id {
      assert r[j] == rest[j - 1];
      if i > 0 {
        assert r[i] == rest[i - 1];
      }
    }
  }

  /** The exercise id `ensureValidSelection` keeps for the exercises
      `available`: "" when there are none, the current id when it is one of
      them, and the first one's id otherwise. */
  function Reselect(available: seq<Exercise>, id: string): (r: string)
    ensures available == [] ==> r == ""
    ensures available != [] ==> r in Ids(available)
    ensures id in Ids(available) ==> r == id
    ensures available != [] && id !in Ids(available) ==> r == available[0].id
  {
    if available == [] then ""
    else if id in Ids(available) then id
    else available[0].id
  }

  /** `findIndex` on the ids, with an unknown id counted as position 0, as
      `moveSelection` does. */
  function SafeIndex(available: seq<Exercise>, id: string): (i: nat)
    requires available != []
    ensures i < |available|
    ensures id in Ids(available) ==> available[i].id == id
    ensures id !in Ids(available) ==> i == 0
  {
    var k := IndexOf(Ids(available), id);
    if k >= 0 then k else 0
  }

  /** The exercise id `moveSelection(direction)` selects: the exercise
      `direction` places after the current one, cyclically. The callers pass
      1 and -1; a direction below -1 could make the JavaScript remainder
      negative and is not supported. */
  function Step(available: seq<Exercise>, id: string, direction: int): (r: string)
    requires available != [] && direction >= -1
    ensures r in Ids(available)
  {
    var n := |available|;
    available[(SafeIndex(available, id) + direction + n) % n].id
  }

  lemma ModSmall(x: int, n: int)
    requires 0 <= x < n
    ensures x % n == x
  {
  }

  lemma ModWrap(x: int, n: int)
    requires n <= x < 2 * n
    ensures x % n == x - n
  {
    ModSmall(x - n, n);
    assert (x - n) % n == x % n;
  }

  lemma ModDouble(n: int)
    requires n > 0
    ensures (2 * n) % n == 0
  {
    assert (2 * n - n) % n == (2 * n) % n;
    assert (n - n) % n == n % n;
    ModSmall(0, n);
  }

  /** Moving by one visits the exercise after the current one, and after
      the last one the first; moving by -1 visits the one before it, and
      before the first one the last. */
  lemma StepNeighbours(available: seq<Exercise>, id: string)
    requires available != []
    ensures var c := SafeIndex(available, id);
      && Step(available, id, 1) == available[if c < |available| - 1 then c + 1 else 0].id
      && Step(available, id, -1) == available[if c > 0 then c - 1 else |available| - 1].id
  {
    var n := |available|;
    var c := SafeIndex(available, id);
    if c + 1 < n {
      ModWrap(c + 1 + n, n);
    } else {
      ModDouble(n);
    }
    if c > 0 {
      ModWrap(c - 1 + n, n);
    } else {
      ModSmall(c - 1 + n, n);
    }
  }

  /** Next then previous comes back to the current exercise (the first one
      when the current id is not among them), and so does previous then
      next. */
  lemma StepBack(available: seq<Exercise>, id: string)
    requires available != [] && UniqueIds(available)
    ensures Step(available, Step(available, id, 1), -1) == available[SafeIndex(available, id)].id
    ensures Step(available, Step(available, id, -1), 1) == available[SafeIndex(available, id)].id
  {
    NextThenPrevious(available, id);
    PreviousThenNext(available, id);
  }

  lemma NextThenPrevious(available: seq<Exercise>, id: string)
    requires available != [] && UniqueIds(available)
    ensures Step(available, Step(available, id, 1), -1) == available[SafeIndex(available, id)].id
  {
    var n := |available|;
    var c := SafeIndex(available, id);
    var up := if c < n - 1 then c + 1 else 0;
    StepNeighbours(available, id);
    SafeIndexOf(available, up);
    StepNeighbours(available, available[up].id);
  }

  lemma PreviousThenNext(available: seq<Exercise>, id: string)
    requires available != [] && UniqueIds(available)
    ensures Step(available, Step(available, id, -1), 1) == available[SafeIndex(available, id)].id
  {
    var n := |available|;
    var c := SafeIndex(available, id);
    var down := if c > 0 then c - 1 else n - 1;
    StepNeighbours(available, id);
    SafeIndexOf(available, down);
    StepNeighbours(available, available[down].id);
  }

  /** With distinct ids, the position found for an exercise's id is its own. */
  lemma SafeIndexOf(available: seq<Exercise>, k: nat)
    requires UniqueIds(available) && k < |available|
    ensures SafeIndex(available, available[k].id) == k
  {
    UniqueIdsDistinct(available);
    IndexOfDistinct(Ids(available), k);
  }

  // ---- complete or exam version (getVersionedExercise) ----

  /** The fields `getVersionedExercise` returns (its code and summary are
      display text and are not part of this model). */
  datatype Versioned = Versioned(fileName: string, helpers: seq<string>, isOpti: bool,
                                 optiRequested: bool, optiAvailable: bool)

  /** `getVersionedExercise`: the compact variant is used exactly when it
      is asked for and exists; otherwise the complete solution is shown. */
  function GetVersionedExercise(e: Exercise, version: string, variants: map<string, Variant>): (v: Versioned)
    ensures v.isOpti <==> version == Opti && e.id in variants
    ensures v.optiRequested <==> version == Opti
    ensures v.optiAvailable <==> e.id in variants
    ensures v.isOpti ==> v.fileName == variants[e.id].fileName && v.helpers == variants[e.id].helpers
    ensures !v.isOpti ==> v.fileName == e.fileName && v.helpers == e.helpers
  {
    var useOpti := version == Opti && e.id in variants;
    Versioned(
      if useOpti then variants[e.id].fileName else e.fileName,
      if useOpti then variants[e.id].helpers else e.helpers,
      useOpti, version == Opti, e.id in variants)
  }

  /** In the shipped catalogue, only itoa, lstforeach, list_remove_if and
      lstsort have a compact variant. */
  lemma OptiOnlyForFour(e: Exercise)
    requires e in Exercises
    ensures GetVersionedExercise(e, Opti, OptiVariants).isOpti <==>
      e.id in {"itoa", "lstforeach", "list_remove_if", "lstsort"}
  {
  }

  /** `currentExercise`: the exercise with the selected id, if any. */
  function CurrentExercise(cat: seq<Exercise>, id: string): (r: Option<Exercise>)
    ensures r.Some? <==> id in Ids(cat)
    ensures r.Some? ==> r.value in cat && r.value.id == id
  {
    var k := IndexOf(Ids(cat), id);
    if k >= 0 then Some(cat[k]) else None
  }

  /** The page state (`state`) over its catalogue and variants. */
  class CodesPage {
    const catalogue: seq<Exercise>
    const variants: map<string, Variant>
    var exam: string
    var exerciseId: string
    var version: string

    predicate Valid()
      reads this
    {
      WellFormed(catalogue)
    }

    /** `initCodesPage`, state part, over the catalogue `cat` and the
        variants `opti` (`EXERCISES` and `EXAM_OPTI_VARIANTS`, which
        `ExercisesWellFormed` shows acceptable): the stored state is
        loaded, an `id` query parameter naming a known exercise overrides
        the stored one, and the selection is made valid for the filter. */
    constructor(cat: seq<Exercise>, opti: map<string, Variant>, stored: Option<Value>, fromQuery: string)
      requires WellFormed(cat)
      ensures Valid() && catalogue == cat && variants == opti
      ensures var s := LoadState(cat, stored);
        && exam == s.exam && version == s.version
        && exerciseId == Reselect(Filtered(cat, s.exam), if fromQuery in Ids(cat) then fromQuery else s.exerciseId)
    {
      catalogue := cat;
      variants := opti;
      var s := LoadState(cat, stored);
      exam := s.exam;
      version := s.version;
      exerciseId := if fromQuery in Ids(cat) then fromQuery else s.exerciseId;
      new;
      EnsureValidSelection();
    }

    /** `ensureValidSelection`. */
    method EnsureValidSelection()
      modifies this
      ensures exerciseId == Reselect(Filtered(catalogue, exam), old(exerciseId))
      ensures exam == old(exam) && version == old(version)
    {
      var available := Filtered(catalogue, exam);
      if |available| == 0 {
        exerciseId := "";
        return;
      }
      if exerciseId !in Ids(available) {
        exerciseId := available[0].id;
      }
    }

    /** The exam filter's change handler, state part: the new filter, then
        a valid selection under it. */
    method SetExam(value: string)
      modifies this
      ensures exam == value && version == old(version)
      ensures exerciseId == Reselect(Filtered(catalogue, value), old(exerciseId))
    {
      exam := value;
      EnsureValidSelection();
    }

    /** `moveSelection(direction)`, state part: nothing without exercises
        under the filter; otherwise the cyclic step. */
    method MoveSelection(direction: int)
      requires direction >= -1
      modifies this
      ensures Filtered(catalogue, exam) == [] ==> exerciseId == old(exerciseId)
      ensures Filtered(catalogue, exam) != [] ==>
        exerciseId == Step(Filtered(catalogue, exam), old(exerciseId), direction)
      ensures exam == old(exam) && version == old(version)
    {
      var available := Filtered(catalogue, exam);
      if |available| == 0 {
        return;
      }
      var currentIndex := IndexOf(Ids(available), exerciseId);
      var safeCurrent := if currentIndex >= 0 then currentIndex else 0;
      assert safeCurrent == SafeIndex(available, exerciseId);
      var nextIndex := (safeCurrent + direction + |available|) % |available|;
      ghost var step := Step(available, exerciseId, direction);
      exerciseId := available[nextIndex].id;
      assert exerciseId == step;
    }
  }
}
