/** The workout log screen: the muscle-group filter and sort order of the
    logged workouts, the new workout built from a program, and the duration
    text. Starting the workout screen and the clock are left out; the start
    time is a parameter. */
module WorkoutExerciseFragment {
  import opened Wrappers
  import opened Text
  import opened Sorting
  import opened Dates

  datatype WorkoutSet = WorkoutSet(setNumber: int, reps: int, weight: real, completed: bool)

  datatype WorkoutExercise = WorkoutExercise(exerciseId: int, exerciseName: string,
                                             muscleGroup: Option<string>, sets: seq<WorkoutSet>)

  datatype Workout = Workout(id: int, programId: Option<int>, programName: Option<string>,
                             startTime: int, endTime: Option<int>, duration: int,
                             exercises: seq<WorkoutExercise>, notes: Option<string>)

  /** A program's exercise: how many sets of how many reps at which weight. */
  datatype ProgramExercise = ProgramExercise(exerciseId: int, exerciseName: string, muscleGroup: Option<string>,
                                             sets: int, reps: int, weight: real)

  datatype Program = Program(id: int, name: string, exercises: seq<ProgramExercise>)

  const ALL_MUSCLE_GROUPS := "All Muscle Groups"

  // ---------------------------------------------------------- a workout from a program

  /** `List(sets) { WorkoutSet(setNumber = it + 1, reps, weight) }`. */
  function SetsFor(pe: ProgramExercise): (r: seq<WorkoutSet>)
    requires pe.sets >= 0
  {
    seq(pe.sets, i => WorkoutSet(i + 1, pe.reps, pe.weight, false))
  }

  /** The sets are numbered 1, 2, ..., sets, all not completed and all with
      the program's reps and weight. */
  lemma SetsNumbered(pe: ProgramExercise)
    requires pe.sets >= 0
    ensures |SetsFor(pe)| == pe.sets
    ensures forall i :: 0 <= i < |SetsFor(pe)| ==>
      SetsFor(pe)[i] == WorkoutSet(i + 1, pe.reps, pe.weight, false)
    ensures forall i, j :: 0 <= i < j < |SetsFor(pe)| ==> SetsFor(pe)[i].setNumber < SetsFor(pe)[j].setNumber
  {
  }

  function ExerciseFor(pe: ProgramExercise): (r: WorkoutExercise)
    requires pe.sets >= 0
    ensures r.exerciseId == pe.exerciseId && r.exerciseName == pe.exerciseName && r.muscleGroup == pe.muscleGroup
    ensures |r.sets| == pe.sets
  {
    WorkoutExercise(pe.exerciseId, pe.exerciseName, pe.muscleGroup, SetsFor(pe))
  }

  /** `List(n)` rejects a negative size, so every set count is at least 0. */
  predicate SetCountsValid(program: Option<Program>) {
    program.Some? ==> forall k :: 0 <= k < |program.value.exercises| ==> program.value.exercises[k].sets >= 0
  }

  /** createWorkoutWithProgram: the program's exercises, each with its sets;
      no exercises without a program. */
  function NewWorkout(program: Option<Program>, now: int): (w: Workout)
    requires SetCountsValid(program)
    ensures w.id == 0 && w.startTime == now && w.duration == 0 && w.endTime.None? && w.notes.None?
    ensures w.programId == (if program.Some? then Some(program.value.id) else None)
    ensures w.programName == (if program.Some? then Some(program.value.name) else None)
    ensures w.exercises == [] <==> program.None? || program.value.exercises == []
    ensures program.Some? ==> |w.exercises| == |program.value.exercises|
    ensures program.Some? ==> forall k :: 0 <= k < |w.exercises| ==>
      w.exercises[k] == ExerciseFor(program.value.exercises[k])
  {
    var exercises := if program.Some? && program.value.exercises != [] then
      var pes := program.value.exercises;
      seq(|pes|, k requires 0 <= k < |pes| => ExerciseFor(pes[k]))
    else [];
    Workout(0, if program.Some? then Some(program.value.id) else None,
            if program.Some? then Some(program.value.name) else None,
            now, None, 0, exercises, None)
  }

  /** The number of sets planned by a program's exercises. */
  function PlannedSets(pes: seq<ProgramExercise>): int {
    if pes == [] then 0 else PlannedSets(pes[..|pes| - 1]) + pes[|pes| - 1].sets
  }

  /** The number of sets in a workout's exercises. */
  function WorkoutSets(es: seq<WorkoutExercise>): nat {
    if es == [] then 0 else WorkoutSets(es[..|es| - 1]) + |es[|es| - 1].sets|
  }

  /** The new workout holds exactly the sets the program plans. */
  lemma {:induction false} NewWorkoutSets(program: Program, now: int, n: nat)
    requires SetCountsValid(Some(program)) && n <= |program.exercises|
    ensures WorkoutSets(NewWorkout(Some(program), now).exercises[..n]) == PlannedSets(program.exercises[..n])
  {
    if n > 0 {
      var es := NewWorkout(Some(program), now).exercises;
      NewWorkoutSets(program, now, n - 1);
      assert es[..n][..n - 1] == es[..n - 1];
      assert program.exercises[..n][..n - 1] == program.exercises[..n - 1];
      assert es[n - 1] == ExerciseFor(program.exercises[n - 1]);
    }
  }

  // ---------------------------------------------------------- duration text

  /** formatDuration's minutes and seconds: `TimeUnit.toSeconds` and Long
      `/` and `%`, all truncating. */
  function DurationParts(durationMs: int): (r: (int, int))
    ensures 60 * r.0 + r.1 == TruncDiv(durationMs, 1000)
    ensures durationMs >= 0 ==> r.0 >= 0 && 0 <= r.1 < 60
  {
    var totalSeconds := TruncDiv(durationMs, 1000);
    (TruncDiv(totalSeconds, 60), TruncMod(totalSeconds, 60))
  }

  /** formatDuration: "M min SS sec" when there are seconds, else "M min". */
  function FormatDuration(durationMs: int): (s: string)
    ensures var (m, sec) := DurationParts(durationMs); var head := IntToString(m) + " min";
      |head| <= |s| && s[..|head|] == head
      && (sec > 0 <==> |s| > |head|)
      && (0 < sec < 60 ==> s[|head|..] == " " + Pad2(sec) + " sec")
  {
    var (minutes, seconds) := DurationParts(durationMs);
    if seconds > 0 then IntToString(minutes) + " min " + Pad2(seconds) + " sec"
    else IntToString(minutes) + " min"
  }

  /** Two minutes and five seconds, with the seconds padded. */
  lemma FormatDurationWithSeconds()
    ensures FormatDuration(125_000) == "2 min 05 sec"
  {
    assert DurationParts(125_000) == (2, 5);
    assert IntToString(2) == "2";
    assert Pad2(5) == "05";
  }

  /** The milliseconds below a second are dropped, and no seconds are shown
      when there are none. */
  lemma FormatDurationWholeMinutes()
    ensures FormatDuration(120_999) == "2 min"
  {
    assert DurationParts(120_999) == (2, 0);
    assert NatToString(2) == "2";
  }

  /** No time at all reads "0 min". */
  lemma FormatDurationZero()
    ensures FormatDuration(0) == "0 min"
  {
    assert TruncDiv(0, 1000) == 0 && TruncDiv(0, 60) == 0 && TruncMod(0, 60) == 0;
    assert NatToString(0) == "0";
  }

  // ---------------------------------------------------------- filter and sort

  /** `workout.exercises.any { it.muscleGroup == group }`. */
  predicate HasMuscleGroup(w: Workout, group: string) {
    exists k :: 0 <= k < |w.exercises| && w.exercises[k].muscleGroup == Some(group)
  }

  /** The muscle-group filter; "All Muscle Groups" or nothing keeps all. */
  function ByMuscleGroup(all: seq<Workout>, group: string): (r: seq<Workout>)
    ensures forall w :: w in r <==> w in all && (group == ALL_MUSCLE_GROUPS || group == "" || HasMuscleGroup(w, group))
    ensures multiset(r) <= multiset(all)
  {
    if group == ALL_MUSCLE_GROUPS || group == "" then all
    else
      var p := (w: Workout) => HasMuscleGroup(w, group);
      var r := Filter(all, p);
      assert forall w :: w in all && p(w) ==> w in r by {
        forall w | w in all && p(w) ensures w in r {
          var i :| 0 <= i < |all| && all[i] == w;
        }
      }
      r
  }

  /** The order each sort option picks; anything else is newest first. */
  function OrderFor(option: string): (Workout, Workout) -> bool {
    match option
    case "Date (Oldest First)" => (a: Workout, b: Workout) => a.startTime <= b.startTime
    case "Duration (Longest First)" => (a: Workout, b: Workout) => a.duration >= b.duration
    case "Duration (Shortest First)" => (a: Workout, b: Workout) => a.duration <= b.duration
    case _ => (a: Workout, b: Workout) => a.startTime >= b.startTime
  }

  lemma OrderForTotal(option: string)
    ensures TotalPreorder(OrderFor(option))
  {
  }

  /** applyFilters' list: the muscle-group filter, then the stable sort. */
  function Filtered(all: seq<Workout>, group: string, option: string): (r: seq<Workout>)
    ensures multiset(r) == multiset(ByMuscleGroup(all, group))
    ensures Sorted(r, OrderFor(option))
  {
    OrderForTotal(option);
    SortBySorted(ByMuscleGroup(all, group), OrderFor(option));
    SortBy(ByMuscleGroup(all, group), OrderFor(option))
  }

  /** A workout is listed exactly when it is logged and passes the filter. */
  lemma FilteredMembers(all: seq<Workout>, group: string, option: string, w: Workout)
    ensures w in Filtered(all, group, option)
        <==> w in all && (group == ALL_MUSCLE_GROUPS || group == "" || HasMuscleGroup(w, group))
  {
    var r := Filtered(all, group, option);
    assert w in r <==> w in multiset(r);
    assert w in ByMuscleGroup(all, group) <==> w in multiset(ByMuscleGroup(all, group));
  }

  /** The options the sort dropdown names besides the default. */
  predicate NamedOrder(option: string) {
    option == "Date (Oldest First)" || option == "Duration (Longest First)" || option == "Duration (Shortest First)"
  }

  /** The default order ("Date (Newest First)" and any text the dropdown
      does not name) lists the newest workout first. */
  lemma NewestFirstByDefault(all: seq<Workout>, group: string, option: string, i: int, j: int)
    requires !NamedOrder(option)
    requires 0 <= i < j < |Filtered(all, group, option)|
    ensures Filtered(all, group, option)[i].startTime >= Filtered(all, group, option)[j].startTime
  {
    var r := Filtered(all, group, option);
    OrderForTotal(option);
    SortedPairwise(r, OrderFor(option), i, j);
    DefaultOrder(option, r[i], r[j]);
  }

  lemma DefaultOrder(option: string, a: Workout, b: Workout)
    requires !NamedOrder(option)
    ensures OrderFor(option)(a, b) == (a.startTime >= b.startTime)
  {
  }

  class WorkoutExerciseFragment {
    var allWorkouts: seq<Workout>
    var filteredWorkouts: seq<Workout>
    var selectedMuscleGroup: Option<string>
    var selectedSortOption: Option<string>
    var currentWorkout: Option<Workout>
    /** What the log adapter shows, and whether the empty state is shown. */
    var shownWorkouts: seq<Workout>
    var emptyState: bool

    constructor ()
      ensures allWorkouts == [] && filteredWorkouts == [] && shownWorkouts == []
      ensures selectedMuscleGroup.None? && selectedSortOption.None? && currentWorkout.None?
    {
      allWorkouts := [];
      filteredWorkouts := [];
      selectedMuscleGroup := None;
      selectedSortOption := None;
      currentWorkout := None;
      shownWorkouts := [];
      emptyState := false;
    }

    /** applyFilters with the two dropdowns' texts. With nothing logged only
        the empty state is shown and the previous list is kept. */
    method ApplyFilters(muscleGroupText: string, sortText: string)
      modifies this
      ensures allWorkouts == old(allWorkouts) && currentWorkout == old(currentWorkout)
      ensures allWorkouts == [] ==>
        emptyState && filteredWorkouts == old(filteredWorkouts) && shownWorkouts == old(shownWorkouts)
        && selectedMuscleGroup == old(selectedMuscleGroup) && selectedSortOption == old(selectedSortOption)
      ensures allWorkouts != [] ==>
        selectedMuscleGroup == Some(muscleGroupText) && selectedSortOption == Some(sortText)
        && filteredWorkouts == Filtered(allWorkouts, muscleGroupText, sortText)
        && shownWorkouts == filteredWorkouts && emptyState == (filteredWorkouts == [])
    {
      if allWorkouts == [] {
        emptyState := true;
        return;
      }
      ShowFiltered(muscleGroupText, sortText);
    }

    /** The non-empty part of applyFilters: remember the dropdown texts,
        filter and sort, and show the result. */
    method ShowFiltered(muscleGroupText: string, sortText: string)
      modifies this
      ensures allWorkouts == old(allWorkouts) && currentWorkout == old(currentWorkout)
      ensures selectedMuscleGroup == Some(muscleGroupText) && selectedSortOption == Some(sortText)
      ensures filteredWorkouts == Filtered(allWorkouts, muscleGroupText, sortText)
      ensures shownWorkouts == filteredWorkouts && emptyState == (filteredWorkouts == [])
    {
      selectedMuscleGroup := Some(muscleGroupText);
      selectedSortOption := Some(sortText);
      var filtered := ByMuscleGroup(allWorkouts, muscleGroupText);
      filtered := SortBy(filtered, OrderFor(sortText));
      ShowList(filtered);
    }

    /** The list becomes the filtered one, the adapter shows it and the empty
        state is shown exactly when it is empty. */
    method ShowList(list: seq<Workout>)
      modifies this
      ensures filteredWorkouts == list && shownWorkouts == list && emptyState == (list == [])
      ensures allWorkouts == old(allWorkouts) && currentWorkout == old(currentWorkout)
      ensures selectedMuscleGroup == old(selectedMuscleGroup) && selectedSortOption == old(selectedSortOption)
    {
      filteredWorkouts := list;
      shownWorkouts := list;
      emptyState := list == [];
    }

    /** createWorkoutWithProgram: the new workout becomes the current one.
        A negative set count makes `List(n)` throw before anything is
        assigned; `failed` reports that exception. */
    method CreateWorkoutWithProgram(program: Option<Program>, now: int) returns (failed: bool)
      modifies this
      ensures failed <==> !SetCountsValid(program)
      ensures !failed ==> currentWorkout == Some(NewWorkout(program, now))
      ensures failed ==> currentWorkout == old(currentWorkout)
      ensures allWorkouts == old(allWorkouts) && filteredWorkouts == old(filteredWorkouts)
    {
      if !SetCountsValid(program) {
        return true;
      }
      currentWorkout := Some(NewWorkout(program, now));
      return false;
    }
  }
}
