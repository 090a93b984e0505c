/**
 * The workout slice of the frontend store: the exercises of the workout
 * being edited, whether the add-exercise modal is shown, and the state of
 * the last save.
 */
module WorkoutSlice {
  import opened Wrappers
  import opened TrackerTypes
  import opened Js

  class WorkoutStore {
    var state: Option<RequestState>
    var exercises: seq<Exercise>
    var displayModal: bool

    /** The initial state: no exercises, the modal hidden, no request state. */
    constructor ()
      ensures state == None && exercises == [] && !displayModal
    {
      state := None;
      exercises := [];
      displayModal := false;
    }

    /** `resetWorkoutState` */
    method ResetWorkoutState()
      modifies this
      ensures state == None && exercises == old(exercises) && displayModal == old(displayModal)
    {
      state := None;
    }

    /** `showAddExerciseModal` */
    method ShowAddExerciseModal()
      modifies this
      ensures displayModal && state == old(state) && exercises == old(exercises)
    {
      displayModal := true;
    }

    /** `hideAddExerciseModal` */
    method HideAddExerciseModal()
      modifies this
      ensures !displayModal && state == old(state) && exercises == old(exercises)
    {
      displayModal := false;
    }

    /** `addExercise`: pushed at the end. */
    method AddExercise(exercise: Exercise)
      modifies this
      ensures exercises == old(exercises) + [exercise]
      ensures state == old(state) && displayModal == old(displayModal)
    {
      exercises := exercises + [exercise];
    }

    /** `editExercise`: assignment to `exercises[index]`. */
    method EditExercise(index: int, exercise: Exercise)
      requires index <= |exercises|
      modifies this
      ensures exercises == Assign(old(exercises), index, exercise)
      ensures state == old(state) && displayModal == old(displayModal)
    {
      exercises := Assign(exercises, index, exercise);
    }

    /** `deleteExercise`: `splice(index, 1)`. */
    method DeleteExercise(index: int)
      modifies this
      ensures exercises == SpliceOne(old(exercises), index)
      ensures state == old(state) && displayModal == old(displayModal)
    {
      exercises := SpliceOne(exercises, index);
    }

    /** Fetch fulfilled: the server's exercises replace the list. */
    method FetchFulfilled(fetched: seq<Exercise>)
      modifies this
      ensures exercises == fetched && state == old(state) && displayModal == old(displayModal)
    {
      exercises := fetched;
    }

    /** Fetch rejected: the list is emptied. */
    method FetchRejected()
      modifies this
      ensures exercises == [] && state == old(state) && displayModal == old(displayModal)
    {
      exercises := [];
    }

    /** Put pending. */
    method PutPending()
      modifies this
      ensures state == Some(Pending) && exercises == old(exercises) && displayModal == old(displayModal)
    {
      state := Some(Pending);
    }

    /** Put fulfilled. */
    method PutFulfilled()
      modifies this
      ensures state == Some(Persisted) && exercises == old(exercises) && displayModal == old(displayModal)
    {
      state := Some(Persisted);
    }

    /** Delete fulfilled: the deleted workout's exercises are dropped. */
    method DeleteFulfilled()
      modifies this
      ensures exercises == [] && state == old(state) && displayModal == old(displayModal)
    {
      exercises := [];
    }
  }

  /** Editing an existing exercise replaces it alone: the length and every other exercise are kept. */
  lemma EditReplacesOnly(exercises: seq<Exercise>, index: nat, exercise: Exercise)
    requires index < |exercises|
    ensures |Assign(exercises, index, exercise)| == |exercises|
    ensures Assign(exercises, index, exercise)[index] == exercise
    ensures forall j :: 0 <= j < |exercises| && j != index ==> Assign(exercises, index, exercise)[j] == exercises[j]
  {
  }

  /**
   * Deleting an exercise removes it and shifts the later ones left; an
   * index at or past the end changes nothing.
   */
  lemma {:induction false} DeleteShiftsLeft(exercises: seq<Exercise>, index: int)
    ensures index >= |exercises| ==> SpliceOne(exercises, index) == exercises
    ensures 0 <= index < |exercises| ==>
      (|SpliceOne(exercises, index)| == |exercises| - 1 &&
       (forall j :: 0 <= j < index ==> SpliceOne(exercises, index)[j] == exercises[j]) &&
       (forall j :: index <= j < |exercises| - 1 ==> SpliceOne(exercises, index)[j] == exercises[j + 1]))
  {
    if 0 <= index < |exercises| {
      var r := SpliceOne(exercises, index);
      assert r == exercises[..index] + exercises[index + 1..];
      forall j | index <= j < |exercises| - 1
        ensures r[j] == exercises[j + 1]
      {
        assert r[j] == exercises[index + 1..][j - index];
      }
    }
  }

  /** Deleting the exercise just added gives back the list before the addition. */
  lemma {:induction false} AddThenDeleteRestores(exercises: seq<Exercise>, exercise: Exercise)
    ensures SpliceOne(exercises + [exercise], |exercises|) == exercises
    ensures SpliceOne(exercises + [exercise], -1) == exercises
  {
    var xs := exercises + [exercise];
    assert xs[..|exercises|] == exercises;
    assert xs[|exercises| + 1..] == [];
  }
}
