/**
 * The add-exercise modal: fields left blank are filled from the workout's
 * last exercise (the placeholder), and submitting adds the exercise or
 * writes it back over the one being edited, then closes the modal.
 */
module AddExerciseModal {
  import opened Wrappers
  import opened TrackerTypes
  import opened Js
  import opened PendingExerciseSlice
  import opened WorkoutSlice

  /**
   * `resolveVariant`: a chosen variant wins, except that Unknown (which as a
   * non-empty string is truthy) counts as no choice.
   */
  function ResolveVariant(specified: Option<ExerciseVariant>, placeholder: Option<ExerciseVariant>): (r: Option<ExerciseVariant>)
    ensures specified.Some? && specified.value != Unknown ==> r == specified
    ensures specified.None? || specified == Some(Unknown) ==> r == placeholder
  {
    if specified == Some(Unknown) then placeholder
    else if specified.Some? then specified
    else placeholder
  }

  /** The variant never resolves to Unknown unless the placeholder itself is Unknown. */
  lemma ResolvedUnknownFromPlaceholder(specified: Option<ExerciseVariant>, placeholder: Option<ExerciseVariant>)
    ensures ResolveVariant(specified, placeholder) == Some(Unknown) ==> placeholder == Some(Unknown)
    ensures ResolveVariant(Some(Unknown), placeholder) == ResolveVariant(None, placeholder)
  {
  }

  /** The workout's last exercise, used for every field left blank. */
  function Placeholder(exercises: seq<Exercise>): (p: Option<Exercise>)
    ensures p.None? <==> exercises == []
    ensures p.Some? ==> p.value == exercises[|exercises| - 1]
  {
    Last(exercises)
  }

  /**
   * `resolve`: each of description, weight, reps and sets is the entered
   * value when truthy and the placeholder's otherwise, so "" and 0 fall back;
   * the exertion rating is always the entered one.
   */
  function Resolve(specified: PendingExercise, placeholder: Option<Exercise>): (r: PendingExercise)
    ensures r.variant == ResolveVariant(specified.variant, if placeholder.Some? then Some(placeholder.value.variant) else None)
    ensures Truthy(specified.description, "") ==> r.description == specified.description
    ensures !Truthy(specified.description, "") ==>
      r.description == if placeholder.Some? then Some(placeholder.value.description) else None
    ensures Truthy(specified.weight, 0.0) ==> r.weight == specified.weight
    ensures !Truthy(specified.weight, 0.0) ==>
      r.weight == if placeholder.Some? then Some(placeholder.value.weight) else None
    ensures Truthy(specified.reps, 0) ==> r.reps == specified.reps
    ensures !Truthy(specified.reps, 0) ==> r.reps == if placeholder.Some? then Some(placeholder.value.reps) else None
    ensures Truthy(specified.sets, 0) ==> r.sets == specified.sets
    ensures !Truthy(specified.sets, 0) ==> r.sets == if placeholder.Some? then Some(placeholder.value.sets) else None
    ensures r.rpe == specified.rpe
  {
    match placeholder
    case None =>
      PendingExercise(
        ResolveVariant(specified.variant, None),
        Or(specified.description, None, ""),
        Or(specified.weight, None, 0.0),
        Or(specified.reps, None, 0),
        Or(specified.sets, None, 0),
        specified.rpe)
    case Some(p) =>
      PendingExercise(
        ResolveVariant(specified.variant, Some(p.variant)),
        Or(specified.description, Some(p.description), ""),
        Or(specified.weight, Some(p.weight), 0.0),
        Or(specified.reps, Some(p.reps), 0),
        Or(specified.sets, Some(p.sets), 0),
        specified.rpe)
  }

  /** Every field the exercise needs is there (the submit handler asserts them with `!`). */
  predicate Submittable(r: PendingExercise) {
    r.variant.Some? && r.description.Some? && r.weight.Some? && r.reps.Some? && r.sets.Some?
  }

  function ToExercise(r: PendingExercise): (e: Exercise)
    requires Submittable(r)
    ensures e.variant == r.variant.value && e.description == r.description.value && e.rpe == r.rpe
    ensures e.weight == r.weight.value && e.reps == r.reps.value && e.sets == r.sets.value
  {
    Exercise(r.variant.value, r.description.value, r.weight.value, r.reps.value, r.sets.value, r.rpe)
  }

  /** The pending exercise `setFromExercise` loads for an exercise. */
  function Loaded(e: Exercise): PendingExercise {
    PendingExercise(Some(e.variant), Some(e.description), Some(e.weight), Some(e.reps), Some(e.sets), e.rpe)
  }

  /**
   * Opening an exercise for editing and submitting it unchanged gives the
   * same exercise back, whatever the placeholder, as long as none of its
   * fields is falsy or an Unknown variant.
   */
  lemma {:induction false} EditUnchangedRoundTrip(e: Exercise, placeholder: Option<Exercise>)
    requires e.variant != Unknown && e.description != "" && e.weight != 0.0 && e.reps != 0 && e.sets != 0
    ensures Submittable(Resolve(Loaded(e), placeholder))
    ensures ToExercise(Resolve(Loaded(e), placeholder)) == e
  {
  }

  /** With an empty workout nothing falls back: the fields entered as falsy stay undefined. */
  lemma {:induction false} EmptyWorkoutNeedsEveryField(specified: PendingExercise)
    requires !Truthy(specified.weight, 0.0)
    ensures Resolve(specified, Placeholder([])).weight == None
    ensures !Submittable(Resolve(specified, Placeholder([])))
  {
  }

  /** The label of the description field. */
  function DescriptionLabel(variant: Option<ExerciseVariant>): (text: string)
    ensures text == "Exercise" <==> variant == Some(Other)
    ensures text == "Variation" || text == "Exercise"
  {
    if variant != Some(Other) then "Variation" else "Exercise"
  }

  /** The effect fetching the names recorded for the resolved variant runs only for a known variant. */
  function FetchesUniqueExercises(variant: Option<ExerciseVariant>): (fetch: bool)
    ensures fetch <==> variant.Some? && variant.value != Unknown
  {
    !(variant.None? || variant == Some(Unknown))
  }

  /** A modal opened on an empty workout with nothing chosen fetches no names. */
  lemma NothingChosenFetchesNothing(specified: PendingExercise)
    requires specified.variant.None? || specified.variant == Some(Unknown)
    ensures !FetchesUniqueExercises(Resolve(specified, Placeholder([])).variant)
  {
  }

  /**
   * `handleSubmit`: the resolved exercise is written over the one being
   * edited when an index is pending and appended otherwise; then the modal
   * is hidden and the pending exercise reset.
   */
  method HandleSubmit<Session>(workout: WorkoutStore, pending: PendingExerciseStore<Session>)
    requires Submittable(Resolve(pending.pending, Placeholder(workout.exercises)))
    requires pending.index.Some? ==> pending.index.value <= |workout.exercises|
    modifies workout, pending
    ensures var exercise := ToExercise(Resolve(old(pending.pending), Placeholder(old(workout.exercises))));
      workout.exercises == if old(pending.index).Some?
        then Assign(old(workout.exercises), old(pending.index).value, exercise)
        else old(workout.exercises) + [exercise]
    ensures !workout.displayModal && workout.state == old(workout.state)
    ensures pending.pending == PendingExercise(Some(Unknown), Some(""), None, None, None, None)
    ensures pending.index == None && pending.lastSession == Null && !pending.lastSessionLoading
  {
    var exercise := ToExercise(Resolve(pending.pending, Placeholder(workout.exercises)));
    if pending.index.Some? {
      workout.EditExercise(pending.index.value, exercise);
    } else {
      workout.AddExercise(exercise);
    }
    workout.HideAddExerciseModal();
    pending.Reset();
  }

  /** `onHide`: the modal is hidden and the pending exercise reset; the workout's exercises are kept. */
  method OnHide<Session>(workout: WorkoutStore, pending: PendingExerciseStore<Session>)
    modifies workout, pending
    ensures workout.exercises == old(workout.exercises) && !workout.displayModal && workout.state == old(workout.state)
    ensures pending.pending == PendingExercise(Some(Unknown), Some(""), None, None, None, None)
    ensures pending.index == None && pending.lastSession == Null && !pending.lastSessionLoading
  {
    workout.HideAddExerciseModal();
    pending.Reset();
  }
}
