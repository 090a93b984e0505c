/**
 * The pending-exercise slice of the frontend store: the fields of the
 * exercise being entered in the add-exercise modal, the index of the
 * exercise being edited, and the last recorded session of the same
 * exercise. The session's shape comes from the server and is a type
 * parameter here.
 */
module PendingExerciseSlice {
  import opened Wrappers
  import opened TrackerTypes
  import opened Js

  /** A partly entered exercise: every field may still be undefined. */
  datatype PendingExercise = PendingExercise(
    variant: Option<ExerciseVariant>, description: Option<string>,
    weight: Option<real>, reps: Option<int>, sets: Option<int>, rpe: Option<real>)

  const Blank := PendingExercise(None, None, None, None, None, None)

  class PendingExerciseStore<Session> {
    var pending: PendingExercise
    var index: Option<int>
    var lastSession: Nullable<Session>
    var lastSessionLoading: bool

    /** The initial state: every field undefined and no session loading. */
    constructor ()
      ensures pending == Blank && index == None && lastSession == Undefined && !lastSessionLoading
    {
      pending := Blank;
      index := None;
      lastSession := Undefined;
      lastSessionLoading := false;
    }

    /** `setFromExercise`: all six fields copied from the exercise, and its index recorded. */
    method SetFromExercise(exercise: Exercise, index: int)
      modifies this
      ensures pending == PendingExercise(Some(exercise.variant), Some(exercise.description),
        Some(exercise.weight), Some(exercise.reps), Some(exercise.sets), exercise.rpe)
      ensures this.index == Some(index)
      ensures lastSession == old(lastSession) && lastSessionLoading == old(lastSessionLoading)
    {
      pending := PendingExercise(Some(exercise.variant), Some(exercise.description),
        Some(exercise.weight), Some(exercise.reps), Some(exercise.sets), exercise.rpe);
      this.index := Some(index);
    }

    /** `setVariant` */
    method SetVariant(variant: ExerciseVariant)
      modifies this
      ensures pending == old(pending).(variant := Some(variant))
      ensures index == old(index) && lastSession == old(lastSession) && lastSessionLoading == old(lastSessionLoading)
    {
      pending := pending.(variant := Some(variant));
    }

    /** `setDescription` */
    method SetDescription(description: string)
      modifies this
      ensures pending == old(pending).(description := Some(description))
      ensures index == old(index) && lastSession == old(lastSession) && lastSessionLoading == old(lastSessionLoading)
    {
      pending := pending.(description := Some(description));
    }

    /** `setWeight` */
    method SetWeight(weight: real)
      modifies this
      ensures pending == old(pending).(weight := Some(weight))
      ensures index == old(index) && lastSession == old(lastSession) && lastSessionLoading == old(lastSessionLoading)
    {
      pending := pending.(weight := Some(weight));
    }

    /** `setReps` */
    method SetReps(reps: int)
      modifies this
      ensures pending == old(pending).(reps := Some(reps))
      ensures index == old(index) && lastSession == old(lastSession) && lastSessionLoading == old(lastSessionLoading)
    {
      pending := pending.(reps := Some(reps));
    }

    /** `setSets` */
    method SetSets(sets: int)
      modifies this
      ensures pending == old(pending).(sets := Some(sets))
      ensures index == old(index) && lastSession == old(lastSession) && lastSessionLoading == old(lastSessionLoading)
    {
      pending := pending.(sets := Some(sets));
    }

    /** `setRpe` */
    method SetRpe(rpe: real)
      modifies this
      ensures pending == old(pending).(rpe := Some(rpe))
      ensures index == old(index) && lastSession == old(lastSession) && lastSessionLoading == old(lastSessionLoading)
    {
      pending := pending.(rpe := Some(rpe));
    }

    /** `reset`: variant Unknown, empty description, the rest undefined, no session. */
    method Reset()
      modifies this
      ensures pending == PendingExercise(Some(Unknown), Some(""), None, None, None, None)
      ensures index == None && lastSession == Null && !lastSessionLoading
    {
      pending := PendingExercise(Some(Unknown), Some(""), None, None, None, None);
      index := None;
      lastSession := Null;
      lastSessionLoading := false;
    }

    /** `clearLastSession`: only the session and its loading flag are cleared. */
    method ClearLastSession()
      modifies this
      ensures lastSession == Null && !lastSessionLoading
      ensures pending == old(pending) && index == old(index)
    {
      lastSession := Null;
      lastSessionLoading := false;
    }

    /** `fetchLastSession` pending. */
    method FetchLastSessionPending()
      modifies this
      ensures lastSessionLoading
      ensures pending == old(pending) && index == old(index) && lastSession == old(lastSession)
    {
      lastSessionLoading := true;
    }

    /** `fetchLastSession` fulfilled, with the server's answer (`None` for `null`). */
    method FetchLastSessionFulfilled(payload: Option<Session>)
      modifies this
      ensures lastSession == (if payload.Some? then Value(payload.value) else Null) && !lastSessionLoading
      ensures pending == old(pending) && index == old(index)
    {
      lastSession := if payload.Some? then Value(payload.value) else Null;
      lastSessionLoading := false;
    }

    /** `fetchLastSession` rejected. */
    method FetchLastSessionRejected()
      modifies this
      ensures lastSession == Null && !lastSessionLoading
      ensures pending == old(pending) && index == old(index)
    {
      lastSession := Null;
      lastSessionLoading := false;
    }
  }
}
