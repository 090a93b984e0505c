/**
 * The training-log frontend's shared types. JavaScript numbers become
 * `real` for weights and exertion ratings and `int` for repetition and set
 * counts; an optional field is an `Option`.
 */
module TrackerTypes {
  import opened Wrappers

  datatype ExerciseVariant = Unknown | Squat | Bench | Deadlift | Other

  datatype Exercise = Exercise(
    variant: ExerciseVariant, description: string,
    weight: real, reps: int, sets: int, rpe: Option<real>)

  datatype ExerciseDetails = ExerciseDetails(weight: real, reps: int, sets: int, rpe: Option<real>)

  datatype GroupedExercise = GroupedExercise(variant: ExerciseVariant, description: string, groups: seq<ExerciseDetails>)

  /** The progress of the last request a slice made to the server (the two values the slices assign). */
  datatype RequestState = Pending | Persisted

  /** A luxon `DateTime`: an object compared by `<`/`<=` on its instant, and by `===` on identity. */
  class DateTime {
    const millis: int

    constructor (millis: int)
      ensures this.millis == millis
    {
      this.millis := millis;
    }
  }

  /** Labels in strictly increasing time order. */
  predicate StrictlyAscending(labels: seq<DateTime>) {
    forall i, j :: 0 <= i < j < |labels| ==> labels[i].millis < labels[j].millis
  }
}
