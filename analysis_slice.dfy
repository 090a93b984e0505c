/**
 * The analysis slice of the frontend store: the exercise being analysed,
 * the names recorded for its variant, and its statistics.
 */
module AnalysisSlice {
  import opened Wrappers
  import opened TrackerTypes
  import opened Js

  datatype EstimatedMaxRecord = EstimatedMaxRecord(estimate: real, recorded: string)

  datatype RepPersonalBest = RepPersonalBest(weight: real, reps: int, recorded: string)

  datatype ExerciseStatistics = ExerciseStatistics(
    estimatedMaxes: seq<EstimatedMaxRecord>, repPersonalBests: seq<RepPersonalBest>)

  /** `names[0] || ""`: the first name, with an empty list (an undefined first element) read as "". */
  function FirstOrEmpty(names: seq<string>): (description: string)
    ensures names == [] ==> description == ""
    ensures names != [] ==> description == names[0]
  {
    var first := if names == [] then None else Some(names[0]);
    Or(first, Some(""), "").GetOr("")
  }

  class AnalysisStore {
    var variant: ExerciseVariant
    var description: string
    var uniqueExercises: seq<string>
    var exerciseStatistics: Option<ExerciseStatistics>

    /** The initial state: variant Unknown, no description, no names and no statistics. */
    constructor ()
      ensures variant == Unknown && description == "" && uniqueExercises == [] && exerciseStatistics == None
    {
      variant := Unknown;
      description := "";
      uniqueExercises := [];
      exerciseStatistics := None;
    }

    /** `setVariant` */
    method SetVariant(variant: ExerciseVariant)
      modifies this
      ensures this.variant == variant
      ensures description == old(description) && uniqueExercises == old(uniqueExercises)
      ensures exerciseStatistics == old(exerciseStatistics)
    {
      this.variant := variant;
    }

    /** `setDescription` */
    method SetDescription(description: string)
      modifies this
      ensures this.description == description
      ensures variant == old(variant) && uniqueExercises == old(uniqueExercises)
      ensures exerciseStatistics == old(exerciseStatistics)
    {
      this.description := description;
    }

    /** Unique-exercises fulfilled: the names are stored and the first one selected. */
    method UniqueExercisesFulfilled(names: seq<string>)
      modifies this
      ensures uniqueExercises == names && description == FirstOrEmpty(names)
      ensures variant == old(variant) && exerciseStatistics == old(exerciseStatistics)
    {
      uniqueExercises := names;
      description := FirstOrEmpty(names);
    }

    /** Statistics fulfilled: the statistics are stored and nothing else changes. */
    method StatisticsFulfilled(statistics: ExerciseStatistics)
      modifies this
      ensures exerciseStatistics == Some(statistics)
      ensures variant == old(variant) && description == old(description) && uniqueExercises == old(uniqueExercises)
    {
      exerciseStatistics := Some(statistics);
    }
  }

  /** After the names arrive, the selected description is one of them, or "" when there are none. */
  lemma SelectedNameListed(names: seq<string>)
    ensures FirstOrEmpty(names) in names || (names == [] && FirstOrEmpty(names) == "")
  {
  }
}
