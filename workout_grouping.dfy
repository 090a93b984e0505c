/**
 * The training log's grouping of exercise rows into workouts: the rows come
 * from the database ordered by date, and each run of consecutive rows with
 * the same date becomes one workout.
 */
module WorkoutGrouping {
  import opened Wrappers

  datatype ExerciseVariant = Squat | Bench | Deadlift | Other

  /** A row of the exercise query; `recorded` is a calendar day, `weight` and `rpe` are `f32` in the source. */
  datatype DatedExercise = DatedExercise(
    recorded: int, variant: ExerciseVariant, description: string,
    weight: real, reps: int, sets: int, rpe: Option<real>)

  datatype Exercise = Exercise(
    variant: ExerciseVariant, description: string,
    weight: real, reps: int, sets: int, rpe: Option<real>)

  datatype DatedWorkout = DatedWorkout(recorded: int, exercises: seq<Exercise>)

  /** `Exercise::from`: every field but the date. */
  function ToExercise(row: DatedExercise): Exercise {
    Exercise(row.variant, row.description, row.weight, row.reps, row.sets, row.rpe)
  }

  function ToExercises(rows: seq<DatedExercise>): (r: seq<Exercise>)
    ensures |r| == |rows| && forall i :: 0 <= i < |rows| ==> r[i] == ToExercise(rows[i])
  {
    seq(|rows|, i requires 0 <= i < |rows| => ToExercise(rows[i]))
  }

  /** `take_while_ref`: how many leading rows carry the given date. */
  function RunLength(rows: seq<DatedExercise>, recorded: int): (k: nat)
    ensures k <= |rows|
    ensures forall i :: 0 <= i < k ==> rows[i].recorded == recorded
    ensures k < |rows| ==> rows[k].recorded != recorded
  {
    if rows != [] && rows[0].recorded == recorded then 1 + RunLength(rows[1..], recorded) else 0
  }

  /** All the exercises of the workouts, in order. */
  function Flatten(groups: seq<DatedWorkout>): seq<Exercise> {
    if groups == [] then [] else groups[0].exercises + Flatten(groups[1..])
  }

  /** Each workout's date, repeated once per exercise. */
  function ExpandDates(groups: seq<DatedWorkout>): seq<int> {
    if groups == [] then [] else seq(|groups[0].exercises|, _ => groups[0].recorded) + ExpandDates(groups[1..])
  }

  function Dates(rows: seq<DatedExercise>): (r: seq<int>)
    ensures |r| == |rows| && forall i :: 0 <= i < |rows| ==> r[i] == rows[i].recorded
  {
    seq(|rows|, i requires 0 <= i < |rows| => rows[i].recorded)
  }

  /**
   * `groups` is a grouping of `rows`: the workouts' exercises, concatenated,
   * are the rows without their dates, and each exercise sits under its own
   * row's date; no workout is empty, and neighbouring workouts have
   * different dates.
   */
  predicate GroupsRows(rows: seq<DatedExercise>, groups: seq<DatedWorkout>) {
    && Flatten(groups) == ToExercises(rows)
    && ExpandDates(groups) == Dates(rows)
    && (forall g :: g in groups ==> |g.exercises| > 0)
    && (forall i :: 0 <= i < |groups| - 1 ==> groups[i].recorded != groups[i + 1].recorded)
    && (rows != [] ==> |groups| > 0 && groups[0].recorded == rows[0].recorded)
  }

  /** `group_by_date`: the rows' grouping into workouts by runs of equal dates. */
  function GroupByDate(rows: seq<DatedExercise>): (groups: seq<DatedWorkout>)
    ensures Flatten(groups) == ToExercises(rows)
    ensures ExpandDates(groups) == Dates(rows)
    ensures forall g :: g in groups ==> |g.exercises| > 0
    ensures forall i :: 0 <= i < |groups| - 1 ==> groups[i].recorded != groups[i + 1].recorded
    ensures rows != [] ==> |groups| > 0 && groups[0].recorded == rows[0].recorded
    decreases |rows|
  {
    if rows == [] then []
    else
      var k := 1 + RunLength(rows[1..], rows[0].recorded);
      var rest := GroupByDate(rows[k..]);
      assert GroupsRows(rows[k..], rest);
      PrependRun(rows, k, rest);
      [DatedWorkout(rows[0].recorded, ToExercises(rows[..k]))] + rest
  }

  /** A run of `k` same-day rows in front of a grouped remainder is grouped by one more workout. */
  lemma PrependRun(rows: seq<DatedExercise>, k: nat, rest: seq<DatedWorkout>)
    requires rows != [] && k == 1 + RunLength(rows[1..], rows[0].recorded)
    requires GroupsRows(rows[k..], rest)
    ensures GroupsRows(rows, [DatedWorkout(rows[0].recorded, ToExercises(rows[..k]))] + rest)
  {
    var head := DatedWorkout(rows[0].recorded, ToExercises(rows[..k]));
    SplitRows(rows, k);
    PrependGroup(head, rest);
  }

  /** Putting one workout in front puts its exercises and their dates in front. */
  lemma PrependGroup(head: DatedWorkout, rest: seq<DatedWorkout>)
    ensures Flatten([head] + rest) == head.exercises + Flatten(rest)
    ensures ExpandDates([head] + rest) == seq(|head.exercises|, _ => head.recorded) + ExpandDates(rest)
  {
    assert ([head] + rest)[1..] == rest;
  }

  /** Cutting the rows after the first run of `k` rows cuts their exercises and dates at the same place. */
  lemma {:induction false} SplitRows(rows: seq<DatedExercise>, k: nat)
    requires 0 < k <= |rows|
    requires forall i :: 0 <= i < k ==> rows[i].recorded == rows[0].recorded
    ensures ToExercises(rows) == ToExercises(rows[..k]) + ToExercises(rows[k..])
    ensures Dates(rows) == seq(k, _ => rows[0].recorded) + Dates(rows[k..])
  {
  }

  /** No rows, no workouts. */
  lemma EmptyHasNoWorkouts()
    ensures GroupByDate([]) == []
  {
  }

  /** One step of the grouping: the first run of `k` same-day rows, then the rest. */
  lemma {:induction false} GroupStep(rows: seq<DatedExercise>, k: nat)
    requires rows != [] && k == 1 + RunLength(rows[1..], rows[0].recorded)
    ensures GroupByDate(rows) == [DatedWorkout(rows[0].recorded, ToExercises(rows[..k]))] + GroupByDate(rows[k..])
  {
  }

  /** One row gives one workout of one exercise. */
  lemma SingleRow(a: DatedExercise)
    ensures GroupByDate([a]) == [DatedWorkout(a.recorded, [ToExercise(a)])]
  {
    assert [a][1..] == [] && [a][..1] == [a];
    assert ToExercises([a]) == [ToExercise(a)];
    GroupStep([a], 1);
  }

  /**
   * Grouping is by consecutive runs: a date that comes back after another
   * date starts a new workout (the query sorts by date, so this does not
   * arise from it).
   */
  lemma {:induction false} ReturningDateSplits(a: DatedExercise, b: DatedExercise, c: DatedExercise)
    requires a.recorded == c.recorded && a.recorded != b.recorded
    ensures GroupByDate([a, b, c]) ==
      [DatedWorkout(a.recorded, [ToExercise(a)]), DatedWorkout(b.recorded, [ToExercise(b)]),
       DatedWorkout(c.recorded, [ToExercise(c)])]
  {
    SoleRowFirst([a, b, c]);
    assert [a, b, c][1..] == [b, c];
    TwoSoleRows(b, c);
  }

  /** Two rows of different days give two workouts of one exercise each. */
  lemma TwoSoleRows(b: DatedExercise, c: DatedExercise)
    requires b.recorded != c.recorded
    ensures GroupByDate([b, c]) == [DatedWorkout(b.recorded, [ToExercise(b)]), DatedWorkout(c.recorded, [ToExercise(c)])]
  {
    SoleRowFirst([b, c]);
    assert [b, c][1..] == [c];
    SingleRow(c);
  }

  /** A first row whose date the second row does not share is a workout on its own. */
  lemma SoleRowFirst(rows: seq<DatedExercise>)
    requires |rows| >= 2 && rows[1].recorded != rows[0].recorded
    ensures GroupByDate(rows) == [DatedWorkout(rows[0].recorded, [ToExercise(rows[0])])] + GroupByDate(rows[1..])
  {
    assert RunLength(rows[1..], rows[0].recorded) == 0;
    assert rows[..1] == [rows[0]];
    assert ToExercises([rows[0]]) == [ToExercise(rows[0])];
    GroupStep(rows, 1);
  }

  /** Two rows of the same day give one workout of two exercises, in order. */
  lemma {:induction false} SameDayRows(a: DatedExercise, b: DatedExercise)
    requires a.recorded == b.recorded
    ensures GroupByDate([a, b]) == [DatedWorkout(a.recorded, [ToExercise(a), ToExercise(b)])]
  {
    var rows := [a, b];
    assert rows[1..] == [b] && [b][1..] == [];
    assert RunLength(rows[1..], a.recorded) == 1;
    assert rows[..2] == rows && rows[2..] == [];
    assert ToExercises([a, b]) == [ToExercise(a), ToExercise(b)];
    GroupStep(rows, 2);
  }

  /** Two rows of one day then one of a later day give two workouts, of two and one exercises. */
  lemma {:induction false} TwoDays(a: DatedExercise, b: DatedExercise, c: DatedExercise)
    requires a.recorded == b.recorded && c.recorded != a.recorded
    ensures GroupByDate([a, b, c]) ==
      [DatedWorkout(a.recorded, [ToExercise(a), ToExercise(b)]), DatedWorkout(c.recorded, [ToExercise(c)])]
  {
    var rows := [a, b, c];
    assert rows[1..] == [b, c] && [b, c][1..] == [c] && [c][1..] == [];
    assert RunLength([c], a.recorded) == 0;
    assert RunLength(rows[1..], a.recorded) == 1;
    assert rows[..2] == [a, b] && rows[2..] == [c];
    assert ToExercises([a, b]) == [ToExercise(a), ToExercise(b)];
    GroupStep(rows, 2);
    SingleRow(c);
  }
}
