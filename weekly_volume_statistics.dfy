/**
 * The weekly volume statistics: a doughnut of last week's volume per lift
 * and a pill per lift comparing it with the week before. A volume is a
 * JSON number that may be missing (`undefined`) or `null`.
 */
module WeeklyVolumeStatistics {
  import opened Wrappers
  import opened TrackerTypes
  import opened Js

  datatype VolumeOverview = VolumeOverview(
    squat: Nullable<real>, bench: Nullable<real>, deadlift: Nullable<real>, other: Nullable<real>)

  /** Truthiness of a volume: present and non-zero. */
  predicate Present(volume: Nullable<real>) {
    volume.Value? && volume.value != 0.0
  }

  /** `anyPresent`: there is an overview, and its squat, bench or deadlift volume is truthy. */
  function AnyPresent(overview: Option<VolumeOverview>): (any: bool)
    ensures overview.None? ==> !any
    ensures overview.Some? ==>
      (any <==> Present(overview.value.squat) || Present(overview.value.bench) || Present(overview.value.deadlift))
  {
    match overview
    case None => false
    case Some(o) => Present(o.squat) || Present(o.bench) || Present(o.deadlift)
  }

  /** The "other" volume does not make the section appear. */
  lemma OtherVolumeIgnored(o: VolumeOverview, other: Nullable<real>)
    ensures AnyPresent(Some(o.(other := other))) == AnyPresent(Some(o))
  {
  }

  /** `overview?.<lift>VolumePastWeek`: undefined when there is no overview. */
  function VolumeOf(overview: Option<VolumeOverview>, lift: ExerciseVariant): Nullable<real>
    requires lift in {Squat, Bench, Deadlift, Other}
  {
    match overview
    case None => Undefined
    case Some(o) =>
      match lift
      case Squat => o.squat
      case Bench => o.bench
      case Deadlift => o.deadlift
      case Other => o.other
  }

  /** One lift's volume last week and the week before. */
  datatype VolumeRow = VolumeRow(name: ExerciseVariant, lastWeek: Nullable<real>, weekBefore: Nullable<real>)

  const Lifts: seq<ExerciseVariant> := [Squat, Bench, Deadlift, Other]

  /** The rows, in the fixed order squat, bench, deadlift, other. */
  function Rows(lastWeek: Option<VolumeOverview>, weekBefore: Option<VolumeOverview>): (rows: seq<VolumeRow>)
    ensures |rows| == 4
    ensures forall i :: 0 <= i < 4 ==>
      rows[i] == VolumeRow(Lifts[i], VolumeOf(lastWeek, Lifts[i]), VolumeOf(weekBefore, Lifts[i]))
  {
    seq(4, i requires 0 <= i < 4 => VolumeRow(Lifts[i], VolumeOf(lastWeek, Lifts[i]), VolumeOf(weekBefore, Lifts[i])))
  }

  /** A rendered pill: the lift, last week's volume, and whether the percentage change is shown. */
  datatype Pill = Pill(name: ExerciseVariant, lastWeek: Nullable<real>, showsChange: bool)

  /** `VolumePill`: hidden only for a `null` volume; the change is shown when both weeks are truthy. */
  function VolumePill(row: VolumeRow): (pill: Option<Pill>)
    ensures pill.None? <==> row.lastWeek == Null
    ensures pill.Some? ==> pill.value.name == row.name && pill.value.lastWeek == row.lastWeek
    ensures pill.Some? ==> (pill.value.showsChange <==> Present(row.lastWeek) && Present(row.weekBefore))
  {
    if row.lastWeek == Null then None
    else Some(Pill(row.name, row.lastWeek, Present(row.lastWeek) && Present(row.weekBefore)))
  }

  /** A doughnut segment: a lift and last week's volume. */
  datatype Segment = Segment(lift: ExerciseVariant, value: Nullable<real>)

  datatype Section = Section(segments: seq<Segment>, pills: seq<Option<Pill>>)

  /** The component: nothing unless a main lift has volume last week, else the doughnut and the pills. */
  function Render(lastWeek: Option<VolumeOverview>, weekBefore: Option<VolumeOverview>): (section: Option<Section>)
    ensures section.None? <==> !AnyPresent(lastWeek)
    ensures section.Some? ==> |section.value.segments| == 4 && |section.value.pills| == 4
    ensures section.Some? ==> forall i :: 0 <= i < 4 ==>
      section.value.segments[i] == Segment(Lifts[i], VolumeOf(lastWeek, Lifts[i])) &&
      section.value.pills[i] == VolumePill(Rows(lastWeek, weekBefore)[i])
  {
    if !AnyPresent(lastWeek) then None
    else
      var rows := Rows(lastWeek, weekBefore);
      Some(Section(
        seq(4, i requires 0 <= i < 4 => Segment(rows[i].name, rows[i].lastWeek)),
        seq(4, i requires 0 <= i < 4 => VolumePill(rows[i]))))
  }

  /**
   * A lift missing from last week's overview still gets a pill (only `null`
   * hides one), without a percentage change.
   */
  lemma {:induction false} MissingVolumeStillShown(lastWeek: VolumeOverview, weekBefore: Option<VolumeOverview>)
    requires AnyPresent(Some(lastWeek)) && lastWeek.other == Undefined
    ensures Render(Some(lastWeek), weekBefore).Some?
    ensures Render(Some(lastWeek), weekBefore).value.pills[3] == Some(Pill(Other, Undefined, false))
  {
    assert Rows(Some(lastWeek), weekBefore)[3] == VolumeRow(Other, Undefined, VolumeOf(weekBefore, Other));
  }
}
