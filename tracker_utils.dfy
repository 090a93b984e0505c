/**
 * The frontend's shared helpers: the index searches that window a dated
 * series, and the grouping of a workout's exercises by exercise.
 */
module TrackerUtils {
  import opened Wrappers
  import opened TrackerTypes

  /**
   * What `findLowerBoundIndex` returns: the first index whose label is not
   * before the bound, or `None` (undefined) when every label is before it.
   */
  predicate IsLowerBoundIndex(labels: seq<DateTime>, lowerBound: DateTime, r: Option<nat>) {
    match r
    case Some(i) =>
      i < |labels| && lowerBound.millis <= labels[i].millis &&
      forall j :: 0 <= j < i ==> labels[j].millis < lowerBound.millis
    case None =>
      forall j :: 0 <= j < |labels| ==> labels[j].millis < lowerBound.millis
  }

  /** `findLowerBoundIndex` */
  method FindLowerBoundIndex(labels: seq<DateTime>, lowerBound: DateTime) returns (r: Option<nat>)
    ensures IsLowerBoundIndex(labels, lowerBound, r)
  {
    for i := 0 to |labels|
      invariant forall j :: 0 <= j < i ==> labels[j].millis < lowerBound.millis
    {
      if lowerBound.millis <= labels[i].millis {
        return Some(i);
      }
    }
    return None;
  }

  /** There is only one lower-bound answer for given labels and bound. */
  lemma LowerBoundUnique(labels: seq<DateTime>, lowerBound: DateTime, r1: Option<nat>, r2: Option<nat>)
    requires IsLowerBoundIndex(labels, lowerBound, r1) && IsLowerBoundIndex(labels, lowerBound, r2)
    ensures r1 == r2
  {
  }

  /** On ascending labels the lower bound splits them: earlier labels are before the bound, the rest are not. */
  lemma LowerBoundSplits(labels: seq<DateTime>, lowerBound: DateTime, i: nat)
    requires StrictlyAscending(labels)
    requires IsLowerBoundIndex(labels, lowerBound, Some(i))
    ensures forall j :: 0 <= j < |labels| ==> (lowerBound.millis <= labels[j].millis <==> i <= j)
  {
  }

  /**
   * What `findUpperBoundIndex` returns. When the bound is before the first
   * label, `None`. Otherwise the scan from index 1 stops at the first label
   * that is the bound object itself (answering the index after it) or is
   * after the bound (answering its index); with neither, `None`.
   */
  predicate IsUpperBoundIndex(labels: seq<DateTime>, upperBound: DateTime, r: Option<nat>) {
    if |labels| > 0 && upperBound.millis < labels[0].millis then r == None
    else match r
      case Some(k) =>
        ((2 <= k <= |labels| && labels[k - 1] == upperBound && Passed(labels, upperBound, k - 1)) ||
         (1 <= k < |labels| && upperBound.millis < labels[k].millis && labels[k] != upperBound &&
          Passed(labels, upperBound, k)))
      case None =>
        Passed(labels, upperBound, |labels|)
  }

  /** The scan went past labels 1..k-1: none was the bound object or after the bound. */
  predicate Passed(labels: seq<DateTime>, upperBound: DateTime, k: nat)
    requires k <= |labels|
  {
    forall j :: 1 <= j < k ==> labels[j] != upperBound && labels[j].millis <= upperBound.millis
  }

  /** `findUpperBoundIndex` */
  method FindUpperBoundIndex(labels: seq<DateTime>, upperBound: DateTime) returns (r: Option<nat>)
    ensures IsUpperBoundIndex(labels, upperBound, r)
  {
    if |labels| > 0 && upperBound.millis < labels[0].millis {
      return None;
    }
    var i := 1;
    while i < |labels|
      invariant 1 <= i
      invariant Passed(labels, upperBound, if i <= |labels| then i else |labels|)
    {
      var value := labels[i];
      if upperBound == value {
        return Some(i + 1);
      }
      if upperBound.millis < value.millis {
        return Some(i);
      }
      i := i + 1;
    }
    return None;
  }

  /**
   * On ascending labels starting no later than the bound, the upper bound
   * (the end of the series when undefined) splits them: labels before it are
   * not after the bound, labels from it on are.
   */
  lemma UpperBoundSplits(labels: seq<DateTime>, upperBound: DateTime, r: Option<nat>)
    requires StrictlyAscending(labels) && |labels| > 0 && labels[0].millis <= upperBound.millis
    requires IsUpperBoundIndex(labels, upperBound, r)
    ensures r.GetOr(|labels|) <= |labels|
    ensures forall j :: 0 <= j < |labels| ==> (labels[j].millis <= upperBound.millis <==> j < r.GetOr(|labels|))
  {
  }

  /**
   * The test series: five labels; the bound that is the second label object
   * gives 2, and a bound between the second and third labels gives 2 too.
   */
  lemma UpperBoundExamples(labels: seq<DateTime>, between: DateTime, r1: Option<nat>, r2: Option<nat>)
    requires |labels| == 5 && StrictlyAscending(labels)
    requires labels[1].millis < between.millis < labels[2].millis
    requires IsUpperBoundIndex(labels, labels[1], r1) && IsUpperBoundIndex(labels, between, r2)
    ensures r1 == Some(2) && r2 == Some(2)
  {
  }

  /** The key `JSON.stringify({ variant, description })` stands for. */
  datatype ExerciseKey = ExerciseKey(variant: ExerciseVariant, description: string)

  function KeyOf(e: Exercise): ExerciseKey {
    ExerciseKey(e.variant, e.description)
  }

  function DetailsOf(e: Exercise): ExerciseDetails {
    ExerciseDetails(e.weight, e.reps, e.sets, e.rpe)
  }

  /** The details of the exercises with the given key, in input order. */
  function DetailsFor(exercises: seq<Exercise>, key: ExerciseKey): seq<ExerciseDetails> {
    if exercises == [] then []
    else if KeyOf(exercises[|exercises| - 1]) == key
    then DetailsFor(exercises[..|exercises| - 1], key) + [DetailsOf(exercises[|exercises| - 1])]
    else DetailsFor(exercises[..|exercises| - 1], key)
  }

  /** The distinct keys, in order of first occurrence. */
  function KeysInOrder(exercises: seq<Exercise>): (keys: seq<ExerciseKey>)
    ensures forall i, j :: 0 <= i < j < |keys| ==> keys[i] != keys[j]
  {
    if exercises == [] then []
    else if KeyOf(exercises[|exercises| - 1]) in KeysInOrder(exercises[..|exercises| - 1])
    then KeysInOrder(exercises[..|exercises| - 1])
    else KeysInOrder(exercises[..|exercises| - 1]) + [KeyOf(exercises[|exercises| - 1])]
  }

  /** The keys listed are exactly the keys of the exercises. */
  lemma {:induction false} KeysInOrderMembers(exercises: seq<Exercise>)
    ensures forall k :: k in KeysInOrder(exercises) <==> exists e :: e in exercises && KeyOf(e) == k
    decreases |exercises|
  {
    if exercises != [] {
      var init := exercises[..|exercises| - 1];
      assert exercises == init + [exercises[|exercises| - 1]];
      KeysInOrderMembers(init);
    }
  }

  function Grouped(exercises: seq<Exercise>, key: ExerciseKey): GroupedExercise {
    GroupedExercise(key.variant, key.description, DetailsFor(exercises, key))
  }

  /** `groupByExercise`: the insertion-ordered map of the reduce, read back as a list. */
  method GroupByExercise(exercises: seq<Exercise>) returns (r: seq<GroupedExercise>)
    ensures |r| == |KeysInOrder(exercises)|
    ensures forall i :: 0 <= i < |r| ==> r[i] == Grouped(exercises, KeysInOrder(exercises)[i])
  {
    var keys: seq<ExerciseKey> := [];
    var groups: map<ExerciseKey, seq<ExerciseDetails>> := map[];
    for i := 0 to |exercises|
      invariant keys == KeysInOrder(exercises[..i])
      invariant forall k :: k in groups <==> k in keys
      invariant forall k :: k in groups ==> groups[k] == DetailsFor(exercises[..i], k)
    {
      GroupStep(exercises, i);
      var key := KeyOf(exercises[i]);
      var value := DetailsOf(exercises[i]);
      if key !in groups {
        NoDetailsForAbsent(exercises[..i], key);
        groups := groups[key := []];
        keys := keys + [key];
      }
      groups := groups[key := groups[key] + [value]];
    }
    assert exercises[..|exercises|] == exercises;
    r := seq(|keys|, j requires 0 <= j < |keys| => GroupedExercise(keys[j].variant, keys[j].description, groups[keys[j]]));
  }

  /** Taking one more exercise: its key is added if new, and only its key's details grow. */
  lemma GroupStep(exercises: seq<Exercise>, i: nat)
    requires i < |exercises|
    ensures KeysInOrder(exercises[..i + 1]) ==
      if KeyOf(exercises[i]) in KeysInOrder(exercises[..i]) then KeysInOrder(exercises[..i])
      else KeysInOrder(exercises[..i]) + [KeyOf(exercises[i])]
    ensures forall k :: DetailsFor(exercises[..i + 1], k) ==
                        DetailsFor(exercises[..i], k) + (if KeyOf(exercises[i]) == k then [DetailsOf(exercises[i])] else [])
  {
    assert exercises[..i + 1][..i] == exercises[..i];
  }

  /** The sum of the group sizes over a list of keys. */
  function TotalDetails(exercises: seq<Exercise>, keys: seq<ExerciseKey>): nat {
    if keys == [] then 0 else |DetailsFor(exercises, keys[0])| + TotalDetails(exercises, keys[1..])
  }

  lemma {:induction false} TotalDetailsAppend(exercises: seq<Exercise>, e: Exercise, keys: seq<ExerciseKey>)
    requires forall i, j :: 0 <= i < j < |keys| ==> keys[i] != keys[j]
    ensures TotalDetails(exercises + [e], keys) == TotalDetails(exercises, keys) + (if KeyOf(e) in keys then 1 else 0)
  {
    var all := exercises + [e];
    assert all[..|all| - 1] == exercises;
    if keys != [] {
      TotalDetailsAppend(exercises, e, keys[1..]);
      assert KeyOf(e) in keys <==> KeyOf(e) == keys[0] || KeyOf(e) in keys[1..];
    }
  }

  lemma {:induction false} TotalDetailsNew(exercises: seq<Exercise>, keys: seq<ExerciseKey>, k: ExerciseKey)
    requires k !in KeysInOrder(exercises)
    ensures TotalDetails(exercises, keys + [k]) == TotalDetails(exercises, keys)
    decreases |keys|
  {
    assert DetailsFor(exercises, k) == [] by { NoDetailsForAbsent(exercises, k); }
    if keys != [] {
      assert (keys + [k])[1..] == keys[1..] + [k];
      TotalDetailsNew(exercises, keys[1..], k);
    }
  }

  lemma {:induction false} NoDetailsForAbsent(exercises: seq<Exercise>, k: ExerciseKey)
    requires k !in KeysInOrder(exercises)
    ensures DetailsFor(exercises, k) == []
    decreases |exercises|
  {
    if exercises != [] {
      var init := exercises[..|exercises| - 1];
      assert exercises == init + [exercises[|exercises| - 1]];
      NoDetailsForAbsent(init, k);
    }
  }

  /** Grouping keeps every exercise: the group sizes add up to the number of exercises. */
  lemma {:induction false} GroupSizesAddUp(exercises: seq<Exercise>)
    ensures TotalDetails(exercises, KeysInOrder(exercises)) == |exercises|
    decreases |exercises|
  {
    if exercises != [] {
      var init := exercises[..|exercises| - 1];
      var last := exercises[|exercises| - 1];
      assert exercises == init + [last];
      var keys := KeysInOrder(init);
      GroupSizesAddUp(init);
      if KeyOf(last) in keys {
        TotalDetailsAppend(init, last, keys);
      } else {
        TotalDetailsAppend(init, last, keys + [KeyOf(last)]);
        TotalDetailsNew(init, keys, KeyOf(last));
        assert KeyOf(last) in keys + [KeyOf(last)];
      }
    }
  }

  /** Adding an exercise keeps the keys listed so far, lists its key, and adds at most that key. */
  lemma KeysStep(exercises: seq<Exercise>, init: seq<Exercise>)
    requires exercises != [] && init == exercises[..|exercises| - 1]
    ensures KeysInOrder(init) <= KeysInOrder(exercises)
    ensures |KeysInOrder(exercises)| <= |KeysInOrder(init)| + 1
    ensures KeyOf(exercises[|exercises| - 1]) in KeysInOrder(exercises)
    ensures |KeysInOrder(init)| < |KeysInOrder(exercises)| ==>
      KeysInOrder(exercises)[|KeysInOrder(init)|] == KeyOf(exercises[|exercises| - 1]) &&
      KeyOf(exercises[|exercises| - 1]) !in KeysInOrder(init)
  {
  }

  /** Every listed key is the key of some exercise; `q` is one. */
  lemma {:induction false} KeyOccurs(exercises: seq<Exercise>, j: nat) returns (q: nat)
    requires j < |KeysInOrder(exercises)|
    ensures q < |exercises| && KeyOf(exercises[q]) == KeysInOrder(exercises)[j]
    decreases |exercises|
  {
    var init := exercises[..|exercises| - 1];
    KeysStep(exercises, init);
    if j < |KeysInOrder(init)| {
      q := KeyOccurs(init, j);
      assert exercises[q] == init[q];
    } else {
      q := |exercises| - 1;
    }
  }

  /** Every exercise's key is listed. */
  lemma {:induction false} KeyListed(exercises: seq<Exercise>, q: nat)
    requires q < |exercises|
    ensures KeyOf(exercises[q]) in KeysInOrder(exercises)
    decreases |exercises|
  {
    var init := exercises[..|exercises| - 1];
    KeysStep(exercises, init);
    if q < |init| {
      KeyListed(init, q);
      assert exercises[q] == init[q];
    }
  }

  /**
   * Keys come in order of first occurrence: a key listed earlier first
   * occurs earlier in the input; `p` is such an earlier occurrence.
   */
  lemma {:induction false} KeysByFirstOccurrence(exercises: seq<Exercise>, i: nat, j: nat, q: nat) returns (p: nat)
    requires i < j < |KeysInOrder(exercises)|
    requires q < |exercises| && KeyOf(exercises[q]) == KeysInOrder(exercises)[j]
    ensures p < q && KeyOf(exercises[p]) == KeysInOrder(exercises)[i]
    decreases |exercises|
  {
    var init := exercises[..|exercises| - 1];
    KeysStep(exercises, init);
    if q == |exercises| - 1 {
      if j < |KeysInOrder(init)| {
        var q' := KeyOccurs(init, j);
        p := KeysByFirstOccurrence(init, i, j, q');
      } else {
        p := KeyOccurs(init, i);
      }
    } else {
      assert exercises[q] == init[q];
      KeyListed(init, q);
      p := KeysByFirstOccurrence(init, i, j, q);
    }
    assert exercises[p] == init[p];
  }
}
