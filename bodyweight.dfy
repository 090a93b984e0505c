/**
 * The bodyweight series kept by the frontend: two parallel arrays, the
 * dates in ascending order and the value recorded on each date, with the
 * optimistic updates the bodyweight hook makes to its query cache.
 *
 * A date is represented by the calendar day its ISO string parses to, so
 * `DateTime` comparison and `indexOf` string equality are both comparison
 * of days.
 */
module Bodyweight {
  import opened Wrappers

  /** The labels (days) and values of the series; the server sends them with equal lengths. */
  datatype Series<V> = Series(labels: seq<int>, values: seq<V>) {
    predicate Valid() {
      |labels| == |values|
    }
  }

  predicate Ascending(labels: seq<int>) {
    forall i, j :: 0 <= i < j < |labels| ==> labels[i] < labels[j]
  }

  /** `Array.prototype.indexOf`: the first position holding `d`, or -1. */
  function IndexOf(labels: seq<int>, d: int): (r: int)
    ensures -1 <= r < |labels|
    ensures r == -1 <==> d !in labels
    ensures r >= 0 ==> labels[r] == d && forall j :: 0 <= j < r ==> labels[j] != d
  {
    IndexFrom(labels, d, 0)
  }

  /** The scan of `indexOf` from position `k` on. */
  function IndexFrom(labels: seq<int>, d: int, k: nat): (r: int)
    requires k <= |labels|
    ensures r == -1 ==> forall j :: k <= j < |labels| ==> labels[j] != d
    ensures r != -1 ==> k <= r < |labels| && labels[r] == d && forall j :: k <= j < r ==> labels[j] != d
    decreases |labels| - k
  {
    if k == |labels| then -1 else if labels[k] == d then k else IndexFrom(labels, d, k + 1)
  }

  /** The value the series records for a day: the reference reading of the two arrays as a map. */
  function Lookup<V>(s: Series<V>, d: int): Option<V>
    requires s.Valid()
  {
    var i := IndexOf(s.labels, d);
    if i == -1 then None else Some(s.values[i])
  }

  /** On ascending labels a day is found exactly where it sits. */
  lemma IndexOfAscending(labels: seq<int>, d: int, k: nat)
    requires Ascending(labels) && k < |labels| && labels[k] == d
    ensures IndexOf(labels, d) == k
  {
  }

  datatype Operation = Insert | Replace

  /** The answer of `findInsertionIndex`. */
  datatype Placement = Placement(index: nat, operation: Operation)

  /**
   * What the left-to-right scan returns: every day before the index is
   * earlier than the new day, the day at the index (if any) is not, and it
   * is a replacement exactly when that day is the day itself.
   */
  predicate IsPlacement(day: int, labels: seq<int>, p: Placement) {
    && p.index <= |labels|
    && (forall j :: 0 <= j < p.index ==> labels[j] < day)
    && (p.index < |labels| ==> day <= labels[p.index])
    && (p.operation == Replace <==> p.index < |labels| && labels[p.index] == day)
  }

  /** `findInsertionIndex`: the first day later than the day gives Insert, the first equal one Replace. */
  method FindInsertionIndex(day: int, labels: seq<int>) returns (p: Placement)
    ensures IsPlacement(day, labels, p)
  {
    var i := 0;
    while i < |labels|
      invariant 0 <= i <= |labels|
      invariant forall j :: 0 <= j < i ==> labels[j] < day
    {
      if day < labels[i] {
        return Placement(i, Insert);
      }
      if day == labels[i] {
        return Placement(i, Replace);
      }
      i := i + 1;
    }
    return Placement(|labels|, Insert);
  }

  /** The scan's answer is determined by the day and the labels. */
  lemma PlacementUnique(day: int, labels: seq<int>, p: Placement, q: Placement)
    requires IsPlacement(day, labels, p) && IsPlacement(day, labels, q)
    ensures p == q
  {
  }

  /** On ascending labels the answer is a replacement exactly when the day is already recorded. */
  lemma ReplaceIffPresent(day: int, labels: seq<int>, p: Placement)
    requires Ascending(labels) && IsPlacement(day, labels, p)
    ensures p.operation == Replace <==> day in labels
  {
    if day in labels {
      var k :| 0 <= k < |labels| && labels[k] == day;
      if k < p.index {
        assert labels[k] < day;
      } else if k > p.index {
        assert labels[p.index] < labels[k];
      }
    }
  }

  /** The insert-or-replace step: Replace overwrites only the value, Insert splices day and value at the same index. */
  function Upsert<V>(s: Series<V>, day: int, value: V, p: Placement): (r: Series<V>)
    requires s.Valid() && p.index <= |s.labels|
    requires p.operation == Replace ==> p.index < |s.labels|
    ensures r.Valid()
    ensures p.operation == Replace ==> r.labels == s.labels && |r.values| == |s.values|
    ensures p.operation == Insert ==> |r.labels| == |s.labels| + 1
  {
    match p.operation
    case Replace => Series(s.labels, s.values[p.index := value])
    case Insert =>
      var i := p.index;
      Series(s.labels[..i] + [day] + s.labels[i..], s.values[..i] + [value] + s.values[i..])
  }

  /** Inserting at the scan's position keeps the labels ascending. */
  lemma {:induction false} UpsertAscending<V>(s: Series<V>, day: int, value: V, p: Placement)
    requires s.Valid() && Ascending(s.labels) && IsPlacement(day, s.labels, p)
    ensures Ascending(Upsert(s, day, value, p).labels)
  {
    if p.operation == Insert {
      InsertShifts(s, day, value, p);
    }
  }

  /**
   * Read as a map from day to value, the step records the new value for the
   * day and leaves every other day as it was.
   */
  lemma {:induction false} UpsertLookup<V>(s: Series<V>, day: int, value: V, p: Placement, d: int)
    requires s.Valid() && Ascending(s.labels) && IsPlacement(day, s.labels, p)
    ensures Lookup(Upsert(s, day, value, p), d) == if d == day then Some(value) else Lookup(s, d)
  {
    UpsertAscending(s, day, value, p);
    ReplaceIffPresent(day, s.labels, p);
    if p.operation == Replace {
      ReplaceLookup(s, day, value, p, d);
    } else {
      InsertLookup(s, day, value, p, d);
    }
  }

  /** Read as a map, a replacement records the new value for the day and keeps every other day. */
  lemma {:induction false} ReplaceLookup<V>(s: Series<V>, day: int, value: V, p: Placement, d: int)
    requires s.Valid() && Ascending(s.labels) && IsPlacement(day, s.labels, p) && p.operation == Replace
    ensures Lookup(Upsert(s, day, value, p), d) == if d == day then Some(value) else Lookup(s, d)
  {
    if d == day {
      IndexOfAscending(s.labels, d, p.index);
    } else if d in s.labels {
      var k :| 0 <= k < |s.labels| && s.labels[k] == d;
      IndexOfAscending(s.labels, d, k);
    }
  }

  /** Inserting at `p.index` puts the new entry there and shifts every later entry one place right. */
  lemma InsertShifts<V>(s: Series<V>, day: int, value: V, p: Placement)
    requires s.Valid() && p.index <= |s.labels| && p.operation == Insert
    ensures var r := Upsert(s, day, value, p);
      forall j :: 0 <= j < |r.labels| ==>
        r.labels[j] == (if j < p.index then s.labels[j] else if j == p.index then day else s.labels[j - 1]) &&
        r.values[j] == (if j < p.index then s.values[j] else if j == p.index then value else s.values[j - 1])
  {
  }

  /** A recorded day keeps its value when another day is inserted. */
  lemma InsertKeepsOther<V>(s: Series<V>, day: int, value: V, p: Placement, d: int, k: nat)
    requires s.Valid() && Ascending(s.labels) && IsPlacement(day, s.labels, p) && p.operation == Insert
    requires Ascending(Upsert(s, day, value, p).labels)
    requires k < |s.labels| && s.labels[k] == d
    ensures Lookup(Upsert(s, day, value, p), d) == Lookup(s, d)
  {
    var r := Upsert(s, day, value, p);
    InsertShifts(s, day, value, p);
    IndexOfAscending(s.labels, d, k);
    var k' := if k < p.index then k else k + 1;
    IndexOfAscending(r.labels, d, k');
  }

  /** Read as a map, an insertion records the new day and keeps every other day. */
  lemma {:induction false} InsertLookup<V>(s: Series<V>, day: int, value: V, p: Placement, d: int)
    requires s.Valid() && Ascending(s.labels) && IsPlacement(day, s.labels, p) && p.operation == Insert
    requires Ascending(Upsert(s, day, value, p).labels)
    ensures Lookup(Upsert(s, day, value, p), d) == if d == day then Some(value) else Lookup(s, d)
  {
    var r := Upsert(s, day, value, p);
    InsertShifts(s, day, value, p);
    if d == day {
      IndexOfAscending(r.labels, d, p.index);
    } else if d in s.labels {
      var k :| 0 <= k < |s.labels| && s.labels[k] == d;
      InsertKeepsOther(s, day, value, p, d, k);
    } else {
      assert d !in r.labels;
    }
  }

  /** The hook's optimistic delete: the day's index removed from both arrays, nothing when the day is absent. */
  function Remove<V>(s: Series<V>, d: int): (r: Series<V>)
    requires s.Valid()
    ensures r.Valid()
    ensures d !in s.labels ==> r == s
    ensures d in s.labels ==> |r.labels| == |s.labels| - 1
  {
    var i := IndexOf(s.labels, d);
    if i == -1 then s
    else Series(s.labels[..i] + s.labels[i + 1..], s.values[..i] + s.values[i + 1..])
  }

  /** Removing the entry at `i` shifts every later entry one place left. */
  lemma RemoveShifts<V>(s: Series<V>, d: int, i: nat)
    requires s.Valid() && i == IndexOf(s.labels, d)
    ensures var r := Remove(s, d);
      forall j :: 0 <= j < |r.labels| ==>
        r.labels[j] == (if j < i then s.labels[j] else s.labels[j + 1]) &&
        r.values[j] == (if j < i then s.values[j] else s.values[j + 1])
  {
    assert Remove(s, d) == Series(s.labels[..i] + s.labels[i + 1..], s.values[..i] + s.values[i + 1..]);
  }

  /** Removing keeps the labels ascending. */
  lemma {:induction false} RemoveAscending<V>(s: Series<V>, d: int)
    requires s.Valid() && Ascending(s.labels)
    ensures Ascending(Remove(s, d).labels)
  {
    var i := IndexOf(s.labels, d);
    if i != -1 {
      RemoveShifts(s, d, i);
    }
  }

  /** On ascending labels the removed day is gone. */
  lemma RemovedDayGone<V>(s: Series<V>, d: int, i: nat)
    requires s.Valid() && Ascending(s.labels) && i == IndexOf(s.labels, d)
    ensures d !in Remove(s, d).labels
  {
    var r := Remove(s, d);
    RemoveShifts(s, d, i);
    forall j | 0 <= j < |r.labels|
      ensures r.labels[j] != d
    {
      if j < i {
        assert s.labels[j] < s.labels[i];
      } else {
        assert s.labels[i] < s.labels[j + 1];
      }
    }
  }

  /** A day that was not recorded is still not recorded after a removal. */
  lemma AbsentStaysAbsent<V>(s: Series<V>, d: int, e: int)
    requires s.Valid() && e !in s.labels
    ensures e !in Remove(s, d).labels
  {
    var i := IndexOf(s.labels, d);
    if i != -1 {
      RemoveShifts(s, d, i);
    }
  }

  /** A recorded day other than the removed one keeps its value. */
  lemma OtherDayKept<V>(s: Series<V>, d: int, e: int, k: nat)
    requires s.Valid() && Ascending(s.labels) && d in s.labels
    requires k < |s.labels| && s.labels[k] == e && e != d
    ensures Lookup(Remove(s, d), e) == Lookup(s, e)
  {
    var i := IndexOf(s.labels, d);
    var r := Remove(s, d);
    RemoveShifts(s, d, i);
    RemoveAscending(s, d);
    IndexOfAscending(s.labels, e, k);
    var k' := if k < i then k else k - 1;
    IndexOfAscending(r.labels, e, k');
  }

  /** Read as a map, removing forgets the day and keeps every other day. */
  lemma {:induction false} RemoveLookup<V>(s: Series<V>, d: int, e: int)
    requires s.Valid() && Ascending(s.labels)
    ensures Lookup(Remove(s, d), e) == if e == d then None else Lookup(s, e)
  {
    var i := IndexOf(s.labels, d);
    if i != -1 {
      if e == d {
        RemovedDayGone(s, d, i);
      } else if e in s.labels {
        var k :| 0 <= k < |s.labels| && s.labels[k] == e;
        OtherDayKept(s, d, e, k);
      } else {
        AbsentStaysAbsent(s, d, e);
      }
    }
  }

  /** The bodyweights query's cached data, as the hooks read and write it. */
  class QueryCache {
    var bodyweights: Option<Series<real>>

    constructor (bodyweights: Option<Series<real>>)
      ensures this.bodyweights == bodyweights
    {
      this.bodyweights := bodyweights;
    }

    /**
     * `useUpdateBodyweight`'s `onMutate`: remember the cached series and
     * replace it with a copy that records the new value; nothing is cached
     * when there was nothing before.
     */
    method UpdateMutate(recorded: int, bodyweight: real) returns (previous: Option<Series<real>>)
      requires bodyweights.Some? ==> bodyweights.value.Valid()
      modifies this
      ensures previous == old(bodyweights)
      ensures previous.None? ==> bodyweights.None?
      ensures previous.Some? ==>
        (exists p :: IsPlacement(recorded, previous.value.labels, p) &&
          bodyweights == Some(Upsert(previous.value, recorded, bodyweight, p)))
      ensures previous.Some? && Ascending(previous.value.labels) ==>
        bodyweights.Some? && bodyweights.value.Valid() && Ascending(bodyweights.value.labels) &&
        forall d :: Lookup(bodyweights.value, d) == if d == recorded then Some(bodyweight) else Lookup(previous.value, d)
    {
      previous := bodyweights;
      if previous.Some? {
        var p := FindInsertionIndex(recorded, previous.value.labels);
        bodyweights := Some(Upsert(previous.value, recorded, bodyweight, p));
        if Ascending(previous.value.labels) {
          UpsertAscending(previous.value, recorded, bodyweight, p);
          forall d {
            UpsertLookup(previous.value, recorded, bodyweight, p, d);
          }
        }
      }
    }

    /** `useDeleteBodyweight`'s `onMutate`: remember the cached series and drop the day from a copy of it. */
    method DeleteMutate(recorded: int) returns (previous: Option<Series<real>>)
      requires bodyweights.Some? ==> bodyweights.value.Valid()
      modifies this
      ensures previous == old(bodyweights)
      ensures bodyweights == if previous.Some? then Some(Remove(previous.value, recorded)) else None
    {
      previous := bodyweights;
      if previous.Some? {
        var index := IndexOf(previous.value.labels, recorded);
        if index != -1 {
          bodyweights := Some(Remove(previous.value, recorded));
        }
      }
    }

    /** `onError`: put the remembered series back, if there was one. */
    method Rollback(previous: Option<Series<real>>)
      modifies this
      ensures previous.Some? ==> bodyweights == previous
      ensures previous.None? ==> bodyweights == old(bodyweights)
    {
      if previous.Some? {
        bodyweights := previous;
      }
    }

    /** A failed update leaves the cache as it was before the mutation. */
    method FailedUpdate(recorded: int, bodyweight: real)
      requires bodyweights.Some? ==> bodyweights.value.Valid()
      modifies this
      ensures bodyweights == old(bodyweights)
    {
      var previous := UpdateMutate(recorded, bodyweight);
      Rollback(previous);
    }

    /** A failed delete leaves the cache as it was before the mutation. */
    method FailedDelete(recorded: int)
      requires bodyweights.Some? ==> bodyweights.value.Valid()
      modifies this
      ensures bodyweights == old(bodyweights)
    {
      var previous := DeleteMutate(recorded);
      Rollback(previous);
    }
  }
}
