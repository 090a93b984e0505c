/**
 * The bodyweight slice of the frontend store: the series with each value
 * already formatted to two decimals, and the state of the last save.
 */
module BodyweightSlice {
  import opened Wrappers
  import opened TrackerTypes
  import opened Bodyweight
  import opened Js

  /** The delete-fulfilled reducer as written: `splice(indexOf(day), 1)` on both arrays, unguarded. */
  function DeleteAsWritten<V>(s: Series<V>, d: int): (r: Series<V>)
    requires s.Valid()
    ensures r.Valid()
  {
    var i := IndexOf(s.labels, d);
    SpliceSameLength(s.labels, s.values, i);
    Series(SpliceOne(s.labels, i), SpliceOne(s.values, i))
  }

  /** For a day that is recorded, the reducer as written removes that day, like the guarded delete. */
  lemma PresentDayDeleted<V>(s: Series<V>, d: int)
    requires s.Valid() && d in s.labels
    ensures DeleteAsWritten(s, d) == Remove(s, d)
  {
  }

  /**
   * For a day that is not recorded, `indexOf` answers -1 and `splice(-1, 1)`
   * removes the last entry of each array: a day that was never deleted is
   * lost from the series.
   */
  lemma {:induction false} AbsentDayDropsLast<V>(s: Series<V>, d: int)
    requires s.Valid() && Ascending(s.labels) && s.labels != [] && d !in s.labels
    ensures DeleteAsWritten(s, d) == Series(s.labels[..|s.labels| - 1], s.values[..|s.values| - 1])
    ensures Lookup(s, s.labels[|s.labels| - 1]).Some?
    ensures Lookup(DeleteAsWritten(s, d), s.labels[|s.labels| - 1]).None?
  {
    var n := |s.labels|;
    var last := s.labels[n - 1];
    IndexOfAscending(s.labels, last, n - 1);
    var r := DeleteAsWritten(s, d);
    assert r.labels == s.labels[..n - 1];
    assert last !in r.labels by {
      forall j | 0 <= j < |r.labels|
        ensures r.labels[j] != last
      {
        assert r.labels[j] == s.labels[j] && j < n - 1;
      }
    }
  }

  /** The slice's state. */
  class BodyweightStore {
    var labels: seq<int>
    var values: seq<string>
    var state: Option<RequestState>

    function Entries(): Series<string>
      reads this
    {
      Series(labels, values)
    }

    /** The initial state: no entries and no request state. */
    constructor ()
      ensures labels == [] && values == [] && state == None
    {
      labels := [];
      values := [];
      state := None;
    }

    /**
     * `fetchAll`: the reducer only starts a request; its `.then` writes into
     * the draft after the reducer has returned, when the draft is already
     * finalized, so the store is left as it was.
     */
    method FetchAll()
      modifies this
      ensures labels == old(labels) && values == old(values) && state == old(state)
    {
    }

    /** `set`: both arrays replaced, the request state kept. */
    method Set(labels: seq<int>, values: seq<string>)
      modifies this
      ensures this.labels == labels && this.values == values && state == old(state)
    {
      this.labels := labels;
      this.values := values;
    }

    /** `reset`: both arrays emptied, the request state kept. */
    method Reset()
      modifies this
      ensures labels == [] && values == [] && state == old(state)
    {
      labels := [];
      values := [];
    }

    /** `resetRequestState`: only the request state cleared. */
    method ResetRequestState()
      modifies this
      ensures state == None && labels == old(labels) && values == old(values)
    {
      state := None;
    }

    /** Fetch fulfilled: the server's series, its values formatted with `toFixed(2)` by the caller. */
    method FetchFulfilled(labels: seq<int>, formatted: seq<string>)
      modifies this
      ensures this.labels == labels && values == formatted && state == old(state)
    {
      this.labels := labels;
      values := formatted;
    }

    /** Put pending. */
    method PutPending()
      modifies this
      ensures state == Some(Pending) && labels == old(labels) && values == old(values)
    {
      state := Some(Pending);
    }

    /**
     * Put fulfilled: the save is persisted and the formatted value recorded
     * for the day, replacing the day's value or inserted in date order.
     */
    method PutFulfilled(recorded: int, value: string)
      requires Entries().Valid()
      modifies this
      ensures state == Some(Persisted)
      ensures exists p :: (IsPlacement(recorded, old(labels), p) &&
                           Entries() == Upsert(old(Entries()), recorded, value, p))
      ensures Ascending(old(labels)) ==>
        Entries().Valid() && Ascending(labels) &&
        forall d :: Lookup(Entries(), d) == if d == recorded then Some(value) else Lookup(old(Entries()), d)
    {
      state := Some(Persisted);
      var before := Entries();
      var p := FindInsertionIndex(recorded, labels);
      var after := Upsert(before, recorded, value, p);
      labels := after.labels;
      values := after.values;
      if Ascending(before.labels) {
        UpsertAscending(before, recorded, value, p);
        forall d {
          UpsertLookup(before, recorded, value, p, d);
        }
      }
    }

    /** Delete fulfilled, with the removal guarded on the day being recorded. */
    method DeleteFulfilled(recorded: int)
      requires Entries().Valid()
      modifies this
      ensures Entries() == Remove(old(Entries()), recorded) && state == old(state)
      ensures Ascending(old(labels)) ==>
        Ascending(labels) &&
        forall d :: Lookup(Entries(), d) == if d == recorded then None else Lookup(old(Entries()), d)
    {
      var index := IndexOf(labels, recorded);
      if index != -1 {
        var after := Remove(Entries(), recorded);
        labels := after.labels;
        values := after.values;
      }
      if Ascending(old(labels)) {
        RemoveAscending(old(Entries()), recorded);
        forall d {
          RemoveLookup(old(Entries()), recorded, d);
        }
      }
    }
  }
}
