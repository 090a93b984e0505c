/**
 * The user-preferences slice of the frontend store: how repetitions and
 * sets are written, and the state of the last save.
 */
module UserPreferencesSlice {
  import opened Wrappers
  import opened TrackerTypes

  datatype RepSetNotation = RepsThenSets | SetsThenReps

  class PreferencesStore {
    var state: Option<RequestState>
    var repSetNotation: RepSetNotation

    /** The initial state: sets before reps, no request state. */
    constructor ()
      ensures state == None && repSetNotation == SetsThenReps
    {
      state := None;
      repSetNotation := SetsThenReps;
    }

    /** `setRepSetNotation` */
    method SetRepSetNotation(notation: RepSetNotation)
      modifies this
      ensures repSetNotation == notation && state == old(state)
    {
      repSetNotation := notation;
    }

    /** `resetRequestState` */
    method ResetRequestState()
      modifies this
      ensures state == None && repSetNotation == old(repSetNotation)
    {
      state := None;
    }

    /** Fetch fulfilled with the stored preferences, `None` when the server answers `null`. */
    method FetchFulfilled(payload: Option<RepSetNotation>)
      modifies this
      ensures repSetNotation == payload.GetOr(old(repSetNotation)) && state == old(state)
    {
      if payload.Some? {
        repSetNotation := payload.value;
      }
    }

    /** Persist pending. */
    method PersistPending()
      modifies this
      ensures state == Some(Pending) && repSetNotation == old(repSetNotation)
    {
      state := Some(Pending);
    }

    /** Persist fulfilled. */
    method PersistFulfilled()
      modifies this
      ensures state == Some(Persisted) && repSetNotation == old(repSetNotation)
    {
      state := Some(Persisted);
    }
  }
}
