/**
 * The user slice of the frontend store: the session token and the state of
 * the last registration request.
 */
module UserSlice {
  import opened Wrappers
  import opened TrackerTypes

  class UserStore {
    var token: Option<string>
    var state: Option<RequestState>

    /** The initial state: no token and no request state. */
    constructor ()
      ensures token == None && state == None
    {
      token := None;
      state := None;
    }

    /** `logout`: the token is dropped, the request state kept. */
    method Logout()
      modifies this
      ensures token == None && state == old(state)
    {
      token := None;
    }

    /** `resetUserState`: only the request state is cleared. */
    method ResetUserState()
      modifies this
      ensures state == None && token == old(token)
    {
      state := None;
    }

    /** `setToken`: the token is stored, the request state kept. */
    method SetToken(token: string)
      modifies this
      ensures this.token == Some(token) && state == old(state)
    {
      this.token := Some(token);
    }

    /** Register pending. */
    method RegisterPending()
      modifies this
      ensures state == Some(Pending) && token == old(token)
    {
      state := Some(Pending);
    }

    /** Register fulfilled: the server's answer is the new session token. */
    method RegisterFulfilled(token: string)
      modifies this
      ensures this.token == Some(token) && state == Some(Persisted)
    {
      this.token := Some(token);
      state := Some(Persisted);
    }
  }
}
