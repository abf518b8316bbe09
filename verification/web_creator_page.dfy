/**
 * `hooks/useWebCreator`: the protected page loads the current user from
 * `/api/me` on mount and sends an unauthenticated visitor to the login page.
 */
module UseWebCreator {
  import opened Wrappers
  import opened Fetch

  class WebCreatorPage {
    var user: Json       // `JsonNull` is the hook's `null`
    var loading: bool

    constructor ()
      ensures user == JsonNull && loading
    {
      user := JsonNull;
      loading := true;
    }

    /**
     * `fetchUser`: 401 redirects; an ok status stores the parsed body (a body
     * that fails to parse is caught); the `finally` clears `loading` on
     * every path, the 401 early return included.
     */
    method FetchUser(backendUrl: string, outcome: FetchResult)
      returns (request: Option<Request>, navigation: Option<Navigation>)
      modifies this
      ensures !loading
      ensures !Configured(backendUrl) ==> request == None && navigation == None && user == old(user)
      ensures Configured(backendUrl) ==> request == Some(Request("GET", backendUrl + "/api/me"))
      ensures Configured(backendUrl) && outcome.Response? && outcome.status == 401 ==>
        navigation == Some(Replace(LoginPath)) && user == old(user)
      ensures Configured(backendUrl) && outcome.Response? && IsOk(outcome.status) && outcome.body.Parsed? ==>
        navigation == None && user == outcome.body.json
      ensures Configured(backendUrl) && outcome.Response? && IsOk(outcome.status) && outcome.body.Unparsable? ==>
        navigation == None && user == old(user)
      ensures Configured(backendUrl) && outcome.Response? && outcome.status != 401 && !IsOk(outcome.status) ==>
        navigation == None && user == old(user)
      ensures Configured(backendUrl) && outcome.NetworkError? ==> navigation == None && user == old(user)
    {
      if !Configured(backendUrl) {
        loading := false;
        return None, None;
      }
      request := Some(Request("GET", backendUrl + "/api/me"));
      navigation := None;
      match outcome {
        case Response(status, body) =>
          if status == 401 {
            navigation := Some(Replace(LoginPath));
          } else if IsOk(status) && body.Parsed? {
            user := body.json;
          }
        case NetworkError =>
      }
      loading := false;
    }
  }
}
