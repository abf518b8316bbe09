/**
 * `hooks/useLogin`: the Login page's session check on mount, the Google
 * OAuth trigger and the local (form) login.
 */
module UseLogin {
  import opened Wrappers
  import opened Fetch

  const InvalidCredentials: string := "Invalid credentials"

  class LoginPage {
    var loadingGoogle: bool
    var checkingSession: bool
    var localError: Option<string>
    var localLoading: bool

    constructor ()
      ensures !loadingGoogle && checkingSession && localError == None && !localLoading
    {
      loadingGoogle := false;
      checkingSession := true;
      localError := None;
      localLoading := false;
    }

    /**
     * The mount effect: asks `/api/me`; a live session leaves the page
     * (and `checkingSession` stays true), anything else lets it render.
     */
    method CheckSessionOnMount(backendUrl: string, outcome: FetchResult)
      returns (request: Option<Request>, navigation: Option<Navigation>)
      modifies this`checkingSession
      ensures !Configured(backendUrl) ==> request == None && navigation == None && !checkingSession
      ensures Configured(backendUrl) ==> request == Some(Request("GET", backendUrl + "/api/me"))
      ensures Configured(backendUrl) && outcome.Response? && IsOk(outcome.status) ==>
        navigation == Some(Replace(WebCreatorPath)) && checkingSession == old(checkingSession)
      ensures Configured(backendUrl) && !(outcome.Response? && IsOk(outcome.status)) ==>
        navigation == None && !checkingSession
    {
      if !Configured(backendUrl) {
        checkingSession := false;
        return None, None;
      }
      request := Some(Request("GET", backendUrl + "/api/me"));
      navigation := None;
      match outcome {
        case Response(status, _) =>
          if IsOk(status) {
            navigation := Some(Replace(WebCreatorPath));
          } else {
            checkingSession := false;
          }
        case NetworkError =>
          checkingSession := false;
      }
    }

    /** `handleGoogleLogin`: a full-page redirect to the backend's Google authorization endpoint. */
    method HandleGoogleLogin(backendUrl: string) returns (navigation: Option<Navigation>)
      modifies this`loadingGoogle
      ensures !Configured(backendUrl) ==> navigation == None && loadingGoogle == old(loadingGoogle)
      ensures Configured(backendUrl) ==>
        loadingGoogle && navigation == Some(Assign(backendUrl + GoogleAuthorizationPath))
    {
      if !Configured(backendUrl) {
        return None;
      }
      loadingGoogle := true;
      navigation := Some(Assign(backendUrl + GoogleAuthorizationPath));
    }

    /** `handleLocalLogin`: posts the credentials; the `finally` clears `localLoading`. */
    method HandleLocalLogin(backendUrl: string, outcome: FetchResult)
      returns (request: Option<Request>, navigation: Option<Navigation>)
      modifies this`localError, this`localLoading
      ensures !Configured(backendUrl) ==>
        request == None && navigation == None && localError == None && localLoading == old(localLoading)
      ensures Configured(backendUrl) ==>
        request == Some(Request("POST", backendUrl + "/api/auth/login")) && !localLoading
      ensures Configured(backendUrl) && outcome.Response? && IsOk(outcome.status) ==>
        navigation == Some(Replace(WebCreatorPath)) && localError == None
      ensures Configured(backendUrl) && outcome.Response? && !IsOk(outcome.status) ==>
        navigation == None && localError == Some(InvalidCredentials)
      ensures Configured(backendUrl) && outcome.NetworkError? ==>
        navigation == None && localError == Some(UnexpectedError)
    {
      localError := None;
      if !Configured(backendUrl) {
        return None, None;
      }
      localLoading := true;
      request := Some(Request("POST", backendUrl + "/api/auth/login"));
      navigation := None;
      match outcome {
        case Response(status, _) =>
          if IsOk(status) {
            navigation := Some(Replace(WebCreatorPath));
          } else {
            localError := Some(InvalidCredentials);
          }
        case NetworkError =>
          localError := Some(UnexpectedError);
      }
      localLoading := false;
    }
  }
}
