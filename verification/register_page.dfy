/**
 * `hooks/useRegister`: the Register page's form state, its password
 * confirmation check, the Google OAuth trigger and the local registration.
 * (The redirect of an already authenticated user is `UseCheckSession`'s.)
 */
module UseRegister {
  import opened Wrappers
  import opened Fetch

  const PasswordsDoNotMatch: string := "Passwords do not match"
  const CouldNotRegister: string := "Could not register. Try again."

  /** The reactive warning: both fields filled in and different. */
  function PasswordsMismatch(password: string, confirmPassword: string): (r: bool)
    ensures r <==> |password| > 0 && |confirmPassword| > 0 && password != confirmPassword
  {
    |password| > 0 && |confirmPassword| > 0 && password != confirmPassword
  }

  /** The error text of a rejected registration: the body's `message`, or a default. */
  function RejectionMessage(body: Body): (m: string)
    ensures body.Parsed? && Message(body.json).Some? ==> m == Message(body.json).value
    ensures !(body.Parsed? && Message(body.json).Some?) ==> m == CouldNotRegister
  {
    match body
    case Unparsable => CouldNotRegister
    case Parsed(json) => Message(json).GetOr(CouldNotRegister)
  }

  /** The warning implies the submission is refused; the converse fails when one field is empty. */
  lemma MismatchWarningIsStricterThanSubmitCheck(password: string, confirmPassword: string)
    ensures PasswordsMismatch(password, confirmPassword) ==> password != confirmPassword
    ensures !PasswordsMismatch("secret", "") && "secret" != ""
  {
  }

  class RegisterPage {
    var name: string
    var email: string
    var password: string
    var confirmPassword: string
    var loadingGoogle: bool
    var error: Option<string>
    var loading: bool

    constructor ()
      ensures name == email == password == confirmPassword == ""
      ensures !loadingGoogle && error == None && !loading
    {
      name, email, password, confirmPassword := "", "", "", "";
      loadingGoogle := false;
      error := None;
      loading := false;
    }

    /** `handleGoogleRegister`: a full-page redirect to the backend's Google authorization endpoint. */
    method HandleGoogleRegister(backendUrl: string) returns (navigation: Option<Navigation>)
      modifies this`loadingGoogle
      ensures !Configured(backendUrl) ==> navigation == None && loadingGoogle == old(loadingGoogle)
      ensures Configured(backendUrl) ==>
        loadingGoogle && navigation == Some(Assign(backendUrl + GoogleAuthorizationPath))
    {
      if !Configured(backendUrl) {
        return None;
      }
      loadingGoogle := true;
      navigation := Some(Assign(backendUrl + GoogleAuthorizationPath));
    }

    /**
     * `handleRegister`: clears the error, then checks the configuration and
     * the confirmation (plain inequality) before posting; the `finally`
     * clears `loading` on every path that reached the request.
     */
    method HandleRegister(backendUrl: string, outcome: FetchResult)
      returns (request: Option<Request>, navigation: Option<Navigation>)
      modifies this`error, this`loading
      ensures !Configured(backendUrl) ==>
        request == None && navigation == None && error == None && loading == old(loading)
      ensures Configured(backendUrl) && password != confirmPassword ==>
        request == None && navigation == None && error == Some(PasswordsDoNotMatch)
        && loading == old(loading)
      ensures Configured(backendUrl) && PasswordsMismatch(password, confirmPassword) ==> request == None
      ensures Configured(backendUrl) && password == confirmPassword ==>
        request == Some(Request("POST", backendUrl + "/api/auth/register")) && !loading
      ensures Configured(backendUrl) && password == confirmPassword && outcome.Response? && IsOk(outcome.status) ==>
        navigation == Some(Push(LoginPath)) && error == None
      ensures Configured(backendUrl) && password == confirmPassword && outcome.Response? && !IsOk(outcome.status) ==>
        navigation == None && error == Some(RejectionMessage(outcome.body))
      ensures Configured(backendUrl) && password == confirmPassword && outcome.NetworkError? ==>
        navigation == None && error == Some(UnexpectedError)
    {
      error := None;
      if !Configured(backendUrl) {
        return None, None;
      }
      if password != confirmPassword {
        error := Some(PasswordsDoNotMatch);
        return None, None;
      }
      loading := true;
      request := Some(Request("POST", backendUrl + "/api/auth/register"));
      navigation := None;
      match outcome {
        case Response(status, body) =>
          if IsOk(status) {
            navigation := Some(Push(LoginPath));
          } else {
            error := Some(RejectionMessage(body));
          }
        case NetworkError =>
          error := Some(UnexpectedError);
      }
      loading := false;
    }
  }
}
