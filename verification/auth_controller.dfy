/**
 * The backend's `AuthController`: local registration (`POST
 * /api/auth/register`) and the current user (`GET /api/me`). The password
 * encoder is a function given to the controller.
 */
module AuthController {
  import opened Wrappers
  import opened UserRepository

  datatype RegisterRequest = RegisterRequest(email: Option<string>, password: Option<string>, name: Option<string>)

  datatype ResponseBody = NoBody | MessageBody(message: string) | UserBody(user: UserModel)
  datatype HttpResponse = HttpResponse(status: int, body: ResponseBody)

  /** The kinds of principal `me` distinguishes; OAuth2 attributes are the string-valued ones. */
  datatype Principal =
    | OAuth2Principal(attributes: map<string, string>)
    | UserDetailsPrincipal(username: string)
    | OtherPrincipal

  datatype Authentication = Authentication(authenticated: bool, principal: Principal)

  const BadRequest: int := 400
  const Conflict: int := 409
  const Created: int := 201
  const Ok: int := 200
  const Unauthorized: int := 401
  const NotFound: int := 404
  /** What Spring answers when the handler throws, here when a single-result finder matches several rows. */
  const InternalServerError: int := 500

  const CredentialsRequired: string := "Email and password are required"
  const EmailInUse: string := "Email already in use"
  const LocalProvider: string := "local"
  const GoogleProvider: string := "google"

  /** Java's `Character.isWhitespace`, which `String.isBlank` applies to every code point. */
  predicate IsJavaWhitespace(c: char) {
    c == ' ' || c == '\U{1680}' || ('\U{2000}' <= c <= '\U{2006}') || ('\U{2008}' <= c <= '\U{200A}')
    || c == '\U{205F}' || c == '\U{3000}' || c == '\U{2028}' || c == '\U{2029}'
    || c == '\t' || c == '\n' || c == '\U{000B}' || c == '\U{000C}' || c == '\r'
    || ('\U{001C}' <= c <= '\U{001F}')
  }

  /** `String.isBlank`: empty or only whitespace. */
  predicate IsBlank(s: string) {
    forall i :: 0 <= i < |s| ==> IsJavaWhitespace(s[i])
  }

  /** The request passes the first check of `register`: email and password present and not blank. */
  predicate HasCredentials(req: RegisterRequest) {
    req.email.Some? && req.password.Some? && !IsBlank(req.email.value) && !IsBlank(req.password.value)
  }

  /** There is an authenticated authentication whose principal is of the kind `kind` selects. */
  predicate AuthenticatedAs(authentication: Option<Authentication>, kind: Principal -> bool) {
    authentication.Some? && authentication.value.authenticated && kind(authentication.value.principal)
  }

  /** `getAttribute(key)`: null when the attribute is absent. */
  function Attribute(attributes: map<string, string>, key: string): (v: Option<string>)
    ensures v.Some? <==> key in attributes
    ensures v.Some? ==> v.value == attributes[key]
  {
    if key in attributes then Some(attributes[key]) else None
  }

  /** The row `register` saves, before its id is generated. */
  function LocalUser(req: RegisterRequest, encode: string -> string): (u: UserModel)
    requires HasCredentials(req)
    ensures u.id == None && u.provider == Some(LocalProvider)
    ensures u.providerId == u.email == req.email && u.name == req.name && u.avatarUrl == None
    ensures u.password == Some(encode(req.password.value))
    // an encoder that changes every input never lets the raw password reach the row
    ensures (forall s :: encode(s) != s) ==> u.password != req.password
  {
    NewUser().(provider := Some(LocalProvider), providerId := req.email, email := req.email,
               name := req.name, password := Some(encode(req.password.value)))
  }

  /** The row `me` saves for a first-time Google principal, before its id is generated. */
  function GoogleUser(attributes: map<string, string>): (u: UserModel)
    ensures u.id == None && u.provider == Some(GoogleProvider) && u.password == None
    ensures u.providerId == Attribute(attributes, "sub") && u.email == Attribute(attributes, "email")
    ensures u.name == Attribute(attributes, "name") && u.avatarUrl == Attribute(attributes, "picture")
  {
    NewUser().(provider := Some(GoogleProvider), providerId := Attribute(attributes, "sub"),
               email := Attribute(attributes, "email"), name := Attribute(attributes, "name"),
               avatarUrl := Attribute(attributes, "picture"))
  }

  class AuthController {
    const userRepository: UserRepository
    const encode: string -> string

    constructor (userRepository: UserRepository, encode: string -> string)
      ensures this.userRepository == userRepository && this.encode == encode
    {
      this.userRepository := userRepository;
      this.encode := encode;
    }

    /** `register`: validate, reject a taken email, insert a local user. */
    method Register(req: RegisterRequest) returns (response: HttpResponse)
      requires userRepository.Valid()
      modifies userRepository
      ensures userRepository.Valid()
      ensures !HasCredentials(req) ==>
        response == HttpResponse(BadRequest, MessageBody(CredentialsRequired))
        && userRepository.rows == old(userRepository.rows)
      ensures HasCredentials(req) ==>
        var lookup := old(userRepository.FindByEmail(req.email.value));
        var saved := LocalUser(req, encode).(id := Some(|old(userRepository.rows)|));
        match lookup
        case SeveralMatches =>
          response == HttpResponse(InternalServerError, NoBody) && userRepository.rows == old(userRepository.rows)
        case Match(_) =>
          response == HttpResponse(Conflict, MessageBody(EmailInUse)) && userRepository.rows == old(userRepository.rows)
        case NoMatch =>
          response == HttpResponse(Created, UserBody(saved)) && userRepository.rows == old(userRepository.rows) + [saved]
      ensures UniqueEmails(old(userRepository.rows)) ==> UniqueEmails(userRepository.rows)
    {
      if req.email.None? || req.password.None? || IsBlank(req.email.value) || IsBlank(req.password.value) {
        return HttpResponse(BadRequest, MessageBody(CredentialsRequired));
      }
      match userRepository.FindByEmail(req.email.value) {
        case SeveralMatches =>
          return HttpResponse(InternalServerError, NoBody);
        case Match(_) =>
          return HttpResponse(Conflict, MessageBody(EmailInUse));
        case NoMatch =>
      }
      var user := LocalUser(req, encode);
      var saved := userRepository.Save(user);
      response := HttpResponse(Created, UserBody(saved));
    }

    /** `me`: find-or-create for an OAuth2 principal, lookup by email for a `UserDetails` principal. */
    method Me(authentication: Option<Authentication>) returns (response: HttpResponse)
      requires userRepository.Valid()
      modifies userRepository
      ensures userRepository.Valid()
      ensures !AuthenticatedAs(authentication, (p: Principal) => !p.OtherPrincipal?) ==>
        response == HttpResponse(Unauthorized, NoBody) && userRepository.rows == old(userRepository.rows)
      ensures AuthenticatedAs(authentication, (p: Principal) => p.OAuth2Principal?) ==>
        var attributes := authentication.value.principal.attributes;
        var lookup := old(userRepository.FindByProviderAndProviderId(Some(GoogleProvider), Attribute(attributes, "sub")));
        var saved := GoogleUser(attributes).(id := Some(|old(userRepository.rows)|));
        match lookup
        case SeveralMatches =>
          response == HttpResponse(InternalServerError, NoBody) && userRepository.rows == old(userRepository.rows)
        case Match(k) =>
          response == HttpResponse(Ok, UserBody(old(userRepository.rows)[k]))
          && userRepository.rows == old(userRepository.rows)
        case NoMatch =>
          response == HttpResponse(Ok, UserBody(saved)) && userRepository.rows == old(userRepository.rows) + [saved]
      ensures AuthenticatedAs(authentication, (p: Principal) => p.UserDetailsPrincipal?) ==>
        var lookup := old(userRepository.FindByEmail(authentication.value.principal.username));
        userRepository.rows == old(userRepository.rows)
        && response == match lookup
          case SeveralMatches => HttpResponse(InternalServerError, NoBody)
          case Match(k) => HttpResponse(Ok, UserBody(old(userRepository.rows)[k]))
          case NoMatch => HttpResponse(NotFound, NoBody)
      ensures UniqueProviderKeys(old(userRepository.rows)) ==> UniqueProviderKeys(userRepository.rows)
    {
      if authentication.None? || !authentication.value.authenticated {
        return HttpResponse(Unauthorized, NoBody);
      }
      match authentication.value.principal {
        case OAuth2Principal(attributes) =>
          var providerId := Attribute(attributes, "sub");
          match userRepository.FindByProviderAndProviderId(Some(GoogleProvider), providerId) {
            case SeveralMatches =>
              return HttpResponse(InternalServerError, NoBody);
            case Match(k) =>
              return HttpResponse(Ok, UserBody(userRepository.rows[k]));
            case NoMatch =>
          }
          var saved := userRepository.Save(GoogleUser(attributes));
          response := HttpResponse(Ok, UserBody(saved));
        case UserDetailsPrincipal(username) =>
          response := match userRepository.FindByEmail(username)
            case SeveralMatches => HttpResponse(InternalServerError, NoBody)
            case Match(k) => HttpResponse(Ok, UserBody(userRepository.rows[k]))
            case NoMatch => HttpResponse(NotFound, NoBody);
        case OtherPrincipal =>
          response := HttpResponse(Unauthorized, NoBody);
      }
    }
  }
}
