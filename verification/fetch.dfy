/**
 * The I/O boundary of the page hooks. A network round-trip is an input (the
 * outcome the `fetch` call would produce); requests and navigations are
 * outputs the hooks emit.
 */
module Fetch {
  import opened Wrappers

  /** A JSON body: `null`, or an object whose string-valued fields are kept. */
  datatype Json = JsonNull | JsonObject(fields: map<string, string>)

  /** What `res.json()` yields: a parse failure or a JSON value. */
  datatype Body = Unparsable | Parsed(json: Json)

  /** The outcome of `fetch`: it throws, or it resolves with a status and a body. */
  datatype FetchResult = NetworkError | Response(status: int, body: Body)

  /** A request the hook issues. */
  datatype Request = Request(verb: string, url: string)

  /** `router.replace`, `router.push`, and an assignment to `window.location.href`. */
  datatype Navigation = Replace(path: string) | Push(path: string) | Assign(href: string)

  /** A navigation scheduled with `setTimeout`. */
  datatype Timer = Timer(delayMs: int, navigation: Navigation)

  /** `res.ok`. */
  predicate IsOk(status: int) {
    200 <= status <= 299
  }

  /** `NEXT_PUBLIC_BACKEND_URL` is defined and non-empty (`!backendUrl` is false). */
  predicate Configured(backendUrl: string) {
    backendUrl != ""
  }

  /** `data?.message` for a parsed body. */
  function Message(json: Json): (m: Option<string>)
    ensures m.Some? <==> json.JsonObject? && "message" in json.fields
    ensures m.Some? ==> m.value == json.fields["message"]
  {
    match json
    case JsonNull => None
    case JsonObject(fields) => if "message" in fields then Some(fields["message"]) else None
  }

  const GoogleAuthorizationPath: string := "/oauth2/authorization/google"
  const WebCreatorPath: string := "/WebCreator"
  const LoginPath: string := "/Login"
  const UnexpectedError: string := "Unexpected error. Please try again."
}
