/**
 * The slice of the web framework's request and response the core touches:
 * header entries, request cookies, the request's data extensions, and the
 * status, cookies and JSON body of a successful response.
 */
module Http {
  import opened Wrappers
  import Roles
  import Dto

  type Byte = b: int | 0 <= b < 256

  /** A header entry; names are held in the normalised lower-case form the header map uses. */
  datatype HeaderEntry = HeaderEntry(name: string, value: seq<Byte>)

  /** A cookie sent by the client. */
  datatype RequestCookie = RequestCookie(name: string, value: string)

  /**
   * A request: its headers in order, its cookies in order, and the `Claims`
   * stored in its data extensions, if any.
   */
  datatype Request = Request(headers: seq<HeaderEntry>, cookies: seq<RequestCookie>, claims: Option<Roles.Claims>)

  /** Index of the first of `names` equal to `name` at or after `from`. */
  function FirstNamedAt(names: seq<string>, name: string, from: nat): (r: Option<nat>)
    requires from <= |names|
    decreases |names| - from
    ensures r.Some? ==> from <= r.value < |names| && names[r.value] == name
    ensures r.Some? ==> forall k :: from <= k < r.value ==> names[k] != name
    ensures r.None? ==> forall k :: from <= k < |names| ==> names[k] != name
  {
    if from == |names| then None
    else if names[from] == name then Some(from)
    else FirstNamedAt(names, name, from + 1)
  }

  /** `HeaderMap::get`: the value of the first entry named `name`. */
  function HeaderValue(headers: seq<HeaderEntry>, name: string): (r: Option<seq<Byte>>)
    ensures r.None? <==> forall k :: 0 <= k < |headers| ==> headers[k].name != name
    ensures r.Some? ==>
      exists i :: 0 <= i < |headers| && headers[i] == HeaderEntry(name, r.value) && forall k :: 0 <= k < i ==> headers[k].name != name
  {
    var names := seq(|headers|, k requires 0 <= k < |headers| => headers[k].name);
    assert forall k :: 0 <= k < |headers| ==> names[k] == headers[k].name;
    match FirstNamedAt(names, name, 0)
    case Some(i) =>
      assert headers[i] == HeaderEntry(name, headers[i].value);
      Some(headers[i].value)
    case None => None
  }

  /** `HttpRequest::cookie`: the value of the first cookie named `name`. */
  function CookieValue(cookies: seq<RequestCookie>, name: string): (r: Option<string>)
    ensures r.None? <==> forall k :: 0 <= k < |cookies| ==> cookies[k].name != name
    ensures r.Some? ==>
      exists i :: 0 <= i < |cookies| && cookies[i] == RequestCookie(name, r.value) && forall k :: 0 <= k < i ==> cookies[k].name != name
  {
    var names := seq(|cookies|, k requires 0 <= k < |cookies| => cookies[k].name);
    assert forall k :: 0 <= k < |cookies| ==> names[k] == cookies[k].name;
    match FirstNamedAt(names, name, 0)
    case Some(i) =>
      assert cookies[i] == RequestCookie(name, cookies[i].value);
      Some(cookies[i].value)
    case None => None
  }

  /** The `SameSite` cookie attribute. */
  datatype SameSite = Strict | Lax | NoRestriction

  /** A `Set-Cookie` the response carries, with the attributes the service sets. */
  datatype SetCookie = SetCookie(
    name: string, value: string, httpOnly: bool, secure: bool, path: string, sameSite: SameSite, maxAge: int)

  /** The JSON bodies of the successful authentication responses. */
  datatype Body =
    | AccessTokenBody(accessToken: string)
    | AuthBody(auth: Dto.AuthResponse)

  /** A successful response: status, cookies set, JSON body. */
  datatype Response = Response(status: nat, cookies: seq<SetCookie>, body: Body)
}
