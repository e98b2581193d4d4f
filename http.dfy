/** The parts of the servlet request and response the core reads and
    writes: the method, the request URI, the cookies, the `Authorization`
    header, and the `Set-Cookie` header built from a `ResponseCookie`. */
module Http {
  import opened Common

  /** A request cookie (`jakarta.servlet.http.Cookie`). */
  datatype Cookie = Cookie(name: string, value: string)

  /** An incoming request; `cookies` is `null` when the request has none. */
  datatype HttpRequest = HttpRequest(verb: string, uri: string, cookies: Option<seq<Cookie>>, authorization: Option<string>)

  /** A `ResponseCookie` as built by its builder. `maxAge` is in seconds. */
  datatype ResponseCookie = ResponseCookie(
    name: string, value: string, httpOnly: bool, secure: bool, sameSite: string, path: string, maxAge: int)

  /** A `ResponseEntity`: a status code and an optional body. */
  datatype HttpReply<T> = HttpReply(status: int, body: Option<T>)

  /** The servlet response, as far as the core writes it. */
  class ServletResponse {
    var status: int
    var setCookie: Option<ResponseCookie>

    constructor ()
      ensures status == 200 && setCookie == None
    {
      status := 200;
      setCookie := None;
    }
  }
}
