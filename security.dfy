/** The Spring Security values the core passes around: the `UserDetails`
    built by `UserDetailsServiceImplementation`, the `Authentication` kept
    in the security context, and the per-request security context itself,
    which the source reaches through the `SecurityContextHolder`
    thread-local and the model passes explicitly. */
module Security {
  import opened Common

  /** `org.springframework.security.core.userdetails.User`: the stored
      e-mail as user name, the stored hash, and the granted authorities. */
  datatype UserDetails = UserDetails(username: string, password: string, authorities: seq<string>)

  /** A `UsernamePasswordAuthenticationToken` whose principal is a
      `UserDetails`; its authorities are the principal's. */
  datatype Authentication = Authentication(principal: UserDetails, authenticated: bool)
  {
    /** `Authentication.getName()`. */
    function Name(): string { principal.username }

    function Authorities(): seq<string> { principal.authorities }
  }

  /** The request's security context: holds at most one authentication. */
  class SecurityContext {
    var authentication: Option<Authentication>

    constructor ()
      ensures authentication == None
    {
      authentication := None;
    }
  }
}
