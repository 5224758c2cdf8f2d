/** The configuration of applications. */
module Config {
  /** `opts` stands for the options of a kind, which only the kind's own constructor looks at. */
  datatype Backend =
    | Plain(kind: string, opts: string)
    | AuthV0(bearerToken: string, authorizedV0: Backend)
    | AuthSso(opts: string, authorizedSso: Backend)

  datatype Frontend = Frontend(
    kind: string,
    hostname: string,
    hostnameRegexp: string,
    pathPrefix: string,
    stripPathPrefix: bool,
    allowInsecureHTTP: bool)

  const HOSTNAME := "hostname"
  const HOSTNAME_REGEXP := "hostname_regexp"
  const PATH_PREFIX := "path_prefix"

  datatype Application = Application(id: string, frontends: seq<Frontend>, backend: Backend)

  /** A running backend (an `http.Handler`), told from others by the order of construction. */
  type Handler = nat
}
