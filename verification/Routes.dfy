/** The route record that the operator writes and the proxy reads. */
module Routes {
  datatype Route = Route(
    domain: string,
    injector: string,
    header: string,
    valuePrefix: string,
    basicUsername: string,
    envVar: string,
    saFilePath: string,
    gcpProject: string,
    gcpLocation: string,
    pathPrefix: string,
    upstream: string,
    clientID: string,
    tokenURL: string,
    scopes: seq<string>,
    defaultHeaders: map<string, string>,
    kubeconfigPath: string,
    caCert: string,
    allowedPaths: seq<string>)

  /** A route with the given domain and injector and everything else empty. */
  function PlainRoute(domain: string, injector: string): Route {
    Route(domain, injector, "", "", "", "", "", "", "", "", "", "", "", [], map[], "", "", [])
  }
}
