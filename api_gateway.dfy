// api-gateway/main.go: configuration from the environment, the route table
// built in main, and the handler reverseProxy returns, which rewrites the
// request's Host and URL path in place before handing it to the proxy.

module Gateway {
  import opened Base
  import opened Http
  import NetUrl

  const UserServiceKey := "USER_SERVICE_URL"
  const CollaborationServiceKey := "COLLABORATION_SERVICE_URL"
  const DefaultUserServiceUrl := "http" + "://" + "localhost:8081"
  const DefaultCollaborationServiceUrl := "http" + "://" + "localhost:8083"

  const HealthPath := "/health"
  const UsersGroup := "/api/users"
  const CollaborationGroup := "/api/collaboration"

  /** The verbs gin's RouterGroup.Any registers. */
  const AnyMethods := {"GET", "POST", "PUT", "PATCH", "HEAD", "OPTIONS", "DELETE", "CONNECT", "TRACE"}

  /** os.Getenv over the process environment: the value, or "" when the key is unset. */
  function Getenv(env: map<string, string>, key: string): string
  {
    if key in env then env[key] else ""
  }

  function GetEnvOrDefault(env: map<string, string>, key: string, fallback: string): (r: string)
    ensures Getenv(env, key) != "" ==> r == Getenv(env, key)
    ensures Getenv(env, key) == "" ==> r == fallback
    ensures r == Getenv(env, key) || r == fallback
  {
    var value := Getenv(env, key);
    if value != "" then value else fallback
  }

  datatype Config = Config(userServiceUrl: string, collaborationServiceUrl: string)

  function LoadConfig(env: map<string, string>): (c: Config)
    ensures UserServiceKey in env && env[UserServiceKey] != "" ==> c.userServiceUrl == env[UserServiceKey]
    ensures UserServiceKey !in env || env[UserServiceKey] == "" ==> c.userServiceUrl == "http://localhost:8081"
    ensures CollaborationServiceKey in env && env[CollaborationServiceKey] != "" ==> c.collaborationServiceUrl == env[CollaborationServiceKey]
    ensures CollaborationServiceKey !in env || env[CollaborationServiceKey] == "" ==> c.collaborationServiceUrl == "http://localhost:8083"
  {
    Config(GetEnvOrDefault(env, UserServiceKey, DefaultUserServiceUrl),
           GetEnvOrDefault(env, CollaborationServiceKey, DefaultCollaborationServiceUrl))
  }

  /** Unset or empty variables give the localhost defaults. */
  lemma DefaultConfig(env: map<string, string>)
    requires Getenv(env, UserServiceKey) == "" && Getenv(env, CollaborationServiceKey) == ""
    ensures LoadConfig(env) == Config("http://localhost:8081", "http://localhost:8083")
  {
  }

  lemma DefaultTargets()
    ensures NetUrl.Parse(DefaultUserServiceUrl) == Some(NetUrl.Url("http", "localhost:8081", ""))
    ensures NetUrl.Parse(DefaultCollaborationServiceUrl) == Some(NetUrl.Url("http", "localhost:8083", ""))
  {
    NetUrl.HttpScheme();
    NetUrl.NamePortHost("localhost", "8081");
    NetUrl.NamePortHost("localhost", "8083");
    assert "localhost" + ":" + "8081" == "localhost:8081" && "localhost" + ":" + "8083" == "localhost:8083";
    NetUrl.ParseSchemeHost("http", "localhost:8081", "");
    NetUrl.ParseSchemeHost("http", "localhost:8083", "");
    assert "http" + "://" + "localhost:8081" + "" == DefaultUserServiceUrl;
    assert "http" + "://" + "localhost:8083" + "" == DefaultCollaborationServiceUrl;
  }

  /** What reverseProxy(target) builds: a handler bound to the parsed URL, or a fatal start-up error. */
  datatype ProxyHandler = ProxyHandler(target: NetUrl.Url)
  datatype Startup<T> = Running(value: T) | Fatal(message: string)

  function ReverseProxy(target: string): (r: Startup<ProxyHandler>)
    ensures r.Running? <==> NetUrl.Parse(target).Some?
    ensures r.Running? ==> r.value.target == NetUrl.Parse(target).value && NetUrl.HostText(r.value.target.host)
    ensures r.Fatal? ==> r.message == "Failed to parse target URL"
  {
    var parsed := NetUrl.Parse(target);
    if parsed.None? then Fatal("Failed to parse target URL") else Running(ProxyHandler(parsed.value))
  }

  datatype Gateway = Gateway(userProxy: ProxyHandler, collaborationProxy: ProxyHandler)

  /** main: both handlers are built before the server starts; either parse failure stops the process. */
  function Start(env: map<string, string>): (r: Startup<Gateway>)
    ensures var c := LoadConfig(env);
      r.Running? <==> NetUrl.Parse(c.userServiceUrl).Some? && NetUrl.Parse(c.collaborationServiceUrl).Some?
    ensures var c := LoadConfig(env);
      r.Running? ==>
        && r.value.userProxy.target == NetUrl.Parse(c.userServiceUrl).value
        && r.value.collaborationProxy.target == NetUrl.Parse(c.collaborationServiceUrl).value
  {
    var config := LoadConfig(env);
    var users := ReverseProxy(config.userServiceUrl);
    var collaboration := ReverseProxy(config.collaborationServiceUrl);
    if users.Fatal? then Fatal(users.message)
    else if collaboration.Fatal? then Fatal(collaboration.message)
    else Running(Gateway(users.value, collaboration.value))
  }

  /** A non-numeric port stops the gateway at start-up. */
  lemma NonNumericPortFatal()
    ensures ReverseProxy("http://localhost:80a1").Fatal?
  {
    NetUrl.NonNumericPortRefused();
  }

  lemma StartsWithDefaults(env: map<string, string>)
    requires Getenv(env, UserServiceKey) == "" && Getenv(env, CollaborationServiceKey) == ""
    ensures Start(env).Running?
    ensures Start(env).value.userProxy.target.host == "localhost:8081"
    ensures Start(env).value.collaborationProxy.target.host == "localhost:8083"
  {
    DefaultTargets();
  }

  datatype Backend = UserBackend | CollaborationBackend

  datatype Route = HealthRoute | ProxyRoute(backend: Backend, proxyPath: string) | NoRoute

  function GroupOf(b: Backend): string
  {
    match b
    case UserBackend => UsersGroup
    case CollaborationBackend => CollaborationGroup
  }

  /** `path` lies under the group registered with a catch-all proxyPath parameter. */
  predicate UnderGroup(path: string, group: string)
  {
    |path| > |group| && path[..|group|] == group && path[|group|] == '/'
  }

  /** The route table of main: GET /health, and Any on the two proxy groups. */
  function MatchRoute(verb: string, path: string): (r: Route)
    ensures r.HealthRoute? <==> verb == "GET" && path == HealthPath
    ensures r.ProxyRoute? <==> verb in AnyMethods && (UnderGroup(path, UsersGroup) || UnderGroup(path, CollaborationGroup))
    ensures r.ProxyRoute? ==> UnderGroup(path, GroupOf(r.backend)) && GroupOf(r.backend) + r.proxyPath == path
    ensures r.ProxyRoute? ==> |r.proxyPath| >= 1 && r.proxyPath[0] == '/'
  {
    if verb == "GET" && path == HealthPath then HealthRoute
    else if verb in AnyMethods && UnderGroup(path, UsersGroup) then
      PrefixSplit(UsersGroup, path);
      ProxyRoute(UserBackend, path[|UsersGroup|..])
    else if verb in AnyMethods && UnderGroup(path, CollaborationGroup) then
      PrefixSplit(CollaborationGroup, path);
      ProxyRoute(CollaborationBackend, path[|CollaborationGroup|..])
    else NoRoute
  }

  lemma PrefixSplit(p: string, s: string)
    requires |s| >= |p| && s[..|p|] == p
    ensures p + s[|p|..] == s
  {
    assert s == s[..|p|] + s[|p|..];
  }

  /** The two proxy groups are disjoint, so the order of registration does not matter. */
  lemma GroupsDisjoint(path: string)
    ensures !(UnderGroup(path, UsersGroup) && UnderGroup(path, CollaborationGroup))
  {
  }

  /** Paths under /api/events (where the events front end sends its requests) reach no backend. */
  lemma EventsPathsUnrouted(verb: string, rest: string)
    ensures MatchRoute(verb, "/api/events" + rest) == NoRoute
  {
  }

  datatype Reply =
    | HealthReply(service: string, status: string)
    | Forwarded(host: string, path: string)
    | NotFound

  /** The mutable parts of gin's *http.Request the proxy handler touches. */
  class Request {
    var host: string
    var path: string

    constructor (host: string, path: string)
      ensures this.host == host && this.path == path
    {
      this.host, this.path := host, path;
    }
  }

  function ProxyFor(g: Gateway, b: Backend): ProxyHandler
  {
    match b
    case UserBackend => g.userProxy
    case CollaborationBackend => g.collaborationProxy
  }

  /** The closure reverseProxy returns: Host becomes the target's host, the path becomes the capture; neither is restored. */
  method ServeProxy(h: ProxyHandler, req: Request, proxyPath: string) returns (reply: Reply)
    modifies req
    ensures req.host == h.target.host && req.path == proxyPath
    ensures reply == Forwarded(req.host, req.path)
  {
    req.host := h.target.host;
    req.path := proxyPath;
    reply := Forwarded(req.host, req.path);
  }

  /** One request through the router: the health answer, one proxy, or gin's 404. */
  method Handle(g: Gateway, verb: string, req: Request) returns (reply: Reply)
    modifies req
    ensures MatchRoute(verb, old(req.path)).HealthRoute? ==>
      reply == HealthReply("API Gateway", "UP") && req.host == old(req.host) && req.path == old(req.path)
    ensures MatchRoute(verb, old(req.path)).NoRoute? ==>
      reply == NotFound && req.host == old(req.host) && req.path == old(req.path)
    ensures MatchRoute(verb, old(req.path)).ProxyRoute? ==>
      var route := MatchRoute(verb, old(req.path));
      && req.host == ProxyFor(g, route.backend).target.host
      && req.path == route.proxyPath
      && GroupOf(route.backend) + req.path == old(req.path)
      && reply == Forwarded(req.host, req.path)
  {
    var route := MatchRoute(verb, req.path);
    match route {
      case HealthRoute =>
        reply := HealthReply("API Gateway", "UP");
      case NoRoute =>
        reply := NotFound;
      case ProxyRoute(backend, proxyPath) =>
        reply := ServeProxy(ProxyFor(g, backend), req, proxyPath);
    }
  }
}
