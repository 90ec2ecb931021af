/** `HttpClientConfigurer`: the connection pool and timeouts of the HTTP
    client, and the upstream proxy with its credentials when the configuration
    names one. The host name `InetAddress` reports for NTLM is a parameter. */
module HttpClients {
  import opened Common
  import opened Urls
  import opened Configurations

  /** `MAX_CONNECTIONS`: in total and per route. */
  const MaxConnections: int := 20

  /** The credentials registered for the proxy: `UsernamePasswordCredentials`
      or `NTCredentials` with workstation and domain. */
  datatype Credentials =
    | UsernamePassword(username: string, password: string)
    | NTCredentials(username: string, password: string, workstation: string, domain: string)

  datatype HttpHost = HttpHost(host: string, port: int)

  /** The part of the user info the credentials were built from, before the
      first `:`. */
  function UserPart(c: Credentials): string {
    match c
    case UsernamePassword(username, _) => username
    case NTCredentials(username, _, _, domain) => domain + "\\" + username
  }

  /** `buildNTCredentials(userPart, password)`: the domain before the first
      backslash, the user after it, and the local host name as workstation;
      an unknown local host is InitializationException. */
  function BuildNTCredentials(userPart: string, password: string, localHostName: Option<string>): (r: Result<Credentials, Exception>)
    ensures r.Err? <==> localHostName.None?
    ensures r.Err? ==> r.error == Initialization
    ensures r.Ok? ==> r.value.NTCredentials? && r.value.password == password
                      && r.value.workstation == localHostName.value && '\\' !in r.value.domain
    ensures r.Ok? && '\\' in userPart ==> UserPart(r.value) == userPart
  {
    if localHostName.None? then Err(Initialization)
    else Ok(NTCredentials(SubstringAfter(userPart, '\\'), password, localHostName.value, SubstringBefore(userPart, '\\')))
  }

  /** `buildCredentials(userInfo)`: user and password split at the first `:`;
      NT credentials when the user contains a backslash. */
  function BuildCredentials(userInfo: string, localHostName: Option<string>): Result<Credentials, Exception> {
    var username := SubstringBefore(userInfo, ':');
    var password := SubstringAfter(userInfo, ':');
    if '\\' in username then BuildNTCredentials(username, password, localHostName)
    else Ok(UsernamePassword(username, password))
  }

  /** The credentials give back the user info they were built from: the user
      part, and the password after the first `:` when there is one. Only an NT
      user with an unknown local host fails, with InitializationException. */
  lemma CredentialsRebuildUserInfo(userInfo: string, localHostName: Option<string>)
    ensures var r := BuildCredentials(userInfo, localHostName);
            (r.Err? <==> '\\' in SubstringBefore(userInfo, ':') && localHostName.None?)
            && (r.Err? ==> r.error == Initialization)
            && (r.Ok? && ':' in userInfo ==> userInfo == UserPart(r.value) + ":" + r.value.password)
            && (r.Ok? && ':' !in userInfo ==> UserPart(r.value) == userInfo && r.value.password == [])
  {
  }

  /** Splitting `user:password` for a user without `:` gives both back, NT
      credentials exactly when the user contains a backslash. */
  lemma {:induction false} CredentialsSplitAtFirstColon(user: string, password: string, localHostName: Option<string>)
    requires ':' !in user
    ensures var r := BuildCredentials(user + ":" + password, localHostName);
            (r.Ok? <==> '\\' !in user || localHostName.Some?)
            && (r.Ok? ==> UserPart(r.value) == user && r.value.password == password
                          && (r.value.NTCredentials? <==> '\\' in user))
  {
    var s := user + ":" + password;
    assert s[|user|] == ':';
    assert ':' in s;
    assert forall i :: 0 <= i < |user| ==> s[i] == user[i];
    assert IndexOfFrom(s, ':', 0) == |user|;
    assert SubstringBefore(s, ':') == user;
    assert SubstringAfter(s, ':') == password;
  }

  /** The proxy port: the URL's explicit port, otherwise its protocol's default. */
  function ProxyPort(url: Url): (port: int)
    ensures url.port != -1 ==> port == url.port
    ensures url.port == -1 ==> port == DefaultPort(url.protocol)
  {
    if url.port != -1 then url.port else DefaultPort(url.protocol)
  }

  /** What `configureProxy` installs: the route through the proxy host and, for
      a proxy URL with user info, the credentials for that host and port. */
  datatype ProxySetup = ProxySetup(route: HttpHost, credentials: Option<(HttpHost, Credentials)>)

  /** `configureProxy(builder, proxy)` as the settings it leaves, given what
      `new URL(proxy)` made of the proxy: a malformed proxy URL is
      InitializationException, and so are NT credentials without a local host
      name. */
  function ProxySettings(url: Result<Url, MalformedUrl>, localHostName: Option<string>): (r: Result<ProxySetup, Exception>)
    ensures r.Err? ==> r.error == Initialization
    ensures url.Err? ==> r.Err?
    ensures r.Ok? ==>
              r.value.route == HttpHost(url.value.host, ProxyPort(url.value))
              && (r.value.credentials.Some? <==> url.value.userInfo.Some?)
              && (r.value.credentials.Some? ==>
                    r.value.credentials.value.0 == r.value.route
                    && Ok(r.value.credentials.value.1) == BuildCredentials(url.value.userInfo.value, localHostName))
    ensures url.Ok? && url.value.userInfo.None? ==> r.Ok?
  {
    match url
    case Err(_) => Err(Initialization)
    case Ok(u) =>
      var route := HttpHost(u.host, ProxyPort(u));
      if u.userInfo.None? then Ok(ProxySetup(route, None))
      else
        match BuildCredentials(u.userInfo.value, localHostName)
        case Err(e) => Err(e)
        case Ok(c) => Ok(ProxySetup(route, Some((route, c))))
  }

  /** The proxy `build` configures for the configured http-proxy: none when it
      is null. */
  function ClientProxy(httpProxy: Option<string>, localHostName: Option<string>): (r: Result<Option<ProxySetup>, Exception>)
    ensures httpProxy.None? ==> r == Ok(None)
    ensures httpProxy.Some? ==> (r.Ok? <==> ProxySettings(ParseUrl(httpProxy.value), localHostName).Ok?)
    ensures httpProxy.Some? && r.Ok? ==> r.value == Some(ProxySettings(ParseUrl(httpProxy.value), localHostName).value)
    ensures r.Err? ==> r.error == Initialization
  {
    if httpProxy.None? then Ok(None)
    else
      match ProxySettings(ParseUrl(httpProxy.value), localHostName)
      case Err(e) => Err(e)
      case Ok(s) => Ok(Some(s))
  }

  /** The parts of the `HttpClientBuilder` the configurer sets. */
  class HttpClientBuilder {
    var maxTotal: int
    var maxPerRoute: int
    var connectionRequestTimeout: int
    var socketTimeout: int
    /** The `DefaultProxyRoutePlanner`'s proxy, if one is set. */
    var proxy: Option<HttpHost>
    /** The default credentials provider's one entry, if one is set. */
    var credentials: Option<(HttpHost, Credentials)>

    constructor Init()
      ensures maxTotal == 0 && maxPerRoute == 0 && connectionRequestTimeout == 0 && socketTimeout == 0
      ensures proxy.None? && credentials.None?
    {
      maxTotal, maxPerRoute, connectionRequestTimeout, socketTimeout := 0, 0, 0, 0;
      proxy, credentials := None, None;
    }
  }

  class HttpClientConfigurer {
    const configuration: Configuration
    const socketTimeout: int
    const connectTimeout: int
    /** `InetAddress.getLocalHost().getHostName()`, None when it is unknown. */
    const localHostName: Option<string>

    constructor Init(configuration: Configuration, socketTimeout: int, connectTimeout: int, localHostName: Option<string>)
      ensures this.configuration == configuration && this.socketTimeout == socketTimeout
      ensures this.connectTimeout == connectTimeout && this.localHostName == localHostName
    {
      this.configuration := configuration;
      this.socketTimeout := socketTimeout;
      this.connectTimeout := connectTimeout;
      this.localHostName := localHostName;
    }

    /** `configureProxy(httpClientBuilder, proxy)`. */
    method ConfigureProxy(builder: HttpClientBuilder, proxy: string) returns (r: Result<(), Exception>)
      modifies builder
      ensures var s := ProxySettings(ParseUrl(proxy), localHostName);
              (r.Ok? <==> s.Ok?) && (r.Err? ==> r.error == Initialization)
              && (s.Ok? ==> builder.proxy == Some(s.value.route)
                            && builder.credentials == (if s.value.credentials.Some? then s.value.credentials
                                                       else old(builder.credentials)))
              && (s.Err? ==> builder.credentials == old(builder.credentials))
      ensures var url := ParseUrl(proxy);
              ProxySettings(url, localHostName).Err? ==>
                builder.proxy == if url.Ok? then Some(HttpHost(url.value.host, ProxyPort(url.value))) else old(builder.proxy)
      ensures builder.maxTotal == old(builder.maxTotal) && builder.maxPerRoute == old(builder.maxPerRoute)
      ensures builder.connectionRequestTimeout == old(builder.connectionRequestTimeout)
      ensures builder.socketTimeout == old(builder.socketTimeout)
    {
      var url := ParseUrl(proxy);
      r := ConfigureRoute(builder, url);
    }

    /** `configureProxy` once the proxy URL is parsed: the route is set before
        the credentials are built, so a failure there leaves the route in place. */
    method ConfigureRoute(builder: HttpClientBuilder, url: Result<Url, MalformedUrl>) returns (r: Result<(), Exception>)
      modifies builder
      ensures var s := ProxySettings(url, localHostName);
              (r.Ok? <==> s.Ok?) && (r.Err? ==> r.error == Initialization)
              && (s.Ok? ==> builder.proxy == Some(s.value.route)
                            && builder.credentials == (if s.value.credentials.Some? then s.value.credentials
                                                       else old(builder.credentials)))
              && (s.Err? ==> builder.credentials == old(builder.credentials))
      ensures ProxySettings(url, localHostName).Err? ==>
                builder.proxy == if url.Ok? then Some(HttpHost(url.value.host, ProxyPort(url.value))) else old(builder.proxy)
      ensures builder.maxTotal == old(builder.maxTotal) && builder.maxPerRoute == old(builder.maxPerRoute)
      ensures builder.connectionRequestTimeout == old(builder.connectionRequestTimeout)
      ensures builder.socketTimeout == old(builder.socketTimeout)
    {
      if url.Err? {
        return Err(Initialization);
      }
      var proxyHost := url.value.host;
      var proxyPort := if url.value.port != -1 then url.value.port else DefaultPort(url.value.protocol);
      builder.proxy := Some(HttpHost(proxyHost, proxyPort));
      var userInfo := url.value.userInfo;
      if userInfo.Some? {
        var c := BuildCredentials(userInfo.value, localHostName);
        if c.Err? {
          return Err(c.error);
        }
        builder.credentials := Some((HttpHost(proxyHost, proxyPort), c.value));
      }
      return Ok(());
    }

    /** The builder with the connection pool and the request timeouts set. */
    method NewBuilder() returns (b: HttpClientBuilder)
      ensures fresh(b)
      ensures b.maxTotal == MaxConnections && b.maxPerRoute == MaxConnections
      ensures b.connectionRequestTimeout == connectTimeout && b.socketTimeout == socketTimeout
      ensures b.proxy.None? && b.credentials.None?
    {
      b := new HttpClientBuilder.Init();
      b.maxTotal, b.maxPerRoute := MaxConnections, MaxConnections;
      b.connectionRequestTimeout, b.socketTimeout := connectTimeout, socketTimeout;
    }

    /** `build()`: the pool of 20 connections, the timeouts, and the proxy when
        `getHttpProxy()` is not null. */
    method Build() returns (r: Result<HttpClientBuilder, Exception>)
      ensures r.Ok? ==> fresh(r.value)
      ensures var s := ClientProxy(configuration.httpProxy, localHostName);
              (r.Err? <==> s.Err?) && (r.Err? ==> r.error == Initialization)
              && (r.Ok? ==>
                    r.value.maxTotal == MaxConnections && r.value.maxPerRoute == MaxConnections
                    && r.value.connectionRequestTimeout == connectTimeout && r.value.socketTimeout == socketTimeout
                    && r.value.proxy == (if s.value.Some? then Some(s.value.value.route) else None)
                    && r.value.credentials == (if s.value.Some? then s.value.value.credentials else None))
    {
      var builder := NewBuilder();
      var proxy := configuration.httpProxy;
      if proxy.Some? {
        var configured := ConfigureProxy(builder, proxy.value);
        if configured.Err? {
          return Err(configured.error);
        }
      }
      return Ok(builder);
    }
  }
}
