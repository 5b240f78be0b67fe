/** The tenant's two client caches. The data client is built on first use from the api
    endpoint and the tenant credentials and then reused. The admin client logs in to the
    console and carries each Set-Cookie value of the login response as a Cookie header;
    the cached admin-client field is read but never written, so as written every request
    for an admin client performs a fresh login, and resetting it only clears a field
    that is already empty. */
module Session {
  import opened Wrappers
  import opened Declared
  import opened Api

  /** The resolved host:port of the tenant's api and console endpoints. */
  datatype Endpoints = Endpoints(api: string, console: string)

  /** A storage (data-plane) client: the endpoint and credentials it was built with. */
  datatype DataClient = DataClient(endpoint: string, credentials: Credentials)

  datatype Header = Header(name: string, value: string)

  /** An admin-API client: its base address and the default headers it sends. */
  datatype AdminClient = AdminClient(baseAddress: string, headers: seq<Header>)

  /** The two nullable client fields of the tenant. */
  datatype Cache = Cache(client: Option<DataClient>, adminClient: Option<AdminClient>)

  const EmptyCache := Cache(None, None)

  /** The tenant's connection string: the api endpoint's host:port behind `http://`. */
  function ConnectionString(e: Endpoints): string
  {
    "http://" + e.api
  }

  /** Returns the cached data client, or builds one from the api endpoint and the
      credentials and caches it. */
  function GetClient(c: Cache, e: Endpoints, cred: Credentials): (r: (Cache, DataClient))
    ensures c.client.Some? ==> r == (c, c.client.value)
    ensures c.client.None? ==> r.1 == DataClient(e.api, cred)
    ensures r.0 == c.(client := Some(r.1))
  {
    if c.client.Some? then (c, c.client.value)
    else
      var client := DataClient(e.api, cred);
      (c.(client := Some(client)), client)
  }

  /** The login request: the tenant's own access key and secret. */
  function LoginRequest(cred: Credentials): Action
  {
    Login(cred.accessKey, cred.secretKey)
  }

  /** One Cookie header per Set-Cookie value, in response order. */
  function CookieHeaders(setCookies: seq<string>): (hs: seq<Header>)
    ensures |hs| == |setCookies|
    ensures forall i :: 0 <= i < |hs| ==> hs[i] == Header("Cookie", setCookies[i])
  {
    seq(|setCookies|, i requires 0 <= i < |setCookies| => Header("Cookie", setCookies[i]))
  }

  /** Returns the cached admin client if the field is set. Otherwise `login` is the
      console's answer to the login request: a non-success status is a fatal error, and
      so is a success without any `Set-Cookie` header, whose lookup throws; otherwise the
      new client talks to the console endpoint with the returned cookies. The new client
      is returned but the field is left as it was. */
  function GetAdminClient(c: Cache, e: Endpoints, cred: Credentials, login: Response): (r: Result<(Cache, AdminClient), Fault>)
    ensures c.adminClient.Some? ==> r == Success((c, c.adminClient.value))
    ensures c.adminClient.None? ==> (r.Success? <==> LoginAccepted(login))
    ensures c.adminClient.None? && login.status != Succeeded ==> r == Failure(LoginRejected)
    ensures c.adminClient.None? && login.status == Succeeded && login.setCookies == [] ==> r == Failure(NoSessionCookie)
    ensures r.Success? ==> r.value.0 == c
    ensures c.adminClient.None? && r.Success? ==>
              && r.value.1.baseAddress == "http://" + e.console
              && |r.value.1.headers| == |login.setCookies|
              && forall i :: 0 <= i < |login.setCookies| ==> r.value.1.headers[i] == Header("Cookie", login.setCookies[i])
  {
    if c.adminClient.Some? then Success((c, c.adminClient.value))
    else if login.status != Succeeded then Failure(LoginRejected)
    else if |login.setCookies| == 0 then Failure(NoSessionCookie)
    else Success((c, AdminClient("http://" + e.console, CookieHeaders(login.setCookies))))
  }

  /** Clears the admin-client field; the data client is kept. */
  function ResetAdminClient(c: Cache): (r: Cache)
    ensures r.adminClient.None? && r.client == c.client
  {
    c.(adminClient := None)
  }

  /** Once built, the data client is returned again by every later call, whatever the
      endpoint and credentials would now resolve to. */
  lemma GetClientReturnsFirstClient(c: Cache, e: Endpoints, cred: Credentials, e': Endpoints, cred': Credentials)
    ensures var (c1, first) := GetClient(c, e, cred);
            GetClient(c1, e', cred') == (c1, first)
  {
  }

  /** The data client connects to exactly the endpoint the connection string names. */
  lemma ConnectionStringNamesClientEndpoint(e: Endpoints, cred: Credentials)
    ensures ConnectionString(e) == "http://" + GetClient(EmptyCache, e, cred).1.endpoint
  {
  }

  /** A successful login does not spare the next request its own login: the second
      request succeeds exactly when its own login response is accepted. */
  lemma EveryRequestLogsIn(c: Cache, e: Endpoints, cred: Credentials, first: Response, second: Response)
    requires c.adminClient.None?
    requires GetAdminClient(c, e, cred, first).Success?
    ensures var c1 := GetAdminClient(c, e, cred, first).value.0;
            c1.adminClient.None? && (GetAdminClient(c1, e, cred, second).Success? <==> LoginAccepted(second))
  {
  }
}

/** The tenant object's mutable client fields, with the three operations that touch
    them. Each method performs the corresponding `Session` function on the fields. */
module ClientCache {
  import opened Wrappers
  import opened Declared
  import opened Api
  import Session

  class TenantClients {
    var cache: Session.Cache
    const endpoints: Session.Endpoints
    const credentials: Credentials

    constructor(e: Session.Endpoints, cred: Credentials)
      ensures cache == Session.EmptyCache && endpoints == e && credentials == cred
    {
      cache := Session.EmptyCache;
      endpoints := e;
      credentials := cred;
    }

    method GetClient() returns (client: Session.DataClient)
      modifies this
      ensures (cache, client) == Session.GetClient(old(cache), endpoints, credentials)
    {
      var r := Session.GetClient(cache, endpoints, credentials);
      cache := r.0;
      client := r.1;
    }

    method GetAdminClient(login: Response) returns (r: Result<Session.AdminClient, Fault>)
      modifies this
      ensures cache == old(cache)
      ensures var s := Session.GetAdminClient(old(cache), endpoints, credentials, login);
              (s.Success? ==> r == Success(s.value.1)) && (s.Failure? ==> r == Failure(s.error))
    {
      var s := Session.GetAdminClient(cache, endpoints, credentials, login);
      if s.Success? {
        r := Success(s.value.1);
      } else {
        r := Failure(s.error);
      }
    }

    method ResetAdminClient()
      modifies this
      ensures cache == Session.ResetAdminClient(old(cache))
    {
      cache := Session.ResetAdminClient(cache);
    }
  }
}
