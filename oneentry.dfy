/** The lazily initialised, process-wide OneEntry API client of Onstore/lib/oneentry.ts.

    The module keeps one variable, `apiClient`, that is either unset or holds the client that the
    foreign constructor `defineOneEntry` returned. `fetchApiClient` hands out the cached client and,
    when there is none, runs `setupApiClient`, which checks the project URL, reads the refresh token,
    builds the client and throws when it could not.

    Everything a call observes from outside the module (environment variables, the refresh-token
    cookie, what `defineOneEntry` does) is an `Inputs` value. The pure functions `Setup` and `Fetch`
    specify one call; the class `ApiClientHolder` is the module's state and its methods follow the
    source statement by statement. */
module OneEntry {
  import opened Wrappers

  /** The locale every client is built with. */
  const LangCode: string := "en_US"

  /** The errors the two functions throw, in the source's words. */
  datatype Error =
    | ProjectUrlMissing     // "ONEENTRY_PROJECT_URL is missing"
    | InitFailed            // "Failed to initialize API client"
    | StillNullAfterSetup   // "API client is still null after setup"

  /** The environment variables the module reads: the project URL and the API token. */
  datatype Env = Env(projectUrl: Option<string>, apiToken: Option<string>)

  /** What awaiting `retrieveRefreshToken` gives: the value of the `refresh_token` cookie (absent
      when there is no such cookie), or an exception. */
  datatype TokenRead = TokenReadThrows | TokenCookie(cookie: Option<string>)

  /** What one call of the foreign constructor `defineOneEntry` does: throw, or return a client
      object, which `handle` identifies. */
  datatype SdkOutcome = SdkThrows | SdkReturns(handle: nat)

  /** Everything one call of the module observes from outside it. */
  datatype Inputs = Inputs(env: Env, tokenRead: TokenRead, sdk: SdkOutcome)

  /** The `auth` options passed to `defineOneEntry` (the `saveFunction` callback is not modelled). */
  datatype AuthOptions = AuthOptions(refreshToken: Option<string>, customAuth: bool)

  /** The options object passed to `defineOneEntry`. */
  datatype ClientOptions = ClientOptions(token: Option<string>, langCode: string, auth: AuthOptions)

  /** A constructed client: the object `defineOneEntry` returned and the arguments it got. Two
      clients are the same instance exactly when they are equal. */
  datatype Client = Client(handle: nat, url: string, options: ClientOptions)

  /** The module's state after one call, and what the call resolved to or rejected with. */
  datatype Step = Step(client: Option<Client>, outcome: Result<Client, Error>)

  /** `!apiUrl`: an environment variable that is undefined or empty counts as missing. */
  predicate UrlMissing(url: Option<string>)
  {
    url.None? || url.value == ""
  }

  /** `refreshToken || undefined`: the refresh token handed to the client. */
  function RefreshTokenArg(cookie: Option<string>): (r: Option<string>)
    ensures r.None? <==> cookie == None || cookie == Some("")
    ensures r.Some? ==> r == cookie && r.value != ""
  {
    match cookie
    case None => None
    case Some(t) => if t == "" then None else Some(t)
  }

  /** The fixed options object built for every construction. */
  function OptionsFor(env: Env, cookie: Option<string>): ClientOptions
  {
    ClientOptions(env.apiToken, LangCode, AuthOptions(RefreshTokenArg(cookie), false))
  }

  /** One call of the foreign constructor `defineOneEntry(url, options)`: the client it returns,
      or `None` when it throws. */
  function DefineOneEntry(url: string, options: ClientOptions, sdk: SdkOutcome): Option<Client>
  {
    match sdk
    case SdkThrows => None
    case SdkReturns(h) => Some(Client(h, url, options))
  }

  /** The `try` block of `setupApiClient`: read the refresh token, then construct the client. The
      result is the client assigned to `apiClient`, or `None` when either step threw (the exception
      is swallowed). */
  function Bootstrap(url: string, inp: Inputs): (r: Option<Client>)
    ensures r.Some? <==> inp.tokenRead.TokenCookie? && inp.sdk.SdkReturns?
    ensures r.Some? ==> r.value.handle == inp.sdk.handle && r.value.url == url
    ensures r.Some? ==> r.value.options.langCode == "en_US" && !r.value.options.auth.customAuth
    ensures r.Some? ==> r.value.options.token == inp.env.apiToken
    ensures r.Some? ==> r.value.options.auth.refreshToken == RefreshTokenArg(inp.tokenRead.cookie)
  {
    match inp.tokenRead
    case TokenReadThrows => None
    case TokenCookie(cookie) => DefineOneEntry(url, OptionsFor(inp.env, cookie), inp.sdk)
  }

  /** Whether a call enters the `try` block: it reads the token and, if that succeeds, calls
      `defineOneEntry`. */
  predicate EntersTry(client: Option<Client>, inp: Inputs)
  {
    !UrlMissing(inp.env.projectUrl) && client.None?
  }

  /** `setupApiClient` run on state `client`. */
  function Setup(client: Option<Client>, inp: Inputs): (r: Step)
    // the URL is checked first, whatever the state
    ensures r.outcome == Err(ProjectUrlMissing) <==> UrlMissing(inp.env.projectUrl)
    // the function either sets the client and returns it, or throws and changes nothing
    ensures r.outcome.Ok? ==> r.client == Some(r.outcome.value)
    ensures r.outcome.Err? ==> r.client == client
    ensures r.outcome != Err(StillNullAfterSetup)
    // a client that is already set is returned as it is
    ensures client.Some? && !UrlMissing(inp.env.projectUrl) ==> r == Step(client, Ok(client.value))
    ensures r.outcome == Err(InitFailed) <==>
              EntersTry(client, inp) && Bootstrap(inp.env.projectUrl.value, inp).None?
    // from the unset state with a URL, the new state is whatever the bootstrap produced
    ensures EntersTry(client, inp) ==> r.client == Bootstrap(inp.env.projectUrl.value, inp)
  {
    var apiUrl := inp.env.projectUrl;
    if UrlMissing(apiUrl) then
      Step(client, Err(ProjectUrlMissing))
    else
      var next := if client.None? then Bootstrap(apiUrl.value, inp) else client;
      if next.None? then Step(next, Err(InitFailed)) else Step(next, Ok(next.value))
  }

  /** `fetchApiClient` run on state `client`: the single entry point of the module. */
  function Fetch(client: Option<Client>, inp: Inputs): (r: Step)
    // a cached client is returned with no setup, no URL check and no token read
    ensures client.Some? ==> r == Step(client, Ok(client.value))
    // the "still null after setup" error cannot happen
    ensures r.outcome != Err(StillNullAfterSetup)
    // a success is cached, a failure leaves the state as it was
    ensures r.outcome.Ok? <==> r.client.Some?
    ensures r.outcome.Ok? ==> r.client == Some(r.outcome.value)
    ensures r.outcome.Err? ==> r.client == client
    // which error comes out when
    ensures r.outcome == Err(ProjectUrlMissing) <==> client.None? && UrlMissing(inp.env.projectUrl)
    ensures r.outcome == Err(InitFailed) <==>
              EntersTry(client, inp) && Bootstrap(inp.env.projectUrl.value, inp).None?
    // from the unset state with a URL, the new state is whatever the bootstrap produced
    ensures EntersTry(client, inp) ==> r.client == Bootstrap(inp.env.projectUrl.value, inp)
  {
    if client.None? then
      var setup := Setup(client, inp);
      if setup.outcome.Err? then setup
      else if setup.client.None? then Step(setup.client, Err(StillNullAfterSetup))
      else Step(setup.client, Ok(setup.client.value))
    else
      Step(client, Ok(client.value))
  }

  /** The module-level state of oneentry.ts. */
  class ApiClientHolder {
    /** `let apiClient: ApiClientType = null` */
    var apiClient: Option<Client>
    /** How many times a call entered the `try` block (read the token and, if that succeeded,
        called `defineOneEntry`). */
    ghost var attempts: nat

    /** Module load: the client starts unset. */
    constructor ()
      ensures apiClient == None && attempts == 0
    {
      apiClient := None;
      attempts := 0;
    }

    /** `setupApiClient()` */
    method SetupApiClient(inp: Inputs) returns (r: Result<Client, Error>)
      modifies this
      ensures Step(apiClient, r) == Setup(old(apiClient), inp)
      ensures old(apiClient).Some? ==> apiClient == old(apiClient)
      ensures attempts == old(attempts) + if EntersTry(old(apiClient), inp) then 1 else 0
    {
      var apiUrl := inp.env.projectUrl;
      if UrlMissing(apiUrl) {
        return Err(ProjectUrlMissing);
      }
      if apiClient.None? {
        attempts := attempts + 1;
        if inp.tokenRead.TokenCookie? {
          var refreshToken := inp.tokenRead.cookie;
          var built := DefineOneEntry(apiUrl.value, OptionsFor(inp.env, refreshToken), inp.sdk);
          if built.Some? {
            apiClient := built;
          }
        }
        // a throwing token read or construction is swallowed here
      }
      if apiClient.None? {
        return Err(InitFailed);
      }
      return Ok(apiClient.value);
    }

    /** `fetchApiClient()`: a rejection of the awaited setup propagates to the caller. */
    method FetchApiClient(inp: Inputs) returns (r: Result<Client, Error>)
      modifies this
      ensures Step(apiClient, r) == Fetch(old(apiClient), inp)
      ensures old(apiClient).Some? ==> apiClient == old(apiClient) && r == Ok(apiClient.value)
      ensures r != Err(StillNullAfterSetup)
      ensures attempts == old(attempts) + if EntersTry(old(apiClient), inp) then 1 else 0
    {
      if apiClient.None? {
        var setup := SetupApiClient(inp);
        if setup.Err? {
          return setup;
        }
      }
      if apiClient.None? {
        return Err(StillNullAfterSetup);
      }
      return Ok(apiClient.value);
    }
  }
}
