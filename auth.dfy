/** The session store: the authentication provider's three state fields and
    the persisted token slot, driven by login, register and logout. */
module Auth {
  import opened Wrappers
  import Api
  import Storage

  /** The body of a successful authentication response; the token is read
      from its `access_token` field, which a reply may lack. */
  datatype AuthReply = AuthReply(accessToken: Option<string>, user: Api.User)

  /** What `localStorage.setItem` stores for a value: the string itself, or
      the text "undefined" for a missing value, which it converts to a
      string. */
  function Stored(value: Option<string>): (s: string)
    ensures value.Some? ==> s == value.value
    ensures value.None? ==> s == "undefined"
  {
    match value
    case Some(v) => v
    case None => "undefined"
  }

  /** The request body sent to an authentication endpoint. */
  datatype AuthBody =
    | LoginBody(email: string, password: string)
    | RegisterBody(email: string, password: string, name: string)

  /** An error raised by the HTTP call, passed back to the caller unchanged. */
  datatype ApiError = ApiError(message: string)

  class AuthProvider {
    /** The browser storage the provider persists the token in. */
    const storage: Storage.LocalStorage
    var user: Option<Api.User>
    var token: Option<string>
    var isAuthenticated: bool

    /** Mounting the provider: the token is read from storage, the user is
        not known yet, and the session counts as active iff the stored token
        is present. */
    constructor (storage: Storage.LocalStorage)
      ensures this.storage == storage
      ensures token == storage.token && user == None
      ensures isAuthenticated <==> Storage.Truthy(storage.token)
    {
      this.storage := storage;
      user := None;
      token := storage.token;
      isAuthenticated := Storage.Truthy(storage.token);
    }

    /** The in-memory token and the persisted one agree. */
    ghost predicate InSync()
      reads this, storage
    {
      token == storage.token
    }

    /** The state after a logout. */
    ghost predicate LoggedOut()
      reads this, storage
    {
      storage.token == None && token == None && user == None && !isAuthenticated
    }

    /** Shared by login and register: every update follows the awaited call,
        so a failed call changes nothing and hands its error back. */
    method Establish(reply: Result<AuthReply, ApiError>) returns (outcome: Outcome<ApiError>)
      modifies this, storage
      ensures reply.Success? ==>
                && outcome == Pass
                && storage.token == Some(Stored(reply.value.accessToken))
                && token == reply.value.accessToken
                && user == Some(reply.value.user)
                && isAuthenticated
      ensures reply.Failure? ==>
                && outcome == Fail(reply.error)
                && storage.token == old(storage.token)
                && token == old(token) && user == old(user)
                && isAuthenticated == old(isAuthenticated)
    {
      match reply
      case Failure(e) =>
        outcome := Fail(e);
      case Success(data) =>
        storage.SetToken(Stored(data.accessToken));
        token := data.accessToken;
        user := Some(data.user);
        isAuthenticated := true;
        outcome := Pass;
    }

    /** `login`: posts the credentials to the login endpoint; `reply` is what
        that call resolved or rejected with. */
    method Login(email: string, password: string, reply: Result<AuthReply, ApiError>)
      returns (sent: Api.Endpoint, body: AuthBody, outcome: Outcome<ApiError>)
      modifies this, storage
      ensures sent == Api.LoginEndpoint && body == LoginBody(email, password)
      ensures reply.Success? ==>
                && outcome == Pass
                && storage.token == Some(Stored(reply.value.accessToken))
                && token == reply.value.accessToken
                && (InSync() <==> reply.value.accessToken.Some?)
                && user == Some(reply.value.user)
                && isAuthenticated
      ensures reply.Failure? ==>
                && outcome == Fail(reply.error)
                && storage.token == old(storage.token)
                && token == old(token) && user == old(user)
                && isAuthenticated == old(isAuthenticated)
    {
      sent, body := Api.LoginEndpoint, LoginBody(email, password);
      outcome := Establish(reply);
    }

    /** `register`: the same contract as login, on the register endpoint. */
    method Register(email: string, password: string, name: string, reply: Result<AuthReply, ApiError>)
      returns (sent: Api.Endpoint, body: AuthBody, outcome: Outcome<ApiError>)
      modifies this, storage
      ensures sent == Api.RegisterEndpoint && body == RegisterBody(email, password, name)
      ensures reply.Success? ==>
                && outcome == Pass
                && storage.token == Some(Stored(reply.value.accessToken))
                && token == reply.value.accessToken
                && (InSync() <==> reply.value.accessToken.Some?)
                && user == Some(reply.value.user)
                && isAuthenticated
      ensures reply.Failure? ==>
                && outcome == Fail(reply.error)
                && storage.token == old(storage.token)
                && token == old(token) && user == old(user)
                && isAuthenticated == old(isAuthenticated)
    {
      sent, body := Api.RegisterEndpoint, RegisterBody(email, password, name);
      outcome := Establish(reply);
    }

    /** `logout`: removes the stored token and clears the state. The new state
        does not depend on the old one, so a second logout changes nothing. */
    method Logout()
      modifies this, storage
      ensures LoggedOut() && InSync()
    {
      storage.RemoveToken();
      token := None;
      user := None;
      isAuthenticated := false;
    }
  }

  const UseAuthError := "useAuth must be used within an AuthProvider"

  /** `useAuth`: the provider in scope, or an error when there is none. */
  function UseAuth(context: Option<AuthProvider>): (r: Result<AuthProvider, string>)
    ensures r.Success? <==> context.Some?
    ensures r.Success? ==> r.value == context.value
    ensures r.Failure? ==> r.error == UseAuthError
  {
    match context
    case Some(p) => Success(p)
    case None => Failure(UseAuthError)
  }

  /** A client of the provider: after logout, whatever the state was, the
      interceptor attaches no credential, and logging out a second time
      leaves every field as the first logout left it. */
  method LogoutThenRequest(p: AuthProvider, config: Api.RequestConfig)
    modifies p, p.storage, config`headers
    ensures p.LoggedOut()
    ensures config.headers == old(config.headers)
  {
    p.Logout();
    ghost var once := (p.user, p.token, p.isAuthenticated, p.storage.token);
    var _ := Api.Intercept(config, p.storage);
    p.Logout();
    assert (p.user, p.token, p.isAuthenticated, p.storage.token) == once;
  }

  /** A login whose reply lacks `access_token`: the session counts as active,
      the in-memory token is absent while storage holds the text
      "undefined", and the next request carries `Bearer undefined`. */
  method TokenlessLoginThenRequest(p: AuthProvider, email: string, password: string,
                                   user: Api.User, config: Api.RequestConfig)
    modifies p, p.storage, config`headers
    ensures p.isAuthenticated && p.token == None && !p.InSync()
    ensures p.storage.token == Some("undefined")
    ensures config.headers == old(config.headers)["Authorization" := "Bearer undefined"]
  {
    var _, _, _ := p.Login(email, password, Success(AuthReply(None, user)));
    assert p.storage.token == Some("undefined");
    assert |"undefined"| > 0 && "Bearer " + "undefined" == "Bearer undefined";
    var _ := Api.Intercept(config, p.storage);
  }
}
