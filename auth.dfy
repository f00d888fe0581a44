/**
 * Signing in and out of the controller. Sign-in fetches a bearer token with the
 * configured credentials; sign-out posts to the sign-out endpoint and insists on the
 * server's literal confirmation. Both go through `doRequest`, so they see the transport
 * only through `Transport.Classify`.
 */
module Auth {
  import opened Wrappers
  import opened Json
  import opened Transport

  /** The body the server sends back when it has signed the user out. */
  const SignOutConfirmation: string := "Signed out user"

  /** The token endpoint under a host. */
  function TokenUrl(host: string): string
  {
    host + "/oauth/token?client_id=test&audience=test"
  }

  /** The sign-out endpoint under a host. */
  function SignOutUrl(host: string): string
  {
    host + "/signout"
  }

  /** The credentials are usable: neither the username nor the password is empty. */
  predicate HasCredentials(auth: AuthStruct)
  {
    auth.username != "" && auth.password != ""
  }

  /** A JSON value `encoding/json` can store in a `string` map entry; `null` stores "". */
  predicate StringLike(v: Json)
  {
    v.JString? || v.JNull?
  }

  /**
   * `json.Unmarshal` into a `map[string]string`: an object of strings gives its entries,
   * `null` leaves the map nil (which reads like an empty map), and anything else is an error.
   */
  function TokenMap(b: Body): (r: Result<map<string, string>, DecodeError>)
    ensures r.Success? <==>
              Unmarshal(b).Success?
              && (Unmarshal(b).value.JNull?
                  || (Unmarshal(b).value.JObject? && forall k :: k in Unmarshal(b).value.fields ==> StringLike(Unmarshal(b).value.fields[k])))
    ensures r.Success? && Unmarshal(b).value.JObject? ==>
              var f := Unmarshal(b).value.fields;
              r.value.Keys == f.Keys && forall k :: k in f && f[k].JString? ==> r.value[k] == f[k].s
  {
    match Unmarshal(b)
    case Failure(e) => Failure(e)
    case Success(JNull) => Success(map[])
    case Success(JObject(f)) =>
      if forall k :: k in f ==> StringLike(f[k]) then
        Success(map k | k in f :: if f[k].JString? then f[k].s else "")
      else Failure(TypeError)
    case Success(_) => Failure(TypeError)
  }

  /** `respmap["access_token"]`: an absent key reads as "". */
  function AccessToken(m: map<string, string>): string
  {
    if "access_token" in m then m["access_token"] else ""
  }

  /** The token request `SignIn` sends: GET on the token endpoint, the credentials as its body. */
  function TokenRequest(host: string, auth: AuthStruct, authorization: string, timeout: int): Request
  {
    Outgoing(Draft("GET", TokenUrl(host), Credentials(auth)), authorization, timeout)
  }

  /** The end of `SignIn`: the token formed from a 200 body, or the decode error. */
  function TokenFrom(body: Body): (r: Result<string, Error>)
    ensures r.Success? <==> TokenMap(body).Success?
    ensures r.Success? ==> r.value == "Bearer " + AccessToken(TokenMap(body).value)
    ensures r.Failure? ==> r.error == TokenUndecodable(TokenMap(body).error)
  {
    match TokenMap(body)
    case Failure(e) => Failure(TokenUndecodable(e))
    case Success(m) => Success("Bearer " + AccessToken(m))
  }

  /** The end of `SignOut`: only the literal confirmation is success; any other body is the error. */
  function Confirmation(body: Body): (r: Option<Error>)
    ensures r.None? <==> body.text == SignOutConfirmation
    ensures r.Some? ==> r.value == SignOutRefused(body.text) && Message(r.value) == body.text
  {
    if body.text == SignOutConfirmation then None else Some(SignOutRefused(body.text))
  }

  /**
   * `SignIn`: the token `"Bearer " + access_token`, or why there is none. `authorization`
   * and `timeout` are what the client's `doRequest` puts on the request.
   */
  function SignIn(host: string, auth: AuthStruct, authorization: string, timeout: int, transport: Request -> Reply): (r: Result<string, Error>)
    ensures !HasCredentials(auth) ==> r == Failure(MissingCredentials)
    ensures r.Success? ==> |r.value| >= 7 && r.value[..7] == "Bearer "
    // with credentials, a 200 answer is turned into a token by TokenFrom, whatever it holds
    ensures HasCredentials(auth) && Classify(transport(TokenRequest(host, auth, authorization, timeout))).Success? ==>
              r == TokenFrom(Classify(transport(TokenRequest(host, auth, authorization, timeout))).value)
  {
    if !HasCredentials(auth) then Failure(MissingCredentials)
    else
      match Classify(transport(TokenRequest(host, auth, authorization, timeout)))
      case Failure(e) => Failure(e)
      case Success(body) => TokenFrom(body)
  }

  /** Without credentials no transport is consulted: every transport gives the same answer. */
  lemma SignInNeedsNoTransportWithoutCredentials(host: string, auth: AuthStruct, authorization: string, timeout: int,
                                                  t1: Request -> Reply, t2: Request -> Reply)
    requires !HasCredentials(auth)
    ensures SignIn(host, auth, authorization, timeout, t1) == SignIn(host, auth, authorization, timeout, t2)
  {
  }

  /** A transport failure or a status other than 200 on the token request is passed on unchanged. */
  lemma SignInPropagates(host: string, auth: AuthStruct, authorization: string, timeout: int, transport: Request -> Reply)
    requires HasCredentials(auth)
    requires Classify(transport(TokenRequest(host, auth, authorization, timeout))).Failure?
    ensures SignIn(host, auth, authorization, timeout, transport)
            == Failure(Classify(transport(TokenRequest(host, auth, authorization, timeout))).error)
  {
  }

  /** A token response that is a single object holding a string `access_token` gives `"Bearer "` and that string. */
  lemma SignInToken(host: string, auth: AuthStruct, authorization: string, timeout: int, transport: Request -> Reply,
                    fields: Obj, token: string)
    requires HasCredentials(auth)
    requires forall k :: k in fields ==> StringLike(fields[k])
    requires "access_token" in fields && fields["access_token"] == JString(token)
    requires transport(TokenRequest(host, auth, authorization, timeout)).Answered?
    requires transport(TokenRequest(host, auth, authorization, timeout)).status == 200
    requires transport(TokenRequest(host, auth, authorization, timeout)).body.docs == [JObject(fields)]
    requires transport(TokenRequest(host, auth, authorization, timeout)).body.stop == AtEof
    ensures SignIn(host, auth, authorization, timeout, transport) == Success("Bearer " + token)
  {
    var body := transport(TokenRequest(host, auth, authorization, timeout)).body;
    assert TokenMap(body).Success?;
    assert AccessToken(TokenMap(body).value) == token;
  }

  /** A token response that does not decode as a map of strings is an error, not a token. */
  lemma SignInDecodeError(host: string, auth: AuthStruct, authorization: string, timeout: int, transport: Request -> Reply)
    requires HasCredentials(auth)
    requires Classify(transport(TokenRequest(host, auth, authorization, timeout))).Success?
    requires TokenMap(transport(TokenRequest(host, auth, authorization, timeout)).body).Failure?
    ensures SignIn(host, auth, authorization, timeout, transport).Failure?
    ensures SignIn(host, auth, authorization, timeout, transport).error.TokenUndecodable?
  {
  }

  /** The sign-out request: POST on the sign-out endpoint with an empty body. */
  function SignOutRequest(host: string, authorization: string, timeout: int): Request
  {
    Outgoing(Draft("POST", SignOutUrl(host), Raw("")), authorization, timeout)
  }

  /** `SignOut`: None on success, otherwise the error. */
  function SignOut(host: string, authorization: string, timeout: int, transport: Request -> Reply): (r: Option<Error>)
    ensures r.None? <==>
              transport(SignOutRequest(host, authorization, timeout)).Answered?
              && transport(SignOutRequest(host, authorization, timeout)).status == 200
              && transport(SignOutRequest(host, authorization, timeout)).body.text == SignOutConfirmation
    ensures r.Some? && r.value.SignOutRefused? ==>
              var reply := transport(SignOutRequest(host, authorization, timeout));
              reply.Answered? && reply.status == 200
              && Message(r.value) == reply.body.text && Message(r.value) != SignOutConfirmation
    ensures r.Some? && !r.value.SignOutRefused? ==>
              Classify(transport(SignOutRequest(host, authorization, timeout))).Failure? &&
              r == Some(Classify(transport(SignOutRequest(host, authorization, timeout))).error)
  {
    match Classify(transport(SignOutRequest(host, authorization, timeout)))
    case Failure(e) => Some(e)
    case Success(body) => Confirmation(body)
  }
}
