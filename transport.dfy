/**
 * What the HTTP client of the runtime core sends and what it makes of the answer:
 * the request `http.NewRequest` builds, the headers and timeout `doRequest` puts on it,
 * and the mapping of a response to a body or an error. The transport itself (sockets,
 * TLS, reading the body) is a parameter: it takes a request and gives back either a
 * failure or a status code with a body.
 */
module Transport {
  import opened Wrappers
  import opened Json
  import opened Text
  import opened Numerals

  /** The `Content-Type` header every request carries. */
  const ContentType: string := "application/json; charset=UTF-8"

  /** `AuthStruct`: the credentials the token request carries. */
  datatype AuthStruct = AuthStruct(username: string, password: string)

  /** A request body: raw bytes, or the JSON encoding of the credentials. */
  datatype Payload = Raw(bytes: string) | Credentials(auth: AuthStruct)

  /** A request as `http.NewRequest` returns it, before `doRequest` adds headers. */
  datatype Draft = Draft(verb: string, url: string, payload: Payload)

  /** A request as it reaches the transport. */
  datatype Request = Request(
    verb: string,
    url: string,
    contentType: string,
    authorization: string,
    timeout: int,
    payload: Payload)

  /** What the transport gives back: it failed (to send, or to read the body), or a status and body. */
  datatype Reply = Failed(reason: string) | Answered(status: int, body: Body)

  datatype Error =
    | InvalidMethod(verb: string)          // http.NewRequest refuses the method
    | TransportFailure(reason: string)     // HTTPClient.Do or reading the body failed
    | StatusError(code: int, body: string) // any status other than 200
    | MissingCredentials                   // SignIn without a username or a password
    | TokenUndecodable(cause: DecodeError) // the token response is not a map of strings
    | SignOutRefused(body: string)         // the sign-out body is not the confirmation
    | DeviceNotFound(name: string)         // no id for the device name
    | MalformedListing                     // the Go code panics on the device listing

  /** `err.Error()` for the errors whose text the system fixes. */
  function Message(e: Error): (r: string)
    ensures e.StatusError? ==> r == "status: " + IntToString(e.code) + ", body: " + e.body
    ensures e.DeviceNotFound? ==> IsPrefix("device not found : ", r) && r[|"device not found : "|..] == e.name
    ensures e.MissingCredentials? ==> r == "define username and password"
    // the texts a server or a library supplies are passed on unchanged
    ensures e.SignOutRefused? ==> r == e.body
    ensures e.TransportFailure? ==> r == e.reason
  {
    match e
    case InvalidMethod(m) => "net/http: invalid method \"" + m + "\""
    case TransportFailure(reason) => reason
    case StatusError(code, body) => "status: " + IntToString(code) + ", body: " + body
    case MissingCredentials => "define username and password"
    case TokenUndecodable(_) => "json: cannot unmarshal the token response"
    case SignOutRefused(body) => body
    case DeviceNotFound(name) => "device not found : " + name
    case MalformedListing => "device listing entry is not the expected shape"
  }

  /** An HTTP token character (section 3.2.6 of RFC 7230), the only characters a method may use. */
  predicate IsTokenChar(c: char)
  {
    || ('a' <= c <= 'z') || ('A' <= c <= 'Z') || ('0' <= c <= '9')
    || c in "!#$%&'*+-.^_`|~"
  }

  /**
   * `http.NewRequest(verb, url, body)`: an empty method means GET, and a method that is
   * not an HTTP token is refused. Parsing the URL is not modelled.
   */
  function NewRequest(verb: string, url: string, payload: Payload): (r: Result<Draft, Error>)
    ensures verb == "" ==> r == Success(Draft("GET", url, payload))
    ensures verb != "" && (forall i :: 0 <= i < |verb| ==> IsTokenChar(verb[i])) ==>
              r == Success(Draft(verb, url, payload))
    ensures r.Failure? <==> exists i :: 0 <= i < |verb| && !IsTokenChar(verb[i])
    ensures r.Failure? ==> r.error == InvalidMethod(verb)
  {
    if verb == "" then Success(Draft("GET", url, payload))
    else if forall i :: 0 <= i < |verb| ==> IsTokenChar(verb[i]) then Success(Draft(verb, url, payload))
    else Failure(InvalidMethod(verb))
  }

  /** The timeout `doRequest` installs for a method: GET and DELETE have their own, every other method the update one. */
  function TimeoutFor(verb: string, getTimeout: int, updateTimeout: int, deleteTimeout: int): (t: int)
    ensures verb == "GET" ==> t == getTimeout
    ensures verb == "DELETE" ==> t == deleteTimeout
    ensures verb != "GET" && verb != "DELETE" ==> t == updateTimeout
  {
    if verb == "GET" then getTimeout
    else if verb != "DELETE" then updateTimeout
    else deleteTimeout
  }

  /** The request `doRequest` hands the transport, with its two headers and the installed timeout. */
  function Outgoing(d: Draft, token: string, timeout: int): (q: Request)
    ensures q.verb == d.verb && q.url == d.url && q.payload == d.payload
    ensures q.contentType == ContentType && q.authorization == token && q.timeout == timeout
  {
    Request(d.verb, d.url, ContentType, token, timeout, d.payload)
  }

  /** The second half of `doRequest`: a 200 answer gives its body, anything else an error and no body. */
  function Classify(reply: Reply): (r: Result<Body, Error>)
    ensures r.Success? <==> reply.Answered? && reply.status == 200
    ensures r.Success? ==> r.value == reply.body
    ensures reply.Failed? ==> r == Failure(TransportFailure(reply.reason))
    ensures reply.Answered? && reply.status != 200 ==>
              r == Failure(StatusError(reply.status, reply.body.text))
              && Message(r.error) == "status: " + IntToString(reply.status) + ", body: " + reply.body.text
  {
    match reply
    case Failed(reason) => Failure(TransportFailure(reason))
    case Answered(status, body) =>
      if status == 200 then Success(body) else Failure(StatusError(status, body.text))
  }

  /** How callers recognise a missing resource: the error text contains "status: 404". */
  predicate IsNotFound(e: Error): (b: bool)
    // every 404 answer is recognised
    ensures e.StatusError? && e.code == 404 ==> b
    // and so is any status error whose body quotes the marker, whatever its code
    ensures e.StatusError? && Contains(e.body, "status: 404") ==> b
  {
    assert e.StatusError? && (e.code == 404 || Contains(e.body, "status: 404")) ==>
             Contains(Message(e), "status: 404") by {
      if e.StatusError? {
        assert IntToString(404) == "404" by {
          assert NatToString(404) == NatToString(40) + [DigitChar(4)];
          assert NatToString(40) == NatToString(4) + [DigitChar(0)];
        }
        assert e.code == 404 ==> OccursAt(Message(e), "status: 404", 0);
        ContainsSuffix("status: " + IntToString(e.code) + ", body: ", e.body, "status: 404");
      }
    }
    Contains(Message(e), "status: 404")
  }

  /** A 404 answer, whatever its body, is recognised as a missing resource. */
  lemma NotFoundRecognised(body: Body)
    ensures Classify(Answered(404, body)).Failure?
    ensures IsNotFound(Classify(Answered(404, body)).error)
  {
    var m := Message(Classify(Answered(404, body)).error);
    assert IntToString(404) == "404" by {
      assert NatToString(404) == NatToString(40) + [DigitChar(4)];
      assert NatToString(40) == NatToString(4) + [DigitChar(0)];
    }
    assert OccursAt(m, "status: 404", 0);
  }

  /**
   * For the three-digit status codes HTTP uses, the text starts with "status: 404" exactly
   * when the code is 404: no other status code's error text opens that way.
   */
  lemma StatusPrefixDecides(code: int, body: string)
    requires 100 <= code <= 999
    ensures IsPrefix("status: 404", Message(StatusError(code, body))) <==> code == 404
  {
    var m := Message(StatusError(code, body));
    ThreeDigits(code);
    ThreeDigits(404);
    assert m == "status: " + NatToString(code) + ", body: " + body;
    assert IntToString(404) == "404" by {
      assert NatToString(404) == NatToString(40) + [DigitChar(4)];
      assert NatToString(40) == NatToString(4) + [DigitChar(0)];
    }
    if IsPrefix("status: 404", m) {
      assert m[8..11] == NatToString(code);
      assert m[8..11] == "404";
      NatToStringInjective(code, 404);
    }
  }

  /**
   * The substring test is not exact: a 500 answer whose body quotes "status: 404" is also
   * taken for a missing resource.
   */
  lemma NotFoundInexact()
    ensures Classify(Answered(500, Body("status: 404", [], AtSyntaxError))) == Failure(StatusError(500, "status: 404"))
    ensures IsNotFound(StatusError(500, "status: 404"))
  {
    var m := Message(StatusError(500, "status: 404"));
    assert IntToString(500) == "500" by {
      assert NatToString(500) == NatToString(50) + [DigitChar(0)];
      assert NatToString(50) == NatToString(5) + [DigitChar(0)];
    }
    assert m == "status: 500, body: status: 404";
    assert OccursAt(m, "status: 404", 19);
  }
}
