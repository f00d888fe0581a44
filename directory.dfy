/**
 * The device directory and command executor: the client every resource uses to reach
 * the controller. It keeps the connection settings, the bearer token, one timeout per
 * kind of request and a cache from device names to device ids, which it refills from
 * the controller's device listing or, when one is configured, from a naming service.
 *
 * The environment is a map of variables, the transport a function from requests to
 * replies, and the naming service a function from (endpoint, device name) to an id or
 * nothing (a failed lookup).
 */
module Directory {
  import opened Wrappers
  import opened Json
  import opened Numerals
  import opened Transport
  import Auth

  /** The controller address used when the provider configuration gives none. */
  const DefaultHost: string := "http://localhost:19090"

  /** When this variable is set, device names are resolved by the naming service at its value. */
  const NamingServiceVar: string := "XRCM_NAMING_SERVICE"

  /** `time.Second`, in nanoseconds. */
  const Second: int := 1_000_000_000

  type Env = map<string, string>

  /** `os.Getenv(key)`: an unset variable reads as "". */
  function Getenv(env: Env, key: string): string
  {
    if key in env then env[key] else ""
  }

  /** A product of two `int64` values as Go computes it: modulo 2^64, in the signed range. */
  function Wrap64(x: int): (r: int)
    ensures MinInt64 <= r <= MaxInt64
    ensures MinInt64 <= x <= MaxInt64 ==> r == x
    ensures (r - x) % 0x1_0000_0000_0000_0000 == 0
  {
    (x - MinInt64) % 0x1_0000_0000_0000_0000 + MinInt64
  }

  /**
   * A timeout read from the environment as `NewClient` does: the variable parsed by
   * `strconv.Atoi` as a number of seconds, or the fallback when it does not parse.
   */
  function TimeoutSetting(env: Env, key: string, fallback: int): (d: int)
    ensures Atoi(Getenv(env, key)).None? ==> d == fallback * Second
    ensures Atoi(Getenv(env, key)).Some? ==> d == Wrap64(Atoi(Getenv(env, key)).value * Second)
  {
    match Atoi(Getenv(env, key))
    case Some(v) => Wrap64(v * Second)
    case None => fallback * Second
  }

  function GetTimeoutOf(env: Env): int
  {
    TimeoutSetting(env, "GET_TIMEOUT", 0)
  }

  function UpdateTimeoutOf(env: Env): int
  {
    TimeoutSetting(env, "UPDATE_TIMEOUT", 4)
  }

  function DeleteTimeoutOf(env: Env): int
  {
    TimeoutSetting(env, "DELETE_TIMEOUT", 5)
  }

  /** With none of the three variables set, the timeouts are 0 s for GET, 4 s for updates and 5 s for DELETE. */
  lemma TimeoutDefaults(env: Env)
    requires "GET_TIMEOUT" !in env && "UPDATE_TIMEOUT" !in env && "DELETE_TIMEOUT" !in env
    ensures GetTimeoutOf(env) == 0
    ensures UpdateTimeoutOf(env) == 4 * Second
    ensures DeleteTimeoutOf(env) == 5 * Second
  {
  }

  /** A variable holding the decimal text of a number of seconds gives that many seconds (when it does not overflow). */
  lemma TimeoutParsed(env: Env, key: string, fallback: int, seconds: int)
    requires key in env && env[key] == IntToString(seconds)
    requires -9_223_372_036 <= seconds <= 9_223_372_036
    ensures TimeoutSetting(env, key, fallback) == seconds * Second
  {
    AtoiIntToString(seconds);
  }

  /** The URL of a device-scoped command: the fleet-scoped URL of `devices/<id>/<uri>/`. */
  function DeviceUrl(host: string, deviceId: string, uri: string): (url: string)
    ensures url == FleetUrl(host, "devices/" + deviceId + "/" + uri + "/")
  {
    assert "/api/v1/devices/" == "/api/v1/" + "devices/";
    host + "/api/v1/devices/" + deviceId + "/" + uri + "/"
  }

  /** The URL of a fleet-scoped command: the host, the fixed API prefix, the uri, each recoverable. */
  function FleetUrl(host: string, uri: string): (url: string)
    ensures |url| == |host| + |"/api/v1/"| + |uri|
    ensures url[..|host|] == host && url[|host|..|host| + 8] == "/api/v1/" && url[|host| + 8..] == uri
  {
    host + "/api/v1/" + uri
  }

  // ----- the device listing -----

  /** A document a `json.Decoder` can decode into a `map[string]interface{}`: an object, or `null`. */
  predicate Decodable(doc: Json)
  {
    doc.JObject? || doc.JNull?
  }

  /** `data["result"].(map[string]interface{})`; None where the assertion would panic. */
  function ResultOf(doc: Json): Option<Obj>
  {
    AsObject(Get(if doc.JObject? then doc.fields else map[], "result"))
  }

  /** How many documents the decoder hands over before it stops: all the leading decodable ones. */
  function DecodedCount(docs: seq<Json>): (k: nat)
    ensures k <= |docs|
    ensures forall i :: 0 <= i < k ==> Decodable(docs[i])
    ensures k < |docs| ==> !Decodable(docs[k])
    decreases |docs|
  {
    if docs == [] || !Decodable(docs[0]) then 0 else 1 + DecodedCount(docs[1..])
  }

  /** `getDevices`: the `result` object of each document, in order; an error where the Go code panics. */
  function Listing(docs: seq<Json>): (r: Result<seq<Obj>, Error>)
    ensures r.Failure? ==> r.error == MalformedListing
    ensures r.Success? ==> |r.value| == DecodedCount(docs)
    decreases |docs|
  {
    if docs == [] || !Decodable(docs[0]) then Success([])
    else
      match ResultOf(docs[0])
      case None => Failure(MalformedListing)
      case Some(d) => Prepend([d], Listing(docs[1..]))
  }

  function Prepend(ds: seq<Obj>, r: Result<seq<Obj>, Error>): Result<seq<Obj>, Error>
  {
    match r
    case Failure(e) => Failure(e)
    case Success(rest) => Success(ds + rest)
  }

  /**
   * The listing keeps the documents decoded before the decoder stopped, in order, one
   * device per document; it fails exactly when one of those lacks a `result` object.
   */
  lemma {:induction false} ListingSpec(docs: seq<Json>)
    ensures Listing(docs).Success? <==> forall i :: 0 <= i < DecodedCount(docs) ==> ResultOf(docs[i]).Some?
    ensures Listing(docs).Success? ==>
              |Listing(docs).value| == DecodedCount(docs)
              && forall i :: 0 <= i < DecodedCount(docs) ==> Listing(docs).value[i] == ResultOf(docs[i]).value
    ensures Listing(docs).Failure? ==> Listing(docs).error == MalformedListing
    decreases |docs|
  {
    if docs != [] && Decodable(docs[0]) {
      ListingSpec(docs[1..]);
      assert forall i :: 1 <= i < |docs| ==> docs[1..][i - 1] == docs[i];
    }
  }

  /** `getDevices(body)`: decodes the documents one after the other until the decoder stops. */
  method GetDevices(body: Body) returns (r: Result<seq<Obj>, Error>)
    ensures r == Listing(body.docs)
  {
    var docs := body.docs;
    var devices: seq<Obj> := [];
    var i := 0;
    assert docs[i..] == docs;
    PrependNothing(Listing(docs));
    while i < |docs|
      invariant 0 <= i <= |docs|
      invariant Listing(docs) == Prepend(devices, Listing(docs[i..]))
    {
      var doc := docs[i];
      assert docs[i..][1..] == docs[i + 1..];
      if !Decodable(doc) {
        break;
      }
      match ResultOf(doc)
      case None =>
        return Failure(MalformedListing);
      case Some(d) =>
        PrependTwice(devices, [d], Listing(docs[i + 1..]));
        devices := devices + [d];
      i := i + 1;
    }
    assert Listing(docs[i..]) == Success([]);
    assert devices + [] == devices;
    return Success(devices);
  }

  lemma PrependNothing(r: Result<seq<Obj>, Error>)
    ensures Prepend([], r) == r
  {
    if r.Success? {
      assert [] + r.value == r.value;
    }
  }

  lemma PrependTwice(ds: seq<Obj>, es: seq<Obj>, r: Result<seq<Obj>, Error>)
    ensures Prepend(ds, Prepend(es, r)) == Prepend(ds + es, r)
  {
    if r.Success? {
      assert ds + (es + r.value) == (ds + es) + r.value;
    }
  }

  /**
   * `isOnline(d)`: whether `metadata.connection.status` is "ONLINE"; an error where one of
   * the Go code's type assertions would panic.
   */
  function IsOnline(d: Obj): (r: Result<bool, Error>)
    ensures r.Success? <==>
              && Get(d, "metadata").JObject?
              && Get(Get(d, "metadata").fields, "connection").JObject?
              && Get(Get(Get(d, "metadata").fields, "connection").fields, "status").JString?
    ensures r.Success? ==>
              (r.value <==> Get(Get(Get(d, "metadata").fields, "connection").fields, "status") == JString("ONLINE"))
    ensures r.Failure? ==> r.error == MalformedListing
  {
    match AsObject(Get(d, "metadata"))
    case None => Failure(MalformedListing)
    case Some(metadata) =>
      match AsObject(Get(metadata, "connection"))
      case None => Failure(MalformedListing)
      case Some(connection) =>
        match AsString(Get(connection, "status"))
        case None => Failure(MalformedListing)
        case Some(status) => Success(status == "ONLINE")
  }

  /** `getNameAndId(d)`: the name and id of an online device, ("", "") for any other. */
  function NameAndId(d: Obj): (r: Result<(string, string), Error>)
    ensures IsOnline(d) == Success(false) ==> r == Success(("", ""))
    ensures IsOnline(d) == Success(true) && Get(d, "name").JString? && Get(d, "id").JString? ==>
              r == Success((Get(d, "name").s, Get(d, "id").s))
    ensures r.Failure? <==> IsOnline(d).Failure? || (IsOnline(d) == Success(true) && !(Get(d, "name").JString? && Get(d, "id").JString?))
  {
    match IsOnline(d)
    case Failure(e) => Failure(e)
    case Success(online) =>
      if !online then Success(("", ""))
      else
        match (AsString(Get(d, "name")), AsString(Get(d, "id")))
        case (Some(name), Some(id)) => Success((name, id))
        case _ => Failure(MalformedListing)
  }

  /** Device d enters the directory under `name` with id `id`. */
  predicate Registers(d: Obj, name: string, id: string)
  {
    NameAndId(d) == Success((name, id)) && name != "" && id != ""
  }

  /** A device is registered exactly when it is online and carries a non-empty string name and id. */
  lemma RegistersOnline(d: Obj, name: string, id: string)
    ensures Registers(d, name, id) <==>
              && IsOnline(d) == Success(true)
              && Get(d, "name") == JString(name) && Get(d, "id") == JString(id)
              && name != "" && id != ""
  {
  }

  /** The map `DiscoverDevices` builds from a listing, entry by entry (a later entry wins). */
  function CatalogOf(devs: seq<Obj>): (r: Result<map<string, string>, Error>)
    ensures r.Failure? ==> r.error == MalformedListing
    ensures r.Success? ==> forall name :: name in r.value ==> name != "" && r.value[name] != ""
    decreases |devs|
  {
    if devs == [] then Success(map[])
    else
      match CatalogOf(devs[..|devs| - 1])
      case Failure(e) => Failure(e)
      case Success(m) =>
        match NameAndId(devs[|devs| - 1])
        case Failure(e) => Failure(e)
        case Success(p) => Success(if p.0 != "" && p.1 != "" then m[p.0 := p.1] else m)
  }

  /** The name of the last device in `devs` registered under it has this id. */
  ghost predicate LastRegistration(devs: seq<Obj>, name: string, id: string)
  {
    exists i :: 0 <= i < |devs| && Registers(devs[i], name, id)
                && forall j, other :: i < j < |devs| ==> !Registers(devs[j], name, other)
  }

  /** The catalog fails exactly when some entry of the listing is malformed. */
  lemma {:induction false} CatalogFails(devs: seq<Obj>)
    ensures CatalogOf(devs).Failure? <==> exists i :: 0 <= i < |devs| && NameAndId(devs[i]).Failure?
    ensures CatalogOf(devs).Failure? ==> CatalogOf(devs).error == MalformedListing
    decreases |devs|
  {
    if devs != [] {
      var init := devs[..|devs| - 1];
      CatalogFails(init);
      assert forall i :: 0 <= i < |init| ==> init[i] == devs[i];
    }
  }

  /** Some device of `devs` registers `name`. */
  ghost predicate RegisteredIn(devs: seq<Obj>, name: string)
  {
    exists i, id :: 0 <= i < |devs| && Registers(devs[i], name, id)
  }

  lemma RegisteredInSnoc(init: seq<Obj>, last: Obj, name: string)
    ensures RegisteredIn(init + [last], name) <==> RegisteredIn(init, name) || exists id :: Registers(last, name, id)
  {
    var devs := init + [last];
    if RegisteredIn(devs, name) {
      var i, id :| 0 <= i < |devs| && Registers(devs[i], name, id);
      if i < |init| {
        assert init[i] == devs[i];
      }
    }
    if RegisteredIn(init, name) {
      var i, id :| 0 <= i < |init| && Registers(init[i], name, id);
      assert devs[i] == init[i];
    }
    if exists id :: Registers(last, name, id) {
      var id :| Registers(last, name, id);
      assert Registers(devs[|init|], name, id);
    }
  }

  /**
   * A catalog holds exactly the names of the online devices with a non-empty name and
   * a non-empty id.
   */
  lemma {:induction false} CatalogKeys(devs: seq<Obj>)
    requires CatalogOf(devs).Success?
    ensures forall name :: name in CatalogOf(devs).value <==>
              exists i, id :: 0 <= i < |devs| && Registers(devs[i], name, id)
    decreases |devs|
  {
    if devs != [] {
      var init, last := devs[..|devs| - 1], devs[|devs| - 1];
      assert devs == init + [last];
      CatalogKeys(init);
      var p := NameAndId(last).value;
      forall name
        ensures name in CatalogOf(devs).value <==> RegisteredIn(devs, name)
      {
        RegisteredInSnoc(init, last, name);
        if p.0 != "" && p.1 != "" && name == p.0 {
          assert Registers(last, name, p.1);
        }
      }
    }
  }

  /** An entry that registers nothing under `name` keeps the last registration of `name` what it was. */
  lemma LastRegistrationKept(init: seq<Obj>, last: Obj, name: string, id: string)
    requires LastRegistration(init, name, id)
    requires forall other :: !Registers(last, name, other)
    ensures LastRegistration(init + [last], name, id)
  {
    var devs := init + [last];
    var i :| 0 <= i < |init| && Registers(init[i], name, id)
             && forall j, other :: i < j < |init| ==> !Registers(init[j], name, other);
    assert devs[i] == init[i];
    forall j, other | i < j < |devs|
      ensures !Registers(devs[j], name, other)
    {
      if j < |init| {
        assert devs[j] == init[j];
      }
    }
  }

  /** Each name in a catalog has the id of the last device registered under that name. */
  lemma {:induction false} CatalogLast(devs: seq<Obj>)
    requires CatalogOf(devs).Success?
    ensures forall name :: name in CatalogOf(devs).value ==>
              LastRegistration(devs, name, CatalogOf(devs).value[name])
    decreases |devs|
  {
    if devs != [] {
      var init, last := devs[..|devs| - 1], devs[|devs| - 1];
      assert devs == init + [last];
      CatalogLast(init);
      var m0, p := CatalogOf(init).value, NameAndId(last).value;
      var m := CatalogOf(devs).value;
      forall name | name in m
        ensures LastRegistration(devs, name, m[name])
      {
        if p.0 != "" && p.1 != "" && name == p.0 {
          assert Registers(devs[|devs| - 1], name, m[name]);
        } else {
          assert m[name] == m0[name];
          LastRegistrationKept(init, last, name, m[name]);
        }
      }
    }
  }

  /** The loop of `DiscoverDevices` that fills the fresh directory from the listing. */
  method Catalog(devs: seq<Obj>) returns (r: Result<map<string, string>, Error>)
    ensures r == CatalogOf(devs)
  {
    var m: map<string, string> := map[];
    var i := 0;
    while i < |devs|
      invariant 0 <= i <= |devs|
      invariant CatalogOf(devs[..i]) == Success(m)
    {
      assert devs[..i + 1][..i] == devs[..i];
      var entry := NameAndId(devs[i]);
      if entry.Failure? {
        CatalogFailurePersists(devs, i + 1);
        return Failure(entry.error);
      }
      var (name, id) := entry.value;
      if name != "" && id != "" {
        m := m[name := id];
      }
      i := i + 1;
    }
    assert devs[..i] == devs;
    return Success(m);
  }

  /** What discovery makes of the reply to the listing request: the new directory, or why there is none. */
  function Discovered(reply: Reply): (r: Result<map<string, string>, Error>)
    // only a 200 answer can give a directory, and every entry in it has a name and an id
    ensures r.Success? ==> reply.Answered? && reply.status == 200
    ensures r.Success? ==> forall name :: name in r.value ==> name != "" && r.value[name] != ""
    // a failed request reports its own error; after a 200 answer, only the listing can be at fault
    ensures Classify(reply).Failure? ==> r == Failure(Classify(reply).error)
    ensures Classify(reply).Success? && r.Failure? ==> r.error == MalformedListing
  {
    match Classify(reply)
    case Failure(e) => Failure(e)
    case Success(body) =>
      match Listing(body.docs)
      case Failure(e) => Failure(e)
      case Success(devs) => CatalogOf(devs)
  }

  /** The directory after discovery: replaced on success, untouched otherwise. */
  function AfterDiscovery(current: map<string, string>, reply: Reply): (m: map<string, string>)
    ensures Discovered(reply).Failure? ==> m == current
    ensures Discovered(reply).Success? ==> m == Discovered(reply).value
    ensures Classify(reply).Failure? ==> m == current
  {
    if Discovered(reply).Success? then Discovered(reply).value else current
  }

  /**
   * A successful discovery holds exactly the names that an online device of the listing
   * registers, each with the id of the last device listed under it.
   */
  lemma DiscoveryReplaces(reply: Reply)
    requires Discovered(reply).Success?
    ensures reply.Answered? && reply.status == 200 && Listing(reply.body.docs).Success?
    ensures var devs, m := Listing(reply.body.docs).value, Discovered(reply).value;
            && (forall name :: name in m <==> exists i, id :: 0 <= i < |devs| && Registers(devs[i], name, id))
            && (forall name :: name in m ==> LastRegistration(devs, name, m[name]))
  {
    var devs := Listing(reply.body.docs).value;
    CatalogKeys(devs);
    CatalogLast(devs);
  }

  function ListingDoc(name: string, id: string, status: string): Json
  {
    JObject(map["result" := JObject(map[
      "name" := JString(name),
      "id" := JString(id),
      "metadata" := JObject(map["connection" := JObject(map["status" := JString(status)])])])])
  }

  /** Two listed devices, one online and one offline: only the online one enters the directory. */
  lemma DiscoveryExample(text: string)
    ensures Discovered(Answered(200, Body(text, [ListingDoc("r1", "abc", "ONLINE"), ListingDoc("r2", "def", "OFFLINE")], AtEof)))
            == Success(map["r1" := "abc"])
  {
    var e1, e2 := ListingDoc("r1", "abc", "ONLINE"), ListingDoc("r2", "def", "OFFLINE");
    var d1, d2 := ResultOf(e1).value, ResultOf(e2).value;
    assert [e1, e2][1..] == [e2] && [e2][1..] == [];
    assert Listing([e2]) == Prepend([d2], Listing([]));
    assert [d2] + [] == [d2];
    assert Listing([e1, e2]) == Prepend([d1], Listing([e2]));
    assert [d1] + [d2] == [d1, d2];
    assert [d1, d2][..1] == [d1] && [d1][..0] == [];
    assert NameAndId(d1) == Success(("r1", "abc"));
    assert NameAndId(d2) == Success(("", ""));
    assert CatalogOf([d1]) == Success(map["r1" := "abc"]);
    assert CatalogOf([d1, d2]) == Success(map["r1" := "abc"]);
  }

  // ----- resolving a device name -----

  /** A miss with no naming service configured: the name is resolved by a discovery. */
  predicate ResolvesByDiscovery(m: map<string, string>, name: string, env: Env)
  {
    name !in m && NamingServiceVar !in env
  }

  /** The directory after resolving `name` against `m`. */
  function ResolvedMap(m: map<string, string>, name: string, env: Env,
                       naming: (string, string) -> Option<string>, listingReply: Reply): (r: map<string, string>)
    // a hit, or a miss the naming service cannot answer, leaves the directory as it was
    ensures name in m ==> r == m
    ensures name !in m && NamingServiceVar in env && naming(env[NamingServiceVar], name).None? ==> r == m
    // an answer from the naming service is cached and nothing else changes
    ensures name !in m && NamingServiceVar in env && naming(env[NamingServiceVar], name).Some? ==>
              name in r && r[name] == naming(env[NamingServiceVar], name).value
              && forall k :: k != name ==> (k in r <==> k in m) && (k in m ==> r[k] == m[k])
    ensures ResolvesByDiscovery(m, name, env) ==> r == AfterDiscovery(m, listingReply)
  {
    if name in m then m
    else if NamingServiceVar in env then
      match naming(env[NamingServiceVar], name)
      case None => m
      case Some(x) => m[name := x]
    else AfterDiscovery(m, listingReply)
  }

  /** The naming-service questions resolving `name` asks: one on a miss when it is configured. */
  function ResolvedLookups(m: map<string, string>, name: string, env: Env): (r: seq<(string, string)>)
    ensures |r| <= 1
    ensures r != [] <==> name !in m && NamingServiceVar in env
    ensures r != [] ==> r[0] == (env[NamingServiceVar], name)
  {
    if name !in m && NamingServiceVar in env then [(env[NamingServiceVar], name)] else []
  }

  // ----- the client -----

  /** `Client`: the connection settings, the token, the timeouts and the device directory. */
  class Client {
    var hostURL: string
    var httpTimeout: int              // HTTPClient.Timeout, set anew for every request
    var token: string
    var auth: AuthStruct
    var devicemap: map<string, string>
    var getTimeout: int
    var deleteTimeout: int
    var updateTimeout: int
    ghost var sent: seq<Request>                // every request handed to the transport
    ghost var lookups: seq<(string, string)>    // every (endpoint, name) asked of the naming service

    /**
     * The client `NewClient` builds before it signs in, with the empty directory the
     * provider installs right after.
     */
    constructor (host: Option<string>, username: string, password: string, env: Env)
      ensures hostURL == (if host.Some? then host.value else DefaultHost)
      ensures auth == AuthStruct(username, password) && token == ""
      ensures getTimeout == GetTimeoutOf(env) && updateTimeout == UpdateTimeoutOf(env)
      ensures deleteTimeout == DeleteTimeoutOf(env)
      ensures httpTimeout == getTimeout
      ensures devicemap == map[] && sent == [] && lookups == []
    {
      hostURL := if host.Some? then host.value else DefaultHost;
      auth := AuthStruct(username, password);
      token := "";
      getTimeout := GetTimeoutOf(env);
      updateTimeout := UpdateTimeoutOf(env);
      deleteTimeout := DeleteTimeoutOf(env);
      httpTimeout := getTimeout;
      devicemap := map[];
      sent := [];
      lookups := [];
    }

    /** The request discovery sends: GET on the fleet-scoped `devices` URL. */
    function ListingRequest(): Request
      reads this
    {
      Outgoing(Draft("GET", FleetUrl(hostURL, "devices"), Raw("")), token, getTimeout)
    }

    /** `doRequest(req)`: install the timeout for the method, add the headers, send, classify the answer. */
    method DoRequest(d: Draft, transport: Request -> Reply) returns (r: Result<Body, Error>)
      modifies this`httpTimeout, this`sent
      ensures httpTimeout == TimeoutFor(d.verb, getTimeout, updateTimeout, deleteTimeout)
      ensures sent == old(sent) + [Outgoing(d, token, httpTimeout)]
      ensures r == Classify(transport(Outgoing(d, token, httpTimeout)))
    {
      httpTimeout := TimeoutFor(d.verb, getTimeout, updateTimeout, deleteTimeout);
      var q := Outgoing(d, token, httpTimeout);
      sent := sent + [q];
      r := Classify(transport(q));
    }

    /** Build a request and, if `http.NewRequest` accepts it, send it through `doRequest`. */
    method Send(verb: string, url: string, payload: Payload, transport: Request -> Reply) returns (r: Result<Body, Error>)
      modifies this`httpTimeout, this`sent
      ensures NewRequest(verb, url, payload).Failure? ==>
                r == Failure(NewRequest(verb, url, payload).error)
                && httpTimeout == old(httpTimeout) && sent == old(sent)
      ensures NewRequest(verb, url, payload).Success? ==>
                var d := NewRequest(verb, url, payload).value;
                && httpTimeout == TimeoutFor(d.verb, getTimeout, updateTimeout, deleteTimeout)
                && sent == old(sent) + [Outgoing(d, token, httpTimeout)]
                && r == Classify(transport(Outgoing(d, token, httpTimeout)))
    {
      match NewRequest(verb, url, payload)
      case Failure(e) =>
        r := Failure(e);
      case Success(d) =>
        r := DoRequest(d, transport);
    }

    /** `ExecuteHttpCommand`: a fleet-scoped command on `host/api/v1/<uri>`. */
    method ExecuteHttpCommand(command: string, uri: string, payload: Payload, transport: Request -> Reply)
      returns (r: Result<Body, Error>)
      modifies this`httpTimeout, this`sent
      ensures NewRequest(command, FleetUrl(hostURL, uri), payload).Failure? ==>
                r == Failure(NewRequest(command, FleetUrl(hostURL, uri), payload).error)
                && httpTimeout == old(httpTimeout) && sent == old(sent)
      ensures NewRequest(command, FleetUrl(hostURL, uri), payload).Success? ==>
                var d := NewRequest(command, FleetUrl(hostURL, uri), payload).value;
                && httpTimeout == TimeoutFor(d.verb, getTimeout, updateTimeout, deleteTimeout)
                && sent == old(sent) + [Outgoing(d, token, httpTimeout)]
                && r == Classify(transport(Outgoing(d, token, httpTimeout)))
    {
      r := Send(command, FleetUrl(hostURL, uri), payload, transport);
    }

    /** `ExecuteDeviceHttpCommandByID`: a command on `host/api/v1/devices/<id>/<uri>/`. */
    method ExecuteDeviceHttpCommandByID(deviceId: string, command: string, uri: string, payload: Payload, transport: Request -> Reply)
      returns (r: Result<Body, Error>)
      modifies this`httpTimeout, this`sent
      ensures NewRequest(command, DeviceUrl(hostURL, deviceId, uri), payload).Failure? ==>
                r == Failure(NewRequest(command, DeviceUrl(hostURL, deviceId, uri), payload).error)
                && httpTimeout == old(httpTimeout) && sent == old(sent)
      ensures NewRequest(command, DeviceUrl(hostURL, deviceId, uri), payload).Success? ==>
                var d := NewRequest(command, DeviceUrl(hostURL, deviceId, uri), payload).value;
                && httpTimeout == TimeoutFor(d.verb, getTimeout, updateTimeout, deleteTimeout)
                && sent == old(sent) + [Outgoing(d, token, httpTimeout)]
                && r == Classify(transport(Outgoing(d, token, httpTimeout)))
    {
      r := Send(command, DeviceUrl(hostURL, deviceId, uri), payload, transport);
    }

    /**
     * `DiscoverDevices`: list the devices and, if that works, replace the directory with
     * the online ones; on an error the directory is left as it was.
     */
    method DiscoverDevices(transport: Request -> Reply) returns (err: Option<Error>)
      modifies this`httpTimeout, this`sent, this`devicemap
      ensures httpTimeout == getTimeout
      ensures sent == old(sent) + [ListingRequest()]
      ensures devicemap == AfterDiscovery(old(devicemap), transport(ListingRequest()))
      ensures err.None? <==> Discovered(transport(ListingRequest())).Success?
      ensures err.Some? ==> err.value == Discovered(transport(ListingRequest())).error
    {
      assert forall i :: 0 <= i < |"GET"| ==> IsTokenChar("GET"[i]);
      var res := ExecuteHttpCommand("GET", "devices", Raw(""), transport);
      if res.Failure? {
        return Some(res.error);
      }
      var listing := GetDevices(res.value);
      if listing.Failure? {
        return Some(listing.error);
      }
      var catalog := Catalog(listing.value);
      if catalog.Failure? {
        return Some(catalog.error);
      }
      devicemap := catalog.value;
      return None;
    }

    /**
     * `GetDeviceIdFromName`: the cached id; on a miss, the naming service when it is
     * configured (a failed lookup is final), otherwise a fresh discovery and a second look.
     */
    method GetDeviceIdFromName(name: string, env: Env, naming: (string, string) -> Option<string>, transport: Request -> Reply)
      returns (id: string, found: bool)
      modifies this`httpTimeout, this`sent, this`devicemap, this`lookups
      // the id reported as found is always the directory's entry for the name
      ensures found <==> name in devicemap
      ensures found ==> id == devicemap[name]
      ensures !found ==> id == name
      // a cache hit touches nothing
      ensures name in old(devicemap) ==>
                devicemap == old(devicemap) && sent == old(sent) && lookups == old(lookups)
                && httpTimeout == old(httpTimeout)
      // a miss with the naming service configured asks it once and never discovers
      ensures name !in old(devicemap) && NamingServiceVar in env ==>
                && lookups == old(lookups) + [(env[NamingServiceVar], name)]
                && sent == old(sent) && httpTimeout == old(httpTimeout)
                && devicemap == (match naming(env[NamingServiceVar], name)
                                 case None => old(devicemap)
                                 case Some(x) => old(devicemap)[name := x])
      // a miss without it discovers and looks again
      ensures name !in old(devicemap) && NamingServiceVar !in env ==>
                && lookups == old(lookups)
                && sent == old(sent) + [ListingRequest()]
                && httpTimeout == getTimeout
                && devicemap == AfterDiscovery(old(devicemap), transport(ListingRequest()))
      // the three cases at once
      ensures devicemap == ResolvedMap(old(devicemap), name, env, naming, transport(ListingRequest()))
      ensures lookups == old(lookups) + ResolvedLookups(old(devicemap), name, env)
    {
      if name in devicemap {
        return devicemap[name], true;
      }
      if NamingServiceVar in env {
        var endpoint := env[NamingServiceVar];
        lookups := lookups + [(endpoint, name)];
        match naming(endpoint, name)
        case None =>
          return name, false;
        case Some(x) =>
          devicemap := devicemap[name := x];
          return x, true;
      }
      var _ := DiscoverDevices(transport);
      if name in devicemap {
        return devicemap[name], true;
      }
      return name, false;
    }

    /**
     * `ExecuteDeviceHttpCommand`: resolve the device name, then run the command on the
     * device; an unresolvable name is an error, reported with the name as the device id.
     */
    method ExecuteDeviceHttpCommand(name: string, command: string, uri: string, payload: Payload,
                                    env: Env, naming: (string, string) -> Option<string>, transport: Request -> Reply)
      returns (r: Result<Body, Error>, deviceId: string)
      modifies this`httpTimeout, this`sent, this`devicemap, this`lookups
      // resolution first: the directory and the naming-service questions it leaves behind
      ensures devicemap == ResolvedMap(old(devicemap), name, env, naming, transport(ListingRequest()))
      ensures lookups == old(lookups) + ResolvedLookups(old(devicemap), name, env)
      // the requests resolution sends (a listing when it discovers), and the timeout it leaves
      ensures var discovers := ResolvesByDiscovery(old(devicemap), name, env);
              var pre := old(sent) + (if discovers then [ListingRequest()] else []);
              var preTimeout := if discovers then getTimeout else old(httpTimeout);
              && (name !in devicemap ==>
                    r == Failure(DeviceNotFound(name)) && deviceId == name
                    && sent == pre && httpTimeout == preTimeout)
              && (name in devicemap ==> deviceId == devicemap[name])
              && (name in devicemap && NewRequest(command, DeviceUrl(hostURL, deviceId, uri), payload).Failure? ==>
                    r == Failure(NewRequest(command, DeviceUrl(hostURL, deviceId, uri), payload).error)
                    && sent == pre && httpTimeout == preTimeout)
              && (name in devicemap && NewRequest(command, DeviceUrl(hostURL, deviceId, uri), payload).Success? ==>
                    var d := NewRequest(command, DeviceUrl(hostURL, deviceId, uri), payload).value;
                    && httpTimeout == TimeoutFor(d.verb, getTimeout, updateTimeout, deleteTimeout)
                    && sent == pre + [Outgoing(d, token, httpTimeout)]
                    && r == Classify(transport(Outgoing(d, token, httpTimeout))))
    {
      var found;
      deviceId, found := GetDeviceIdFromName(name, env, naming, transport);
      if !found {
        return Failure(DeviceNotFound(name)), name;
      }
      r := ExecuteDeviceHttpCommandByID(deviceId, command, uri, payload, transport);
    }

    /** `SignIn`: fetch a token with the configured credentials. */
    method SignIn(transport: Request -> Reply) returns (r: Result<string, Error>)
      modifies this`httpTimeout, this`sent
      ensures r == Auth.SignIn(hostURL, auth, token, getTimeout, transport)
      ensures !Auth.HasCredentials(auth) ==> sent == old(sent) && httpTimeout == old(httpTimeout)
      ensures Auth.HasCredentials(auth) ==>
                sent == old(sent) + [Auth.TokenRequest(hostURL, auth, token, getTimeout)] && httpTimeout == getTimeout
    {
      if !Auth.HasCredentials(auth) {
        return Failure(MissingCredentials);
      }
      var res := DoRequest(Draft("GET", Auth.TokenUrl(hostURL), Credentials(auth)), transport);
      match res
      case Failure(e) =>
        r := Failure(e);
      case Success(body) =>
        r := Auth.TokenFrom(body);
    }

    /** `SignOut`: revoke the token; only the literal confirmation counts as success. */
    method SignOut(transport: Request -> Reply) returns (err: Option<Error>)
      modifies this`httpTimeout, this`sent
      ensures err == Auth.SignOut(hostURL, token, updateTimeout, transport)
      ensures sent == old(sent) + [Auth.SignOutRequest(hostURL, token, updateTimeout)]
      ensures httpTimeout == updateTimeout
    {
      var res := DoRequest(Draft("POST", Auth.SignOutUrl(hostURL), Raw("")), transport);
      match res
      case Failure(e) =>
        err := Some(e);
      case Success(body) =>
        err := Auth.Confirmation(body);
    }
  }

  /** Once an entry of the listing is malformed, the catalog of every longer prefix fails too. */
  lemma {:induction false} CatalogFailurePersists(devs: seq<Obj>, k: nat)
    requires k <= |devs|
    requires CatalogOf(devs[..k]).Failure?
    ensures CatalogOf(devs) == CatalogOf(devs[..k])
    decreases |devs| - k
  {
    if k < |devs| {
      assert devs[..k + 1][..k] == devs[..k];
      CatalogFailurePersists(devs, k + 1);
    } else {
      assert devs[..k] == devs;
    }
  }

  /** The host `NewClient` talks to. */
  function HostOf(host: Option<string>): string
  {
    if host.Some? then host.value else DefaultHost
  }

  /**
   * `NewClient`: read the timeouts, sign in, and keep the token; a failed sign-in gives no
   * client. The fresh client carries the empty directory the provider installs right after.
   */
  method NewClient(host: Option<string>, username: string, password: string, env: Env, transport: Request -> Reply)
    returns (c: Client?, err: Option<Error>)
    ensures Auth.SignIn(HostOf(host), AuthStruct(username, password), "", GetTimeoutOf(env), transport).Failure? ==>
              c == null
              && err == Some(Auth.SignIn(HostOf(host), AuthStruct(username, password), "", GetTimeoutOf(env), transport).error)
    ensures Auth.SignIn(HostOf(host), AuthStruct(username, password), "", GetTimeoutOf(env), transport).Success? ==>
              && err.None? && c != null && fresh(c)
              && c.token == Auth.SignIn(HostOf(host), AuthStruct(username, password), "", GetTimeoutOf(env), transport).value
              && c.hostURL == HostOf(host) && c.auth == AuthStruct(username, password)
              && c.getTimeout == GetTimeoutOf(env) && c.updateTimeout == UpdateTimeoutOf(env)
              && c.deleteTimeout == DeleteTimeoutOf(env)
              && c.devicemap == map[]
              && c.httpTimeout == c.getTimeout && c.lookups == []
              && c.sent == [Auth.TokenRequest(HostOf(host), AuthStruct(username, password), "", GetTimeoutOf(env))]
  {
    var client := new Client(host, username, password, env);
    var signedIn := client.SignIn(transport);
    if signedIn.Failure? {
      return null, Some(signedIn.error);
    }
    client.token := signedIn.value;
    return client, None;
  }
}
