# Runtime core of the XR Terraform provider, in Dafny

The Terraform resources of the XR provider all rest on a small shared runtime, and this project models it.

- **Resource-envelope codec.** Device API responses wrap their payload as `data.resourceId` and `data.content`. The codec extracts the two. It also synthesises the durable resource handle `deviceName + href` and recovers the href from a handle with `after`. `Find` is a linear search over Terraform strings. All of this is in `envelope.dfy`.
- **Channel bitset codec.** It packs lists of channel indices into a Go `int` mask with `setBit`, `clearBit`, `hasBit` and `setBits`, and unpacks positions 0..15 with `getBits`. Masks are words of 64 bits. This is in `bits.dfy` and `bitset.dfy`.
- **Command executor.** `doRequest` installs the timeout for the verb, adds the two headers and maps every status other than 200 to the text `status: N, body: B`. The fleet-scoped and device-scoped commands build their URLs on top of it. This is in `transport.dfy` and `directory.dfy`.
- **Device directory.** It is a `Client` class holding the name → id map. `GetDeviceIdFromName` answers from the cache first. On a miss it asks the naming service when `XRCM_NAMING_SERVICE` is set. Otherwise it runs a discovery that replaces the map with the online devices of the streamed listing, then looks again. This is in `directory.dfy`.
- **Authentication.** `SignIn` checks the credentials, fetches the token and forms `"Bearer " + access_token`. `SignOut` accepts only the literal confirmation `Signed out user`. This is in `auth.dfy`.

Supporting modules:
- `json.dfy` is a JSON datatype. A response body is its text plus the documents a decoder yields from it and why the decoder stopped.
- `numerals.dfy` has `%d` and `strconv.Atoi`.
- `text.dfy` has `strings.Index` and substring search.
- `wrappers.dfy` has Option and Result.

Three things are parameters:
- the transport, a function from a request to a reply (a failure, or a status and body);
- the naming service, a function from an endpoint and a device name to an optional id;
- the environment, a map of variables.

Go runtime panics become error values:
- a type assertion on a device listing entry fails;
- no href is present anywhere;
- an href is not a string.

The `Client` keeps two ghost logs: the requests sent and the naming lookups made. Its contracts use them to state what a call sends and, just as much, what it does not send.

Three behaviours of discovery, as the Go code has them:
- A successful discovery *replaces* the device map, so cached entries of devices no longer listed online disappear.
- A listing entry of the wrong shape makes the Go code panic; it is not skipped.
- A failed discovery leaves the map as it was; it does not empty it.

## Model

| member | source | states |
|---|---|---|
| Envelope.GetContent | internal/provider/utils.go:17-31 | an undecodable body gives the decoder's error; otherwise the top-level `content` object is returned exactly when it is an object, else a no-content error |
| Envelope.ContentLevels | internal/provider/utils.go:17-59 | on an envelope that is a `data` object and nothing beside it, `getContent` finds no content (it reads the top level), while `getResourceIdNContent` returns the `content` under `data` |
| Envelope.ResourceIdAndContent | internal/provider/utils.go:33-59 | an undecodable body gives both nil and the decoder's error; without a `data` object both are nil and there is no error; with one, each part is returned exactly when present, and there is no error exactly when both are present; distinct errors cover both parts missing, content missing, and resourceId missing |
| Envelope.Href | internal/provider/utils.go:73-77 | the href is `content.href` when that is a string, `resourceId.href` when `content.href` is nil and `resourceId.href` a string, a missing-href error when both are nil, and an error otherwise (the Go assertion panics) |
| Envelope.AssignHandle | internal/provider/utils.go:62-80 | fails exactly when the response has neither sub-object or an empty handle finds no href; on success the content is the response's, a non-empty handle is kept and an empty one becomes `deviceName + href` |
| Envelope.NoEnvelopeIsError | internal/provider/utils.go:66-70 | with neither sub-object, the result is the no-envelope error carrying the body text, whatever the handle holds |
| Envelope.HandleKept | internal/provider/utils.go:72-79 | a non-empty handle is left unchanged and the content is returned |
| Envelope.HandleSynthesised | internal/provider/utils.go:72-79 | an empty handle becomes `deviceName + href`, with `content.href` preferred over `resourceId.href`, and the content is returned |
| Envelope.NoHrefIsError | internal/provider/utils.go:72-74 | an empty handle with no href in either part is an error |
| Envelope.AssignHandleIdempotent | internal/provider/utils.go:62-80 | assigning the handle a second time with the same body changes nothing |
| Envelope.SetResourceId | internal/provider/utils.go:62-80 | through a non-nil reference, the handle and the returned content are those of the handle assignment, and on error the handle is untouched; with a nil reference, the content is returned unless both parts are missing |
| Envelope.After | internal/provider/utils.go:82-89 | the result is "" when `a` does not occur; otherwise it is the suffix of `value` from the first occurrence of `a`, and it starts with `a` |
| Text.Index | internal/provider/utils.go:84 | `strings.Index` is -1 exactly when the separator does not occur, and otherwise the character position of its first occurrence |
| Envelope.AfterEmptyIff | internal/provider/utils.go:82-89 | for a non-empty separator, `after` is "" exactly when the separator does not occur |
| Envelope.HandleYieldsHref | internal/provider/utils.go:82-89 | for a device name without '/' and an href starting with '/', `after(deviceName + href, "/")` is the href |
| Envelope.HandleExample | internal/provider/utils.go:82-89 | `after("dev1/ethernets/3", "/")` is "/ethernets/3" |
| Envelope.Find | internal/provider/utils.go:164-171 | the result is -1 exactly when no element's value equals `what`; otherwise it is the index of the first element that does |
| Bits.Uint | internal/provider/utils.go:194 | `uint(v)` keeps a non-negative index and maps a negative one to 2^63 or more, a shift that sets no bit |
| Bits.SetBit | internal/provider/utils.go:174-177 | bit i of `setBit(n, pos)` is set exactly when bit i of n is set or i is pos |
| Bits.ClearBit | internal/provider/utils.go:180-184 | bit i of `clearBit(n, pos)` is set exactly when bit i of n is set and i is not pos |
| Bits.HasBitAsWritten | internal/provider/utils.go:186-189 | the Go test `n & (1 << pos) > 0` holds exactly when pos < 63 and bit pos is set: bit 63 is never seen |
| Bits.HasBit | internal/provider/utils.go:186-189 | the corrected test (mask ≠ 0) holds exactly when pos < 64 and bit pos is set |
| Bits.HasBitMissesSignBit | internal/provider/utils.go:186-189 | the Go test `val > 0` does not see bit 63: on the mask with only bit 63 set, the corrected test holds and the signed one does not |
| Bits.HasBitAgreesBelowSignBit | internal/provider/utils.go:186-189 | below bit 63, the Go test and the corrected test agree |
| Bits.SetBitSame | internal/provider/utils.go:174-177 | after `setBit(n, p)` with p < 64, bit p is set |
| Bits.ClearBitSame | internal/provider/utils.go:180-184 | after `clearBit(n, p)`, bit p is not set |
| Bits.SetBitOther | internal/provider/utils.go:174-177 | `setBit(n, p)` leaves every other position as it was |
| Bits.ClearBitOther | internal/provider/utils.go:180-184 | `clearBit(n, p)` leaves every other position as it was |
| Bits.ClearUndoesSet | internal/provider/utils.go:174-184 | when bit p of n is clear, clearing it after setting it gives back n |
| Bits.SetBitIdempotent | internal/provider/utils.go:174-177 | setting a bit that is already set gives back n |
| Bitset.SetBits | internal/provider/utils.go:191-197 | the loop computes the fold of `setBit` over the positions, and bit p (0 ≤ p < 64) of the result is set exactly when p is in the list |
| Bitset.SetBitsMembership | internal/provider/utils.go:191-197 | bit p of the folded mask is set exactly when p is one of the positions |
| Bitset.SetBitsOrderFree | internal/provider/utils.go:191-197 | two lists with the same elements give masks with the same bits, whatever the order and repetitions |
| Bitset.IncreasingUnique | internal/provider/utils.go:199-207 | two strictly increasing lists with the same elements are equal, which makes the output of `getBits` the unique ascending listing of its set |
| Bitset.PositionsBelowSpec | internal/provider/utils.go:199-207 | the positions below k with their bit set are listed strictly ascending, and a number is listed exactly when it is below k and its bit is set |
| Bitset.GetBits | internal/provider/utils.go:199-207 | the loop's result is strictly ascending and holds exactly the positions 0..15 whose bit is set |
| Bitset.BitsRoundTrip | internal/provider/utils.go:191-207 | for indices in [0, 15], `getBits(setBits(S))` is strictly ascending and has exactly the elements of S |
| Bitset.SortedRoundTrip | internal/provider/utils.go:191-207 | a strictly ascending list of indices in [0, 15] comes back unchanged |
| Bitset.HighBitsInvisible | internal/provider/utils.go:201-205 | positions 16 and above never affect `getBits` |
| Numerals.IntToString | internal/xrcm_pf/plgdhttpclient.go:129 | `%d` writes a leading '-' exactly for a negative number, followed by digits that read back to its magnitude |
| Numerals.ParseNatToString | internal/xrcm_pf/plgdhttpclient.go:129 | reading back the decimal digits of n gives n |
| Numerals.NatToStringInjective | internal/xrcm_pf/plgdhttpclient.go:129 | distinct status codes have distinct decimal texts |
| Numerals.ThreeDigits | internal/xrcm_pf/plgdhttpclient.go:129 | a three-digit status code is rendered as three characters |
| Numerals.Atoi | internal/xrcm_pf/plgdhttpclient.go:53-64 | `strconv.Atoi` accepts a string exactly when it is an optional sign followed by a non-empty run of digits whose signed value is in the 64-bit range, and then returns that value |
| Numerals.AtoiExamples | internal/xrcm_pf/plgdhttpclient.go:53-64 | "", "+" and "7s" are rejected; "-12" reads as -12 and "+3" as 3 |
| Numerals.AtoiIntToString | internal/xrcm_pf/plgdhttpclient.go:53-64 | Atoi reads back every 64-bit integer `%d` writes |
| Transport.NewRequest | internal/xrcm_pf/plgdhttpclient.go:146-151 | an empty method means GET; a method made of HTTP token characters is kept; one with any other character is refused, and only then |
| Transport.TimeoutFor | internal/xrcm_pf/plgdhttpclient.go:104-110 | GET gets the GET timeout, DELETE the delete timeout, every other method the update timeout |
| Transport.Outgoing | internal/xrcm_pf/plgdhttpclient.go:101-102 | the request carries the JSON content type, the token as Authorization, the installed timeout, and the method, URL and body unchanged |
| Transport.Classify | internal/xrcm_pf/plgdhttpclient.go:114-132 | the body is returned exactly for a 200 answer; a transport failure is passed on; any other status gives no body and the text `status: N, body: B` |
| Transport.Message | internal/xrcm_pf/plgdhttpclient.go:129 | a status error reads `status: N, body: B`; an unresolved device reads `device not found : ` followed by the name, which the text gives back; missing credentials read `define username and password`; a refused sign-out reads as its body and a transport failure as its reason |
| Transport.IsNotFound | internal/provider/resource_carrier.go:503 | the callers' test `strings.Contains(err.Error(), "status: 404")` recognises every 404 answer, and also every status error whose body quotes `status: 404`, whatever the code |
| Transport.NotFoundRecognised | internal/xrcm_pf/plgdhttpclient.go:128-130 | a 404 answer, whatever its body, gives an error whose text contains `status: 404` |
| Transport.NotFoundInexact | internal/xrcm_pf/plgdhttpclient.go:128-130 | the substring test also recognises a 500 answer whose body is `status: 404` as not found |
| Transport.StatusPrefixDecides | internal/xrcm_pf/plgdhttpclient.go:128-130 | for three-digit codes, the error text starts with `status: 404` exactly when the code is 404 |
| Auth.TokenMap | internal/xrcm_pf/auth.go:39-47 | decoding into a `map[string]string` succeeds exactly for a single JSON null or an object of strings and nulls, with the same keys and the string values |
| Auth.TokenFrom | internal/xrcm_pf/auth.go:39-48 | a token is formed exactly when the response decodes into a map of strings, and it is `Bearer ` + its `access_token`; otherwise the decode error is returned |
| Auth.Confirmation | internal/xrcm_pf/auth.go:60-66 | a sign-out body is accepted exactly when it is `Signed out user`; any other body is the error, with the body as its text |
| Auth.SignIn | internal/xrcm_pf/auth.go:13-49 | without a username or a password the result is the missing-credentials error; with them, a 200 answer becomes the token that the token response gives (`Bearer ` + its `access_token`, empty when absent or null); a token always starts with `Bearer ` |
| Auth.SignInNeedsNoTransportWithoutCredentials | internal/xrcm_pf/auth.go:14-16 | without credentials the result does not depend on the transport |
| Auth.SignInPropagates | internal/xrcm_pf/auth.go:33-36 | a transport or status error on the token request is the result, and no token is formed |
| Auth.SignInToken | internal/xrcm_pf/auth.go:39-48 | a single object of strings with `access_token` = t gives the token `Bearer ` + t |
| Auth.SignInDecodeError | internal/xrcm_pf/auth.go:41-46 | a token response that does not decode into a map of strings gives a decode error, not a token |
| Auth.SignOut | internal/xrcm_pf/auth.go:52-67 | success exactly for a 200 answer whose body is `Signed out user`; another 200 body is the error, with the body as its text; transport and status errors pass through |
| Directory.Wrap64 | internal/xrcm_pf/plgdhttpclient.go:76-78 | the product of a duration in seconds and `time.Second` stays in the int64 range, congruent modulo 2^64, and unchanged when it fits |
| Directory.TimeoutSetting | internal/xrcm_pf/plgdhttpclient.go:53-64 | a variable that Atoi rejects gives the default number of seconds; a parsed one gives that many seconds, as the wrapped duration |
| Directory.TimeoutDefaults | internal/xrcm_pf/plgdhttpclient.go:53-64 | with the variables unset, the timeouts are 0 s for GET, 4 s for updates and 5 s for DELETE |
| Directory.TimeoutParsed | internal/xrcm_pf/plgdhttpclient.go:53-64 | a variable holding the decimal text of a number of seconds (no overflow) gives that many seconds |
| Directory.DeviceUrl | internal/xrcm_pf/plgdhttpclient.go:146 | the device-scoped URL is the fleet-scoped URL of `devices/<id>/<uri>/` |
| Directory.FleetUrl | internal/xrcm_pf/plgdhttpclient.go:185 | the fleet-scoped URL is the host, `/api/v1/` and the uri, each recoverable from the URL by its length |
| Directory.DecodedCount | internal/xrcm_pf/plgdhttpclient.go:208-215 | the decoder hands over all the leading decodable documents and stops at the first that is not, or at the end |
| Directory.Listing | internal/xrcm_pf/plgdhttpclient.go:203-221 | the only error is the malformed-listing one, and a successful listing has one device per decoded document |
| Directory.ListingSpec | internal/xrcm_pf/plgdhttpclient.go:203-221 | the listing holds the `result` of each document decoded before the decoder stopped, in order; it fails exactly when one of those has no `result` object |
| Directory.GetDevices | internal/xrcm_pf/plgdhttpclient.go:203-221 | the decoding loop computes the listing |
| Directory.IsOnline | internal/xrcm_pf/plgdhttpclient.go:249-254 | defined exactly when `metadata.connection.status` is reachable through objects and is a string; true exactly when it is "ONLINE" |
| Directory.NameAndId | internal/xrcm_pf/plgdhttpclient.go:256-261 | an offline device gives ("", ""); an online one gives its name and id, and it is an error when either is not a string |
| Directory.RegistersOnline | internal/xrcm_pf/plgdhttpclient.go:238-243 | a device enters the directory exactly when it is online with a non-empty string name and id |
| Directory.CatalogOf | internal/xrcm_pf/plgdhttpclient.go:236-243 | the only error is the malformed-listing one, and every entry of the built directory has a non-empty name and id |
| Directory.CatalogFails | internal/xrcm_pf/plgdhttpclient.go:238-243 | building the directory fails exactly when some listed entry is malformed |
| Directory.CatalogKeys | internal/xrcm_pf/plgdhttpclient.go:236-243 | the new directory holds exactly the names some online device registers |
| Directory.CatalogLast | internal/xrcm_pf/plgdhttpclient.go:238-243 | each name maps to the id of the last listed device registered under it |
| Directory.Catalog | internal/xrcm_pf/plgdhttpclient.go:236-243 | the insertion loop computes the catalog of the listing |
| Directory.Discovered | internal/xrcm_pf/plgdhttpclient.go:223-247 | a directory comes only from a 200 answer and has non-empty names and ids; a failed request reports its own error, and after a 200 answer the only error is a malformed listing |
| Directory.AfterDiscovery | internal/xrcm_pf/plgdhttpclient.go:223-247 | a failed request or a malformed listing leaves the directory as it was; a successful discovery replaces it whole |
| Directory.DiscoveryReplaces | internal/xrcm_pf/plgdhttpclient.go:223-247 | a successful discovery needs a 200 answer and a well-formed listing, and gives exactly the registered names with their last ids |
| Directory.DiscoveryExample | internal/xrcm_pf/plgdhttpclient.go:223-261 | a listing of one online device r1/abc and one offline device gives the directory {r1: abc} |
| Directory.ResolvedMap | internal/xrcm_pf/plgdhttpclient.go:263-288 | resolving a name keeps the directory on a hit or an unanswered naming lookup, adds exactly the answered name otherwise, and without a naming service gives the directory after discovery |
| Directory.ResolvedLookups | internal/xrcm_pf/plgdhttpclient.go:263-288 | resolution asks the naming service at most once: exactly on a miss with the service configured, for the configured endpoint and the name |
| Directory.Client.constructor | internal/xrcm_pf/plgdhttpclient.go:68-83 | the host or the default host, the credentials, the three timeouts from the environment, an HTTP timeout equal to the GET timeout, no token and an empty directory |
| Directory.Client.DoRequest | internal/xrcm_pf/plgdhttpclient.go:99-133 | installs the timeout for the method, sends exactly one request with the headers, and returns the classified answer |
| Directory.Client.Send | internal/xrcm_pf/plgdhttpclient.go:185-193 | a refused method sends nothing and leaves the timeout; an accepted one is sent through `doRequest` |
| Directory.Client.ExecuteHttpCommand | internal/xrcm_pf/plgdhttpclient.go:182-201 | the fleet command goes to `host/api/v1/<uri>`, with the send-or-refuse behaviour of `doRequest` |
| Directory.Client.ExecuteDeviceHttpCommandByID | internal/xrcm_pf/plgdhttpclient.go:162-180 | the device command goes to `host/api/v1/devices/<id>/<uri>/` |
| Directory.Client.DiscoverDevices | internal/xrcm_pf/plgdhttpclient.go:223-247 | sends the listing request once; on success the directory is replaced by the catalog; on any error it is left untouched and the error is returned |
| Directory.Client.GetDeviceIdFromName | internal/xrcm_pf/plgdhttpclient.go:263-288 | found exactly when the name is in the directory afterwards, with its id, and otherwise returns the name itself. A cache hit sends nothing and asks nothing. With the naming service, a miss asks once and never discovers: a failure leaves the directory, a success inserts the id. Without it, a miss discovers once, leaves the GET timeout installed, and looks again |
| Directory.Client.ExecuteDeviceHttpCommand | internal/xrcm_pf/plgdhttpclient.go:138-160 | the directory and the naming lookups are those of resolving the name; the requests sent are resolution's (the listing when it discovers) followed by the command, if any. An unresolved name gives `device not found : <name>` and the name as the device id and sends no command; a resolved name whose method is refused sends no command either; otherwise exactly the command to the device URL of its id is sent, under the timeout for its method, and its classified answer is the result |
| Directory.Client.SignIn | internal/xrcm_pf/auth.go:13-49 | the result is that of sign-in; without credentials nothing is sent; otherwise exactly the GET to `/oauth/token?client_id=test&audience=test` is sent |
| Directory.Client.SignOut | internal/xrcm_pf/auth.go:52-67 | the result is that of sign-out, after exactly one POST to `/signout` under the update timeout |
| Directory.NewClient | internal/xrcm_pf/plgdhttpclient.go:52-97 | a failed sign-in gives no client and the error; otherwise a fresh client with the token, host, credentials, timeouts, an empty directory, the GET timeout installed, and exactly the token request sent |

## Left out

- The HTTP transport, sockets, TLS and reading the response body are a function from request to reply. The process-wide TLS override of sign-in is a global side effect on a library object and is not modelled.
- The JSON byte parser (`json.Unmarshal`, `json.Decoder`) is not modelled. A body is its text plus the documents decoded from it and the reason decoding stopped. Numbers are kept as reals, with no floating-point rounding.
- The JSON encoding of the credentials is kept abstract as a `Credentials` payload. The marshalling error it can never produce is not modelled.
- The naming-service gRPC client (internal/service/xrns) is not part of this model. It is a function from endpoint and name to an optional id.
- Concurrent access to the device map is not modelled. Operations are sequential.
- Logging is not modelled.
- `GetTFState`, `LookupTFState` and `GetAndLookupTFState` read a state file into globals through a third-party library. They are not part of this model.
- `GetResource`, `GetResourcebyID`, the resource and data-source files and `provider.go` are not part of this model. They are plugin-framework glue over the executor.
- The empty directory that `provider.go` installs right after `NewClient` is folded into the constructor. The Go client is created with a nil map.
- Text.Index: strings are sequences of characters, so a position counts characters where Go's `strings.Index` counts bytes. The number differs on text that is not ASCII. `after` slices at the same place either way and returns the same suffix. Go strings that are not valid UTF-8 cannot be represented.
- URL parsing errors of `http.NewRequest` are not modelled: every URL is accepted.
- The exact text of the invalid-method error is not escaped with `%q` as Go escapes it.
- Transport.Message: the texts of transport errors belong to the Go libraries and are carried as data. Two texts are placeholders that Go never produces. The token decode error's text would come from `encoding/json`, and the model does not reproduce it. A malformed listing is a panic in Go and has no error text at all.
- Directory.Client.GetDeviceIdFromName: a malformed listing entry makes the Go process panic inside discovery. The model returns that as the discovery's error, which the lookup ignores, with the directory unchanged.
- Directory.Client.DiscoverDevices: the Go code empties the map before the insertion loop, so a panic inside the loop would leave a half-built map. The model replaces the map only once the catalog is complete.
- Every member assumes the Go `int` is 64 bits wide: the word width of the masks and the range of `strconv.Atoi`.
- In `net/http` a client timeout of 0 means no limit. The model keeps the timeout as a number of nanoseconds and does not interpret it.

## Findings

| source | as written | input that shows it | evidently intended | confidence | as-written member | corrected member |
|---|---|---|---|---|---|---|
| internal/provider/utils.go:186-189 | `hasBit` tests `n & (1 << pos) > 0` on a signed `int`, so bit 63 reads as clear even when it is set | n = 1 << 63 (math.MinInt64), pos = 63 | the bit is reported set exactly when it is set (`!= 0`) | not executed | Bits.HasBitMissesSignBit | Bits.HasBit (its ensures; Bits.HasBitAgreesBelowSignBit) |
