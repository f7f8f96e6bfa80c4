# DNS front end of a service-discovery registry, in Dafny

This project models the query-to-record pipeline of the sidecar's DNS server
(`sidecar/dns/server.go`). The server answers A, AAAA and SRV questions about
services registered in a discovery catalog. It works in four stages:

- It reads the question name as `<tags/protocol>*.<service>.service.<domain>`,
  as the SRV shorthand `_<service>._<tag>.service.<domain>`, or as
  `<id>.instance.<domain>`.
- It asks the discovery client for matching instances, then filters them by
  protocol or picks one by instance id.
- It turns each instance endpoint into an address and port.
- It builds A, AAAA and SRV records, shuffles them, and sets the response code.

Modules, leaf first:

| module | file | what it holds |
|---|---|---|
| `Wrappers` | Wrappers.dfy | `Option`, `Result` |
| `Wire` | Wire.dfy | response codes, record types, `IP` (`V4`/`V6` with the 4- and 16-byte forms), records, messages, `Fqdn` |
| `Decimals` | Decimals.dfy | the decimal port parser (`strconv.Atoi`'s grammar and range, with a 64-bit `int`) |
| `Endpoints` | Endpoints.dfy | `splitHostPort`, `splitHostPortTCPUDP`, `splitHostPortHTTP` |
| `Names` | Names.dfy | the name parser of `retrieveServices` |
| `Gateway` | Gateway.dfy | the tag/protocol split, protocol filter, instance-id scan and catalog dispatch |
| `Synthesis` | Synthesis.dfy | `createRecordsForInstances`' record loop and the `create*Record` helpers |
| `Shuffling` | Shuffling.dfy | `shuffleRecords` (forward Fisher–Yates) |
| `DnsServer` | DnsServer.dfy | `validate`, `handleQuestion`, `handleRequest`, and the empty/non-empty answer rule |
| `Scenarios` | Scenarios.dfy | worked requests against a one-instance catalog |

Collaborators become parameters:

- The discovery client is a function from filter to `Result<seq<Instance>, string>`.
- `net.SplitHostPort`, `net.ParseIP` and the host part of `url.Parse` are the
  three function fields of `NetLibrary`.
- `rand.Intn(i + 1)` is `draws(pos) % (i + 1)` for an arbitrary draw stream `draws`.
- A question carries its labels and a validity flag. These stand for the
  results of `dns.SplitDomainName` and `dns.IsDomainName`.

The model follows the code in these places. They are easy to misread:

- The parser tests the label before last (`labels[n-2]`) against "service"
  and "instance". The served domain therefore works only when it is a single
  label. `reviews.service.example.com.` is a name error
  (`Names.MultiLabelDomainUnmatched`, `Scenarios.MultiLabelDomainScenario`).
- The SRV shorthand is recognised only inside the "service" branch, with
  exactly four labels. The three-label form `_svc._tag.<domain>` reaches no
  lookup and ends as a name error (`Names.ShortShorthandUnmatched`).
- An unsupported question class is a server failure, not a format error.
- An SRV question on an instance name does no lookup. It ends as a name error
  through the empty-answer path. That path does not stop the question loop
  (`DnsServer.SrvInstanceQueryIsNameError`).
- AAAA questions are answered with A-typed records that carry the 16-byte
  address.
- The http default port follows the URL's scheme prefix, not the endpoint
  type. An `https` endpoint whose value has no scheme gets `http://`
  prepended and defaults to port 80.
- The SRV target is `id + ".instance." + domain + "."`. The domain is already
  fully qualified, so the target ends in `..` (`Synthesis.TargetDoubleDot`).
- `uint16(portNum)` is modelled exactly as the value modulo 2^16.

## Model

| member | source | states |
|---|---|---|
| `Wire.Fqdn` | sidecar/dns/server.go:414 | the configured domain becomes fully qualified: it ends in a dot, keeps the original as a prefix, and is unchanged when it already ended in one |
| `Wire.FqdnIdempotent` | sidecar/dns/server.go:414 | qualifying twice is the same as qualifying once |
| `Wire.ARecord` | sidecar/dns/server.go:367-378 | an A record carries the question name, type A, class INET, TTL 0 and the address as given; its type matches its data |
| `Wire.AAAARecord` | sidecar/dns/server.go:380-391 | an AAAA record carries the question name, type AAAA, class INET, TTL 0 and the 16-byte address; its type matches its data |
| `Wire.SRVRecord` | sidecar/dns/server.go:393-407 | an SRV record carries the question name, type SRV, class INET, TTL 0, priority 0, weight 0, the given port and target; its type matches its data |
| `Wire.BuildersInjective` | sidecar/dns/server.go:367-407 | the three builders never produce the same record, and each record determines the inputs it was built from |
| `Decimals.Atoi` | sidecar/dns/server.go:329-332 | a parsed port value lies in the 64-bit signed range; a negative value needs a leading minus |
| `Decimals.AtoiDecimal` | sidecar/dns/server.go:329-332 | the decimal text of any in-range natural parses back to that number |
| `Endpoints.ToUint16` | sidecar/dns/server.go:334 | the 16-bit conversion is the value modulo 2^16: congruent to it, and equal to it when already in range |
| `Endpoints.SplitHostPortTCPUDP` | sidecar/dns/server.go:314-335 | a bare host succeeds exactly when it is a literal IP, with port 0; a host:port succeeds exactly when both parts parse, the port truncated to 16 bits |
| `Endpoints.ExplicitPortRoundTrip` | sidecar/dns/server.go:316-334 | an endpoint "host:port" with an in-range decimal port yields that IP and that port |
| `Endpoints.WithScheme` | sidecar/dns/server.go:338-343 | the URL handed to the parser always starts with http:// or https://, is the value itself when it had a scheme, is exactly `http://` followed by the value when it had none, and always ends with the value |
| `Endpoints.SplitHostPortHTTP` | sidecar/dns/server.go:337-365 | success exactly when the URL host splits as for tcp/udp; an explicit port is kept, a zero port becomes 443 under https:// and 80 otherwise; the port is never 0 |
| `Endpoints.SplitHostPort` | sidecar/dns/server.go:303-312 | tcp/udp and http/https use their extractors, http/https never yield port 0, any other endpoint type is an error |
| `Names.ClassifyName` | sidecar/dns/server.go:158-189 | format error exactly for an invalid name, name error exactly for one or two labels, and a service lookup exactly when the label before last is "service" |
| `Names.InstanceLookupIff` | sidecar/dns/server.go:183-188 | an instance lookup of id happens exactly for three labels `id.instance.<domain>` asked with A or AAAA |
| `Names.ShorthandLookup` | sidecar/dns/server.go:169-175 | the SRV shorthand yields the first label without its underscore as service and the second without its underscore as the only token |
| `Names.ServiceNameParts` | sidecar/dns/server.go:176-179 | outside the shorthand, the service is the label before "service" and the tokens are all labels before it |
| `Names.ServiceNameRoundTrip` | sidecar/dns/server.go:176-180 | tokens + [service, "service", domain] parses back to that service and those tokens unless it has the shorthand's shape |
| `Names.ShorthandRoundTrip` | sidecar/dns/server.go:169-175 | `_svc._tag.service.<domain>` asked with SRV parses back to svc with the single token tag |
| `Names.InstanceNameRoundTrip` | sidecar/dns/server.go:183-187 | `id.instance.<domain>` asked with A or AAAA parses back to an instance lookup of id |
| `Names.ShortShorthandUnmatched` | sidecar/dns/server.go:168-189 | the three-label `_svc._tag.<domain>` selects no lookup |
| `Names.MultiLabelDomainUnmatched` | sidecar/dns/server.go:168 | `reviews.service.example.com.` selects no lookup, because the label before last is "example" |
| `Gateway.SplitTokensFrom` | sidecar/dns/server.go:197-208 | from any point of the token loop: an error exactly when the protocol tokens plus one already seen reach two; tags are appended in order; the protocol is the first protocol token, or the one already seen |
| `Gateway.SplitTokens` | sidecar/dns/server.go:193-209 | a format error exactly when two or more tokens are protocols; otherwise the tags are the non-protocol tokens in order and the protocol is the single protocol token, if any |
| `Gateway.KeepTypeSpec` | sidecar/dns/server.go:219-228 | the kept instances are a subsequence of the listing, all of the given endpoint type, and as many as there are of that type, so they are exactly the stable filter |
| `Gateway.ProtocolFilter` | sidecar/dns/server.go:218-230 | without a protocol the listing is returned unchanged; with one, the result is the stable subsequence of instances of that type |
| `Gateway.CompactByType` | sidecar/dns/server.go:219-228 | the in-place compaction, over a copy of the listing, computes the stable filter |
| `Gateway.ServiceQuery` | sidecar/dns/server.go:192-231 | two protocol tokens give a format error before the catalog is asked; otherwise the client is asked for the service and the tags, its error becomes a server failure, and its listing is returned filtered by the protocol |
| `Gateway.FirstWithId` | sidecar/dns/server.go:239-243 | the position found holds the id and no earlier position does; none is found only when no instance has the id |
| `Gateway.InstanceQuery` | sidecar/dns/server.go:233-246 | a listing error is a server failure; otherwise a singleton holding the first instance with the id, or a name error exactly when none has it |
| `Synthesis.LocateOne` | sidecar/dns/server.go:255-260 | an instance contributes an address exactly when its endpoint parses |
| `Synthesis.AddressFamiliesPartition` | sidecar/dns/server.go:262-282 | every located instance has exactly one of the two address forms |
| `Synthesis.Target` | sidecar/dns/server.go:274 | the SRV target is the instance id, then ".instance.", then the domain, then a dot |
| `Synthesis.TargetDoubleDot` | sidecar/dns/server.go:274 | with a fully qualified domain the target ends in two dots |
| `Synthesis.AddressRecord` | sidecar/dns/server.go:277-282 | an SRV extra is an A record with the 4-byte form for an IPv4 address, an AAAA record with the 16 bytes otherwise; class INET, TTL 0 |
| `Synthesis.InstanceRecords` | sidecar/dns/server.go:255-284 | one instance gives records exactly as its located form prescribes, and nothing for an unparsable endpoint or an unsupported type |
| `Synthesis.Synthesize` | sidecar/dns/server.go:248-285 | unparsable endpoints are skipped; A answers one A record per 4-byte address; AAAA answers one A-typed record per address without a 4-byte form; SRV gives per located instance one SRV answer (priority 0, weight 0, its port and target) and one aligned address extra |
| `Synthesis.SynthesisCounts` | sidecar/dns/server.go:262-284 | the A and AAAA answers together count the located instances, as do the SRV answers and the SRV extras |
| `Synthesis.TcpEndpointRecords` | sidecar/dns/server.go:254-283 | a tcp endpoint host:port with an IPv4 host answers A with that address and SRV with that port, the instance's id in the target, and the A record as extra |
| `Shuffling.ShuffleUpToPermutes` | sidecar/dns/server.go:419-424 | after any number of steps the sequence is a permutation of the input |
| `Shuffling.ShuffleUpToSuffix` | sidecar/dns/server.go:420-422 | the first k steps leave positions k onward untouched |
| `Shuffling.SwapMultiset` | sidecar/dns/server.go:422 | exchanging two positions permutes the records |
| `Shuffling.Shuffle` | sidecar/dns/server.go:419-424 | the shuffle is a permutation of its input: same length, same multiset |
| `Shuffling.ShuffleRecords` | sidecar/dns/server.go:419-424 | the in-place array loop computes the shuffle and preserves the multiset of records |
| `Shuffling.EveryOrderReachable` | sidecar/dns/server.go:419-424 | every permutation of the records is produced by some valid sequence of draws |
| `DnsServer.Validate` | sidecar/dns/server.go:409-417 | construction fails exactly when the discovery client is missing; otherwise the configured client is kept and the domain is `Fqdn` of the configured one: fully qualified, extending it, and unchanged when already qualified |
| `DnsServer.Draws` | sidecar/dns/server.go:420-421 | the draws for n records are n choices, the i-th within [0, i] |
| `DnsServer.RetrieveServices` | sidecar/dns/server.go:142-190 | a name error or format error from the parser is returned as is; a service name is answered by the service query and an instance name by the instance query; a name matching neither shape resolves to an empty list |
| `DnsServer.CreateRecords` | sidecar/dns/server.go:287-299 | no answers gives a name error that leaves the sections and draws alone; otherwise the rcode is success and the shuffled answers and extras are appended after the existing sections as permutations of the synthesized records; this step never ends the request |
| `DnsServer.HandleQuestion` | sidecar/dns/server.go:114-140 | an unsupported class or type is a server failure; a failure changes only the rcode, never to success; otherwise the rcode is success or name error; the flags are kept and the sections only grow; a supported question whose lookup succeeds never ends the request, is a name error exactly when the located instances synthesize no answer, and adds exactly the synthesized answers and extras, in some order |
| `DnsServer.Run` | sidecar/dns/server.go:100-107 | processing the questions in order keeps the flags and only appends to the sections; a stopped request carries a failure code, a completed one success or name error; no questions leave the response as it was |
| `DnsServer.HandleRequest` | sidecar/dns/server.go:93-112 | the reply is authoritative without recursion and begins its extra section with the request's; a request with no questions is answered with success and nothing added |
| `DnsServer.OneQuestionRequest` | sidecar/dns/server.go:93-107 | a one-question request, whatever extra records (an EDNS OPT record, say) it carries, is answered with that question's outcome on a fresh authoritative reply that starts with those extra records |
| `DnsServer.RetrievalErrorEndsQuestion` | sidecar/dns/server.go:132-136 | a lookup error sets its code, changes nothing else and ends the request |
| `DnsServer.FrontEndErrors` | sidecar/dns/server.go:116-167 | an unsupported class or type gives server failure, an invalid name gives format error, and one or two labels give name error; each ends the request, and the discovery client cannot change the outcome |
| `DnsServer.AmbiguousProtocolIsFormatError` | sidecar/dns/server.go:197-203 | a service name with two protocol tokens is a format error that ends the request, whatever the catalog holds |
| `DnsServer.CatalogErrorIsServerFailure` | sidecar/dns/server.go:211-216 | a failing catalog call for a service name is a server failure that ends the request |
| `DnsServer.InstanceQueryErrors` | sidecar/dns/server.go:233-246 | an instance query is a server failure when the listing fails and a name error ending the request when no instance has the id |
| `DnsServer.SrvInstanceQueryIsNameError` | sidecar/dns/server.go:183-189 | an SRV question on an instance name ends as a name error with no records, without ending the request |
| `DnsServer.SrvAnswersMatchExtras` | sidecar/dns/server.go:273-282 | an answered SRV question adds as many extras as answers, at least one |
| `DnsServer.FailureStopsRequest` | sidecar/dns/server.go:100-107 | once a question fails, the questions after it have no effect on the reply |
| `DnsServer.RunAppend` | sidecar/dns/server.go:100-107 | questions are handled in arrival order: after a prefix completes without failing, the remaining questions continue from the response and draw position it left |
| `DnsServer.HandleQuestionUpToOrder` | sidecar/dns/server.go:292-298 | the draws of a question affect only the order of the records it adds |
| `DnsServer.RunUpToOrder` | sidecar/dns/server.go:100-107 | over a whole question list, different draws give the same rcode and the same record multisets |
| `DnsServer.SameRequestSameRecords` | sidecar/dns/server.go:292-298 | asking the same request twice gives the same response code and the same records, in possibly different order |
| `Scenarios.ReviewsEndpoint` | sidecar/dns/server.go:337-365 | the http endpoint "192.168.1.10:9080" yields 192.168.1.10 and port 9080 |
| `Scenarios.ServiceAScenario` | sidecar/dns/server.go:142-190 | `reviews.service.amalgam8.` type A gets one A record for 192.168.1.10, TTL 0, success |
| `Scenarios.SrvShorthandScenario` | sidecar/dns/server.go:169-175 | `_reviews._http.service.amalgam8.` type SRV gets one SRV record with target `abc123.instance.amalgam8..`, port 9080, and the A record as extra |
| `Scenarios.UnknownInstanceScenario` | sidecar/dns/server.go:239-245 | `unknown-id.instance.amalgam8.` type A is a name error with no records |
| `Scenarios.MxScenario` | sidecar/dns/server.go:123-130 | a type-MX question is a server failure |
| `Scenarios.MultiLabelDomainScenario` | sidecar/dns/server.go:168 | under the domain `example.com.`, `reviews.service.example.com.` is a name error |

## Left out

- Server lifecycle: `NewServer`'s mux and UDP setup, `ListenAndServe`, `Shutdown` and `w.WriteMsg` (sidecar/dns/server.go:44-91, 108-111) are socket I/O. Logging is dropped.
- Library parsers: `net.SplitHostPort`, `net.ParseIP` and `url.Parse` are supplied through `NetLibrary`. `IP` distinguishes addresses with and without a 4-byte form, as `net.IP.To4` does. `dns.IsDomainName` and `dns.SplitDomainName` are supplied as the question's validity flag and labels, and the label count of the one is taken to be the length of the other. `dns.Fqdn` is modelled as "append a dot unless the name ends in one". Escaped trailing dots are not considered.
- `Msg.SetReply` and `Msg.SetRcode`: only the response code they set is modelled. Message id, opcode and the copied question section are not.
- The root name: a valid name with no labels, asked with class INET and type A, AAAA or SRV, makes the source index out of range. `Indexable` excludes exactly that question from `HandleQuestion`, so root-name questions with any other class or type are modelled.
- Run: asks `Indexable` of every question in the request, including those after a failing one, which the source never reads; a request whose later root-name question follows a failure is not covered.
- Randomness: `math/rand`'s global generator is replaced by an arbitrary draw stream. The model proves that any draws give a permutation and that every order is reachable. It does not model the generator's distribution.
- Discovery client: `ListInstances` is an arbitrary function. Tag matching and ID uniqueness are its responsibility. Each call is taken to return fresh storage: the source compacts the returned slice in place (sidecar/dns/server.go:219-228), which overwrites the client's own backing array when the client hands out a cached slice, and that write is not modelled. `SameRequestSameRecords` relies on this: its "unchanged catalog" is a client whose answers do not depend on earlier calls.
- `registry/client/test/platform/vms/controller.go` is a test-platform adapter over helpers that are not part of this model. `registry/store/istio/catalog.go` holds the catalog interface and a SHA-256 instance-id hash. Instance ids are opaque strings here.
- Port parsing: Go's `int` is taken to be 64 bits wide, so `strconv.Atoi` accepts exactly the 64-bit signed range. On a platform with a 32-bit `int` the range is narrower.
- Concurrency: each request is modelled on its own. The DNS library's concurrent dispatch is not modelled.
