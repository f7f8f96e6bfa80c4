/** The catalog side of a question (sidecar/dns/server.go,
    retrieveInstancesForServiceQuery and retrieveInstancesForInstanceQuery):
    separating the protocol filter from the tags, asking the discovery
    client, and narrowing its answer by protocol or by instance id. */
module Gateway {
  import opened Wrappers
  import opened Wire
  import opened Endpoints

  datatype Instance = Instance(id: string, endpoint: Endpoint)

  /** What the discovery client is asked for; the empty filter lists all. */
  datatype InstanceFilter = InstanceFilter(serviceName: string, tags: seq<string>)

  const FullListing := InstanceFilter("", [])

  /** The discovery client: the instances matching a filter, in its order,
      or its error text. Tag matching is the client's business. */
  type Discovery = InstanceFilter -> Result<seq<Instance>, string>

  // ---- Tag/protocol tokens ------------------------------------------------

  /** The tokens that name a protocol, in order. */
  function ProtocolTokens(tokens: seq<string>): (r: seq<string>)
    ensures |r| <= |tokens|
    ensures forall k :: 0 <= k < |r| ==> r[k] in Protocols
  {
    if tokens == [] then []
    else (if tokens[0] in Protocols then [tokens[0]] else []) + ProtocolTokens(tokens[1..])
  }

  /** The tokens that are tags, in order. */
  function TagTokens(tokens: seq<string>): (r: seq<string>)
    ensures |r| <= |tokens|
    ensures forall k :: 0 <= k < |r| ==> r[k] !in Protocols
  {
    if tokens == [] then []
    else (if tokens[0] in Protocols then [] else [tokens[0]]) + TagTokens(tokens[1..])
  }

  datatype TokenSplit = TokenSplit(protocol: Option<string>, tags: seq<string>)

  /** The token loop from a point on, with the protocol and tags seen so far. */
  function SplitTokensFrom(tokens: seq<string>, protocol: Option<string>, tags: seq<string>): (r: Result<TokenSplit, Rcode>)
    ensures r.Err? <==> |ProtocolTokens(tokens)| + (if protocol.Some? then 1 else 0) >= 2
    ensures r.Err? ==> r.error == FormatError
    ensures r.Ok? ==> r.value.tags == tags + TagTokens(tokens)
    ensures r.Ok? ==> r.value.protocol == (if ProtocolTokens(tokens) == [] then protocol else Some(ProtocolTokens(tokens)[0]))
  {
    if tokens == [] then Ok(TokenSplit(protocol, tags))
    else if tokens[0] in Protocols then
      if protocol.Some? then Err(FormatError)
      else SplitTokensFrom(tokens[1..], Some(tokens[0]), tags)
    else
      assert tags + [tokens[0]] + TagTokens(tokens[1..]) == tags + TagTokens(tokens);
      SplitTokensFrom(tokens[1..], protocol, tags + [tokens[0]])
  }

  /** Separates the protocol filter from the tags: a second protocol token is
      a format error, every other token is a tag kept in order. */
  function SplitTokens(tokens: seq<string>): (r: Result<TokenSplit, Rcode>)
    ensures r.Err? <==> |ProtocolTokens(tokens)| >= 2
    ensures r.Err? ==> r.error == FormatError
    ensures r.Ok? ==> r.value.tags == TagTokens(tokens)
    ensures r.Ok? ==> (r.value.protocol.None? <==> ProtocolTokens(tokens) == [])
    ensures r.Ok? && r.value.protocol.Some? ==> ProtocolTokens(tokens) == [r.value.protocol.value]
  {
    SplitTokensFrom(tokens, None, [])
  }

  // ---- Protocol filter ----------------------------------------------------

  /** a is b with some elements left out, order kept. */
  predicate IsSubsequence<T(==)>(a: seq<T>, b: seq<T>)
    decreases |b|
  {
    if a == [] then true
    else if b == [] then false
    else if a[0] == b[0] then IsSubsequence(a[1..], b[1..])
    else IsSubsequence(a, b[1..])
  }

  /** How many instances have the given endpoint type. */
  function CountType(instances: seq<Instance>, etype: string): nat {
    if instances == [] then 0
    else (if instances[0].endpoint.etype == etype then 1 else 0) + CountType(instances[1..], etype)
  }

  /** The instances of one endpoint type, in their original order. */
  function KeepType(instances: seq<Instance>, etype: string): seq<Instance> {
    if instances == [] then []
    else (if instances[0].endpoint.etype == etype then [instances[0]] else []) + KeepType(instances[1..], etype)
  }

  /** The kept instances are a subsequence of the listing, all of the given
      type, and as many as there are: exactly the stable filter. */
  lemma {:induction false} KeepTypeSpec(instances: seq<Instance>, etype: string)
    ensures IsSubsequence(KeepType(instances, etype), instances)
    ensures forall k :: 0 <= k < |KeepType(instances, etype)| ==> KeepType(instances, etype)[k].endpoint.etype == etype
    ensures |KeepType(instances, etype)| == CountType(instances, etype)
    decreases |instances|
  {
    if instances != [] {
      var rest := KeepType(instances[1..], etype);
      KeepTypeSpec(instances[1..], etype);
      if instances[0].endpoint.etype == etype {
        assert KeepType(instances, etype) == [instances[0]] + rest;
        assert ([instances[0]] + rest)[1..] == rest;
      } else {
        assert KeepType(instances, etype) == rest;
        assert rest != [] ==> rest[0] != instances[0];
      }
    }
  }

  /** The filter applied to the catalog's answer: none without a protocol. */
  function ProtocolFilter(instances: seq<Instance>, protocol: Option<string>): (r: seq<Instance>)
    ensures protocol.None? ==> r == instances
    ensures IsSubsequence(r, instances)
    ensures protocol.Some? ==> |r| == CountType(instances, protocol.value)
    ensures protocol.Some? ==> forall k :: 0 <= k < |r| ==> r[k].endpoint.etype == protocol.value
  {
    match protocol
    case None => SubsequenceRefl(instances); instances
    case Some(p) => KeepTypeSpec(instances, p); KeepType(instances, p)
  }

  lemma SubsequenceRefl<T>(s: seq<T>)
    ensures IsSubsequence(s, s)
  {
  }

  lemma {:induction false} KeepTypeAppend(a: seq<Instance>, x: Instance, etype: string)
    ensures KeepType(a + [x], etype) == KeepType(a, etype) + (if x.endpoint.etype == etype then [x] else [])
    decreases |a|
  {
    if a != [] {
      assert (a + [x])[1..] == a[1..] + [x];
      KeepTypeAppend(a[1..], x, etype);
    }
  }

  /** The source's in-place compaction: survivors are moved to the front of
      the slice, which is then cut to their number. The array here is a copy
      of the listing; the client's own storage is not written. */
  method CompactByType(instances: seq<Instance>, etype: string) returns (r: seq<Instance>)
    ensures r == KeepType(instances, etype)
  {
    var a := new Instance[|instances|](i requires 0 <= i < |instances| => instances[i]);
    var k := 0;
    var i := 0;
    while i < |instances|
      invariant 0 <= k <= i <= |instances|
      invariant a[..k] == KeepType(instances[..i], etype)
      invariant forall j :: i <= j < |instances| ==> a[j] == instances[j]
    {
      var x := a[i];
      assert instances[..i + 1] == instances[..i] + [x];
      KeepTypeAppend(instances[..i], x, etype);
      if x.endpoint.etype == etype {
        a[k] := x;
        k := k + 1;
      }
      i := i + 1;
    }
    assert instances[..i] == instances;
    r := a[..k];
  }

  // ---- Catalog dispatch ---------------------------------------------------

  /** A service query: split the tokens, ask the client for the service and
      tags, then keep the instances of the requested protocol. */
  function ServiceQuery(discovery: Discovery, service: string, tokens: seq<string>): (r: Result<seq<Instance>, Rcode>)
    ensures |ProtocolTokens(tokens)| >= 2 ==> r == Err(FormatError)
    ensures |ProtocolTokens(tokens)| < 2 ==>
      var listing := discovery(InstanceFilter(service, TagTokens(tokens)));
      && (listing.Err? <==> r.Err?)
      && (r.Err? ==> r.error == ServerFailure)
      && (r.Ok? ==> IsSubsequence(r.value, listing.value))
      && (r.Ok? && ProtocolTokens(tokens) == [] ==> r.value == listing.value)
      && (r.Ok? && |ProtocolTokens(tokens)| == 1 ==>
            var p := ProtocolTokens(tokens)[0];
            |r.value| == CountType(listing.value, p) &&
            forall k :: 0 <= k < |r.value| ==> r.value[k].endpoint.etype == p)
  {
    match SplitTokens(tokens)
    case Err(code) => Err(code)
    case Ok(split) =>
      match discovery(InstanceFilter(service, split.tags))
      case Err(_) => Err(ServerFailure)
      case Ok(listing) => Ok(ProtocolFilter(listing, split.protocol))
  }

  /** The position of the first instance with the given id, if any. */
  function FirstWithId(instances: seq<Instance>, id: string): (k: Option<nat>)
    ensures k.Some? ==> k.value < |instances| && instances[k.value].id == id
    ensures k.Some? ==> forall j :: 0 <= j < k.value ==> instances[j].id != id
    ensures k.None? ==> forall j :: 0 <= j < |instances| ==> instances[j].id != id
  {
    if instances == [] then None
    else if instances[0].id == id then Some(0)
    else match FirstWithId(instances[1..], id)
      case None => None
      case Some(k) => Some(k + 1)
  }

  /** An instance-id query: scan the full listing for the id. */
  function InstanceQuery(discovery: Discovery, id: string): (r: Result<seq<Instance>, Rcode>)
    ensures discovery(FullListing).Err? ==> r == Err(ServerFailure)
    ensures discovery(FullListing).Ok? ==>
      var all := discovery(FullListing).value;
      && (r.Ok? <==> exists k :: 0 <= k < |all| && all[k].id == id)
      && (r.Err? ==> r.error == NameError)
      && (r.Ok? ==> exists k :: 0 <= k < |all| && r.value == [all[k]] && all[k].id == id &&
                      forall j :: 0 <= j < k ==> all[j].id != id)
  {
    match discovery(FullListing)
    case Err(_) => Err(ServerFailure)
    case Ok(all) =>
      match FirstWithId(all, id)
      case None => Err(NameError)
      case Some(k) => Ok([all[k]])
  }
}
