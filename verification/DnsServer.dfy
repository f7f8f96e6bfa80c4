/** The response assembler (sidecar/dns/server.go, validate, handleRequest,
    handleQuestion, retrieveServices, createRecordsForInstances): checks a
    question, resolves it to instances, synthesizes and shuffles records,
    and sets the response code, question after question. */
module DnsServer {
  import opened Wrappers
  import opened Wire
  import opened Names
  import opened Endpoints
  import opened Gateway
  import opened Synthesis
  import opened Shuffling

  datatype Config = Config(discovery: Option<Discovery>, port: uint16, domain: string)

  /** A configured server; the domain is fully qualified once validated. */
  datatype Server = Server(discovery: Discovery, port: uint16, domain: string, net: NetLibrary)

  /** Configuration check: a discovery client is required and the domain is
      made fully qualified. */
  function Validate(config: Config, net: NetLibrary): (r: Result<Server, string>)
    ensures r.Err? <==> config.discovery.None?
    ensures r.Ok? ==> IsFqdn(r.value.domain) && r.value.port == config.port
    ensures r.Ok? ==> |config.domain| <= |r.value.domain| <= |config.domain| + 1 && r.value.domain[..|config.domain|] == config.domain
    ensures r.Ok? ==> r.value.discovery == config.discovery.value && r.value.domain == Fqdn(config.domain) && r.value.net == net
  {
    match config.discovery
    case None => Err("Discovery client is nil")
    case Some(d) => Ok(Server(d, config.port, Fqdn(config.domain), net))
  }

  // ---- Randomness ---------------------------------------------------------

  /** The choices of one shuffle of n records, taken from the generator's
      draws starting at position pos: the i-th is a draw reduced into [0, i]. */
  function Draws(draws: nat -> nat, pos: nat, n: nat): (c: seq<nat>)
    ensures |c| == n && ValidChoices(c)
  {
    if n == 0 then []
    else Draws(draws, pos, n - 1) + [draws(pos + n - 1) % n]
  }

  // ---- One question -------------------------------------------------------

  /** The state after a question: the response so far, whether the question
      ended the request, and how many draws have been used. */
  datatype Step = Step(response: Response, failed: bool, pos: nat)

  /** The source reads the labels of a name only once the question's class
      and type have been accepted. */
  predicate Indexable(q: Question) {
    q.qclass == ClassINET && SupportedType(q.qtype) ==> HasLabels(q.labels, q.validName)
  }

  /** Names the question to a list of instances, or to the error code. */
  function RetrieveServices(server: Server, q: Question): (r: Result<seq<Instance>, Rcode>)
    requires HasLabels(q.labels, q.validName)
    ensures ClassifyName(q.labels, q.validName, q.qtype).Err? ==> r == Err(ClassifyName(q.labels, q.validName, q.qtype).error)
    ensures ClassifyName(q.labels, q.validName, q.qtype) == Ok(Unmatched) ==> r == Ok([])
    ensures forall service, tokens :: ClassifyName(q.labels, q.validName, q.qtype) == Ok(ServiceLookup(service, tokens)) ==>
              r == ServiceQuery(server.discovery, service, tokens)
    ensures forall id :: ClassifyName(q.labels, q.validName, q.qtype) == Ok(InstanceLookup(id)) ==>
              r == InstanceQuery(server.discovery, id)
    ensures r.Err? ==> r.error != Success
  {
    match ClassifyName(q.labels, q.validName, q.qtype)
    case Err(code) => Err(code)
    case Ok(ServiceLookup(service, tokens)) => ServiceQuery(server.discovery, service, tokens)
    case Ok(InstanceLookup(id)) => InstanceQuery(server.discovery, id)
    case Ok(Unmatched) => Ok([])
  }

  /** Builds the records; an empty answer is a name error that leaves the
      sections alone, otherwise both lists are shuffled and appended. This
      step never ends the request. */
  function CreateRecords(server: Server, q: Question, resp: Response, instances: seq<Instance>, draws: nat -> nat, pos: nat): (r: Step)
    ensures !r.failed
    ensures var records := Synthesize(server.net, q.qtype, q.name, server.domain, instances);
      && (|records.0| == 0 ==> r == Step(resp.(rcode := NameError), false, pos))
      && (|records.0| > 0 ==>
            && r.response.rcode == Success
            && r.response.authoritative == resp.authoritative
            && r.response.recursionAvailable == resp.recursionAvailable
            && |r.response.answer| == |resp.answer| + |records.0|
            && |r.response.extra| == |resp.extra| + |records.1|
            && r.response.answer[..|resp.answer|] == resp.answer
            && r.response.extra[..|resp.extra|] == resp.extra
            && multiset(r.response.answer[|resp.answer|..]) == multiset(records.0)
            && multiset(r.response.extra[|resp.extra|..]) == multiset(records.1)
            && r.pos == pos + |records.0| + |records.1|)
  {
    var (answer, extra) := Synthesize(server.net, q.qtype, q.name, server.domain, instances);
    if |answer| == 0 then Step(resp.(rcode := NameError), false, pos)
    else
      var answer' := Shuffle(answer, Draws(draws, pos, |answer|));
      var extra' := Shuffle(extra, Draws(draws, pos + |answer|, |extra|));
      assert (resp.answer + answer')[|resp.answer|..] == answer';
      assert (resp.extra + extra')[|resp.extra|..] == extra';
      Step(resp.(answer := resp.answer + answer', extra := resp.extra + extra', rcode := Success),
           false, pos + |answer| + |extra|)
  }

  /** One question: class INET and type A, AAAA or SRV are required, then the
      name is resolved and the records built. Every failure sets its code and
      ends the request; the response sections only ever grow. */
  function HandleQuestion(server: Server, q: Question, resp: Response, draws: nat -> nat, pos: nat): (r: Step)
    requires Indexable(q)
    ensures q.qclass != ClassINET || !SupportedType(q.qtype) ==> r == Step(resp.(rcode := ServerFailure), true, pos)
    ensures r.failed ==> r == Step(resp.(rcode := r.response.rcode), true, pos) && r.response.rcode != Success
    ensures !r.failed ==> r.response.rcode == Success || r.response.rcode == NameError
    ensures r.response.authoritative == resp.authoritative
    ensures r.response.recursionAvailable == resp.recursionAvailable
    ensures resp.answer <= r.response.answer && resp.extra <= r.response.extra
    ensures r.pos >= pos
    ensures q.qclass == ClassINET && SupportedType(q.qtype) && RetrieveServices(server, q).Ok? ==>
      var records := Synthesize(server.net, q.qtype, q.name, server.domain, RetrieveServices(server, q).value);
      && !r.failed
      && r.response.rcode == (if |records.0| == 0 then NameError else Success)
      && multiset(r.response.answer[|resp.answer|..]) == multiset(records.0)
      && multiset(r.response.extra[|resp.extra|..]) == multiset(records.1)
  {
    if q.qclass != ClassINET then Step(resp.(rcode := ServerFailure), true, pos)
    else if !SupportedType(q.qtype) then Step(resp.(rcode := ServerFailure), true, pos)
    else
      match RetrieveServices(server, q)
      case Err(code) => Step(resp.(rcode := code), true, pos)
      case Ok(instances) => CreateRecords(server, q, resp, instances, draws, pos)
  }

  // ---- The request --------------------------------------------------------

  predicate AllIndexable(questions: seq<Question>) {
    forall k :: 0 <= k < |questions| ==> Indexable(questions[k])
  }

  /** Questions in arrival order, stopping after the first that fails. */
  function Run(server: Server, questions: seq<Question>, resp: Response, draws: nat -> nat, pos: nat): (r: Step)
    requires AllIndexable(questions)
    ensures r.response.authoritative == resp.authoritative
    ensures r.response.recursionAvailable == resp.recursionAvailable
    ensures resp.answer <= r.response.answer && resp.extra <= r.response.extra
    ensures questions == [] ==> r == Step(resp, false, pos)
    ensures r.failed ==> r.response.rcode != Success
    ensures questions != [] && !r.failed ==> r.response.rcode == Success || r.response.rcode == NameError
    decreases |questions|
  {
    if questions == [] then Step(resp, false, pos)
    else
      var s := HandleQuestion(server, questions[0], resp, draws, pos);
      if s.failed then s
      else Run(server, questions[1..], s.response, draws, s.pos)
  }

  /** The reply to a request: authoritative, no recursion, the request's
      extra section first, then whatever the questions add. */
  function HandleRequest(server: Server, request: Request, draws: nat -> nat): (r: Response)
    requires AllIndexable(request.questions)
    ensures r.authoritative && !r.recursionAvailable
    ensures request.extra <= r.extra
    ensures request.questions == [] ==> r == Response(Success, true, false, [], request.extra)
  {
    Run(server, request.questions, Response(Success, true, false, [], request.extra), draws, 0).response
  }

  // ---- Properties ---------------------------------------------------------

  /** A request with one question gets that question's response, started as
      a successful authoritative reply that carries the request's extra
      records (an EDNS OPT record, say). */
  lemma OneQuestionRequest(server: Server, q: Question, extra: seq<Record>, draws: nat -> nat)
    requires Indexable(q)
    ensures HandleRequest(server, Request([q], extra), draws)
         == HandleQuestion(server, q, Response(Success, true, false, [], extra), draws, 0).response
  {
    assert [q][0] == q && [q][1..] == [];
  }

  /** The checks made before any catalog call: an unsupported class or type
      is a server failure, an invalid name a format error, a name of one or
      two labels a name error; each ends the request, and the discovery
      client's answers cannot change the outcome. */
  lemma FrontEndErrors(server: Server, q: Question, resp: Response, draws: nat -> nat, pos: nat, other: Discovery)
    requires Indexable(q)
    requires q.qclass != ClassINET || !SupportedType(q.qtype) || !q.validName || |q.labels| <= 2
    ensures var r := HandleQuestion(server, q, resp, draws, pos);
      && r.failed
      && r.response == resp.(rcode := r.response.rcode)
      && (q.qclass != ClassINET || !SupportedType(q.qtype) ==> r.response.rcode == ServerFailure)
      && (q.qclass == ClassINET && SupportedType(q.qtype) && !q.validName ==> r.response.rcode == FormatError)
      && (q.qclass == ClassINET && SupportedType(q.qtype) && q.validName ==> r.response.rcode == NameError)
    ensures HandleQuestion(server.(discovery := other), q, resp, draws, pos) == HandleQuestion(server, q, resp, draws, pos)
  {
  }

  /** A lookup error is the question's outcome: its code is set, nothing
      else changes, and the request ends. */
  lemma RetrievalErrorEndsQuestion(server: Server, q: Question, resp: Response, draws: nat -> nat, pos: nat)
    requires q.qclass == ClassINET && SupportedType(q.qtype) && HasLabels(q.labels, q.validName)
    requires RetrieveServices(server, q).Err?
    ensures HandleQuestion(server, q, resp, draws, pos) == Step(resp.(rcode := RetrieveServices(server, q).error), true, pos)
  {
  }

  /** A service name is "<tokens>.<service>.service.<domain>" unless it has
      the SRV shorthand's shape. */
  predicate IsServiceName(q: Question) {
    && q.validName
    && |q.labels| >= 3
    && q.labels[|q.labels| - 2] == "service"
    && !IsShorthand(q.labels, q.qtype)
  }

  /** Two protocol tokens in a service name are a format error, decided
      before the catalog is asked. */
  lemma AmbiguousProtocolIsFormatError(server: Server, q: Question, resp: Response, draws: nat -> nat, pos: nat, other: Discovery)
    requires q.qclass == ClassINET && SupportedType(q.qtype) && IsServiceName(q)
    requires |ProtocolTokens(q.labels[..|q.labels| - 3])| >= 2
    ensures HandleQuestion(server, q, resp, draws, pos) == Step(resp.(rcode := FormatError), true, pos)
    ensures HandleQuestion(server.(discovery := other), q, resp, draws, pos) == HandleQuestion(server, q, resp, draws, pos)
  {
    var n := |q.labels|;
    var tokens := q.labels[..n - 3];
    ServiceNameParts(q.labels, q.qtype);
    assert ServiceQuery(server.discovery, q.labels[n - 3], tokens) == Err(FormatError);
    assert ServiceQuery(other, q.labels[n - 3], tokens) == Err(FormatError);
    assert RetrieveServices(server, q) == Err(FormatError);
    assert RetrieveServices(server.(discovery := other), q) == Err(FormatError);
    RetrievalErrorEndsQuestion(server, q, resp, draws, pos);
    RetrievalErrorEndsQuestion(server.(discovery := other), q, resp, draws, pos);
  }

  /** A failing catalog call is a server failure that ends the request. */
  lemma CatalogErrorIsServerFailure(server: Server, q: Question, resp: Response, draws: nat -> nat, pos: nat)
    requires q.qclass == ClassINET && SupportedType(q.qtype) && IsServiceName(q)
    requires var tokens := q.labels[..|q.labels| - 3];
      |ProtocolTokens(tokens)| < 2 &&
      server.discovery(InstanceFilter(q.labels[|q.labels| - 3], TagTokens(tokens))).Err?
    ensures HandleQuestion(server, q, resp, draws, pos) == Step(resp.(rcode := ServerFailure), true, pos)
  {
    var n := |q.labels|;
    var tokens := q.labels[..n - 3];
    ServiceNameParts(q.labels, q.qtype);
    assert ServiceQuery(server.discovery, q.labels[n - 3], tokens) == Err(ServerFailure);
    assert RetrieveServices(server, q) == Err(ServerFailure);
    RetrievalErrorEndsQuestion(server, q, resp, draws, pos);
  }

  /** An instance query for an id the catalog does not list is a name error
      that ends the request; a failing listing is a server failure. */
  lemma InstanceQueryErrors(server: Server, id: string, domain: string, name: string, qtype: nat, resp: Response, draws: nat -> nat, pos: nat)
    requires qtype == TypeA || qtype == TypeAAAA
    ensures var q := Question(name, [id, "instance", domain], true, qtype, ClassINET);
      var listing := server.discovery(FullListing);
      && (listing.Err? ==> HandleQuestion(server, q, resp, draws, pos) == Step(resp.(rcode := ServerFailure), true, pos))
      && (listing.Ok? && (forall k :: 0 <= k < |listing.value| ==> listing.value[k].id != id) ==>
            HandleQuestion(server, q, resp, draws, pos) == Step(resp.(rcode := NameError), true, pos))
  {
    var q := Question(name, [id, "instance", domain], true, qtype, ClassINET);
    InstanceNameRoundTrip(id, domain, qtype);
  }

  /** An SRV question on an instance name does no lookup and ends, through
      the empty answer, as a name error that does not stop the request. */
  lemma SrvInstanceQueryIsNameError(server: Server, id: string, domain: string, name: string, resp: Response, draws: nat -> nat, pos: nat)
    ensures HandleQuestion(server, Question(name, [id, "instance", domain], true, TypeSRV, ClassINET), resp, draws, pos)
         == Step(resp.(rcode := NameError), false, pos)
  {
    var labels := [id, "instance", domain];
    assert ClassifyName(labels, true, TypeSRV) == Ok(Unmatched);
  }

  /** An answered SRV question adds as many extra records as answers. */
  lemma SrvAnswersMatchExtras(server: Server, q: Question, resp: Response, draws: nat -> nat, pos: nat)
    requires Indexable(q) && q.qtype == TypeSRV
    ensures var r := HandleQuestion(server, q, resp, draws, pos);
      r.response.rcode == Success ==>
        |r.response.answer| - |resp.answer| == |r.response.extra| - |resp.extra| > 0
  {
    if q.qclass == ClassINET {
      match RetrieveServices(server, q)
      case Err(_) =>
      case Ok(instances) =>
        var records := Synthesize(server.net, q.qtype, q.name, server.domain, instances);
        assert |records.0| == |records.1|;
    }
  }

  lemma AllIndexableAppend(a: seq<Question>, b: seq<Question>)
    requires AllIndexable(a) && AllIndexable(b)
    ensures AllIndexable(a + b)
  {
    forall k | 0 <= k < |a + b|
      ensures Indexable((a + b)[k])
    {
      if k >= |a| {
        assert (a + b)[k] == b[k - |a|];
      }
    }
  }

  /** The first failing question ends the request: whatever follows it has
      no effect on the reply. */
  lemma {:induction false} FailureStopsRequest(server: Server, questions: seq<Question>, rest: seq<Question>, resp: Response, draws: nat -> nat, pos: nat)
    requires AllIndexable(questions) && AllIndexable(rest)
    requires Run(server, questions, resp, draws, pos).failed
    ensures AllIndexable(questions + rest)
    ensures Run(server, questions + rest, resp, draws, pos) == Run(server, questions, resp, draws, pos)
    decreases |questions|
  {
    AllIndexableAppend(questions, rest);
    var all := questions + rest;
    assert all[0] == questions[0];
    assert all[1..] == questions[1..] + rest;
    var s := HandleQuestion(server, questions[0], resp, draws, pos);
    if !s.failed {
      FailureStopsRequest(server, questions[1..], rest, s.response, draws, s.pos);
    }
  }

  /** Questions are handled in arrival order: when a prefix of the questions
      completes without failing, the rest start from the response and draw
      position it leaves. */
  lemma {:induction false} RunAppend(server: Server, questions: seq<Question>, rest: seq<Question>, resp: Response, draws: nat -> nat, pos: nat)
    requires AllIndexable(questions) && AllIndexable(rest)
    requires !Run(server, questions, resp, draws, pos).failed
    ensures AllIndexable(questions + rest)
    ensures var mid := Run(server, questions, resp, draws, pos);
      Run(server, questions + rest, resp, draws, pos) == Run(server, rest, mid.response, draws, mid.pos)
    decreases |questions|
  {
    AllIndexableAppend(questions, rest);
    var all := questions + rest;
    if questions == [] {
      assert all == rest;
    } else {
      assert all[0] == questions[0];
      assert all[1..] == questions[1..] + rest;
      var s := HandleQuestion(server, questions[0], resp, draws, pos);
      RunAppend(server, questions[1..], rest, s.response, draws, s.pos);
    }
  }

  /** Two responses that differ at most in the order of their records. */
  predicate SameUpToOrder(a: Response, b: Response) {
    && a.rcode == b.rcode
    && a.authoritative == b.authoritative
    && a.recursionAvailable == b.recursionAvailable
    && multiset(a.answer) == multiset(b.answer)
    && multiset(a.extra) == multiset(b.extra)
  }

  lemma AppendedMultiset(before: seq<Record>, after: seq<Record>)
    requires before <= after
    ensures multiset(after) == multiset(before) + multiset(after[|before|..])
  {
    assert after == before + after[|before|..];
  }

  /** The draws decide only the order of the records a question adds. */
  lemma HandleQuestionUpToOrder(server: Server, q: Question, r1: Response, r2: Response, d1: nat -> nat, d2: nat -> nat, p1: nat, p2: nat)
    requires Indexable(q)
    requires SameUpToOrder(r1, r2)
    ensures var s1 := HandleQuestion(server, q, r1, d1, p1);
      var s2 := HandleQuestion(server, q, r2, d2, p2);
      s1.failed == s2.failed && SameUpToOrder(s1.response, s2.response)
  {
    var s1 := HandleQuestion(server, q, r1, d1, p1);
    var s2 := HandleQuestion(server, q, r2, d2, p2);
    AppendedMultiset(r1.answer, s1.response.answer);
    AppendedMultiset(r2.answer, s2.response.answer);
    AppendedMultiset(r1.extra, s1.response.extra);
    AppendedMultiset(r2.extra, s2.response.extra);
    if q.qclass == ClassINET && SupportedType(q.qtype) {
      match RetrieveServices(server, q)
      case Err(_) =>
      case Ok(instances) =>
        var records := Synthesize(server.net, q.qtype, q.name, server.domain, instances);
        if |records.0| > 0 {
          assert multiset(s1.response.answer[|r1.answer|..]) == multiset(records.0);
          assert multiset(s2.response.answer[|r2.answer|..]) == multiset(records.0);
        }
    }
  }

  lemma {:induction false} RunUpToOrder(server: Server, questions: seq<Question>, r1: Response, r2: Response, d1: nat -> nat, d2: nat -> nat, p1: nat, p2: nat)
    requires AllIndexable(questions)
    requires SameUpToOrder(r1, r2)
    ensures var s1 := Run(server, questions, r1, d1, p1);
      var s2 := Run(server, questions, r2, d2, p2);
      s1.failed == s2.failed && SameUpToOrder(s1.response, s2.response)
    decreases |questions|
  {
    if questions != [] {
      HandleQuestionUpToOrder(server, questions[0], r1, r2, d1, d2, p1, p2);
      var s1 := HandleQuestion(server, questions[0], r1, d1, p1);
      var s2 := HandleQuestion(server, questions[0], r2, d2, p2);
      if !s1.failed {
        RunUpToOrder(server, questions[1..], s1.response, s2.response, d1, d2, s1.pos, s2.pos);
      }
    }
  }

  /** Asking the same request twice of an unchanged catalog gives the same
      response code and the same records; only their order may differ. */
  lemma SameRequestSameRecords(server: Server, request: Request, d1: nat -> nat, d2: nat -> nat)
    requires AllIndexable(request.questions)
    ensures SameUpToOrder(HandleRequest(server, request, d1), HandleRequest(server, request, d2))
  {
    var init := Response(Success, true, false, [], request.extra);
    RunUpToOrder(server, request.questions, init, init, d1, d2, 0, 0);
  }
}
