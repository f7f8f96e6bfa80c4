/** Worked requests against a one-instance catalog: the instance "abc123"
    of service "reviews" serves http at 192.168.1.10:9080. The library
    parsers are fixed to the answers the real ones give for these strings. */
module Scenarios {
  import opened Wrappers
  import opened Wire
  import opened Decimals
  import opened Endpoints
  import opened Gateway
  import opened Synthesis
  import opened Names
  import opened Shuffling
  import opened DnsServer

  const ReviewsHostPort := "192.168.1.10:9080"
  const Reviews := Instance("abc123", Endpoint("http", ReviewsHostPort))
  const ReviewsAddr: Addr4 := [192, 168, 1, 10]

  function ScenarioNet(): NetLibrary {
    NetLibrary(
      s => if s == ReviewsHostPort then Some(("192.168.1.10", Decimal(9080))) else None,
      s => if s == "192.168.1.10" then Some(V4(ReviewsAddr)) else None,
      s => if s == "http://" + ReviewsHostPort then Some(ReviewsHostPort) else None)
  }

  /** The catalog lists the instance for its service and for the full listing. */
  function ScenarioServer(domain: string): Server {
    Server((f: InstanceFilter) => if f.serviceName == "reviews" || f == FullListing then Ok([Reviews]) else Ok([]),
           8053, domain, ScenarioNet())
  }

  function Ask(domain: string, name: string, labels: seq<string>, qtype: nat, draws: nat -> nat): Response
    requires |labels| >= 1
  {
    HandleRequest(ScenarioServer(domain), Request([Question(name, labels, true, qtype, ClassINET)], []), draws)
  }

  lemma ReviewsEndpoint()
    ensures SplitHostPort(ScenarioNet(), Reviews.endpoint) == Ok((V4(ReviewsAddr), 9080))
  {
    var net := ScenarioNet();
    var value := ReviewsHostPort;
    assert !("http://" <= value) && !("https://" <= value) by {
      assert value[0] == '1';
    }
    assert WithScheme(value) == "http://" + value;
    assert net.urlHost("http://" + value) == Some(value);
    ExplicitPortRoundTrip(net, value, "192.168.1.10", V4(ReviewsAddr), 9080);
    assert SplitHostPortTCPUDP(net, value) == Ok((V4(ReviewsAddr), 9080));
    assert SplitHostPortHTTP(net, value) == Ok((V4(ReviewsAddr), 9080));
  }

  /** At most one record: the shuffle has nothing to reorder. */
  lemma ShuffleShort<T>(s: seq<T>, c: seq<nat>)
    requires |s| <= 1 && |c| == |s| && ValidChoices(c)
    ensures Shuffle(s, c) == s
  {
    var r := Shuffle(s, c);
    if |s| == 1 {
      assert r[0] in multiset(s);
      assert s == [s[0]];
    }
  }

  /** A question on a name that resolves to the one instance, asked of the
      scenario server, gets the records the instance synthesizes, shuffled. */
  lemma OneInstanceAnswer(domain: string, q: Question, records: (seq<Record>, seq<Record>), draws: nat -> nat)
    requires q.qclass == ClassINET && SupportedType(q.qtype) && HasLabels(q.labels, q.validName)
    requires RetrieveServices(ScenarioServer(domain), q) == Ok([Reviews])
    requires Synthesize(ScenarioNet(), q.qtype, q.name, domain, [Reviews]) == records
    requires |records.0| == 1 && |records.1| <= 1
    ensures HandleRequest(ScenarioServer(domain), Request([q], []), draws)
         == Response(Success, true, false, records.0, records.1)
  {
    var server := ScenarioServer(domain);
    var init := Response(Success, true, false, [], []);
    OneQuestionRequest(server, q, [], draws);
    assert HandleQuestion(server, q, init, draws, 0) == CreateRecords(server, q, init, [Reviews], draws, 0);
    ShuffleShort(records.0, Draws(draws, 0, 1));
    ShuffleShort(records.1, Draws(draws, 1, |records.1|));
    assert CreateRecords(server, q, init, [Reviews], draws, 0)
        == Step(init.(answer := records.0, extra := records.1, rcode := Success), false, 1 + |records.1|);
  }

  /** "reviews.service.amalgam8." type A: one A record, TTL 0, success. */
  lemma ServiceAScenario(draws: nat -> nat)
    ensures Ask("amalgam8.", "reviews.service.amalgam8.", ["reviews", "service", "amalgam8"], TypeA, draws)
         == Response(Success, true, false, [ARecord("reviews.service.amalgam8.", ReviewsAddr)], [])
  {
    var name := "reviews.service.amalgam8.";
    var q := Question(name, ["reviews", "service", "amalgam8"], true, TypeA, ClassINET);
    ServiceNameRoundTrip([], "reviews", "amalgam8", TypeA);
    assert [] + ["reviews", "service", "amalgam8"] == q.labels;
    assert RetrieveServices(ScenarioServer("amalgam8."), q) == Ok([Reviews]);
    ReviewsEndpoint();
    assert Locate(ScenarioNet(), [Reviews]) == [Located("abc123", V4(ReviewsAddr), 9080)] by {
      assert [Reviews][1..] == [];
    }
    var records := Synthesize(ScenarioNet(), TypeA, name, "amalgam8.", [Reviews]);
    assert V4Addresses([Located("abc123", V4(ReviewsAddr), 9080)]) == [ReviewsAddr];
    assert ARecordsFor(records.0, name, [ReviewsAddr]);
    assert records.0 == [ARecord(name, ReviewsAddr)];
    assert records.1 == [];
    OneInstanceAnswer("amalgam8.", q, records, draws);
    assert Ask("amalgam8.", name, q.labels, TypeA, draws) == HandleRequest(ScenarioServer("amalgam8."), Request([q], []), draws);
  }

  lemma ReviewsTarget()
    ensures Target("abc123", "amalgam8.") == "abc123.instance.amalgam8.."
  {
    assert "abc123" + ".instance." == "abc123.instance.";
    assert "abc123.instance." + "amalgam8." == "abc123.instance.amalgam8.";
  }

  const ShorthandName := "_reviews._http.service.amalgam8."
  const ShorthandLabels := ["_" + "reviews", "_" + "http", "service", "amalgam8"]

  lemma ShorthandRetrieves()
    ensures RetrieveServices(ScenarioServer("amalgam8."), Question(ShorthandName, ShorthandLabels, true, TypeSRV, ClassINET)) == Ok([Reviews])
  {
    var q := Question(ShorthandName, ShorthandLabels, true, TypeSRV, ClassINET);
    ShorthandRoundTrip("reviews", "http", "amalgam8");
    assert ClassifyName(ShorthandLabels, true, TypeSRV) == Ok(ServiceLookup("reviews", ["http"]));
    assert ProtocolTokens(["http"]) == ["http"];
    assert TagTokens(["http"]) == [];
    assert SplitTokens(["http"]) == Ok(TokenSplit(Some("http"), []));
    var server := ScenarioServer("amalgam8.");
    assert server.discovery(InstanceFilter("reviews", [])) == Ok([Reviews]);
    assert KeepType([Reviews], "http") == [Reviews] by {
      assert [Reviews][1..] == [];
    }
    assert ServiceQuery(server.discovery, "reviews", ["http"]) == Ok([Reviews]);
  }

  lemma ShorthandRecords()
    ensures Synthesize(ScenarioNet(), TypeSRV, ShorthandName, "amalgam8.", [Reviews])
         == ([SRVRecord(ShorthandName, 9080, "abc123.instance.amalgam8..")], [ARecord(ShorthandName, ReviewsAddr)])
  {
    ReviewsEndpoint();
    assert Locate(ScenarioNet(), [Reviews]) == [Located("abc123", V4(ReviewsAddr), 9080)] by {
      assert [Reviews][1..] == [];
    }
    ReviewsTarget();
    var records := Synthesize(ScenarioNet(), TypeSRV, ShorthandName, "amalgam8.", [Reviews]);
    assert SRVRecordsFor(records.0, records.1, ShorthandName, "amalgam8.", [Located("abc123", V4(ReviewsAddr), 9080)]);
    assert AddressRecord(ShorthandName, V4(ReviewsAddr)) == ARecord(ShorthandName, ReviewsAddr);
    var srv := SRVRecord(ShorthandName, 9080, Target("abc123", "amalgam8."));
    assert records.0[0] == srv;
    assert records.0 == [srv];
    assert records.1 == [ARecord(ShorthandName, ReviewsAddr)];
  }

  /** "_reviews._http.service.amalgam8." type SRV: one SRV record naming the
      instance, port 9080, and the A record as extra. */
  lemma SrvShorthandScenario(draws: nat -> nat)
    ensures Ask("amalgam8.", ShorthandName, ShorthandLabels, TypeSRV, draws)
         == Response(Success, true, false,
              [SRVRecord(ShorthandName, 9080, "abc123.instance.amalgam8..")],
              [ARecord(ShorthandName, ReviewsAddr)])
  {
    ShorthandRetrieves();
    ShorthandRecords();
    var q := Question(ShorthandName, ShorthandLabels, true, TypeSRV, ClassINET);
    OneInstanceAnswer("amalgam8.", q, Synthesize(ScenarioNet(), TypeSRV, ShorthandName, "amalgam8.", [Reviews]), draws);
  }

  /** "unknown-id.instance.amalgam8." type A: name error, no records. */
  lemma UnknownInstanceScenario(draws: nat -> nat)
    ensures Ask("amalgam8.", "unknown-id.instance.amalgam8.", ["unknown-id", "instance", "amalgam8"], TypeA, draws)
         == Response(NameError, true, false, [], [])
  {
    var labels := ["unknown-id", "instance", "amalgam8"];
    var q := Question("unknown-id.instance.amalgam8.", labels, true, TypeA, ClassINET);
    var server := ScenarioServer("amalgam8.");
    InstanceNameRoundTrip("unknown-id", "amalgam8", TypeA);
    assert server.discovery(FullListing) == Ok([Reviews]);
    assert FirstWithId([Reviews], "unknown-id") == None;
    assert RetrieveServices(server, q) == Err(NameError);
    var init := Response(Success, true, false, [], []);
    assert HandleQuestion(server, q, init, draws, 0) == Step(init.(rcode := NameError), true, 0);
    assert Ask("amalgam8.", q.name, labels, TypeA, draws) == HandleRequest(server, Request([q], []), draws);
  }

  /** Type MX (15) is not served: server failure. */
  lemma MxScenario(draws: nat -> nat)
    ensures Ask("amalgam8.", "reviews.service.amalgam8.", ["reviews", "service", "amalgam8"], 15, draws)
         == Response(ServerFailure, true, false, [], [])
  {
  }

  /** Under a two-label domain the service label is not where the parser
      looks: "reviews.service.example.com." is a name error. */
  lemma MultiLabelDomainScenario(draws: nat -> nat)
    ensures Ask("example.com.", "reviews.service.example.com.", ["reviews", "service", "example", "com"], TypeA, draws)
         == Response(NameError, true, false, [], [])
  {
    var server := ScenarioServer("example.com.");
    var q := Question("reviews.service.example.com.", ["reviews", "service", "example", "com"], true, TypeA, ClassINET);
    MultiLabelDomainUnmatched();
    assert RetrieveServices(server, q) == Ok([]);
    assert Synthesize(ScenarioNet(), TypeA, q.name, "example.com.", []) == ([], []);
    OneQuestionRequest(server, q, [], draws);
  }
}
