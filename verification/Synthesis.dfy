/** Record synthesis (sidecar/dns/server.go, createRecordsForInstances and
    the create*Record helpers): the answer and extra records built from the
    instances a question resolved to. */
module Synthesis {
  import opened Wrappers
  import opened Wire
  import opened Decimals
  import opened Endpoints
  import opened Gateway

  /** An instance whose endpoint parsed: its id, address and port. */
  datatype Located = Located(id: string, ip: IP, port: uint16)

  /** One instance, located when its endpoint parses, skipped otherwise. */
  function LocateOne(net: NetLibrary, inst: Instance): (r: seq<Located>)
    ensures |r| <= 1
    ensures |r| == 1 <==> SplitHostPort(net, inst.endpoint).Ok?
  {
    match SplitHostPort(net, inst.endpoint)
    case Ok((ip, port)) => [Located(inst.id, ip, port)]
    case Err(_) => []
  }

  /** The instances whose endpoints parse, in order; the others are skipped. */
  function Locate(net: NetLibrary, instances: seq<Instance>): (r: seq<Located>)
    ensures |r| <= |instances|
  {
    if instances == [] then []
    else LocateOne(net, instances[0]) + Locate(net, instances[1..])
  }

  /** The 4-byte addresses of the located instances that have one, in order. */
  function V4Addresses(located: seq<Located>): (r: seq<Addr4>)
    ensures |r| <= |located|
  {
    if located == [] then []
    else (if located[0].ip.V4? then [located[0].ip.v4] else []) + V4Addresses(located[1..])
  }

  /** The 16-byte addresses of the located instances with no 4-byte form. */
  function V6Addresses(located: seq<Located>): (r: seq<seq<uint8>>)
    ensures |r| <= |located|
    ensures forall k :: 0 <= k < |r| ==> |r[k]| == 16 && !IsV4Mapped(r[k])
  {
    if located == [] then []
    else (if located[0].ip.V6? then [located[0].ip.v6] else []) + V6Addresses(located[1..])
  }

  lemma {:induction false} V4AddressesAppend(a: seq<Located>, b: seq<Located>)
    ensures V4Addresses(a + b) == V4Addresses(a) + V4Addresses(b)
    decreases |a|
  {
    if a == [] {
      assert a + b == b;
    } else {
      var ab := a + b;
      assert ab[0] == a[0];
      assert ab[1..] == a[1..] + b;
      V4AddressesAppend(a[1..], b);
      assert V4Addresses(ab) == (if a[0].ip.V4? then [a[0].ip.v4] else []) + V4Addresses(a[1..] + b);
    }
  }

  lemma {:induction false} V6AddressesAppend(a: seq<Located>, b: seq<Located>)
    ensures V6Addresses(a + b) == V6Addresses(a) + V6Addresses(b)
    decreases |a|
  {
    if a == [] {
      assert a + b == b;
    } else {
      var ab := a + b;
      assert ab[0] == a[0];
      assert ab[1..] == a[1..] + b;
      V6AddressesAppend(a[1..], b);
      assert V6Addresses(ab) == (if a[0].ip.V6? then [a[0].ip.v6] else []) + V6Addresses(a[1..] + b);
    }
  }

  /** Every located instance has exactly one of the two address forms. */
  lemma {:induction false} AddressFamiliesPartition(located: seq<Located>)
    ensures |V4Addresses(located)| + |V6Addresses(located)| == |located|
  {
    if located != [] {
      AddressFamiliesPartition(located[1..]);
    }
  }

  /** The SRV target names the instance under the served domain. */
  function Target(id: string, domain: string): (t: string)
    ensures |t| == |id| + |domain| + 11
    ensures t[..|id|] == id
    ensures t[|id|..|id| + 10] == ".instance."
    ensures t[|id| + 10..|t| - 1] == domain && t[|t| - 1] == '.'
  {
    id + ".instance." + domain + "."
  }

  /** With a fully qualified domain, the target ends in two dots. */
  lemma TargetDoubleDot(id: string, domain: string)
    requires IsFqdn(domain)
    ensures var t := Target(id, domain); t[|t| - 2..] == ".."
  {
    var t := Target(id, domain);
    assert t[|t| - 2] == domain[|domain| - 1];
  }

  /** The extra record for an SRV answer: A for an address with a 4-byte
      form, AAAA otherwise. */
  function AddressRecord(name: string, ip: IP): (r: Record)
    ensures ip.V4? ==> r.hdr.rrtype == TypeA && r.data == AData(ip.v4)
    ensures ip.V6? ==> r.hdr.rrtype == TypeAAAA && r.data == AAAAData(ip.v6)
    ensures r.hdr == Header(name, r.hdr.rrtype, ClassINET, 0)
  {
    match ip.To4()
    case Some(a) => ARecord(name, a)
    case None => AAAARecord(name, ip.To16())
  }

  /** rs is one A-typed record for each of the addresses, in order. */
  predicate ARecordsFor(rs: seq<Record>, name: string, addrs: seq<seq<uint8>>) {
    |rs| == |addrs| && forall k :: 0 <= k < |rs| ==> rs[k] == ARecord(name, addrs[k])
  }

  /** answer and extra hold, position by position, the SRV record and the
      address record of each located instance. */
  predicate SRVRecordsFor(answer: seq<Record>, extra: seq<Record>, name: string, domain: string, located: seq<Located>) {
    && |answer| == |located|
    && |extra| == |located|
    && forall k :: 0 <= k < |located| ==>
         && answer[k] == SRVRecord(name, located[k].port, Target(located[k].id, domain))
         && extra[k] == AddressRecord(name, located[k].ip)
  }

  lemma ARecordsForAppend(r1: seq<Record>, r2: seq<Record>, name: string, a1: seq<seq<uint8>>, a2: seq<seq<uint8>>)
    requires ARecordsFor(r1, name, a1) && ARecordsFor(r2, name, a2)
    ensures ARecordsFor(r1 + r2, name, a1 + a2)
  {
  }

  lemma SRVRecordsForAppend(
    ans1: seq<Record>, ext1: seq<Record>, ans2: seq<Record>, ext2: seq<Record>,
    name: string, domain: string, l1: seq<Located>, l2: seq<Located>)
    requires SRVRecordsFor(ans1, ext1, name, domain, l1) && SRVRecordsFor(ans2, ext2, name, domain, l2)
    ensures SRVRecordsFor(ans1 + ans2, ext1 + ext2, name, domain, l1 + l2)
  {
    var ans, ext, l := ans1 + ans2, ext1 + ext2, l1 + l2;
    forall k | 0 <= k < |l|
      ensures ans[k] == SRVRecord(name, l[k].port, Target(l[k].id, domain))
      ensures ext[k] == AddressRecord(name, l[k].ip)
    {
      if k < |l1| {
        assert ans[k] == ans1[k] && ext[k] == ext1[k] && l[k] == l1[k];
      } else {
        var m := k - |l1|;
        assert ans[k] == ans2[m] && ext[k] == ext2[m] && l[k] == l2[m];
      }
    }
  }

  /** The answer and extra records of one instance. An AAAA question is
      answered with an A-typed record holding the 16-byte address. */
  function InstanceRecords(net: NetLibrary, qtype: nat, name: string, domain: string, inst: Instance): (r: (seq<Record>, seq<Record>))
    ensures qtype == TypeA ==> r.1 == [] && ARecordsFor(r.0, name, V4Addresses(LocateOne(net, inst)))
    ensures qtype == TypeAAAA ==> r.1 == [] && ARecordsFor(r.0, name, V6Addresses(LocateOne(net, inst)))
    ensures qtype == TypeSRV ==> SRVRecordsFor(r.0, r.1, name, domain, LocateOne(net, inst))
    ensures !SupportedType(qtype) ==> r == ([], [])
  {
    match SplitHostPort(net, inst.endpoint)
    case Err(_) => ([], [])
    case Ok((ip, port)) =>
      if qtype == TypeA then
        (match ip.To4() case Some(a) => [ARecord(name, a)] case None => [], [])
      else if qtype == TypeAAAA then
        (match ip.To4() case Some(_) => [] case None => [ARecord(name, ip.To16())], [])
      else if qtype == TypeSRV then
        ([SRVRecord(name, port, Target(inst.id, domain))], [AddressRecord(name, ip)])
      else ([], [])
  }

  /** The records of all instances, in instance order: unparsable endpoints
      are skipped, A answers the instances with a 4-byte address, AAAA those
      without (with A-typed records), and SRV gives every located instance
      one SRV answer and one aligned address extra. */
  function Synthesize(net: NetLibrary, qtype: nat, name: string, domain: string, instances: seq<Instance>): (r: (seq<Record>, seq<Record>))
    ensures qtype == TypeA ==> r.1 == [] && ARecordsFor(r.0, name, V4Addresses(Locate(net, instances)))
    ensures qtype == TypeAAAA ==> r.1 == [] && ARecordsFor(r.0, name, V6Addresses(Locate(net, instances)))
    ensures qtype == TypeSRV ==> SRVRecordsFor(r.0, r.1, name, domain, Locate(net, instances))
    ensures !SupportedType(qtype) ==> r == ([], [])
  {
    if instances == [] then ([], [])
    else
      var h := InstanceRecords(net, qtype, name, domain, instances[0]);
      var t := Synthesize(net, qtype, name, domain, instances[1..]);
      var hl := LocateOne(net, instances[0]);
      var tl := Locate(net, instances[1..]);
      V4AddressesAppend(hl, tl);
      V6AddressesAppend(hl, tl);
      if qtype == TypeA then
        ARecordsForAppend(h.0, t.0, name, V4Addresses(hl), V4Addresses(tl));
        (h.0 + t.0, h.1 + t.1)
      else if qtype == TypeAAAA then
        ARecordsForAppend(h.0, t.0, name, V6Addresses(hl), V6Addresses(tl));
        (h.0 + t.0, h.1 + t.1)
      else if qtype == TypeSRV then
        SRVRecordsForAppend(h.0, h.1, t.0, t.1, name, domain, hl, tl);
        (h.0 + t.0, h.1 + t.1)
      else
        (h.0 + t.0, h.1 + t.1)
  }

  /** Every instance with a parsable endpoint answers exactly one of the A and
      AAAA questions, and the SRV question. */
  lemma SynthesisCounts(net: NetLibrary, name: string, domain: string, instances: seq<Instance>)
    ensures |Synthesize(net, TypeA, name, domain, instances).0| +
            |Synthesize(net, TypeAAAA, name, domain, instances).0| ==
            |Locate(net, instances)|
    ensures |Synthesize(net, TypeSRV, name, domain, instances).0| == |Locate(net, instances)|
    ensures |Synthesize(net, TypeSRV, name, domain, instances).1| == |Locate(net, instances)|
  {
    AddressFamiliesPartition(Locate(net, instances));
  }

  /** A tcp endpoint "host:port" with an IPv4 host gives that address and
      port: an A answer for A, an SRV answer with the port and the
      instance's id for SRV, with the A record as extra. */
  lemma TcpEndpointRecords(net: NetLibrary, name: string, domain: string, inst: Instance, host: string, a: Addr4, port: uint16)
    requires inst.endpoint.etype == "tcp"
    requires net.splitHostPort(inst.endpoint.value) == Some((host, Decimal(port as nat)))
    requires net.parseIP(host) == Some(V4(a))
    ensures Synthesize(net, TypeA, name, domain, [inst]) == ([ARecord(name, a)], [])
    ensures Synthesize(net, TypeSRV, name, domain, [inst]) ==
      ([SRVRecord(name, port, Target(inst.id, domain))], [ARecord(name, a)])
  {
    ExplicitPortRoundTrip(net, inst.endpoint.value, host, V4(a), port);
    assert [inst][1..] == [];
    assert SplitHostPort(net, inst.endpoint) == Ok((V4(a), port));
    assert LocateOne(net, inst) == [Located(inst.id, V4(a), port)];
    assert Locate(net, [inst]) == [Located(inst.id, V4(a), port)];
    assert V4Addresses(Locate(net, [inst])) == [a];
    var rA := Synthesize(net, TypeA, name, domain, [inst]);
    assert ARecordsFor(rA.0, name, [a]);
    assert rA.0 == [ARecord(name, a)];
    var rS := Synthesize(net, TypeSRV, name, domain, [inst]);
    assert SRVRecordsFor(rS.0, rS.1, name, domain, [Located(inst.id, V4(a), port)]);
    assert AddressRecord(name, V4(a)) == ARecord(name, a);
    assert rS.1 == [ARecord(name, a)];
    assert rS.0 == [SRVRecord(name, port, Target(inst.id, domain))];
  }
}
