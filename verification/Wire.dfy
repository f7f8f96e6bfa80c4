/** The DNS vocabulary the pipeline works in: response codes, record types and
    class, addresses in their 4- and 16-byte forms, resource records, and the
    question/request/response messages (wire encoding is not modelled). */
module Wire {
  import opened Wrappers

  newtype uint8 = x: int | 0 <= x < 0x100
  newtype uint16 = x: int | 0 <= x < 0x1_0000

  // Resource record types and the Internet class (RFC 1035 section 3.2,
  // RFC 3596 section 2.1 for AAAA, RFC 2782 for SRV).
  const TypeA: nat := 1
  const TypeAAAA: nat := 28
  const TypeSRV: nat := 33
  const ClassINET: nat := 1

  /** The question types the server answers. */
  predicate SupportedType(qtype: nat) {
    qtype == TypeA || qtype == TypeAAAA || qtype == TypeSRV
  }

  /** A fully qualified name ends with the root's dot. */
  predicate IsFqdn(s: string) {
    |s| > 0 && s[|s| - 1] == '.'
  }

  /** The name made fully qualified by appending a dot when it lacks one. */
  function Fqdn(s: string): (r: string)
    ensures IsFqdn(r)
    ensures |s| <= |r| <= |s| + 1 && r[..|s|] == s
    ensures IsFqdn(s) ==> r == s
  {
    if IsFqdn(s) then s else s + "."
  }

  lemma FqdnIdempotent(s: string)
    ensures Fqdn(Fqdn(s)) == Fqdn(s)
  {
  }

  /** The four response codes the server sets (RFC 1035 section 4.1.1). */
  datatype Rcode = Success | FormatError | ServerFailure | NameError

  /** An IPv6 address written in 16 bytes is "IPv4-mapped" when it is
      ::ffff:a.b.c.d; such an address has a valid 4-byte form. */
  predicate IsV4Mapped(b: seq<uint8>) {
    && |b| == 16
    && (forall i :: 0 <= i < 10 ==> b[i] == 0)
    && b[10] == 0xff && b[11] == 0xff
  }

  const V4MappedPrefix: seq<uint8> := [0, 0, 0, 0, 0, 0, 0, 0, 0, 0, 0xff, 0xff]

  type Addr4 = b: seq<uint8> | |b| == 4 witness [0, 0, 0, 0]

  /** A 16-byte address with no 4-byte form. */
  type Addr6 = b: seq<uint8> | |b| == 16 && !IsV4Mapped(b)
    witness [0, 0, 0, 0, 0, 0, 0, 0, 0, 0, 0, 0, 0, 0, 0, 0]

  /** A parsed IP address: V4 for every address that has a 4-byte form
      (including IPv4-mapped IPv6 text), V6 for every other. */
  datatype IP = V4(v4: Addr4) | V6(v6: Addr6) {

    /** The 4-byte form, present exactly for V4 addresses. */
    function To4(): (r: Option<Addr4>)
      ensures r.Some? <==> V4?
    {
      match this
      case V4(a) => Some(a)
      case V6(_) => None
    }

    /** The 16-byte form; a V4 address is written IPv4-mapped. */
    function To16(): (r: seq<uint8>)
      ensures |r| == 16
      ensures IsV4Mapped(r) <==> V4?
      ensures V4? ==> r[12..] == v4
    {
      match this
      case V4(a) => V4MappedPrefix + a
      case V6(b) => b
    }
  }

  datatype Header = Header(name: string, rrtype: nat, rclass: nat, ttl: nat)

  datatype RData =
    | AData(a: seq<uint8>)
    | AAAAData(aaaa: seq<uint8>)
    | SRVData(priority: uint16, weight: uint16, port: uint16, target: string)

  datatype Record = Record(hdr: Header, data: RData)

  /** The header's type names the kind of data the record carries. */
  predicate Consistent(r: Record) {
    && (r.hdr.rrtype == TypeA <==> r.data.AData?)
    && (r.hdr.rrtype == TypeAAAA <==> r.data.AAAAData?)
    && (r.hdr.rrtype == TypeSRV <==> r.data.SRVData?)
  }

  /** An A-typed record in the Internet class with TTL 0; the address is
      stored as given, whatever its length. */
  function ARecord(name: string, ip: seq<uint8>): (r: Record)
    ensures r.hdr.name == name && r.hdr.rrtype == TypeA
    ensures r.hdr.rclass == ClassINET && r.hdr.ttl == 0
    ensures r.data.AData? && r.data.a == ip
    ensures Consistent(r)
  {
    Record(Header(name, TypeA, ClassINET, 0), AData(ip))
  }

  /** An AAAA-typed record in the Internet class with TTL 0. */
  function AAAARecord(name: string, ip: seq<uint8>): (r: Record)
    ensures r.hdr.name == name && r.hdr.rrtype == TypeAAAA
    ensures r.hdr.rclass == ClassINET && r.hdr.ttl == 0
    ensures r.data.AAAAData? && r.data.aaaa == ip
    ensures Consistent(r)
  {
    Record(Header(name, TypeAAAA, ClassINET, 0), AAAAData(ip))
  }

  /** An SRV record in the Internet class with TTL 0 and no priority or
      weight policy: both are 0. */
  function SRVRecord(name: string, port: uint16, target: string): (r: Record)
    ensures r.hdr.name == name && r.hdr.rrtype == TypeSRV
    ensures r.hdr.rclass == ClassINET && r.hdr.ttl == 0
    ensures r.data.SRVData? && r.data.priority == 0 && r.data.weight == 0
    ensures r.data.port == port && r.data.target == target
    ensures Consistent(r)
  {
    Record(Header(name, TypeSRV, ClassINET, 0), SRVData(0, 0, port, target))
  }

  /** The three builders are distinguished by their record type, and each
      keeps every field it is given: equal records come from equal inputs. */
  lemma BuildersInjective(n1: string, n2: string, ip1: seq<uint8>, ip2: seq<uint8>,
                          p1: uint16, p2: uint16, t1: string, t2: string)
    ensures ARecord(n1, ip1) == ARecord(n2, ip2) <==> n1 == n2 && ip1 == ip2
    ensures AAAARecord(n1, ip1) == AAAARecord(n2, ip2) <==> n1 == n2 && ip1 == ip2
    ensures SRVRecord(n1, p1, t1) == SRVRecord(n2, p2, t2) <==> n1 == n2 && p1 == p2 && t1 == t2
    ensures ARecord(n1, ip1) != AAAARecord(n2, ip2) && ARecord(n1, ip1) != SRVRecord(n2, p2, t2)
    ensures AAAARecord(n1, ip1) != SRVRecord(n2, p2, t2)
  {
  }

  /** A question as the DNS library hands it over: the name, its labels and
      whether the name passed the library's validity check. */
  datatype Question = Question(name: string, labels: seq<string>, validName: bool, qtype: nat, qclass: nat)

  datatype Request = Request(questions: seq<Question>, extra: seq<Record>)

  datatype Response = Response(
    rcode: Rcode,
    authoritative: bool,
    recursionAvailable: bool,
    answer: seq<Record>,
    extra: seq<Record>)
}
