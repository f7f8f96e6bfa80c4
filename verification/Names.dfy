/** The question-name parser (sidecar/dns/server.go, retrieveServices): the
    labels of a question name select a service lookup, an instance-id lookup,
    or no lookup at all. The label before last is compared with "service" and
    "instance", so the served domain occupies exactly one label. */
module Names {
  import opened Wrappers
  import opened Wire

  datatype Lookup =
    | ServiceLookup(service: string, tokens: seq<string>)  // tokens: tags or protocol
    | InstanceLookup(id: string)
    | Unmatched                                            // answered from an empty list

  /** The question name is not the root: a valid name has a label to index.
      The root name, with no labels, is outside the model. */
  predicate HasLabels(labels: seq<string>, valid: bool) {
    valid ==> |labels| >= 1
  }

  /** The SRV shorthand "_service._tag.service.<domain>": four labels, type
      SRV, and the two leading labels underscore-prefixed. */
  predicate IsShorthand(labels: seq<string>, qtype: nat) {
    && qtype == TypeSRV
    && |labels| == 4
    && "_" <= labels[0]
    && "_" <= labels[1]
  }

  function ClassifyName(labels: seq<string>, valid: bool, qtype: nat): (r: Result<Lookup, Rcode>)
    requires HasLabels(labels, valid)
    // the two name errors, decided before any lookup
    ensures r == Err(FormatError) <==> !valid
    ensures r == Err(NameError) <==> valid && (|labels| == 1 || |labels| == 2)
    ensures r.Err? ==> r.error == FormatError || r.error == NameError
    // a service lookup exactly when the label before last is "service"
    ensures r.Ok? && r.value.ServiceLookup? <==>
      valid && |labels| >= 3 && labels[|labels| - 2] == "service"
  {
    if !valid then Err(FormatError)
    else if |labels| == 1 || |labels| == 2 then Err(NameError)
    else
      var n := |labels|;
      if labels[n - 2] == "service" then
        if IsShorthand(labels, qtype) then
          Ok(ServiceLookup(labels[0][1..], [labels[1][1..]]))
        else
          Ok(ServiceLookup(labels[n - 3], labels[..n - 3]))
      else if labels[n - 2] == "instance" && (qtype == TypeA || qtype == TypeAAAA) && n == 3 then
        Ok(InstanceLookup(labels[0]))
      else
        Ok(Unmatched)
  }

  /** An instance lookup is chosen exactly for "<id>.instance.<domain>" asked
      with type A or AAAA. */
  lemma InstanceLookupIff(labels: seq<string>, valid: bool, qtype: nat, id: string)
    requires HasLabels(labels, valid)
    ensures ClassifyName(labels, valid, qtype) == Ok(InstanceLookup(id)) <==>
      valid && |labels| == 3 && labels[1] == "instance" && labels[0] == id &&
      (qtype == TypeA || qtype == TypeAAAA)
  {
  }

  /** The shorthand strips the underscores and yields one token. */
  lemma ShorthandLookup(labels: seq<string>, qtype: nat)
    requires IsShorthand(labels, qtype) && labels[2] == "service"
    ensures ClassifyName(labels, true, qtype) == Ok(ServiceLookup(labels[0][1..], [labels[1][1..]]))
  {
  }

  /** Outside the shorthand, the service is the label before "service" and
      the tokens are all the labels before that. */
  lemma ServiceNameParts(labels: seq<string>, qtype: nat)
    requires |labels| >= 3 && labels[|labels| - 2] == "service" && !IsShorthand(labels, qtype)
    ensures ClassifyName(labels, true, qtype) == Ok(ServiceLookup(labels[|labels| - 3], labels[..|labels| - 3]))
  {
  }

  /** Round trip: a service name built from tokens, a service and a one-label
      domain parses back to that service and those tokens, unless it has the
      shorthand's shape. */
  lemma ServiceNameRoundTrip(tokens: seq<string>, service: string, domain: string, qtype: nat)
    requires !IsShorthand(tokens + [service, "service", domain], qtype)
    ensures ClassifyName(tokens + [service, "service", domain], true, qtype) == Ok(ServiceLookup(service, tokens))
  {
    var labels := tokens + [service, "service", domain];
    assert labels[..|labels| - 3] == tokens;
  }

  /** Round trip for the shorthand: "_service._tag.service.<domain>". */
  lemma ShorthandRoundTrip(service: string, tag: string, domain: string)
    ensures ClassifyName(["_" + service, "_" + tag, "service", domain], true, TypeSRV) == Ok(ServiceLookup(service, [tag]))
  {
    var labels := ["_" + service, "_" + tag, "service", domain];
    assert labels[0][1..] == service && labels[1][1..] == tag;
  }

  /** Round trip for instance names asked with A or AAAA. */
  lemma InstanceNameRoundTrip(id: string, domain: string, qtype: nat)
    requires qtype == TypeA || qtype == TypeAAAA
    ensures ClassifyName([id, "instance", domain], true, qtype) == Ok(InstanceLookup(id))
  {
  }

  /** The two-label "_service._tag.<domain>" form reaches no lookup: the
      shorthand is recognised only inside the "service" branch. */
  lemma ShortShorthandUnmatched(service: string, tag: string, domain: string)
    ensures ClassifyName(["_" + service, "_" + tag, domain], true, TypeSRV) == Ok(Unmatched)
  {
    assert ("_" + tag)[0] == '_';
  }

  /** A domain of more than one label is not recognised: the label before
      last is then part of the domain. */
  lemma MultiLabelDomainUnmatched()
    ensures ClassifyName(["reviews", "service", "example", "com"], true, TypeA) == Ok(Unmatched)
  {
  }
}
