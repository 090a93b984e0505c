/**
 * The upstream resolver: set up once from its configuration, then asked to
 * resolve the single question of a forwarded query. Name resolution of the
 * upstream host and the network lookup itself are outside the model; their
 * outcomes are parameters.
 */
module Upstream {
  import opened Wrappers
  import opened Text
  import opened DnsMessage

  datatype Protocol = Udp | Tcp | Tls | Https

  datatype SocketAddr = SocketAddr(ip: seq<int>, port: u16)

  datatype UpstreamConfig = UpstreamConfig(resolver: string, port: u16, protocol: Protocol, timeoutSeconds: nat)

  /** The single name server the resolver talks to. */
  datatype NameServerConfig = NameServerConfig(addr: SocketAddr, protocol: Protocol, tlsDnsName: Option<string>)

  datatype UpstreamResolver = UpstreamResolver(nameServer: NameServerConfig, timeoutSeconds: nat)

  /** An error from the upstream lookup (timeout, transport failure, no records). */
  datatype ResolveError = ResolveError(reason: string)

  /**
   * Builds the resolver from the outcome of resolving "host:port": a failed
   * host lookup or an empty address list is an error naming the host;
   * otherwise the first address becomes the only name server, with the host
   * as its TLS name and the configured timeout.
   */
  function New(config: UpstreamConfig, hostLookup: Result<seq<SocketAddr>, string>): (r: Result<UpstreamResolver, string>)
    ensures hostLookup.Err? ==> r == Err("failed to resolve upstream DNS server: " + config.resolver)
    ensures hostLookup.Ok? && hostLookup.value == [] ==> r == Err("no IP addresses found for " + config.resolver)
    ensures hostLookup.Ok? && hostLookup.value != [] ==>
      r.Ok? && r.value.nameServer.addr == hostLookup.value[0] &&
      r.value.nameServer.protocol == config.protocol &&
      r.value.nameServer.tlsDnsName == Some(config.resolver) &&
      r.value.timeoutSeconds == config.timeoutSeconds
  {
    match hostLookup
    case Err(_) => Err("failed to resolve upstream DNS server: " + config.resolver)
    case Ok(addrs) =>
      if addrs == [] then Err("no IP addresses found for " + config.resolver)
      else Ok(UpstreamResolver(NameServerConfig(addrs[0], config.protocol, Some(config.resolver)), config.timeoutSeconds))
  }

  /**
   * The reply assembled from the records the upstream returned for the
   * query's first question: the query's id and recursion-desired flag,
   * type Response, opcode QUERY, recursion available, that question, and the
   * records as answers in the order received.
   */
  function Assembled(query: Message, records: seq<Record>): Message
    requires |query.queries| > 0
  {
    var base := NewMessage();
    base.(
      header := base.header.(id := query.header.id, messageType := Response, opCode := QueryOp,
                             recursionDesired := query.header.recursionDesired, recursionAvailable := true),
      queries := [query.queries[0]],
      answers := records)
  }

  /**
   * Resolves the first question of `query`. `lookup` is what the upstream
   * returned for that question's name and type.
   */
  method Resolve(resolver: UpstreamResolver, query: Message, lookup: Result<seq<Record>, ResolveError>)
    returns (r: Result<Message, ResolveError>)
    requires |query.queries| > 0
    ensures lookup.Err? ==> r == Err(lookup.error)
    ensures lookup.Ok? ==> r == Ok(Assembled(query, lookup.value))
  {
    var question := query.queries[0];
    if lookup.Err? {
      return Err(lookup.error);
    }
    var records := lookup.value;
    var response := NewMessage();
    response := response.(header := response.header.(id := query.header.id));
    response := response.(header := response.header.(messageType := Response));
    response := response.(header := response.header.(opCode := QueryOp));
    response := response.(header := response.header.(recursionDesired := query.header.recursionDesired));
    response := response.(header := response.header.(recursionAvailable := true));
    response := response.(queries := response.queries + [question]);
    for i := 0 to |records|
      invariant response == Assembled(query, records[..i])
    {
      assert records[..i + 1] == records[..i] + [records[i]];
      response := response.(answers := response.answers + [records[i]]);
    }
    assert records[..|records|] == records;
    return Ok(response);
  }

  /** A successful resolution keeps the query's id and question, answers with exactly the records, and sets RA. */
  lemma AssembledKeepsQuery(query: Message, records: seq<Record>)
    requires |query.queries| > 0
    ensures Assembled(query, records).header.id == query.header.id
    ensures Assembled(query, records).queries == [query.queries[0]]
    ensures Assembled(query, records).answers == records
    ensures Assembled(query, records).header.recursionAvailable
    ensures Assembled(query, records).header.responseCode == NoError
    ensures Assembled(query, records).header.messageType == Response
  {
  }

  /** A mock upstream answering example.com. A with 93.184.216.34: the reply's answers are that one address. */
  lemma MockUpstreamAnswer()
    ensures
      var question := Question("example.com.", A, IN);
      var record := Record("example.com.", A, 86400, [93, 184, 216, 34]);
      var query := NewMessage().(queries := [question]);
      var reply := Assembled(query, [record]);
      |reply.answers| == 1 && reply.answers[0].rdata == [93, 184, 216, 34]
  {
  }
}
