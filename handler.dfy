/**
 * The per-request pipeline of the forwarding resolver: parse, blocklist
 * check, cache lookup, upstream forwarding, reply. The reply for every path
 * is given by `Reply`, and the cache's new contents by `CacheAfter`.
 */
module Handler {
  import opened Wrappers
  import opened Text
  import opened DnsMessage
  import opened Blocklist
  import opened DnsCache
  import opened Upstream

  /**
   * An inbound request: its header, its raw questions, and the question the
   * server extracted from it (None when the request could not be parsed).
   */
  datatype Request = Request(header: Header, queries: seq<Question>, parsed: Option<Question>)

  /** The queried name as the handler sees it: the lower-cased form of the question's name. */
  function DomainName(q: Question): string {
    Lower(q.name)
  }

  /** The cache key: the lower-cased name, ':' and the record type's debug name. */
  function CacheKey(q: Question): (key: string)
    ensures |key| > |DomainName(q)| && key[..|DomainName(q)|] == DomainName(q) && key[|DomainName(q)|] == ':'
    ensures forall j :: |DomainName(q)| < j < |key| ==> key[j] != ':'
  {
    var key := DomainName(q) + ":" + RecordTypeName(q.queryType);
    NoColonAfter(DomainName(q), RecordTypeName(q.queryType));
    key
  }

  /** An error reply to the request: its header turned into a response with `rcode`, its questions, nothing else. */
  function ErrorReply(request: Request, rcode: ResponseCode): Message {
    Message(ErrorHeader(request.header, rcode), request.queries, [], [], [])
  }

  /** A reply with the given header and the request's questions, carrying the records of `source`. */
  function BuiltReply(request: Request, header: Header, source: Message): Message {
    Message(header, request.queries, source.answers, source.nameServers, source.additionals)
  }

  /** The query forwarded upstream: the request's id, opcode and RD flag, and the original question. */
  function Forwarded(request: Request, q: Question): Message {
    var base := NewMessage();
    base.(header := base.header.(id := request.header.id, messageType := Query, opCode := request.header.opCode,
                                 recursionDesired := request.header.recursionDesired),
          queries := [q])
  }

  /** The SERVFAIL message built when the upstream fails: the forwarded id, opcode QUERY and the original question. */
  function ServFailMessage(request: Request, q: Question): Message {
    var base := NewMessage();
    base.(header := base.header.(id := Forwarded(request, q).header.id, messageType := Response, opCode := QueryOp,
                                 responseCode := ServFail),
          queries := [q])
  }

  /** The reply the upstream path produces, before it is rebuilt around the request. */
  function UpstreamMessage(request: Request, q: Question, lookup: Result<seq<Record>, ResolveError>): Message {
    if lookup.Ok? then Assembled(Forwarded(request, q), lookup.value) else ServFailMessage(request, q)
  }

  /**
   * The reply sent for a request, given the blocklist, the cache contents at
   * `now` and what the upstream returns for the question.
   */
  function Reply(request: Request, domains: set<string>, entries: map<string, CachedResponse>, now: nat,
                 lookup: Result<seq<Record>, ResolveError>): (reply: Message)
    ensures reply.header.id == request.header.id
    ensures reply.queries == request.queries
  {
    match request.parsed
    case None => ErrorReply(request, FormErr)
    case Some(q) =>
      if BlockedBy(domains, Normalize(DomainName(q))) then ErrorReply(request, Refused)
      else match Lookup(entries, CacheKey(q), now)
        case Some(cached) => BuiltReply(request, cached.header.(id := request.header.id), cached)
        case None =>
          var m := UpstreamMessage(request, q, lookup);
          BuiltReply(request, m.header, m)
  }

  /** The cache after a request: only a successful upstream resolution after a miss stores anything. */
  function CacheAfter(request: Request, domains: set<string>, entries: map<string, CachedResponse>, now: nat,
                      lookup: Result<seq<Record>, ResolveError>, defaultTtl: nat): (after: map<string, CachedResponse>)
    ensures after.Keys == entries.Keys +
      if Forwards(request, domains, entries, now) && lookup.Ok? then {CacheKey(request.parsed.value)} else {}
    ensures forall k :: k in entries && !Stores(request, domains, entries, now, lookup, k) ==> after[k] == entries[k]
  {
    match request.parsed
    case None => entries
    case Some(q) =>
      if BlockedBy(domains, Normalize(DomainName(q))) || Lookup(entries, CacheKey(q), now).Some? || lookup.Err? then entries
      else
        var m := UpstreamMessage(request, q, lookup);
        entries[CacheKey(q) := CachedResponse(m, TtlOf(m).GetOr(defaultTtl), now)]
  }

  /** Whether handling the request stores an entry under `key`. */
  predicate Stores(request: Request, domains: set<string>, entries: map<string, CachedResponse>, now: nat,
                   lookup: Result<seq<Record>, ResolveError>, key: string) {
    Forwards(request, domains, entries, now) && lookup.Ok? && key == CacheKey(request.parsed.value)
  }

  /** Whether the handler goes upstream for a request: it parsed, its name is not blocked, and the cache misses. */
  predicate Forwards(request: Request, domains: set<string>, entries: map<string, CachedResponse>, now: nat) {
    && request.parsed.Some?
    && !BlockedBy(domains, Normalize(DomainName(request.parsed.value)))
    && Lookup(entries, CacheKey(request.parsed.value), now).None?
  }

  class DnsRequestHandler {
    const upstream: UpstreamResolver
    const blocklist: BlocklistManager
    const cache: ResponseCache
    /** How many queries have been sent upstream. */
    ghost var upstreamCalls: nat
    /** The cache keys stored, in order. */
    ghost var inserted: seq<string>

    constructor (upstream: UpstreamResolver, blocklist: BlocklistManager, cache: ResponseCache)
      ensures this.upstream == upstream && this.blocklist == blocklist && this.cache == cache
      ensures upstreamCalls == 0 && inserted == []
    {
      this.upstream := upstream;
      this.blocklist := blocklist;
      this.cache := cache;
      upstreamCalls := 0;
      inserted := [];
    }

    /**
     * Handles one request. `lookup` is what the upstream would return for the
     * question and `sendOk` whether sending the reply succeeds; the result is
     * the reply handed to the transport and the response info: the sent
     * header, or the request's header when sending failed.
     */
    method HandleRequest(request: Request, now: nat, lookup: Result<seq<Record>, ResolveError>, sendOk: bool)
      returns (sent: Message, info: Header)
      modifies this, cache
      ensures sent == Reply(request, blocklist.domains, old(cache.entries), now, lookup)
      ensures info == if sendOk then sent.header else request.header
      ensures cache.entries == CacheAfter(request, blocklist.domains, old(cache.entries), now, lookup, cache.defaultTtl)
      ensures upstreamCalls == old(upstreamCalls) + if Forwards(request, blocklist.domains, old(cache.entries), now) then 1 else 0
      ensures inserted == old(inserted) +
        if Forwards(request, blocklist.domains, old(cache.entries), now) && lookup.Ok?
        then [CacheKey(request.parsed.value)] else []
    {
      if request.parsed.None? {
        sent := ErrorReply(request, FormErr);
        info := if sendOk then sent.header else request.header;
        return;
      }
      var q := request.parsed.value;
      var domainName := DomainName(q);
      var blocked := blocklist.IsBlocked(domainName);
      if blocked {
        sent := ErrorReply(request, Refused);
        info := if sendOk then sent.header else request.header;
        return;
      }
      var cacheKey := CacheKey(q);
      var cached := cache.Get(cacheKey, now);
      if cached.Some? {
        var header := cached.value.header.(id := request.header.id);
        sent := BuiltReply(request, header, cached.value);
        info := if sendOk then sent.header else request.header;
        return;
      }
      var requestMessage := Forwarded(request, q);
      var resolved := Resolve(upstream, requestMessage, lookup);
      upstreamCalls := upstreamCalls + 1;
      var responseMessage: Message;
      match resolved {
        case Ok(response) =>
          var ttl := ResponseCache.ExtractTtl(response);
          cache.Insert(cacheKey, response, ttl, now);
          inserted := inserted + [cacheKey];
          responseMessage := response;
        case Err(_) =>
          var errorMsg := NewMessage();
          errorMsg := errorMsg.(header := errorMsg.header.(id := requestMessage.header.id));
          errorMsg := errorMsg.(header := errorMsg.header.(messageType := Response));
          errorMsg := errorMsg.(header := errorMsg.header.(opCode := QueryOp));
          errorMsg := errorMsg.(header := errorMsg.header.(responseCode := ServFail));
          errorMsg := errorMsg.(queries := errorMsg.queries + [q]);
          responseMessage := errorMsg;
      }
      sent := BuiltReply(request, responseMessage.header, responseMessage);
      info := if sendOk then sent.header else request.header;
    }
  }

  /** An unparseable request gets FORMERR; a blocked name gets REFUSED with no records; neither touches the cache. */
  lemma ErrorPaths(request: Request, domains: set<string>, entries: map<string, CachedResponse>, now: nat,
                   lookup: Result<seq<Record>, ResolveError>, defaultTtl: nat)
    ensures request.parsed.None? ==>
      Reply(request, domains, entries, now, lookup).header.responseCode == FormErr
    ensures request.parsed.Some? && BlockedBy(domains, Normalize(DomainName(request.parsed.value))) ==>
      var reply := Reply(request, domains, entries, now, lookup);
      reply.header.responseCode == Refused && reply.answers == [] && reply.header.messageType == Response
    ensures (request.parsed.None? || BlockedBy(domains, Normalize(DomainName(request.parsed.value)))) ==>
      CacheAfter(request, domains, entries, now, lookup, defaultTtl) == entries
  {
  }

  /**
   * An upstream failure on a cache miss gives SERVFAIL with the request's
   * questions, caches nothing, and so an identical request afterwards misses
   * the cache again and goes upstream.
   */
  lemma UpstreamFailureNotCached(request: Request, domains: set<string>, entries: map<string, CachedResponse>,
                                 now: nat, err: ResolveError, defaultTtl: nat, later: nat)
    requires request.parsed.Some?
    requires !BlockedBy(domains, Normalize(DomainName(request.parsed.value)))
    requires Lookup(entries, CacheKey(request.parsed.value), now).None?
    requires now <= later
    ensures Reply(request, domains, entries, now, Err(err)).header.responseCode == ServFail
    ensures Reply(request, domains, entries, now, Err(err)).queries == request.queries
    ensures Lookup(CacheAfter(request, domains, entries, now, Err(err), defaultTtl),
                   CacheKey(request.parsed.value), later).None?
  {
    var key := CacheKey(request.parsed.value);
    if key in entries {
      assert !Live(entries[key], now);
    }
  }

  /** Two questions whose names differ only in letter case, with the same type, share a cache key. */
  lemma CacheKeyIgnoresCase(q1: Question, q2: Question)
    requires Lower(q1.name) == Lower(q2.name) && q1.queryType == q2.queryType
    ensures CacheKey(q1) == CacheKey(q2)
  {
  }

  /** With a colon-free type name, the ':' after the name is the last one in the key. */
  lemma NoColonAfter(name: string, typeName: string)
    requires ':' !in typeName
    ensures forall j :: |name| < j < |name + ":" + typeName| ==> (name + ":" + typeName)[j] != ':'
  {
    forall j | |name| < j < |name + ":" + typeName|
      ensures (name + ":" + typeName)[j] != ':'
    {
      assert (name + ":" + typeName)[j] == typeName[j - |name| - 1];
    }
  }

  /** Equal cache keys mean equal lower-cased names and equal record types. */
  lemma CacheKeyInjective(q1: Question, q2: Question)
    requires CacheKey(q1) == CacheKey(q2)
    ensures DomainName(q1) == DomainName(q2)
    ensures q1.queryType == q2.queryType
  {
    var key := CacheKey(q1);
    var n1, n2 := DomainName(q1), DomainName(q2);
    var t1, t2 := RecordTypeName(q1.queryType), RecordTypeName(q2.queryType);
    assert key == n1 + ":" + t1 && key == n2 + ":" + t2;
    NoColonAfter(n1, t1);
    NoColonAfter(n2, t2);
    assert key[|n1|] == ':' && key[|n2|] == ':';
    assert |n1| == |n2|;
    assert n1 == key[..|n1|] && n2 == key[..|n2|];
    assert t1 == key[|n1| + 1..] && t2 == key[|n2| + 1..];
    RecordTypeNameInjective(q1.queryType, q2.queryType);
  }

  /**
   * Cache replay: after a successful upstream resolution is cached, an
   * identical question (up to letter case) asked before the TTL elapses is
   * answered from the cache, with the upstream's records and the new request's id.
   */
  lemma CachedAnswerReplayed(first: Request, second: Request, domains: set<string>,
                             entries: map<string, CachedResponse>, now: nat, records: seq<Record>,
                             defaultTtl: nat, later: nat, lookup: Result<seq<Record>, ResolveError>)
    requires first.parsed.Some? && second.parsed.Some?
    requires !BlockedBy(domains, Normalize(DomainName(first.parsed.value)))
    requires Lookup(entries, CacheKey(first.parsed.value), now).None?
    requires CacheKey(second.parsed.value) == CacheKey(first.parsed.value)
    requires !BlockedBy(domains, Normalize(DomainName(second.parsed.value)))
    requires now <= later < now + TtlOf(Assembled(Forwarded(first, first.parsed.value), records)).GetOr(defaultTtl)
    ensures
      var reply := Reply(second, domains, CacheAfter(first, domains, entries, now, Ok(records), defaultTtl), later, lookup);
      reply.answers == records && reply.header.id == second.header.id && reply.header.responseCode == NoError
  {
  }
  /** A request that does not parse, or whose name is blocked, never goes upstream. */
  lemma UnparsedOrBlockedNotForwarded(request: Request, domains: set<string>, entries: map<string, CachedResponse>, now: nat)
    requires request.parsed.None? || BlockedBy(domains, Normalize(DomainName(request.parsed.value)))
    ensures !Forwards(request, domains, entries, now)
  {
  }

  /** A cache hit never goes upstream. */
  lemma HitNotForwarded(request: Request, domains: set<string>, entries: map<string, CachedResponse>, now: nat)
    requires request.parsed.Some? && Lookup(entries, CacheKey(request.parsed.value), now).Some?
    ensures !Forwards(request, domains, entries, now)
  {
  }

  /** After an upstream failure, the identical request at any later time goes upstream again. */
  lemma FailureForwardsAgain(request: Request, domains: set<string>, entries: map<string, CachedResponse>,
                             now: nat, err: ResolveError, defaultTtl: nat, later: nat)
    requires Forwards(request, domains, entries, now) && now <= later
    ensures Forwards(request, domains, CacheAfter(request, domains, entries, now, Err(err), defaultTtl), later)
  {
    UpstreamFailureNotCached(request, domains, entries, now, err, defaultTtl, later);
  }

  /**
   * After an upstream success, the identical request before the stored TTL
   * elapses is answered from the cache: a miss costs exactly one upstream call.
   */
  lemma SuccessNotForwardedAgain(request: Request, domains: set<string>, entries: map<string, CachedResponse>,
                                 now: nat, records: seq<Record>, defaultTtl: nat, later: nat)
    requires Forwards(request, domains, entries, now)
    requires now <= later < now + TtlOf(Assembled(Forwarded(request, request.parsed.value), records)).GetOr(defaultTtl)
    ensures !Forwards(request, domains, CacheAfter(request, domains, entries, now, Ok(records), defaultTtl), later)
  {
  }
}
