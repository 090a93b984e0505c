/**
 * The DNS response cache: replies stored under a string key, each with its
 * own time to live taken from the smallest TTL among its answers.
 * Durations and instants are whole seconds; the current instant is passed in.
 */
module DnsCache {
  import opened Wrappers
  import opened DnsMessage

  /** A cached reply, its time to live and the instant it was stored. */
  datatype CachedResponse = CachedResponse(message: Message, ttl: nat, insertedAt: nat)

  /** The per-entry expiry policy: an entry lives for its own TTL from the moment it is created. */
  predicate Live(entry: CachedResponse, now: nat) {
    now < entry.insertedAt + entry.ttl
  }

  /** What a lookup finds: the stored reply, if the key is present and the entry has not expired. */
  function Lookup(entries: map<string, CachedResponse>, key: string, now: nat): (r: Option<Message>)
    ensures r.Some? <==> key in entries && Live(entries[key], now)
    ensures r.Some? ==> r.value == entries[key].message
  {
    if key in entries && Live(entries[key], now) then Some(entries[key].message) else None
  }

  /** The smallest TTL among the records, folded left to right; None when there are none. */
  function MinTtl(records: seq<Record>): Option<u32>
  {
    if records == [] then None
    else
      var last := records[|records| - 1].ttl;
      match MinTtl(records[..|records| - 1])
      case None => Some(last)
      case Some(current) => Some(if current <= last then current else last)
  }

  /** `MinTtl` is the minimum: absent exactly without records, otherwise one of their TTLs and no larger than any. */
  lemma {:induction false} MinTtlIsMinimum(records: seq<Record>)
    ensures MinTtl(records).None? <==> records == []
    ensures MinTtl(records).Some? ==>
      (forall i :: 0 <= i < |records| ==> MinTtl(records).value <= records[i].ttl) &&
      (exists i :: 0 <= i < |records| && MinTtl(records).value == records[i].ttl)
  {
    if records != [] {
      var init := records[..|records| - 1];
      MinTtlIsMinimum(init);
      assert forall i :: 0 <= i < |init| ==> init[i] == records[i];
    }
  }

  class ResponseCache {
    var entries: map<string, CachedResponse>
    const defaultTtl: nat
    const maxEntries: nat

    /** A new, empty cache with the configured capacity and fallback TTL. */
    constructor (maxEntries: nat, defaultTtlSeconds: nat)
      ensures entries == map[] && this.defaultTtl == defaultTtlSeconds && this.maxEntries == maxEntries
    {
      this.entries := map[];
      this.defaultTtl := defaultTtlSeconds;
      this.maxEntries := maxEntries;
    }

    /** The stored reply for `key`, if present and not yet expired at `now`. */
    method Get(key: string, now: nat) returns (r: Option<Message>)
      ensures r == Lookup(entries, key, now)
    {
      if key in entries && Live(entries[key], now) {
        r := Some(entries[key].message);
      } else {
        r := None;
      }
    }

    /** Stores a reply under `key` at `now`, living for `ttl` or, without one, the default TTL. */
    method Insert(key: string, message: Message, ttl: Option<nat>, now: nat)
      modifies this
      ensures entries == old(entries)[key := CachedResponse(message, ttl.GetOr(defaultTtl), now)]
    {
      var effective := ttl.GetOr(defaultTtl);
      entries := entries[key := CachedResponse(message, effective, now)];
    }

    /**
     * Capacity eviction: the cache may drop any entry before it expires.
     * Which entry goes is the cache library's choice, so the key is a parameter.
     */
    method Evict(key: string)
      modifies this
      ensures entries == old(entries) - {key}
    {
      entries := entries - {key};
    }

    /** The smallest TTL among a reply's answers, or None when it has no answers. */
    static method ExtractTtl(message: Message) returns (r: Option<nat>)
      ensures r.None? <==> message.answers == []
      ensures r.Some? ==> forall i :: 0 <= i < |message.answers| ==> r.value <= message.answers[i].ttl
      ensures r.Some? ==> exists i :: 0 <= i < |message.answers| && r.value == message.answers[i].ttl
      ensures r == TtlOf(message)
    {
      var minTtl: Option<u32> := None;
      var answers := message.answers;
      for i := 0 to |answers|
        invariant minTtl == MinTtl(answers[..i])
      {
        var ttl := answers[i].ttl;
        assert answers[..i + 1][..i] == answers[..i];
        minTtl := Some(match minTtl case None => ttl case Some(current) => if current <= ttl then current else ttl);
      }
      assert answers[..|answers|] == answers;
      MinTtlIsMinimum(answers);
      r := match minTtl case None => None case Some(secs) => Some(secs as nat);
    }
  }

  /** The TTL with which a reply is cached: `MinTtl` of its answers, widened to a duration. */
  function TtlOf(message: Message): Option<nat> {
    match MinTtl(message.answers)
    case None => None
    case Some(secs) => Some(secs as nat)
  }

  /** Inserting under one key leaves every other key's lookup unchanged. */
  lemma InsertKeepsOtherKeys(entries: map<string, CachedResponse>, key: string, other: string,
                             entry: CachedResponse, now: nat)
    requires other != key
    ensures Lookup(entries[key := entry], other, now) == Lookup(entries, other, now)
  {
  }

  /** An inserted reply is found until its TTL has elapsed, and not from then on. */
  lemma InsertedThenExpires(entries: map<string, CachedResponse>, key: string, message: Message,
                            ttl: nat, insertedAt: nat, now: nat)
    ensures Lookup(entries[key := CachedResponse(message, ttl, insertedAt)], key, now) ==
      if now < insertedAt + ttl then Some(message) else None
  {
  }

  /** After an eviction the key is missed at any instant. */
  lemma EvictedIsMissed(entries: map<string, CachedResponse>, key: string, now: nat)
    ensures Lookup(entries - {key}, key, now).None?
  {
  }

  function AnswerWithTtl(ttl: u32): Record {
    Record("example.com.", A, ttl, [1, 2, 3, 4])
  }

  /** No answers give no TTL; one answer of 300 s gives 300 s; answers of 300, 100 and 500 s give 100 s. */
  lemma ExtractTtlExamples()
    ensures TtlOf(NewMessage()) == None
    ensures TtlOf(NewMessage().(answers := [AnswerWithTtl(300)])) == Some(300)
    ensures TtlOf(NewMessage().(answers := [AnswerWithTtl(300), AnswerWithTtl(100), AnswerWithTtl(500)])) == Some(100)
  {
    var three := [AnswerWithTtl(300), AnswerWithTtl(100), AnswerWithTtl(500)];
    assert three[..2] == [AnswerWithTtl(300), AnswerWithTtl(100)];
    assert three[..2][..1] == [AnswerWithTtl(300)];
    assert [AnswerWithTtl(300)][..0] == [];
  }
}
