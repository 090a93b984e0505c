/**
 * The parts of a DNS message (section 4.1 of RFC 1035) that the forwarding
 * resolver reads or writes: the header flags it copies between requests and
 * replies, the question and the resource records.
 */
module DnsMessage {
  import opened Text

  type u16 = x: int | 0 <= x < 0x1_0000
  type u32 = x: int | 0 <= x < 0x1_0000_0000

  datatype MessageType = Query | Response

  datatype OpCode = QueryOp | Status | Notify | Update

  /** Response codes with their RCODE values from section 4.1.1 of RFC 1035. */
  datatype ResponseCode = NoError | FormErr | ServFail | NXDomain | NotImp | Refused {
    function Value(): u16 {
      match this
      case NoError => 0
      case FormErr => 1
      case ServFail => 2
      case NXDomain => 3
      case NotImp => 4
      case Refused => 5
    }
  }

  datatype RecordType = A | AAAA | CNAME | MX | NS | PTR | SOA | SRV | TXT | Unknown(code: u16)

  /** The `Debug` rendering of a record type, used in cache keys. */
  function RecordTypeName(t: RecordType): (r: string)
    ensures ':' !in r
  {
    match t
    case A => "A"
    case AAAA => "AAAA"
    case CNAME => "CNAME"
    case MX => "MX"
    case NS => "NS"
    case PTR => "PTR"
    case SOA => "SOA"
    case SRV => "SRV"
    case TXT => "TXT"
    case Unknown(code) =>
      var digits := NatToString(code);
      assert forall i :: 0 <= i < |digits| ==> digits[i] != ':';
      "Unknown(" + digits + ")"
  }

  /** Different record types have different names, so the name in a cache key identifies the type. */
  lemma RecordTypeNameInjective(a: RecordType, b: RecordType)
    ensures RecordTypeName(a) == RecordTypeName(b) ==> a == b
  {
    var na, nb := RecordTypeName(a), RecordTypeName(b);
    if a.Unknown? && b.Unknown? {
      var da, db := NatToString(a.code), NatToString(b.code);
      assert na[8..|na| - 1] == da;
      assert nb[8..|nb| - 1] == db;
      if na == nb {
        assert DigitsValue(da) == DigitsValue(db);
      }
    } else if a.Unknown? {
      assert na[0] == 'U' && nb[0] != 'U';
    } else if b.Unknown? {
      assert nb[0] == 'U' && na[0] != 'U';
    }
  }

  datatype DnsClass = IN | CH | HS

  /** A question: the queried name in presentation form, its type and class. */
  datatype Question = Question(name: string, queryType: RecordType, queryClass: DnsClass)

  datatype Record = Record(name: string, rrType: RecordType, ttl: u32, rdata: seq<int>)

  datatype Header = Header(
    id: u16,
    messageType: MessageType,
    opCode: OpCode,
    authoritative: bool,
    truncated: bool,
    recursionDesired: bool,
    recursionAvailable: bool,
    responseCode: ResponseCode)

  datatype Message = Message(
    header: Header,
    queries: seq<Question>,
    answers: seq<Record>,
    nameServers: seq<Record>,
    additionals: seq<Record>)

  /** `Message::new()`: id 0, a query with opcode QUERY, no flags, NOERROR and empty sections. */
  function NewMessage(): Message {
    Message(Header(0, Query, QueryOp, false, false, false, false, NoError), [], [], [], [])
  }

  /**
   * The header of an error reply built from a request header: the id, the
   * opcode and the recursion-desired flag are copied, the type becomes
   * Response and the response code is the one given.
   */
  function ErrorHeader(request: Header, rcode: ResponseCode): (h: Header)
    ensures h.id == request.id && h.opCode == request.opCode
    ensures h.recursionDesired == request.recursionDesired
    ensures h.messageType == Response && h.responseCode == rcode
    ensures !h.recursionAvailable && !h.authoritative && !h.truncated
  {
    Header(request.id, Response, request.opCode, false, false, request.recursionDesired, false, rcode)
  }
}
