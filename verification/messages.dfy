/**
 * Negotiation messages, the six message kinds with their skeletons
 * (`getTemplate`), and the reply deadline (`getReplyByTime`).
 */
module Messages {
  import opened JsValues
  import opened Catalog

  /**
   * The envelope. `senderId` and `receiverId` stand for
   * `sender.identification.id` and `receiver.identification.id`; `rest` holds
   * the frame properties the generator never touches. A property the object
   * lacks reads as `Undefined`.
   */
  datatype Frame = Frame(
    senderId: JsValue,
    receiverId: JsValue,
    conversationId: JsValue,
    replyBy: JsValue,
    location: JsValue,
    startTimestamp: JsValue,
    endTimestamp: JsValue,
    creationDate: JsValue,
    rest: map<string, JsValue>)

  /** One entry of `dataElements.submodels`: `identification.id` and `identification.submodelElements`. */
  datatype SubmodelInstance = SubmodelInstance(id: JsValue, elements: seq<Element>)

  datatype Payload = Payload(submodels: seq<SubmodelInstance>)

  /**
   * A message: its frame, its payload, and every other top-level property
   * (`userName`, `walletAddress`, extension data) in `fields`.
   */
  datatype Message = Message(frame: Frame, dataElements: Payload, fields: map<string, JsValue>)

  datatype MessageKind =
    CallForProposal | Proposal | AcceptProposal | RejectProposal | InformConfirm | InformPayment

  function Tag(k: MessageKind): string
  {
    match k
    case CallForProposal => "callForProposal"
    case Proposal => "proposal"
    case AcceptProposal => "acceptProposal"
    case RejectProposal => "rejectProposal"
    case InformConfirm => "informConfirm"
    case InformPayment => "informPayment"
  }

  const MessageTags: set<string> :=
    {"callForProposal", "proposal", "acceptProposal", "rejectProposal", "informConfirm", "informPayment"}

  /** The tag switch of `getTemplate`, resolved to a kind. */
  function ParseKind(tag: string): (r: Option<MessageKind>)
    ensures r.Some? <==> tag in MessageTags
    ensures r.Some? ==> Tag(r.value) == tag
  {
    match tag
    case "callForProposal" => Some(CallForProposal)
    case "proposal" => Some(Proposal)
    case "acceptProposal" => Some(AcceptProposal)
    case "rejectProposal" => Some(RejectProposal)
    case "informConfirm" => Some(InformConfirm)
    case "informPayment" => Some(InformPayment)
    case _ => None
  }

  /** Tags and kinds are in one-to-one correspondence. */
  lemma TagRoundTrip(k: MessageKind)
    ensures ParseKind(Tag(k)) == Some(k)
    ensures Tag(k) in MessageTags
  {
  }

  /** The six skeletons loaded from the template files; their contents are data, not logic. */
  datatype Skeletons = Skeletons(
    callForProposal: Message,
    proposal: Message,
    acceptProposal: Message,
    rejectProposal: Message,
    informConfirm: Message,
    informPayment: Message)
  {
    function Of(k: MessageKind): Message
    {
      match k
      case CallForProposal => callForProposal
      case Proposal => proposal
      case AcceptProposal => acceptProposal
      case RejectProposal => rejectProposal
      case InformConfirm => informConfirm
      case InformPayment => informPayment
    }
  }

  /** `getTemplate(type)`: the skeleton for one of the six tags, `null` for any other string. */
  function GetTemplate(skeletons: Skeletons, tag: string): (r: Option<Message>)
    ensures r.None? <==> tag !in MessageTags
    ensures forall k :: tag == Tag(k) ==> r == Some(skeletons.Of(k))
  {
    match ParseKind(tag)
    case Some(k) => Some(skeletons.Of(k))
    case None => None
  }

  const DefaultReplyMinutes: int := 10

  /** The offset in minutes, with the default parameter value applied when it is undefined. */
  function OffsetMinutes(minutes: Option<int>): int
  {
    match minutes
    case Some(m) => m
    case None => DefaultReplyMinutes
  }
  const MillisPerMinute: int := 60 * 1000
  const MillisPerSecond: int := 1000

  /**
   * `getReplyByTime(minutes)` with the clock reading `now` (milliseconds)
   * passed in. `minutes` defaults to 10 when undefined. `Date.parse` of the
   * date's string form keeps whole seconds only, so the deadline is rounded
   * down to a second.
   */
  function ReplyBy(now: int, minutes: Option<int>): (r: int)
    ensures var target := now + OffsetMinutes(minutes) * MillisPerMinute;
            r % MillisPerSecond == 0 && r <= target < r + MillisPerSecond
  {
    var target := now + OffsetMinutes(minutes) * MillisPerMinute;
    target - target % MillisPerSecond
  }

  /** Later calls, or longer offsets, never give an earlier deadline. */
  lemma ReplyByMonotonic(now: int, now': int, m: int, m': int)
    requires now <= now' && m <= m'
    ensures ReplyBy(now, Some(m)) <= ReplyBy(now', Some(m'))
  {
    var t := now + m * MillisPerMinute;
    var t' := now' + m' * MillisPerMinute;
    assert t <= t';
  }

  /** Without an offset the deadline lies ten minutes ahead, to the second. */
  lemma ReplyByDefaultsToTenMinutes(now: int)
    requires now % MillisPerSecond == 0
    ensures ReplyBy(now, None) == now + 600000
  {
  }
}
