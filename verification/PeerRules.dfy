/** The peer table of the UDP service (`SyncState` and its handlers): who is compatible, who has
    been asked for what, and when. Each handler is a function of the state, the sender and the time. */
module PeerRules {
  import opened Types

  datatype Addr = Addr(ip: nat, port: u16)

  datatype NodeInfo = NodeInfo(
    wireVersion: u16,
    minCompatibleWireVersion: u16,
    softwareVersion: string,
    chainId: u32,
    publicKeyHex: string,
    capabilities: seq<string>)

  datatype Incompatibility = TooOld | NeedsNewer | OtherChain

  const WIRE_VERSION: u16 := 2
  const MIN_COMPATIBLE_WIRE_VERSION: u16 := 1

  // Milliseconds.
  const NODE_INFO_RESPONSE_MIN_INTERVAL: nat := 42_000
  const NODE_INFO_PROBE_MIN_INTERVAL: nat := 5_000

  /** `ensure_node_info_compatible`. */
  function Compatibility(chainId: u32, remote: NodeInfo): Outcome<Incompatibility> {
    if remote.wireVersion < MIN_COMPATIBLE_WIRE_VERSION then Fail(TooOld)
    else if remote.minCompatibleWireVersion > WIRE_VERSION then Fail(NeedsNewer)
    else if remote.chainId != chainId then Fail(OtherChain)
    else Pass
  }

  datatype Message =
    | Probe                              // a PresenceAnnounce that asks for node info
    | OwnInfo                            // our NodeInfo
    | BlockRequest(height: nat)
    | TransactionRequest(id: Hash256)
    | TipReply
    | BlockReply(requested: u64)
    | TransactionReply(id: Hash256)
    | BlockVerdict
    | TransactionVerdict(id: Hash256)
    | Announcement(id: Hash256)

  // What went out and when, with what was known of the receiver; and which block answers came in.
  datatype Entry =
    | Sent(to: Addr, message: Message, at: nat, wasKnown: bool, wasRejected: bool, localHeight: nat)
    | BlockAnswered(from: Addr)

  /** What does not change while the service runs: its own addresses, its chain, where it announces,
      and the order in which a hash set yields its members. */
  datatype Setup = Setup(
    own: set<Addr>,
    chainId: u32,
    targets: seq<Addr>,
    order: set<Hash256> -> seq<Hash256>)

  datatype Service = Service(
    tips: map<Addr, u64>,
    inFlight: map<Addr, nat>,
    known: set<Addr>,
    info: map<Addr, NodeInfo>,
    rejections: map<Addr, Incompatibility>,
    announced: map<Addr, set<Hash256>>,
    seenAt: map<Addr, nat>,
    infoSentAt: map<Addr, nat>,
    probedAt: map<Addr, nat>,
    height: nat,
    log: seq<Entry>)

  const NEW_SERVICE := Service(map[], map[], {}, map[], map[], map[], map[], map[], map[], 0, [])

  // Milliseconds from `last` to `now`, on a clock that never runs backwards.
  function Since(now: nat, last: nat): nat {
    if now >= last then now - last else 0
  }

  function Send(s: Service, to: Addr, message: Message, now: nat): Service {
    s.(log := s.log + [Sent(to, message, now, to in s.known, to in s.rejections, s.height)])
  }

  /** The same message to several addresses (`broadcast_transaction_announce`). */
  function SendAll(s: Service, to: seq<Addr>, message: Message, now: nat): Service {
    if to == [] then s else Send(SendAll(s, to[..|to| - 1], message, now), to[|to| - 1], message, now)
  }

  /** A request for each transaction that is not here. */
  function RequestAll(s: Service, source: Addr, ids: seq<Hash256>, have: set<Hash256>, now: nat): Service {
    if ids == [] then s
    else
      var asked, last := RequestAll(s, source, ids[..|ids| - 1], have, now), ids[|ids| - 1];
      if last in have then asked else Send(asked, source, TransactionRequest(last), now)
  }

  /** `send_local_node_info`. */
  function SendInfo(s: Service, to: Addr, now: nat): Service {
    Send(s.(infoSentAt := s.infoSentAt[to := now]), to, OwnInfo, now)
  }

  predicate MayProbe(s: Service, to: Addr, now: nat) {
    to in s.probedAt ==> Since(now, s.probedAt[to]) >= NODE_INFO_PROBE_MIN_INTERVAL
  }

  /** `request_node_info_exchange`. */
  function Exchange(s: Service, source: Addr, now: nat): Service {
    var seen := s.(seenAt := s.seenAt[source := now]);
    if !MayProbe(s, source, now) then seen
    else SendInfo(Send(seen.(probedAt := seen.probedAt[source := now]), source, Probe, now), source, now)
  }

  /** `handle_presence_announce`. */
  function OnPresence(s: Service, source: Addr, now: nat): Service {
    var seen := s.(seenAt := s.seenAt[source := now]);
    if source in s.known && source in s.infoSentAt && Since(now, s.infoSentAt[source]) < NODE_INFO_RESPONSE_MIN_INTERVAL
    then seen else SendInfo(seen, source, now)
  }

  function Announced(s: Service, source: Addr): set<Hash256> {
    if source in s.announced then s.announced[source] else {}
  }

  function Accepted(s: Service, source: Addr, info: NodeInfo, now: nat): Service {
    s.(known := s.known + {source}, announced := s.announced - {source}, rejections := s.rejections - {source},
       seenAt := s.seenAt[source := now], probedAt := s.probedAt - {source}, info := s.info[source := info])
  }

  function Rejected(s: Service, source: Addr, reason: Incompatibility): Service {
    s.(known := s.known - {source}, info := s.info - {source}, rejections := s.rejections[source := reason],
       announced := s.announced - {source})
  }

  /** `handle_node_info`; `have` are the transactions already here. */
  function OnNodeInfo(c: Setup, have: set<Hash256>, s: Service, source: Addr, info: NodeInfo, now: nat): Service {
    match Compatibility(c.chainId, info)
    case Fail(reason) => Rejected(s, source, reason)
    case Pass => RequestAll(Accepted(s, source, info, now), source, c.order(Announced(s, source)), have, now)
  }

  /** `handle_transaction_announce`. */
  function OnTransactionAnnounce(have: set<Hash256>, s: Service, source: Addr, id: Hash256, now: nat): Service {
    if id in have then s
    else if source in s.known then Send(s, source, TransactionRequest(id), now)
    else if source in s.rejections then s
    else Exchange(s.(announced := s.announced[source := Announced(s, source) + {id}]), source, now)
  }

  /** `ensure_compatible_peer`: true for a known peer, the reason for a rejected one, and for a stranger
      false, after asking who it is. */
  function Admit(s: Service, source: Addr, now: nat): (Service, Result<bool, Incompatibility>) {
    if source in s.known then (s, Ok(true))
    else if source in s.rejections then (s, Err(s.rejections[source]))
    else (Exchange(s, source, now), Ok(false))
  }

  /** `request_next_missing_block`. */
  function RequestNext(s: Service, source: Addr, remoteTip: u64, now: nat): Service {
    var next := s.height + 1;
    if remoteTip <= s.height then s
    else if source in s.inFlight && s.inFlight[source] == next then s
    else Send(s.(inFlight := s.inFlight[source := next]), source, BlockRequest(next), now)
  }

  /** `request_follow_up_block`. */
  function FollowUp(s: Service, source: Addr, now: nat): Service {
    RequestNext(s, source, if source in s.tips then s.tips[source] else 0, now)
  }

  function OnTip(s: Service, source: Addr, tip: u64, now: nat): Service {
    var (asked, admitted) := Admit(s, source, now);
    if admitted != Ok(true) then asked else RequestNext(s.(tips := s.tips[source := tip]), source, tip, now)
  }

  /** `handle_block_response`; `applies` is whether the block that came with it applies here. */
  function OnBlock(s: Service, source: Addr, height: u64, present: bool, applies: bool, now: nat): Service {
    var (asked, admitted) := Admit(s, source, now);
    if admitted != Ok(true) then asked
    else
      var answered := s.(inFlight := s.inFlight - {source}, log := s.log + [BlockAnswered(source)]);
      if !present then answered
      else if height <= s.height then FollowUp(answered, source, now)
      else if !applies then answered
      else FollowUp(answered.(height := s.height + 1), source, now)
  }

  /** A request that a compatible peer gets an answer to. */
  function OnRequest(s: Service, source: Addr, answer: Message, now: nat): Service {
    var (asked, admitted) := Admit(s, source, now);
    if admitted != Ok(true) then asked else Send(s, source, answer, now)
  }

  /** A block pushed by a peer, which is told the verdict. */
  function OnSubmitBlock(s: Service, source: Addr, applies: bool, now: nat): Service {
    OnRequest(if applies && source in s.known then s.(height := s.height + 1) else s, source, BlockVerdict, now)
  }

  /** `handle_transaction_response`; `accepted` is whether a body came, was that of `id`, and was new
      to the pool, which took it. */
  function OnTransactionResponse(c: Setup, s: Service, source: Addr, id: Hash256, accepted: bool, now: nat): Service {
    var (asked, admitted) := Admit(s, source, now);
    if admitted != Ok(true) then asked
    else if accepted then SendAll(s, c.targets, Announcement(id), now)
    else s
  }

  /** `handle_submitted_transaction`, open to anyone. */
  function OnSubmitTransaction(c: Setup, s: Service, source: Addr, id: Hash256, accepted: bool, now: nat): Service {
    var answered := Send(s, source, TransactionVerdict(id), now);
    if accepted then SendAll(answered, c.targets, Announcement(id), now) else answered
  }

  datatype Frame =
    | PresenceAnnounce
    | Info(info: NodeInfo)
    | TipRequest
    | Tip(height: u64)
    | BlockRequested(height: u64)
    | BlockResponse(height: u64, present: bool, applies: bool)
    | SubmitBlock(applies: bool)
    | TransactionAnnounce(id: Hash256)
    | TransactionRequested(id: Hash256)
    | TransactionResponse(id: Hash256, accepted: bool)
    | SubmitTransaction(id: Hash256, accepted: bool)
    | Verdict                            // the answer to a submission of ours: only reported

  /** `handle_frame` for a frame that decodes. */
  function OnFrame(c: Setup, have: set<Hash256>, s: Service, source: Addr, frame: Frame, now: nat): Service {
    if source in c.own then s
    else
      match frame
      case PresenceAnnounce => OnPresence(s, source, now)
      case Info(info) => OnNodeInfo(c, have, s, source, info, now)
      case TipRequest => OnRequest(s, source, TipReply, now)
      case Tip(height) => OnTip(s, source, height, now)
      case BlockRequested(height) => OnRequest(s, source, BlockReply(height), now)
      case BlockResponse(height, present, applies) => OnBlock(s, source, height, present, applies, now)
      case SubmitBlock(applies) => OnSubmitBlock(s, source, applies, now)
      case TransactionAnnounce(id) => OnTransactionAnnounce(have, s, source, id, now)
      case TransactionRequested(id) => OnRequest(s, source, TransactionReply(id), now)
      case TransactionResponse(id, accepted) => OnTransactionResponse(c, s, source, id, accepted, now)
      case SubmitTransaction(id, accepted) => OnSubmitTransaction(c, s, source, id, accepted, now)
      case Verdict => s
  }

  // A frame at a time, with the transactions held by then and the blocks added by other means
  // (own production, other sources) since the frame before.
  datatype Input = Input(source: Addr, frame: Frame, now: nat, have: set<Hash256>, grown: nat)

  function Handle(c: Setup, s: Service, input: Input): Service {
    OnFrame(c, input.have, s.(height := s.height + input.grown), input.source, input.frame, input.now)
  }

  function HandleAll(c: Setup, inputs: seq<Input>): Service {
    if inputs == [] then NEW_SERVICE
    else Handle(c, HandleAll(c, inputs[..|inputs| - 1]), inputs[|inputs| - 1])
  }

  /** The clock of a run never goes back. */
  predicate ClockRuns(inputs: seq<Input>) {
    forall i, j :: 0 <= i < j < |inputs| ==> inputs[i].now <= inputs[j].now
  }
}
