/** What every run of the peer table keeps. */
module PeerRuns {
  import opened Types
  import opened PeerRules

  /** Known, rejected and waiting addresses are three different kinds; the known ones are those with
      a stored node info, and it is compatible. */
  ghost predicate TableInv(chainId: u32, s: Service) {
    && s.known !! s.rejections.Keys
    && s.known !! s.announced.Keys
    && s.rejections.Keys !! s.announced.Keys
    && s.known == s.info.Keys
    && forall a :: a in s.info ==> Compatibility(chainId, s.info[a]).Pass?
  }

  // The addresses that have said who they are, one way or the other.
  function Settled(s: Service): set<Addr> {
    s.known + s.rejections.Keys
  }

  predicate InfoTo(e: Entry, a: Addr) {
    e.Sent? && e.to == a && e.message.OwnInfo?
  }

  predicate ProbeTo(e: Entry, a: Addr) {
    e.Sent? && e.to == a && e.message.Probe?
  }

  predicate Requests(e: Entry, a: Addr, h: nat) {
    e.Sent? && e.to == a && e.message == BlockRequest(h)
  }

  // ----- our node info -----

  ghost predicate InfoSpaced(log: seq<Entry>) {
    forall p, q, a :: 0 <= p < q < |log| && InfoTo(log[p], a) && InfoTo(log[q], a) && log[q].wasKnown ==>
      log[q].at >= log[p].at + NODE_INFO_RESPONSE_MIN_INTERVAL
  }

  ghost predicate InfoRecorded(log: seq<Entry>, infoSentAt: map<Addr, nat>) {
    forall p, a :: 0 <= p < |log| && InfoTo(log[p], a) ==> a in infoSentAt && infoSentAt[a] >= log[p].at
  }

  ghost predicate InfoInv(s: Service) {
    InfoSpaced(s.log) && InfoRecorded(s.log, s.infoSentAt)
  }

  // ----- probes -----

  ghost predicate ProbesSpaced(log: seq<Entry>) {
    forall p, q, a :: 0 <= p < q < |log| && ProbeTo(log[p], a) && ProbeTo(log[q], a) ==>
      log[q].at >= log[p].at + NODE_INFO_PROBE_MIN_INTERVAL
  }

  ghost predicate ProbesToStrangers(log: seq<Entry>) {
    forall p, a :: 0 <= p < |log| && ProbeTo(log[p], a) ==> !log[p].wasKnown && !log[p].wasRejected
  }

  ghost predicate ProbesRecorded(log: seq<Entry>, probedAt: map<Addr, nat>, settled: set<Addr>) {
    forall p, a :: 0 <= p < |log| && ProbeTo(log[p], a) ==> a in settled || (a in probedAt && probedAt[a] >= log[p].at)
  }

  ghost predicate ProbeInv(s: Service) {
    ProbesSpaced(s.log) && ProbesToStrangers(s.log) && ProbesRecorded(s.log, s.probedAt, Settled(s))
  }

  // ----- block requests -----

  ghost predicate AnsweredWithin(log: seq<Entry>, a: Addr, from: int, to: int)
    requires to <= |log|
  {
    exists r :: 0 <= r && from < r < to && log[r] == BlockAnswered(a)
  }

  ghost predicate RequestsNext(log: seq<Entry>) {
    forall p, a, h :: 0 <= p < |log| && Requests(log[p], a, h) ==> h == log[p].localHeight + 1
  }

  /** Between two requests to one peer for one height, the peer has answered. */
  ghost predicate NoRepeatedRequest(log: seq<Entry>) {
    forall p, q, a, h :: 0 <= p < q < |log| && Requests(log[p], a, h) && Requests(log[q], a, h) ==>
      AnsweredWithin(log, a, p, q)
  }

  ghost predicate RequestsRecorded(log: seq<Entry>, inFlight: map<Addr, nat>) {
    forall p, a, h :: 0 <= p < |log| && Requests(log[p], a, h) ==>
      AnsweredWithin(log, a, p, |log|) || (a in inFlight && inFlight[a] >= h)
  }

  ghost predicate InFlightBounded(inFlight: map<Addr, nat>, height: nat) {
    forall a :: a in inFlight ==> inFlight[a] <= height + 1
  }

  ghost predicate RequestInv(s: Service) {
    && RequestsNext(s.log)
    && NoRepeatedRequest(s.log)
    && RequestsRecorded(s.log, s.inFlight)
    && InFlightBounded(s.inFlight, s.height)
  }

  ghost predicate ServiceInv(chainId: u32, s: Service) {
    TableInv(chainId, s) && InfoInv(s) && ProbeInv(s) && RequestInv(s)
  }

  // ----- one more entry in the log -----

  lemma AppendOther(s: Service, e: Entry)
    requires forall a :: !InfoTo(e, a) && !ProbeTo(e, a)
    ensures InfoInv(s) ==> InfoInv(s.(log := s.log + [e]))
    ensures ProbeInv(s) ==> ProbeInv(s.(log := s.log + [e]))
  {
  }

  lemma InfoKeepsProbes(s: Service, e: Entry, infoSentAt: map<Addr, nat>)
    requires forall a :: !ProbeTo(e, a)
    ensures ProbeInv(s) ==> ProbeInv(s.(log := s.log + [e], infoSentAt := infoSentAt))
  {
  }

  lemma StillAnswered(log: seq<Entry>, e: Entry, a: Addr, from: int, to: int)
    requires to <= |log| && AnsweredWithin(log, a, from, to)
    ensures AnsweredWithin(log + [e], a, from, to)
  {
    var r :| 0 <= r && from < r < to && log[r] == BlockAnswered(a);
    assert (log + [e])[r] == BlockAnswered(a);
  }

  lemma AppendKeepsRequests(log: seq<Entry>, e: Entry, inFlight: map<Addr, nat>)
    requires forall a, h :: !Requests(e, a, h)
    requires RequestsNext(log) && NoRepeatedRequest(log) && RequestsRecorded(log, inFlight)
    ensures RequestsNext(log + [e]) && NoRepeatedRequest(log + [e]) && RequestsRecorded(log + [e], inFlight)
  {
    hide AnsweredWithin;
    var longer := log + [e];
    forall p, q, a, h | 0 <= p < q < |longer| && Requests(longer[p], a, h) && Requests(longer[q], a, h)
      ensures AnsweredWithin(longer, a, p, q)
    {
      assert longer[p] == log[p] && longer[q] == log[q];
      StillAnswered(log, e, a, p, q);
    }
    forall p, a, h | 0 <= p < |longer| && Requests(longer[p], a, h)
      ensures AnsweredWithin(longer, a, p, |longer|) || (a in inFlight && inFlight[a] >= h)
    {
      assert longer[p] == log[p];
      if AnsweredWithin(log, a, p, |log|) {
        StillAnswered(log, e, a, p, |log|);
        AnsweredLater(longer, a, p, |log|, |longer|);
      }
    }
  }

  lemma AnsweredLater(log: seq<Entry>, a: Addr, from: int, to: int, later: int)
    requires to <= later <= |log| && AnsweredWithin(log, a, from, to)
    ensures AnsweredWithin(log, a, from, later)
  {
  }

  /** An answer clears the way for the next request to that peer. */
  lemma AnswerKeepsRequests(log: seq<Entry>, inFlight: map<Addr, nat>, source: Addr)
    requires RequestsNext(log) && NoRepeatedRequest(log) && RequestsRecorded(log, inFlight)
    ensures var longer := log + [BlockAnswered(source)];
      RequestsNext(longer) && NoRepeatedRequest(longer) && RequestsRecorded(longer, inFlight - {source})
  {
    var e := BlockAnswered(source);
    var longer := log + [e];
    AppendKeepsRequests(log, e, inFlight);
    forall p, a, h | 0 <= p < |longer| && Requests(longer[p], a, h)
      ensures AnsweredWithin(longer, a, p, |longer|) || (a in inFlight - {source} && (inFlight - {source})[a] >= h)
    {
      assert longer[|log|] == BlockAnswered(source);
    }
  }

  /** A request goes out only when the last one to that peer was answered or was for a lower height. */
  lemma RequestKeepsRequests(log: seq<Entry>, inFlight: map<Addr, nat>, e: Entry, source: Addr, height: nat)
    requires RequestsNext(log) && NoRepeatedRequest(log) && RequestsRecorded(log, inFlight)
    requires InFlightBounded(inFlight, height)
    requires Requests(e, source, height + 1) && e.localHeight == height
    requires source in inFlight ==> inFlight[source] != height + 1
    ensures var longer := log + [e];
      RequestsNext(longer) && NoRepeatedRequest(longer) && RequestsRecorded(longer, inFlight[source := height + 1])
  {
    hide AnsweredWithin;
    var longer := log + [e];
    forall p, q, a, h | 0 <= p < q < |longer| && Requests(longer[p], a, h) && Requests(longer[q], a, h)
      ensures AnsweredWithin(longer, a, p, q)
    {
      assert longer[p] == log[p];
      if q < |log| {
        StillAnswered(log, e, a, p, q);
      } else {
        StillAnswered(log, e, a, p, |log|);
      }
    }
    forall p, a, h | 0 <= p < |longer| && Requests(longer[p], a, h)
      ensures var next := inFlight[source := height + 1];
        AnsweredWithin(longer, a, p, |longer|) || (a in next && next[a] >= h)
    {
      if p < |log| && AnsweredWithin(log, a, p, |log|) {
        StillAnswered(log, e, a, p, |log|);
        AnsweredLater(longer, a, p, |log|, |longer|);
      }
    }
  }

  // ----- the building blocks of the handlers -----

  /** A message that none of the invariants is about. */
  predicate Plain(message: Message) {
    !message.Probe? && !message.OwnInfo? && !message.BlockRequest?
  }

  lemma SendOther(chainId: u32, s: Service, to: Addr, message: Message, now: nat)
    requires ServiceInv(chainId, s) && Plain(message)
    ensures ServiceInv(chainId, Send(s, to, message, now))
  {
    hide InfoInv, ProbeInv, RequestsNext, NoRepeatedRequest, RequestsRecorded;
    var e := Sent(to, message, now, to in s.known, to in s.rejections, s.height);
    AppendOther(s, e);
    AppendKeepsRequests(s.log, e, s.inFlight);
  }

  lemma {:induction false} SendAllKeeps(chainId: u32, s: Service, to: seq<Addr>, message: Message, now: nat)
    requires ServiceInv(chainId, s) && Plain(message)
    ensures var t := SendAll(s, to, message, now);
      ServiceInv(chainId, t) && t == s.(log := t.log)
  {
    hide ServiceInv;
    if to != [] {
      SendAllKeeps(chainId, s, to[..|to| - 1], message, now);
      SendOther(chainId, SendAll(s, to[..|to| - 1], message, now), to[|to| - 1], message, now);
    }
  }

  lemma {:induction false} RequestAllKeeps(chainId: u32, s: Service, source: Addr, ids: seq<Hash256>,
                                           have: set<Hash256>,
                                           now: nat)
    requires ServiceInv(chainId, s)
    ensures var t := RequestAll(s, source, ids, have, now);
      ServiceInv(chainId, t) && t == s.(log := t.log)
  {
    hide ServiceInv;
    if ids != [] {
      var front, last := ids[..|ids| - 1], ids[|ids| - 1];
      RequestAllKeeps(chainId, s, source, front, have, now);
      SendOther(chainId, RequestAll(s, source, front, have, now), source, TransactionRequest(last), now);
    }
  }

  lemma SendInfoKeeps(chainId: u32, s: Service, to: Addr, now: nat)
    requires ServiceInv(chainId, s)
    requires to in s.known && to in s.infoSentAt ==> now >= s.infoSentAt[to] + NODE_INFO_RESPONSE_MIN_INTERVAL
    requires to in s.infoSentAt ==> now >= s.infoSentAt[to]
    ensures ServiceInv(chainId, SendInfo(s, to, now))
    ensures TimesPast(s, now) ==> TimesPast(SendInfo(s, to, now), now)
  {
    hide ProbeInv, RequestsNext, NoRepeatedRequest, RequestsRecorded;
    var e := Sent(to, OwnInfo, now, to in s.known, to in s.rejections, s.height);
    InfoKeepsProbes(s, e, s.infoSentAt[to := now]);
    AppendKeepsRequests(s.log, e, s.inFlight);
  }

  lemma ProbeKeeps(chainId: u32, s: Service, to: Addr, now: nat)
    requires ServiceInv(chainId, s) && to !in Settled(s)
    requires to in s.probedAt ==> now >= s.probedAt[to] + NODE_INFO_PROBE_MIN_INTERVAL
    ensures ServiceInv(chainId, Send(s.(probedAt := s.probedAt[to := now]), to, Probe, now))
  {
    hide RequestsNext, NoRepeatedRequest, RequestsRecorded;
    var e := Sent(to, Probe, now, to in s.known, to in s.rejections, s.height);
    AppendKeepsRequests(s.log, e, s.inFlight);
  }

  // All recorded times lie in the past.
  ghost predicate TimesPast(s: Service, now: nat) {
    && (forall a :: a in s.infoSentAt ==> s.infoSentAt[a] <= now)
    && (forall a :: a in s.probedAt ==> s.probedAt[a] <= now)
  }

  lemma ExchangeKeeps(chainId: u32, s: Service, source: Addr, now: nat)
    requires ServiceInv(chainId, s) && TimesPast(s, now) && source !in Settled(s)
    ensures ServiceInv(chainId, Exchange(s, source, now)) && TimesPast(Exchange(s, source, now), now)
  {
    hide InfoInv, ProbeInv, RequestInv;
    var seen := s.(seenAt := s.seenAt[source := now]);
    SeenAtIrrelevant(chainId, s, seen.seenAt);
    if MayProbe(s, source, now) {
      ProbeKeeps(chainId, seen, source, now);
      SendInfoKeeps(chainId, Send(seen.(probedAt := seen.probedAt[source := now]), source, Probe, now), source, now);
    }
  }

  lemma SeenAtIrrelevant(chainId: u32, s: Service, seenAt: map<Addr, nat>)
    requires ServiceInv(chainId, s)
    ensures ServiceInv(chainId, s.(seenAt := seenAt))
  {
  }

  lemma AdmitKeeps(chainId: u32, s: Service, source: Addr, now: nat)
    requires ServiceInv(chainId, s) && TimesPast(s, now)
    ensures ServiceInv(chainId, Admit(s, source, now).0) && TimesPast(Admit(s, source, now).0, now)
    ensures Admit(s, source, now).1 == Ok(true) ==> Admit(s, source, now).0 == s && source in s.known
  {
    hide ServiceInv, TimesPast, Exchange;
    if source !in s.known && source !in s.rejections {
      ExchangeKeeps(chainId, s, source, now);
    }
  }

  lemma AskKeeps(chainId: u32, s: Service, source: Addr, now: nat)
    requires ServiceInv(chainId, s)
    requires !(source in s.inFlight && s.inFlight[source] == s.height + 1)
    ensures var next := s.height + 1;
      ServiceInv(chainId, Send(s.(inFlight := s.inFlight[source := next]), source, BlockRequest(next), now))
  {
    hide InfoInv, ProbeInv, RequestsNext, NoRepeatedRequest, RequestsRecorded;
    var next := s.height + 1;
    var e := Sent(source, BlockRequest(next), now, source in s.known, source in s.rejections, s.height);
    AppendOther(s, e);
    InFlightIrrelevant(s.(log := s.log + [e]), s.inFlight[source := next], s.height);
    RequestKeepsRequests(s.log, s.inFlight, e, source, s.height);
    TableFrame(chainId, s, s.(log := s.log + [e], inFlight := s.inFlight[source := next]));
  }

  lemma TableFrame(chainId: u32, s: Service, t: Service)
    requires s.known == t.known && s.rejections == t.rejections && s.announced == t.announced && s.info == t.info
    ensures TableInv(chainId, s) ==> TableInv(chainId, t)
  {
  }

  lemma RequestNextKeeps(chainId: u32, s: Service, source: Addr, tip: u64, now: nat)
    requires ServiceInv(chainId, s) && TimesPast(s, now)
    ensures ServiceInv(chainId, RequestNext(s, source, tip, now)) && TimesPast(RequestNext(s, source, tip, now), now)
  {
    hide ServiceInv;
    if !(source in s.inFlight && s.inFlight[source] == s.height + 1) {
      AskKeeps(chainId, s, source, now);
    }
  }

  lemma InFlightIrrelevant(s: Service, inFlight: map<Addr, nat>, height: nat)
    ensures InfoInv(s) ==> InfoInv(s.(inFlight := inFlight, height := height))
    ensures ProbeInv(s) ==> ProbeInv(s.(inFlight := inFlight, height := height))
  {
  }

  lemma GrowKeeps(chainId: u32, s: Service, height: nat)
    requires ServiceInv(chainId, s) && height >= s.height
    ensures ServiceInv(chainId, s.(height := height))
  {
    hide InfoInv, ProbeInv, RequestsNext, NoRepeatedRequest, RequestsRecorded;
    InFlightIrrelevant(s, s.inFlight, height);
  }

  lemma TipsIrrelevant(chainId: u32, s: Service, tips: map<Addr, u64>)
    requires ServiceInv(chainId, s)
    ensures ServiceInv(chainId, s.(tips := tips))
  {
  }

  lemma AnsweredKeeps(chainId: u32, s: Service, source: Addr)
    requires ServiceInv(chainId, s)
    ensures ServiceInv(chainId, s.(inFlight := s.inFlight - {source}, log := s.log + [BlockAnswered(source)]))
  {
    hide InfoInv, ProbeInv, RequestsNext, NoRepeatedRequest, RequestsRecorded;
    AppendOther(s, BlockAnswered(source));
    InFlightIrrelevant(s.(log := s.log + [BlockAnswered(source)]), s.inFlight - {source}, s.height);
    AnswerKeepsRequests(s.log, s.inFlight, source);
  }

  // ----- the handlers -----

  lemma OnPresenceKeeps(chainId: u32, s: Service, source: Addr, now: nat)
    requires ServiceInv(chainId, s) && TimesPast(s, now)
    ensures ServiceInv(chainId, OnPresence(s, source, now)) && TimesPast(OnPresence(s, source, now), now)
  {
    hide ServiceInv, SendInfo;
    var seen := s.(seenAt := s.seenAt[source := now]);
    SeenAtIrrelevant(chainId, s, seen.seenAt);
    if !(source in s.known && source in s.infoSentAt
      && Since(now, s.infoSentAt[source]) < NODE_INFO_RESPONSE_MIN_INTERVAL) {
      SendInfoKeeps(chainId, seen, source, now);
    }
  }

  /** A stranger's probe time may be forgotten once it has said who it is. */
  lemma SettlingKeepsProbes(s: Service, t: Service, source: Addr)
    requires ProbeInv(s) && s.log == t.log && Settled(t) == Settled(s) + {source}
    requires t.probedAt == s.probedAt || t.probedAt == s.probedAt - {source}
    ensures ProbeInv(t)
  {
    hide ProbesSpaced, ProbesToStrangers, Settled;
  }

  lemma AcceptedKeeps(chainId: u32, s: Service, source: Addr, info: NodeInfo, now: nat)
    requires ServiceInv(chainId, s) && Compatibility(chainId, info).Pass?
    ensures ServiceInv(chainId, Accepted(s, source, info, now))
  {
    hide InfoSpaced, InfoRecorded, ProbeInv, RequestInv, Compatibility;
    RequestInvFrame(s, Accepted(s, source, info, now));
    SettlingKeepsProbes(s, Accepted(s, source, info, now), source);
  }

  lemma RejectedKeeps(chainId: u32, s: Service, source: Addr, reason: Incompatibility)
    requires ServiceInv(chainId, s)
    ensures ServiceInv(chainId, Rejected(s, source, reason))
  {
    hide InfoSpaced, InfoRecorded, ProbeInv, RequestInv, Compatibility;
    RequestInvFrame(s, Rejected(s, source, reason));
    SettlingKeepsProbes(s, Rejected(s, source, reason), source);
  }

  lemma OnNodeInfoKeeps(c: Setup, have: set<Hash256>, s: Service, source: Addr, info: NodeInfo, now: nat)
    requires ServiceInv(c.chainId, s) && TimesPast(s, now)
    ensures ServiceInv(c.chainId, OnNodeInfo(c, have, s, source, info, now))
    ensures TimesPast(OnNodeInfo(c, have, s, source, info, now), now)
  {
    hide ServiceInv;
    match Compatibility(c.chainId, info) {
      case Pass =>
        AcceptedKeeps(c.chainId, s, source, info, now);
        RequestAllKeeps(c.chainId, Accepted(s, source, info, now), source, c.order(Announced(s, source)), have, now);
      case Fail(reason) =>
        RejectedKeeps(c.chainId, s, source, reason);
    }
  }

  lemma RequestInvFrame(s: Service, t: Service)
    requires RequestInv(s) && s.log == t.log && s.inFlight == t.inFlight && s.height == t.height
    ensures RequestInv(t)
  {
  }

  lemma OnTransactionAnnounceKeeps(chainId: u32, have: set<Hash256>, s: Service, source: Addr, id: Hash256, now: nat)
    requires ServiceInv(chainId, s) && TimesPast(s, now)
    ensures ServiceInv(chainId, OnTransactionAnnounce(have, s, source, id, now))
    ensures TimesPast(OnTransactionAnnounce(have, s, source, id, now), now)
  {
    hide InfoInv, ProbeInv, RequestInv, Exchange;
    if source in s.known {
      SendOther(chainId, s, source, TransactionRequest(id), now);
    } else if source !in s.rejections {
      var waiting := s.(announced := s.announced[source := Announced(s, source) + {id}]);
      AnnouncedIrrelevant(s, waiting.announced);
      ExchangeKeeps(chainId, waiting, source, now);
    }
  }

  lemma AnnouncedIrrelevant(s: Service, announced: map<Addr, set<Hash256>>)
    ensures InfoInv(s) ==> InfoInv(s.(announced := announced))
    ensures ProbeInv(s) ==> ProbeInv(s.(announced := announced))
    ensures RequestInv(s) ==> RequestInv(s.(announced := announced))
  {
  }

  lemma OnTipKeeps(chainId: u32, s: Service, source: Addr, tip: u64, now: nat)
    requires ServiceInv(chainId, s) && TimesPast(s, now)
    ensures ServiceInv(chainId, OnTip(s, source, tip, now)) && TimesPast(OnTip(s, source, tip, now), now)
  {
    hide ServiceInv, Admit, RequestNext;
    AdmitKeeps(chainId, s, source, now);
    if Admit(s, source, now).1 == Ok(true) {
      TipsIrrelevant(chainId, s, s.tips[source := tip]);
      RequestNextKeeps(chainId, s.(tips := s.tips[source := tip]), source, tip, now);
    }
  }

  lemma TimesFrame(s: Service, t: Service, now: nat)
    requires TimesPast(s, now) && s.infoSentAt == t.infoSentAt && s.probedAt == t.probedAt
    ensures TimesPast(t, now)
  {
  }

  lemma OnBlockKeeps(chainId: u32, s: Service, source: Addr, height: u64, present: bool, applies: bool, now: nat)
    requires ServiceInv(chainId, s) && TimesPast(s, now)
    ensures ServiceInv(chainId, OnBlock(s, source, height, present, applies, now))
    ensures TimesPast(OnBlock(s, source, height, present, applies, now), now)
  {
    hide ServiceInv, TimesPast, Admit, RequestNext;
    AdmitKeeps(chainId, s, source, now);
    if Admit(s, source, now).1 == Ok(true) {
      var answered := s.(inFlight := s.inFlight - {source}, log := s.log + [BlockAnswered(source)]);
      AnsweredKeeps(chainId, s, source);
      TimesFrame(s, answered, now);
      TimesFrame(s, answered.(height := s.height + 1), now);
      var tip: u64 := if source in s.tips then s.tips[source] else 0;
      RequestNextKeeps(chainId, answered, source, tip, now);
      GrowKeeps(chainId, answered, s.height + 1);
      RequestNextKeeps(chainId, answered.(height := s.height + 1), source, tip, now);
    }
  }

  lemma OnRequestKeeps(chainId: u32, s: Service, source: Addr, answer: Message, now: nat)
    requires ServiceInv(chainId, s) && TimesPast(s, now) && Plain(answer)
    ensures ServiceInv(chainId, OnRequest(s, source, answer, now)) && TimesPast(OnRequest(s, source, answer, now), now)
  {
    hide ServiceInv, Admit;
    AdmitKeeps(chainId, s, source, now);
    SendOther(chainId, s, source, answer, now);
  }

  lemma OnSubmitBlockKeeps(chainId: u32, s: Service, source: Addr, applies: bool, now: nat)
    requires ServiceInv(chainId, s) && TimesPast(s, now)
    ensures ServiceInv(chainId, OnSubmitBlock(s, source, applies, now))
    ensures TimesPast(OnSubmitBlock(s, source, applies, now), now)
  {
    hide ServiceInv, OnRequest;
    GrowKeeps(chainId, s, s.height + 1);
    OnRequestKeeps(chainId, s, source, BlockVerdict, now);
    OnRequestKeeps(chainId, s.(height := s.height + 1), source, BlockVerdict, now);
  }

  lemma OnTransactionResponseKeeps(c: Setup, s: Service, source: Addr, id: Hash256, accepted: bool, now: nat)
    requires ServiceInv(c.chainId, s) && TimesPast(s, now)
    ensures ServiceInv(c.chainId, OnTransactionResponse(c, s, source, id, accepted, now))
    ensures TimesPast(OnTransactionResponse(c, s, source, id, accepted, now), now)
  {
    hide ServiceInv, Admit;
    AdmitKeeps(c.chainId, s, source, now);
    SendAllKeeps(c.chainId, s, c.targets, Announcement(id), now);
  }

  lemma OnSubmitTransactionKeeps(c: Setup, s: Service, source: Addr, id: Hash256, accepted: bool, now: nat)
    requires ServiceInv(c.chainId, s) && TimesPast(s, now)
    ensures ServiceInv(c.chainId, OnSubmitTransaction(c, s, source, id, accepted, now))
    ensures TimesPast(OnSubmitTransaction(c, s, source, id, accepted, now), now)
  {
    hide ServiceInv;
    SendOther(c.chainId, s, source, TransactionVerdict(id), now);
    SendAllKeeps(c.chainId, Send(s, source, TransactionVerdict(id), now), c.targets, Announcement(id), now);
  }

  lemma HandleKeeps(c: Setup, s: Service, input: Input)
    requires ServiceInv(c.chainId, s) && TimesPast(s, input.now)
    ensures ServiceInv(c.chainId, Handle(c, s, input)) && TimesPast(Handle(c, s, input), input.now)
  {
    hide ServiceInv, OnPresence, OnNodeInfo, OnTransactionAnnounce, OnTip, OnBlock, OnRequest, OnSubmitBlock,
         OnTransactionResponse, OnSubmitTransaction;
    var grown := s.(height := s.height + input.grown);
    GrowKeeps(c.chainId, s, grown.height);
    var id, source, now := c.chainId, input.source, input.now;
    match input.frame {
      case PresenceAnnounce => OnPresenceKeeps(id, grown, source, now);
      case Info(info) => OnNodeInfoKeeps(c, input.have, grown, source, info, now);
      case TipRequest => OnRequestKeeps(id, grown, source, TipReply, now);
      case Tip(height) => OnTipKeeps(id, grown, source, height, now);
      case BlockRequested(height) => OnRequestKeeps(id, grown, source, BlockReply(height), now);
      case BlockResponse(height, present, applies) => OnBlockKeeps(id, grown, source, height, present, applies, now);
      case SubmitBlock(applies) => OnSubmitBlockKeeps(id, grown, source, applies, now);
      case TransactionAnnounce(tx) => OnTransactionAnnounceKeeps(id, input.have, grown, source, tx, now);
      case TransactionRequested(tx) => OnRequestKeeps(id, grown, source, TransactionReply(tx), now);
      case TransactionResponse(tx, accepted) => OnTransactionResponseKeeps(c, grown, source, tx, accepted, now);
      case SubmitTransaction(tx, accepted) => OnSubmitTransactionKeeps(c, grown, source, tx, accepted, now);
      case Verdict =>
    }
  }

  // ----- whole runs -----

  lemma {:induction false} RunKeeps(c: Setup, inputs: seq<Input>)
    requires ClockRuns(inputs)
    ensures ServiceInv(c.chainId, HandleAll(c, inputs))
    ensures forall now: nat {:trigger TimesPast(HandleAll(c, inputs), now)} ::
      (inputs == [] || inputs[|inputs| - 1].now <= now) ==> TimesPast(HandleAll(c, inputs), now)
  {
    hide Handle;
    if inputs != [] {
      hide ServiceInv;
      var before, last := inputs[..|inputs| - 1], inputs[|inputs| - 1];
      RunKeeps(c, before);
      assert TimesPast(HandleAll(c, before), last.now);
      HandleKeeps(c, HandleAll(c, before), last);
    }
  }

  /** In every run: known, rejected and waiting addresses are disjoint, and the known ones are those
      whose compatible node info is stored. */
  lemma TableEveryRun(c: Setup, inputs: seq<Input>)
    requires ClockRuns(inputs)
    ensures TableInv(c.chainId, HandleAll(c, inputs))
  {
    hide HandleAll, TableInv;
    RunKeeps(c, inputs);
  }

  /** In every run: probes go only to addresses neither known nor rejected, at least 5 s apart for
      each; and node info sent to a known peer comes at least 42 s after the one before it. */
  lemma RatesEveryRun(c: Setup, inputs: seq<Input>)
    requires ClockRuns(inputs)
    ensures var log := HandleAll(c, inputs).log;
      ProbesSpaced(log) && ProbesToStrangers(log) && InfoSpaced(log)
  {
    hide HandleAll, ProbesSpaced, ProbesToStrangers, InfoSpaced;
    RunKeeps(c, inputs);
  }

  /** In every run: a block is asked for only at the local height plus one, nothing in flight is
      beyond that, and no height is asked of one peer twice without an answer in between. */
  lemma RequestsEveryRun(c: Setup, inputs: seq<Input>)
    requires ClockRuns(inputs)
    ensures var s := HandleAll(c, inputs);
      RequestsNext(s.log) && NoRepeatedRequest(s.log) && InFlightBounded(s.inFlight, s.height)
  {
    hide HandleAll, RequestsNext, NoRepeatedRequest, InFlightBounded;
    RunKeeps(c, inputs);
  }

  ghost predicate Grows(s: Service, t: Service) {
    Settled(s) <= Settled(t) && s.height <= t.height
  }

  lemma ExchangeGrows(s: Service, source: Addr, now: nat)
    ensures Grows(s, Exchange(s, source, now))
  {
  }

  lemma AdmitGrows(s: Service, source: Addr, now: nat)
    ensures Grows(s, Admit(s, source, now).0)
    ensures Admit(s, source, now).1 == Ok(true) ==> Admit(s, source, now).0 == s
  {
    hide Exchange;
    ExchangeGrows(s, source, now);
  }

  lemma RequestNextGrows(s: Service, source: Addr, tip: u64, now: nat)
    ensures Grows(s, RequestNext(s, source, tip, now))
  {
  }

  lemma OnBlockGrows(s: Service, source: Addr, height: u64, present: bool, applies: bool, now: nat)
    ensures Grows(s, OnBlock(s, source, height, present, applies, now))
  {
    hide Admit, RequestNext;
    AdmitGrows(s, source, now);
    var answered := s.(inFlight := s.inFlight - {source}, log := s.log + [BlockAnswered(source)]);
    var tip: u64 := if source in s.tips then s.tips[source] else 0;
    RequestNextGrows(answered, source, tip, now);
    RequestNextGrows(answered.(height := s.height + 1), source, tip, now);
  }

  lemma OnTipGrows(s: Service, source: Addr, tip: u64, now: nat)
    ensures Grows(s, OnTip(s, source, tip, now))
  {
    hide Admit, RequestNext;
    AdmitGrows(s, source, now);
    RequestNextGrows(s.(tips := s.tips[source := tip]), source, tip, now);
  }

  lemma OnRequestGrows(s: Service, source: Addr, answer: Message, now: nat)
    ensures Grows(s, OnRequest(s, source, answer, now))
  {
    hide Admit;
    AdmitGrows(s, source, now);
  }

  lemma {:induction false} SendAllOnlySends(s: Service, to: seq<Addr>, message: Message, now: nat)
    ensures var t := SendAll(s, to, message, now);
      t == s.(log := t.log)
  {
    if to != [] {
      SendAllOnlySends(s, to[..|to| - 1], message, now);
    }
  }

  lemma {:induction false} RequestAllOnlySends(s: Service, source: Addr, ids: seq<Hash256>, have: set<Hash256>,
                                               now: nat)
    ensures var t := RequestAll(s, source, ids, have, now);
      t == s.(log := t.log)
  {
    if ids != [] {
      RequestAllOnlySends(s, source, ids[..|ids| - 1], have, now);
    }
  }

  lemma OnTransactionAnnounceGrows(have: set<Hash256>, s: Service, source: Addr, id: Hash256, now: nat)
    ensures Grows(s, OnTransactionAnnounce(have, s, source, id, now))
  {
    hide Exchange;
    ExchangeGrows(s.(announced := s.announced[source := Announced(s, source) + {id}]), source, now);
  }

  lemma OnNodeInfoGrows(c: Setup, have: set<Hash256>, s: Service, source: Addr, info: NodeInfo, now: nat)
    ensures Grows(s, OnNodeInfo(c, have, s, source, info, now))
  {
    hide Compatibility, Announced;
    match Compatibility(c.chainId, info) {
      case Fail(reason) => assert Grows(s, Rejected(s, source, reason));
      case Pass =>
        assert Grows(s, Accepted(s, source, info, now));
        RequestAllOnlySends(Accepted(s, source, info, now), source, c.order(Announced(s, source)), have, now);
    }
  }

  lemma OnPresenceGrows(s: Service, source: Addr, now: nat)
    ensures Grows(s, OnPresence(s, source, now))
  {
  }

  lemma OnTransactionResponseGrows(c: Setup, s: Service, source: Addr, id: Hash256, accepted: bool, now: nat)
    ensures Grows(s, OnTransactionResponse(c, s, source, id, accepted, now))
  {
    hide Admit;
    AdmitGrows(s, source, now);
    SendAllOnlySends(s, c.targets, Announcement(id), now);
  }

  lemma OnSubmitBlockGrows(s: Service, source: Addr, applies: bool, now: nat)
    ensures Grows(s, OnSubmitBlock(s, source, applies, now))
  {
    hide OnRequest;
    OnRequestGrows(s, source, BlockVerdict, now);
    OnRequestGrows(s.(height := s.height + 1), source, BlockVerdict, now);
  }

  lemma OnSubmitTransactionGrows(c: Setup, s: Service, source: Addr, id: Hash256, accepted: bool, now: nat)
    ensures Grows(s, OnSubmitTransaction(c, s, source, id, accepted, now))
  {
    SendAllOnlySends(Send(s, source, TransactionVerdict(id), now), c.targets, Announcement(id), now);
  }

  lemma SettledGrows(c: Setup, s: Service, input: Input)
    ensures Grows(s, Handle(c, s, input))
  {
    hide OnPresence, OnNodeInfo, OnTransactionAnnounce, OnTip, OnBlock, OnRequest, OnSubmitBlock, OnTransactionResponse,
         OnSubmitTransaction;
    var grown, source, now := s.(height := s.height + input.grown), input.source, input.now;
    match input.frame {
      case PresenceAnnounce => OnPresenceGrows(grown, source, now);
      case Info(info) => OnNodeInfoGrows(c, input.have, grown, source, info, now);
      case TipRequest => OnRequestGrows(grown, source, TipReply, now);
      case Tip(height) => OnTipGrows(grown, source, height, now);
      case BlockRequested(height) => OnRequestGrows(grown, source, BlockReply(height), now);
      case BlockResponse(height, present, applies) => OnBlockGrows(grown, source, height, present, applies, now);
      case SubmitBlock(applies) => OnSubmitBlockGrows(grown, source, applies, now);
      case TransactionAnnounce(id) => OnTransactionAnnounceGrows(input.have, grown, source, id, now);
      case TransactionRequested(id) => OnRequestGrows(grown, source, TransactionReply(id), now);
      case TransactionResponse(id, accepted) => OnTransactionResponseGrows(c, grown, source, id, accepted, now);
      case SubmitTransaction(id, accepted) => OnSubmitTransactionGrows(c, grown, source, id, accepted, now);
      case Verdict =>
    }
  }

  /** An address that has been known or rejected stays one or the other for good. */
  lemma {:induction false} SettledForGood(c: Setup, inputs: seq<Input>, n: nat)
    requires n <= |inputs|
    ensures Settled(HandleAll(c, inputs[..n])) <= Settled(HandleAll(c, inputs))
  {
    hide Handle;
    if n == |inputs| {
      assert inputs[..n] == inputs;
    } else {
      var before := inputs[..|inputs| - 1];
      assert before[..n] == inputs[..n];
      SettledForGood(c, before, n);
      SettledGrows(c, HandleAll(c, before), inputs[|inputs| - 1]);
    }
  }

  // ----- an answer that never comes -----

  /** The block after the local tip has been asked of `a`. */
  predicate Waiting(s: Service, a: Addr) {
    a in s.inFlight && s.inFlight[a] == s.height + 1
  }

  /** From `s` to `t`, what is in flight from `a` has not changed and nothing more was asked of it. */
  ghost predicate NothingAsked(s: Service, t: Service, a: Addr) {
    && (a in s.inFlight <==> a in t.inFlight)
    && (a in s.inFlight ==> s.inFlight[a] == t.inFlight[a])
    && s.log <= t.log
    && forall p, h :: |s.log| <= p < |t.log| ==> !Requests(t.log[p], a, h)
  }

  lemma NothingAskedChain(s: Service, t: Service, u: Service, a: Addr)
    requires NothingAsked(s, t, a) && NothingAsked(t, u, a)
    ensures NothingAsked(s, u, a)
  {
    forall p, h | |s.log| <= p < |u.log|
      ensures !Requests(u.log[p], a, h)
    {
      assert p < |t.log| ==> u.log[p] == t.log[p];
    }
  }

  lemma ExchangeAsksNothing(s: Service, source: Addr, now: nat, a: Addr)
    ensures NothingAsked(s, Exchange(s, source, now), a)
  {
  }

  lemma AskAsksOther(s: Service, source: Addr, now: nat, a: Addr)
    requires source != a
    ensures var next := s.height + 1;
      NothingAsked(s, Send(s.(inFlight := s.inFlight[source := next]), source, BlockRequest(next), now), a)
  {
  }

  lemma RequestNextAsksOther(s: Service, source: Addr, tip: u64, now: nat, a: Addr)
    requires source != a || Waiting(s, a)
    ensures NothingAsked(s, RequestNext(s, source, tip, now), a)
  {
    hide NothingAsked, Send;
    NothingAskedOfSame(s, a);
    if source != a {
      AskAsksOther(s, source, now, a);
    }
  }

  lemma AdmitAsksNothing(s: Service, source: Addr, now: nat, a: Addr)
    ensures NothingAsked(s, Admit(s, source, now).0, a)
    ensures Admit(s, source, now).1 == Ok(true) ==> Admit(s, source, now).0 == s
  {
    hide Exchange;
    ExchangeAsksNothing(s, source, now, a);
  }

  lemma OnTipAsksOther(s: Service, source: Addr, tip: u64, now: nat, a: Addr)
    requires Waiting(s, a)
    ensures NothingAsked(s, OnTip(s, source, tip, now), a)
  {
    hide Admit, RequestNext;
    AdmitAsksNothing(s, source, now, a);
    RequestNextAsksOther(s.(tips := s.tips[source := tip]), source, tip, now, a);
  }

  lemma OnBlockAsksOther(s: Service, source: Addr, height: u64, present: bool, applies: bool, now: nat, a: Addr)
    requires source != a
    ensures NothingAsked(s, OnBlock(s, source, height, present, applies, now), a)
  {
    hide Admit, RequestNext, NothingAsked;
    AdmitAsksNothing(s, source, now, a);
    var answered := s.(inFlight := s.inFlight - {source}, log := s.log + [BlockAnswered(source)]);
    var tip: u64 := if source in s.tips then s.tips[source] else 0;
    OtherAnswer(s, source, s.height, a);
    OtherAnswer(s, source, s.height + 1, a);
    RequestNextAsksOther(answered, source, tip, now, a);
    RequestNextAsksOther(answered.(height := s.height + 1), source, tip, now, a);
    NothingAskedChain(s, answered, RequestNext(answered, source, tip, now), a);
    var higher := answered.(height := s.height + 1);
    NothingAskedChain(s, higher, RequestNext(higher, source, tip, now), a);
  }

  lemma OtherAnswer(s: Service, source: Addr, height: nat, a: Addr)
    requires source != a
    ensures var log := s.log + [BlockAnswered(source)];
      NothingAsked(s, s.(inFlight := s.inFlight - {source}, log := log, height := height), a)
  {
  }

  lemma SendAsksNothing(s: Service, to: Addr, message: Message, now: nat, a: Addr)
    requires !message.BlockRequest?
    ensures NothingAsked(s, Send(s, to, message, now), a)
  {
  }

  lemma AnnouncedAsksNothing(s: Service, announced: map<Addr, set<Hash256>>, a: Addr)
    ensures NothingAsked(s, s.(announced := announced), a)
  {
  }

  lemma OnTransactionAnnounceAsksNothing(have: set<Hash256>, s: Service, source: Addr, id: Hash256, now: nat, a: Addr)
    ensures NothingAsked(s, OnTransactionAnnounce(have, s, source, id, now), a)
  {
    hide Exchange, NothingAsked, Send;
    var waiting := s.(announced := s.announced[source := Announced(s, source) + {id}]);
    NothingAskedOfSame(s, a);
    SendAsksNothing(s, source, TransactionRequest(id), now, a);
    AnnouncedAsksNothing(s, waiting.announced, a);
    ExchangeAsksNothing(waiting, source, now, a);
    NothingAskedChain(s, waiting, Exchange(waiting, source, now), a);
  }

  lemma SameLogAsksNothing(s: Service, t: Service, a: Addr)
    requires s.log == t.log && s.inFlight == t.inFlight
    ensures NothingAsked(s, t, a)
  {
  }

  lemma {:induction false} SendAllAsksNothing(s: Service, to: seq<Addr>, message: Message, now: nat, a: Addr)
    requires !message.BlockRequest?
    ensures NothingAsked(s, SendAll(s, to, message, now), a)
  {
    hide NothingAsked, Send;
    NothingAskedOfSame(s, a);
    if to != [] {
      var front := SendAll(s, to[..|to| - 1], message, now);
      SendAllAsksNothing(s, to[..|to| - 1], message, now, a);
      SendAsksNothing(front, to[|to| - 1], message, now, a);
      NothingAskedChain(s, front, Send(front, to[|to| - 1], message, now), a);
    }
  }

  lemma {:induction false} RequestAllAsksNothing(s: Service, source: Addr, ids: seq<Hash256>, have: set<Hash256>,
                                                 now: nat,
                                                 a: Addr)
    ensures NothingAsked(s, RequestAll(s, source, ids, have, now), a)
  {
    hide NothingAsked, Send;
    NothingAskedOfSame(s, a);
    if ids != [] {
      var front, message := RequestAll(s, source, ids[..|ids| - 1], have, now), TransactionRequest(ids[|ids| - 1]);
      RequestAllAsksNothing(s, source, ids[..|ids| - 1], have, now, a);
      SendAsksNothing(front, source, message, now, a);
      NothingAskedChain(s, front, Send(front, source, message, now), a);
    }
  }

  lemma OnNodeInfoAsksNothing(c: Setup, have: set<Hash256>, s: Service, source: Addr, info: NodeInfo, now: nat, a: Addr)
    ensures NothingAsked(s, OnNodeInfo(c, have, s, source, info, now), a)
  {
    hide Compatibility, NothingAsked, RequestAll;
    match Compatibility(c.chainId, info) {
      case Fail(reason) =>
        SameLogAsksNothing(s, Rejected(s, source, reason), a);
      case Pass =>
        var accepted, ids := Accepted(s, source, info, now), c.order(Announced(s, source));
        SameLogAsksNothing(s, accepted, a);
        RequestAllAsksNothing(accepted, source, ids, have, now, a);
        NothingAskedChain(s, accepted, RequestAll(accepted, source, ids, have, now), a);
    }
  }

  lemma OnRequestAsksNothing(s: Service, source: Addr, answer: Message, now: nat, a: Addr)
    requires Plain(answer)
    ensures NothingAsked(s, OnRequest(s, source, answer, now), a)
  {
    hide Admit, NothingAsked, Send;
    AdmitAsksNothing(s, source, now, a);
    SendAsksNothing(s, source, answer, now, a);
  }

  lemma OnSubmitBlockAsksNothing(s: Service, source: Addr, applies: bool, now: nat, a: Addr)
    ensures NothingAsked(s, OnSubmitBlock(s, source, applies, now), a)
  {
    hide OnRequest, NothingAsked;
    var higher := s.(height := s.height + 1);
    SameLogAsksNothing(s, higher, a);
    OnRequestAsksNothing(s, source, BlockVerdict, now, a);
    OnRequestAsksNothing(higher, source, BlockVerdict, now, a);
    NothingAskedChain(s, higher, OnRequest(higher, source, BlockVerdict, now), a);
  }

  lemma OnTransactionResponseAsksNothing(c: Setup, s: Service, source: Addr, id: Hash256, accepted: bool, now: nat,
                                         a: Addr)
    ensures NothingAsked(s, OnTransactionResponse(c, s, source, id, accepted, now), a)
  {
    hide Admit, NothingAsked, SendAll;
    AdmitAsksNothing(s, source, now, a);
    NothingAskedOfSame(s, a);
    SendAllAsksNothing(s, c.targets, Announcement(id), now, a);
  }

  lemma OnSubmitTransactionAsksNothing(c: Setup, s: Service, source: Addr, id: Hash256, accepted: bool, now: nat,
                                       a: Addr)
    ensures NothingAsked(s, OnSubmitTransaction(c, s, source, id, accepted, now), a)
  {
    hide NothingAsked, Send, SendAll;
    var answered := Send(s, source, TransactionVerdict(id), now);
    SendAsksNothing(s, source, TransactionVerdict(id), now, a);
    SendAllAsksNothing(answered, c.targets, Announcement(id), now, a);
    NothingAskedChain(s, answered, SendAll(answered, c.targets, Announcement(id), now), a);
  }

  lemma OnPresenceAsksNothing(s: Service, source: Addr, now: nat, a: Addr)
    ensures NothingAsked(s, OnPresence(s, source, now), a)
  {
    hide NothingAsked, Send;
    var seen := s.(seenAt := s.seenAt[source := now]);
    var stamped := seen.(infoSentAt := seen.infoSentAt[source := now]);
    SameLogAsksNothing(s, seen, a);
    SameLogAsksNothing(s, stamped, a);
    SendAsksNothing(stamped, source, OwnInfo, now, a);
    NothingAskedChain(s, stamped, Send(stamped, source, OwnInfo, now), a);
  }

  lemma WaitingAsksNothing(c: Setup, s: Service, input: Input, a: Addr)
    requires Waiting(s, a) && input.grown == 0
    requires !(input.frame.BlockResponse? && input.source == a)
    ensures NothingAsked(s, Handle(c, s, input), a)
  {
    hide OnPresence, OnNodeInfo, OnTransactionAnnounce, OnTip, OnBlock, OnRequest, OnSubmitBlock, OnTransactionResponse,
         OnSubmitTransaction, NothingAsked;
    assert s.(height := s.height + 0) == s;
    NothingAskedOfSame(s, a);
    var source, now := input.source, input.now;
    match input.frame {
      case PresenceAnnounce => OnPresenceAsksNothing(s, source, now, a);
      case Info(info) => OnNodeInfoAsksNothing(c, input.have, s, source, info, now, a);
      case TipRequest => OnRequestAsksNothing(s, source, TipReply, now, a);
      case Tip(height) => OnTipAsksOther(s, source, height, now, a);
      case BlockRequested(height) => OnRequestAsksNothing(s, source, BlockReply(height), now, a);
      case BlockResponse(height, present, applies) =>
        if source != a {
          OnBlockAsksOther(s, source, height, present, applies, now, a);
        }
      case SubmitBlock(applies) => OnSubmitBlockAsksNothing(s, source, applies, now, a);
      case TransactionAnnounce(id) => OnTransactionAnnounceAsksNothing(input.have, s, source, id, now, a);
      case TransactionRequested(id) => OnRequestAsksNothing(s, source, TransactionReply(id), now, a);
      case TransactionResponse(id, accepted) => OnTransactionResponseAsksNothing(c, s, source, id, accepted, now, a);
      case SubmitTransaction(id, accepted) => OnSubmitTransactionAsksNothing(c, s, source, id, accepted, now, a);
      case Verdict =>
    }
  }

  lemma NothingAskedOfSame(s: Service, a: Addr)
    ensures NothingAsked(s, s, a)
  {
  }

  /** No retry: once the next block has been asked of a peer, then for as long as the local height
      stays where it is and that peer sends no block response, nothing is asked of it again, whatever
      else arrives. A lost answer is therefore final at that height. */
  lemma {:induction false} LostAnswerNotRetried(c: Setup, early: seq<Input>, late: seq<Input>,
                                                a: Addr)
    requires Waiting(HandleAll(c, early), a)
    requires HandleAll(c, early + late).height == HandleAll(c, early).height
    requires forall i :: 0 <= i < |late| ==>
      late[i].grown == 0 && !(late[i].frame.BlockResponse? && late[i].source == a)
    ensures NothingAsked(HandleAll(c, early), HandleAll(c, early + late), a)
    decreases |late|
  {
    hide Handle, NothingAsked;
    if late == [] {
      assert early + late == early;
      NothingAskedOfSame(HandleAll(c, early), a);
    } else {
      var sooner, last := late[..|late| - 1], late[|late| - 1];
      assert (early + late)[..|early + late| - 1] == early + sooner;
      var s, t := HandleAll(c, early), HandleAll(c, early + sooner);
      HeightGrows(c, early, sooner);
      SettledGrows(c, t, last);
      LostAnswerNotRetried(c, early, sooner, a);
      assert Waiting(t, a) by { StillWaiting(s, t, a); }
      WaitingAsksNothing(c, t, last, a);
      NothingAskedChain(s, t, Handle(c, t, last), a);
    }
  }

  lemma StillWaiting(s: Service, t: Service, a: Addr)
    requires NothingAsked(s, t, a) && Waiting(s, a) && s.height == t.height
    ensures Waiting(t, a)
  {
  }

  lemma {:induction false} HeightGrows(c: Setup, early: seq<Input>, late: seq<Input>)
    ensures HandleAll(c, early).height <= HandleAll(c, early + late).height
    decreases |late|
  {
    hide Handle;
    if late == [] {
      assert early + late == early;
    } else {
      var sooner := late[..|late| - 1];
      assert (early + late)[..|early + late| - 1] == early + sooner;
      HeightGrows(c, early, sooner);
      SettledGrows(c, HandleAll(c, early + sooner), late[|late| - 1]);
    }
  }

  /** After one compatible info and one tip, a peer is waited for; and another tip from it then changes
      nothing that was sent. */
  lemma WaitingHappens(c: Setup, a: Addr, info: NodeInfo, now: nat)
    requires a !in c.own && Compatibility(c.chainId, info).Pass?
    ensures var inputs := [Input(a, Info(info), now, {}, 0), Input(a, Tip(5), now, {}, 0)];
      && Waiting(HandleAll(c, inputs), a)
      && HandleAll(c, inputs + [Input(a, Tip(5), now, {}, 0)]).log == HandleAll(c, inputs).log
  {
    hide RequestAll, Announced, Compatibility;
    var first, tip := Input(a, Info(info), now, {}, 0), Input(a, Tip(5), now, {}, 0);
    assert HandleAll(c, []) == NEW_SERVICE;
    var s := Handle(c, NEW_SERVICE, first);
    assert [first][..0] == [] && HandleAll(c, [first]) == s;
    RequestAllOnlySends(Accepted(NEW_SERVICE, a, info, now), a, c.order(Announced(NEW_SERVICE, a)), {}, now);
    assert [first, tip][..1] == [first] && HandleAll(c, [first, tip]) == Handle(c, s, tip);
    assert ([first, tip] + [tip])[..2] == [first, tip];
  }

  // ----- how often our node info goes out to strangers -----

  ghost predicate RecentInfo(log: seq<Entry>, a: Addr, now: nat) {
    exists p :: 0 <= p < |log| && InfoTo(log[p], a) && now < log[p].at + NODE_INFO_RESPONSE_MIN_INTERVAL
  }

  ghost predicate SendsInfo(s: Service, t: Service, a: Addr) {
    exists q :: |s.log| <= q < |t.log| && InfoTo(t.log[q], a)
  }

  /** From `s` to `t` our info has gone out to nobody. */
  ghost predicate NoInfo(s: Service, t: Service) {
    && s.log <= t.log
    && forall q :: |s.log| <= q < |t.log| ==> !(t.log[q].Sent? && t.log[q].message.OwnInfo?)
  }

  lemma NoInfoChain(s: Service, t: Service, u: Service)
    requires NoInfo(s, t) && NoInfo(t, u)
    ensures NoInfo(s, u)
  {
    forall q | |s.log| <= q < |u.log|
      ensures !(u.log[q].Sent? && u.log[q].message.OwnInfo?)
    {
      assert q < |t.log| ==> u.log[q] == t.log[q];
    }
  }

  lemma SameLogNoInfo(s: Service, t: Service)
    requires s.log == t.log
    ensures NoInfo(s, t)
  {
  }

  lemma SendNoInfo(s: Service, to: Addr, message: Message, now: nat)
    requires !message.OwnInfo?
    ensures NoInfo(s, Send(s, to, message, now))
  {
  }

  lemma {:induction false} SendAllNoInfo(s: Service, to: seq<Addr>, message: Message, now: nat)
    requires !message.OwnInfo?
    ensures NoInfo(s, SendAll(s, to, message, now))
  {
    hide NoInfo, Send;
    SameLogNoInfo(s, s);
    if to != [] {
      var front := SendAll(s, to[..|to| - 1], message, now);
      SendAllNoInfo(s, to[..|to| - 1], message, now);
      SendNoInfo(front, to[|to| - 1], message, now);
      NoInfoChain(s, front, Send(front, to[|to| - 1], message, now));
    }
  }

  lemma {:induction false} RequestAllNoInfo(s: Service, source: Addr, ids: seq<Hash256>, have: set<Hash256>, now: nat)
    ensures NoInfo(s, RequestAll(s, source, ids, have, now))
  {
    hide NoInfo, Send;
    SameLogNoInfo(s, s);
    if ids != [] {
      var front, message := RequestAll(s, source, ids[..|ids| - 1], have, now), TransactionRequest(ids[|ids| - 1]);
      RequestAllNoInfo(s, source, ids[..|ids| - 1], have, now);
      SendNoInfo(front, source, message, now);
      NoInfoChain(s, front, Send(front, source, message, now));
    }
  }

  lemma RequestNextNoInfo(s: Service, source: Addr, tip: u64, now: nat)
    ensures NoInfo(s, RequestNext(s, source, tip, now))
  {
  }

  /** Frames that ask a stranger who it is. */
  predicate AsksStranger(have: set<Hash256>, frame: Frame) {
    match frame
    case PresenceAnnounce => false
    case Info(_) => false
    case TransactionAnnounce(id) => id !in have
    case SubmitTransaction(_, _) => false
    case Verdict => false
    case _ => true
  }

  lemma ExchangeSendsInfo(s: Service, source: Addr, now: nat)
    ensures SendsInfo(s, Exchange(s, source, now), source) <==> MayProbe(s, source, now)
  {
    var t := Exchange(s, source, now);
    if MayProbe(s, source, now) {
      assert InfoTo(t.log[|s.log| + 1], source);
    }
  }

  lemma NoInfoSent(s: Service, t: Service, a: Addr)
    requires NoInfo(s, t)
    ensures !SendsInfo(s, t, a)
  {
  }

  /** A known peer's frame, unless it announces presence, is answered without our info. */
  lemma KnownGetsNoInfo(c: Setup, have: set<Hash256>, s: Service, source: Addr, frame: Frame, now: nat)
    requires source in s.known && source !in c.own && AsksStranger(have, frame)
    ensures NoInfo(s, OnFrame(c, have, s, source, frame, now))
  {
    hide NoInfo, Send, RequestNext, SendAll, Exchange;
    SameLogNoInfo(s, s);
    match frame {
      case Tip(height) => TipNoInfo(s, source, height, now);
      case BlockResponse(height, present, applies) => BlockNoInfo(s, source, height, present, applies, now);
      case SubmitBlock(applies) =>
        var higher := s.(height := s.height + 1);
        SameLogNoInfo(s, higher);
        SendNoInfo(s, source, BlockVerdict, now);
        SendNoInfo(higher, source, BlockVerdict, now);
        NoInfoChain(s, higher, Send(higher, source, BlockVerdict, now));
      case TransactionResponse(id, accepted) => SendAllNoInfo(s, c.targets, Announcement(id), now);
      case TipRequest => SendNoInfo(s, source, TipReply, now);
      case BlockRequested(height) => SendNoInfo(s, source, BlockReply(height), now);
      case TransactionRequested(id) => SendNoInfo(s, source, TransactionReply(id), now);
      case TransactionAnnounce(id) => SendNoInfo(s, source, TransactionRequest(id), now);
      case _ =>
    }
  }

  lemma TipNoInfo(s: Service, source: Addr, tip: u64, now: nat)
    requires source in s.known
    ensures NoInfo(s, OnTip(s, source, tip, now))
  {
    hide NoInfo, RequestNext;
    var told := s.(tips := s.tips[source := tip]);
    SameLogNoInfo(s, told);
    RequestNextNoInfo(told, source, tip, now);
    NoInfoChain(s, told, RequestNext(told, source, tip, now));
  }

  lemma AnsweredNoInfo(s: Service, source: Addr, height: nat)
    ensures NoInfo(s, s.(inFlight := s.inFlight - {source}, log := s.log + [BlockAnswered(source)], height := height))
  {
  }

  lemma BlockNoInfo(s: Service, source: Addr, height: u64, present: bool, applies: bool, now: nat)
    requires source in s.known
    ensures NoInfo(s, OnBlock(s, source, height, present, applies, now))
  {
    hide NoInfo, RequestNext;
    var answered := s.(inFlight := s.inFlight - {source}, log := s.log + [BlockAnswered(source)]);
    var higher := answered.(height := s.height + 1);
    var tip: u64 := if source in s.tips then s.tips[source] else 0;
    AnsweredNoInfo(s, source, s.height);
    AnsweredNoInfo(s, source, s.height + 1);
    RequestNextNoInfo(answered, source, tip, now);
    RequestNextNoInfo(higher, source, tip, now);
    NoInfoChain(s, answered, RequestNext(answered, source, tip, now));
    NoInfoChain(s, higher, RequestNext(higher, source, tip, now));
  }

  lemma StrangerIsAsked(c: Setup, have: set<Hash256>, s: Service, source: Addr, frame: Frame, now: nat)
    requires source !in Settled(s) && source !in c.own && AsksStranger(have, frame)
    ensures SendsInfo(s, OnFrame(c, have, s, source, frame, now), source) <==> MayProbe(s, source, now)
  {
    hide Exchange, SendsInfo, RequestNext, Send, SendAll;
    ExchangeSendsInfo(s, source, now);
    match frame {
      case TransactionAnnounce(id) =>
        var waiting := s.(announced := s.announced[source := Announced(s, source) + {id}]);
        ExchangeSendsInfo(waiting, source, now);
        SameStart(s, waiting, Exchange(waiting, source, now), source);
      case _ =>
    }
  }

  lemma SameStart(s: Service, s': Service, t: Service, a: Addr)
    requires s.log == s'.log
    ensures SendsInfo(s, t, a) <==> SendsInfo(s', t, a)
  {
  }

  lemma OthersGetNoInfo(c: Setup, have: set<Hash256>, s: Service, source: Addr, frame: Frame, now: nat)
    requires !AsksStranger(have, frame) || (source in s.rejections && source !in s.known)
    requires !frame.PresenceAnnounce?
    ensures NoInfo(s, OnFrame(c, have, s, source, frame, now))
  {
    hide NoInfo, Send, SendAll, RequestAll, Exchange, RequestNext, Compatibility;
    SameLogNoInfo(s, s);
    match frame {
      case Info(info) =>
        if Compatibility(c.chainId, info).Pass? {
          var accepted, ids := Accepted(s, source, info, now), c.order(Announced(s, source));
          SameLogNoInfo(s, accepted);
          RequestAllNoInfo(accepted, source, ids, have, now);
          NoInfoChain(s, accepted, RequestAll(accepted, source, ids, have, now));
        } else {
          SameLogNoInfo(s, Rejected(s, source, Compatibility(c.chainId, info).error));
        }
      case SubmitTransaction(id, accepted) =>
        var answered := Send(s, source, TransactionVerdict(id), now);
        SendNoInfo(s, source, TransactionVerdict(id), now);
        SendAllNoInfo(answered, c.targets, Announcement(id), now);
        NoInfoChain(s, answered, SendAll(answered, c.targets, Announcement(id), now));
      case _ =>
    }
  }

  /** What a frame must be, and its sender, for our info to go out although it went out recently. */
  predicate InfoRegardless(s: Service, input: Input) {
    if input.frame.PresenceAnnounce? then input.source !in s.known
    else AsksStranger(input.have, input.frame) && input.source !in Settled(s) && MayProbe(s, input.source, input.now)
  }

  lemma InfoOtherwise(c: Setup, s: Service, input: Input)
    requires input.source !in c.own && !input.frame.PresenceAnnounce?
    ensures SendsInfo(s, Handle(c, s, input), input.source) <==> InfoRegardless(s, input)
  {
    hide NoInfo, SendsInfo, OnFrame, AsksStranger;
    var grown, a := s.(height := s.height + input.grown), input.source;
    var t := Handle(c, s, input);
    SameStart(s, grown, t, a);
    if !AsksStranger(input.have, input.frame) || (a in s.rejections && a !in s.known) {
      OthersGetNoInfo(c, input.have, grown, a, input.frame, input.now);
      NoInfoSent(grown, t, a);
    } else if a in s.known {
      KnownGetsNoInfo(c, input.have, grown, a, input.frame, input.now);
      NoInfoSent(grown, t, a);
    } else {
      StrangerIsAsked(c, input.have, grown, a, input.frame, input.now);
    }
  }

  /** In any run, a frame makes our info go out to its sender less than 42 seconds after the last time if
      and only if there was such a time and: the frame announces presence and the sender is not known,
      or it makes us ask who the sender is, which is neither known nor rejected, and no probe went to it
      in the last 5 seconds. */
  lemma TooSoonExactly(c: Setup, inputs: seq<Input>, input: Input)
    requires ClockRuns(inputs + [input]) && input.source !in c.own
    ensures var s := HandleAll(c, inputs);
      var recent := RecentInfo(s.log, input.source, input.now);
      SendsInfo(s, Handle(c, s, input), input.source) && recent <==> recent && InfoRegardless(s, input)
  {
    hide HandleAll, TableInv, ProbeInv, RequestInv, InfoSpaced;
    var s, a, now := HandleAll(c, inputs), input.source, input.now;
    var t := Handle(c, s, input);
    if input.frame.PresenceAnnounce? {
      var whole := inputs + [input];
      assert forall i :: 0 <= i < |inputs| ==> whole[i] == inputs[i];
      assert whole[|inputs|] == input;
      RunKeeps(c, inputs);
      assert TimesPast(s, now);
      if RecentInfo(s.log, a, now) {
        if a in s.known {
          assert t.log == s.log;
        } else {
          assert InfoTo(t.log[|s.log|], a);
        }
      }
    } else {
      InfoOtherwise(c, s, input);
    }
  }

  /** So the documented limit of one response in 42 seconds fails at two announcements in a row. */
  lemma TwoResponsesAtOnce(c: Setup, a: Addr, now: nat)
    requires a !in c.own
    ensures var i := Input(a, PresenceAnnounce, now, {}, 0);
      && ClockRuns([i, i])
      && HandleAll(c, [i, i]).log == [Sent(a, OwnInfo, now, false, false, 0), Sent(a, OwnInfo, now, false, false, 0)]
  {
    var i := Input(a, PresenceAnnounce, now, {}, 0);
    assert HandleAll(c, []) == NEW_SERVICE;
    assert [i][..0] == [] && HandleAll(c, [i]) == Handle(c, NEW_SERVICE, i);
    assert [i, i][..1] == [i];
  }

  // ----- what is asked of a peer that turns out compatible -----

  ghost predicate AsksFor(s: Service, t: Service, a: Addr, id: Hash256) {
    exists q :: |s.log| <= q < |t.log| && t.log[q].Sent? && t.log[q].to == a
      && t.log[q].message == TransactionRequest(id)
  }

  lemma {:induction false} RequestAllAsks(s: Service, source: Addr, ids: seq<Hash256>, have: set<Hash256>, now: nat,
                                          id: Hash256)
    ensures var t := RequestAll(s, source, ids, have, now);
      s.log <= t.log && (AsksFor(s, t, source, id) <==> id in ids && id !in have)
  {
    if ids != [] {
      var front, last := ids[..|ids| - 1], ids[|ids| - 1];
      RequestAllAsks(s, source, front, have, now, id);
      var before, t := RequestAll(s, source, front, have, now), RequestAll(s, source, ids, have, now);
      assert id in ids <==> id in front || id == last;
      if AsksFor(s, before, source, id) {
        var q :| |s.log| <= q < |before.log| && before.log[q].Sent? && before.log[q].to == source
          && before.log[q].message == TransactionRequest(id);
        assert t.log[q] == before.log[q];
      }
      if last !in have {
        assert t.log[|before.log|].message == TransactionRequest(last);
        assert forall q :: |s.log| <= q < |before.log| ==> t.log[q] == before.log[q];
      }
    }
  }

  /** Compatible node info makes its sender known and asks it for exactly the transactions it has
      announced that are not here. */
  lemma InfoAsksForAnnounced(c: Setup, have: set<Hash256>, s: Service, source: Addr, info: NodeInfo, now: nat,
                             id: Hash256)
    requires Compatibility(c.chainId, info).Pass?
    requires forall x :: x in c.order(Announced(s, source)) <==> x in Announced(s, source)
    ensures var t := OnNodeInfo(c, have, s, source, info, now);
      && source in t.known && source !in t.announced
      && (AsksFor(s, t, source, id) <==> id in Announced(s, source) && id !in have)
  {
    hide RequestAll, Compatibility;
    var accepted := Accepted(s, source, info, now);
    RequestAllAsks(accepted, source, c.order(Announced(s, source)), have, now, id);
    RequestAllOnlySends(accepted, source, c.order(Announced(s, source)), have, now);
  }
}
