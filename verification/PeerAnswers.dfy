/** What the UDP service answers to each frame, entry by entry of what goes out; and that a peer which
    serves its blocks in order is asked for each of them once. */
module PeerAnswers {
  import opened Types
  import opened PeerRules
  import PeerRuns

  /** What `to` is sent next in state `s`. */
  function Out(s: Service, to: Addr, message: Message, now: nat): Entry {
    Sent(to, message, now, to in s.known, to in s.rejections, s.height)
  }

  // ----- who is compatible -----

  // It speaks version 1 or a later one, settles for 2 or an earlier one, and is on our chain.
  predicate Compatible(chainId: u32, remote: NodeInfo) {
    1 <= remote.wireVersion && remote.minCompatibleWireVersion <= 2 && remote.chainId == chainId
  }

  /** The two ranges of wire versions meet and the chain is the same; if not, the first of these that
      fails is the reason. */
  lemma CompatibilityExactly(chainId: u32, remote: NodeInfo)
    ensures var r := Compatibility(chainId, remote);
      && (r == Pass <==> Compatible(chainId, remote))
      && (r == Fail(TooOld) <==> remote.wireVersion == 0)
      && (r == Fail(NeedsNewer) <==> remote.wireVersion > 0 && remote.minCompatibleWireVersion > 2)
      && (r == Fail(OtherChain) <==>
            remote.wireVersion > 0 && remote.minCompatibleWireVersion <= 2 && remote.chainId != chainId)
  {
  }

  /** A compatible peer becomes known under the info it sent; any other loses its place and is rejected for
      its reason. */
  lemma InfoExactly(c: Setup, have: set<Hash256>, s: Service, source: Addr, remote: NodeInfo, now: nat)
    requires source !in c.own
    ensures var t := OnFrame(c, have, s, source, Info(remote), now);
      if Compatible(c.chainId, remote) then
        t == s.(known := s.known + {source}, info := s.info[source := remote], rejections := s.rejections - {source},
                announced := s.announced - {source}, seenAt := s.seenAt[source := now],
                probedAt := s.probedAt - {source}, log := t.log)
      else
        && Compatibility(c.chainId, remote).Fail?
        && t == s.(known := s.known - {source}, info := s.info - {source}, announced := s.announced - {source},
                   rejections := s.rejections[source := Compatibility(c.chainId, remote).error])
  {
    hide OnPresence, OnTransactionAnnounce, OnTip, OnBlock, OnRequest, OnSubmitBlock, OnTransactionResponse,
         OnSubmitTransaction, RequestAll, Compatibility;
    CompatibilityExactly(c.chainId, remote);
    var accepted := Accepted(s, source, remote, now);
    var ids := c.order(if source in s.announced then s.announced[source] else {});
    PeerRuns.RequestAllOnlySends(accepted, source, ids, have, now);
  }

  // ----- the frames that only a known peer gets an answer to -----

  predicate ForKnownPeers(frame: Frame) {
    frame.TipRequest? || frame.Tip? || frame.BlockRequested? || frame.BlockResponse? || frame.SubmitBlock?
    || frame.TransactionRequested? || frame.TransactionResponse?
  }

  /** A stranger is asked who it is, and told who we are, unless it was asked less than five seconds
      ago. */
  ghost predicate Asked(s: Service, t: Service, source: Addr, now: nat) {
    if source in s.probedAt && now < s.probedAt[source] + 5_000 then t == s.(seenAt := s.seenAt[source := now])
    else
      && t.log == s.log + [Out(s, source, Probe, now), Out(s, source, OwnInfo, now)]
      && t == s.(log := t.log, seenAt := s.seenAt[source := now], probedAt := s.probedAt[source := now],
                 infoSentAt := s.infoSentAt[source := now])
  }

  lemma ExchangeExactly(s: Service, source: Addr, now: nat)
    ensures Asked(s, Exchange(s, source, now), source, now)
  {
  }

  /** Our own frames and those of a rejected peer change nothing, and those of a stranger have it asked. */
  lemma OthersExactly(c: Setup, have: set<Hash256>, s: Service, source: Addr, frame: Frame, now: nat)
    ensures source in c.own ==> OnFrame(c, have, s, source, frame, now) == s
    ensures source !in s.known && source in s.rejections && ForKnownPeers(frame) ==>
      OnFrame(c, have, s, source, frame, now) == s
    ensures source !in c.own && source !in s.known && source !in s.rejections && ForKnownPeers(frame) ==>
      Asked(s, OnFrame(c, have, s, source, frame, now), source, now)
  {
    hide Exchange, Asked, OnNodeInfo, OnPresence, OnTransactionAnnounce, OnSubmitTransaction, FollowUp, RequestNext;
    ExchangeExactly(s, source, now);
  }

  /** A request of a known peer gets the reply to just that request, and nothing else changes. */
  lemma RequestsExactly(c: Setup, have: set<Hash256>, s: Service, source: Addr, at: u64, id: Hash256, now: nat)
    requires source in s.known && source !in c.own
    ensures OnFrame(c, have, s, source, TipRequest, now) == s.(log := s.log + [Out(s, source, TipReply, now)])
    ensures OnFrame(c, have, s, source, BlockRequested(at), now)
         == s.(log := s.log + [Out(s, source, BlockReply(at), now)])
    ensures OnFrame(c, have, s, source, TransactionRequested(id), now)
         == s.(log := s.log + [Out(s, source, TransactionReply(id), now)])
    ensures OnFrame(c, have, s, source, Verdict, now) == s
  {
  }

  /** A pushed block is answered with the verdict, and only one that applies raises the height. */
  lemma SubmittedBlockExactly(c: Setup, have: set<Hash256>, s: Service, source: Addr, applies: bool, now: nat)
    requires source in s.known && source !in c.own
    ensures var grown := s.(height := if applies then s.height + 1 else s.height);
      OnFrame(c, have, s, source, SubmitBlock(applies), now)
      == grown.(log := s.log + [Out(grown, source, BlockVerdict, now)])
  {
  }

  /** A presence is answered with our info unless the peer is known and was sent it less than 42 seconds
      ago. */
  lemma PresenceExactly(c: Setup, have: set<Hash256>, s: Service, source: Addr, now: nat)
    requires source !in c.own
    ensures var t := OnFrame(c, have, s, source, PresenceAnnounce, now);
      && t == s.(log := t.log, seenAt := s.seenAt[source := now], infoSentAt := t.infoSentAt)
      && (if source in s.known && source in s.infoSentAt && now < s.infoSentAt[source] + 42_000
          then t.log == s.log && t.infoSentAt == s.infoSentAt
          else && t.log == s.log + [Out(s, source, OwnInfo, now)] && t.infoSentAt == s.infoSentAt[source := now])
  {
  }

  /** One entry for each target, in their order. */
  function ToAll(s: Service, targets: seq<Addr>, message: Message, now: nat): seq<Entry> {
    seq(|targets|, i requires 0 <= i < |targets| => Out(s, targets[i], message, now))
  }

  lemma {:induction false} SendAllExactly(s: Service, targets: seq<Addr>, message: Message, now: nat)
    ensures SendAll(s, targets, message, now) == s.(log := s.log + ToAll(s, targets, message, now))
  {
    if targets != [] {
      var front := targets[..|targets| - 1];
      SendAllExactly(s, front, message, now);
      assert ToAll(s, targets, message, now)
          == ToAll(s, front, message, now) + [Out(s, targets[|targets| - 1], message, now)];
    } else {
      assert s.log + ToAll(s, targets, message, now) == s.log;
    }
  }

  /** A submission is answered whoever made it; what was accepted from it, or from a known peer's
      response, is announced to every target. */
  lemma TransactionsExactly(c: Setup, have: set<Hash256>, s: Service, source: Addr, id: Hash256, accepted: bool,
                            now: nat)
    requires source !in c.own
    ensures OnFrame(c, have, s, source, SubmitTransaction(id, accepted), now)
         == s.(log := s.log + [Out(s, source, TransactionVerdict(id), now)]
                      + (if accepted then ToAll(s, c.targets, Announcement(id), now) else []))
    ensures source in s.known ==>
      OnFrame(c, have, s, source, TransactionResponse(id, accepted), now)
      == s.(log := s.log + (if accepted then ToAll(s, c.targets, Announcement(id), now) else []))
  {
    var answered := Send(s, source, TransactionVerdict(id), now);
    SendAllExactly(answered, c.targets, Announcement(id), now);
    SendAllExactly(s, c.targets, Announcement(id), now);
    assert ToAll(answered, c.targets, Announcement(id), now) == ToAll(s, c.targets, Announcement(id), now);
  }

  /** An announced transaction that is here changes nothing. One that is not is asked of a known peer at
      once, and of a stranger it is remembered. */
  lemma AnnouncementExactly(c: Setup, have: set<Hash256>, s: Service, source: Addr, id: Hash256, now: nat)
    requires source !in c.own
    ensures var t := OnFrame(c, have, s, source, TransactionAnnounce(id), now);
      var waiting := if source in s.announced then s.announced[source] else {};
      if id in have || (source !in s.known && source in s.rejections) then t == s
      else if source in s.known then t == s.(log := s.log + [Out(s, source, TransactionRequest(id), now)])
      else Asked(s.(announced := s.announced[source := waiting + {id}]), t, source, now)
  {
    hide OnPresence, OnNodeInfo, OnTip, OnBlock, OnRequest, OnSubmitBlock, OnTransactionResponse, OnSubmitTransaction,
         Exchange, Asked;
    ExchangeExactly(s.(announced := s.announced[source := Announced(s, source) + {id}]), source, now);
  }

  // ----- catching up with one peer -----

  /** A tip that is ahead is remembered, and the next block asked for unless it already is. */
  lemma TipExactly(c: Setup, have: set<Hash256>, s: Service, source: Addr, tip: u64, now: nat)
    requires source in s.known && source !in c.own
    ensures var t := OnFrame(c, have, s, source, Tip(tip), now);
      var asks := tip > s.height && !(source in s.inFlight && s.inFlight[source] == s.height + 1);
      && t.log == s.log + (if asks then [Out(s, source, BlockRequest(s.height + 1), now)] else [])
      && t == s.(log := t.log, tips := s.tips[source := tip],
                 inFlight := if asks then s.inFlight[source := s.height + 1] else s.inFlight)
  {
    hide OnPresence, OnNodeInfo, OnTransactionAnnounce, OnBlock, OnRequest,
         OnSubmitBlock, OnTransactionResponse, OnSubmitTransaction;
  }

  lemma FollowUpExactly(s: Service, source: Addr, now: nat)
    requires source !in s.inFlight
    ensures FollowUp(s, source, now)
         == if source in s.tips && s.tips[source] > s.height
            then s.(log := s.log + [Out(s, source, BlockRequest(s.height + 1), now)],
                    inFlight := s.inFlight[source := s.height + 1])
            else s
  {
  }

  /** After a block of a known peer that applies, or was already here, exactly one request goes to that
      peer, for the block after the new height, if the peer's recorded tip is above it; and none
      otherwise, nor after an answer without a block or with one that does not apply. */
  lemma BlockExactly(c: Setup, have: set<Hash256>, s: Service, source: Addr, at: u64, present: bool, applies: bool,
                     now: nat)
    requires source in s.known && source !in c.own
    ensures var t := OnFrame(c, have, s, source, BlockResponse(at, present, applies), now);
      var height := if present && at > s.height && applies then s.height + 1 else s.height;
      var asks := present && (at <= s.height || applies) && source in s.tips && s.tips[source] > height;
      var grown := s.(height := height);
      && t.log == s.log + [BlockAnswered(source)]
                  + (if asks then [Out(grown, source, BlockRequest(height + 1), now)] else [])
      && t == grown.(log := t.log,
                     inFlight := if asks then s.inFlight[source := height + 1] else s.inFlight - {source})
  {
    hide OnPresence, OnNodeInfo, OnTransactionAnnounce, OnTip, OnRequest, OnSubmitBlock, OnTransactionResponse,
         OnSubmitTransaction, FollowUp;
    var answered := s.(inFlight := s.inFlight - {source}, log := s.log + [BlockAnswered(source)]);
    FollowUpExactly(answered, source, now);
    FollowUpExactly(answered.(height := s.height + 1), source, now);
    assert (s.inFlight - {source})[source := s.height + 1] == s.inFlight[source := s.height + 1];
    assert (s.inFlight - {source})[source := s.height + 2] == s.inFlight[source := s.height + 2];
  }

  predicate BringsBlock(frame: Frame, at: nat) {
    frame.BlockResponse? && frame.height == at && frame.present && frame.applies
  }

  /** A tip and then the blocks after `from` up to it, one by one, with nothing in between. */
  predicate Serves(talk: seq<Input>, source: Addr, from: nat, tip: u64) {
    && from <= tip && |talk| == tip - from + 1
    && (forall k :: 0 <= k < |talk| ==> talk[k].source == source && talk[k].grown == 0)
    && talk[0].frame == Tip(tip)
    && forall k :: 0 < k < |talk| ==> BringsBlock(talk[k].frame, from + k)
  }

  /** After `k` of the blocks: height, what is in flight, and what has gone out and come in since `s`. */
  ghost predicate Served(s: Service, t: Service, source: Addr, tip: u64, k: nat) {
    && s.height + k <= tip
    && t.height == s.height + k
    && source in t.known && source in t.tips && t.tips[source] == tip
    && |t.log| == |s.log| + 2 * k + (if t.height < tip then 1 else 0)
    && s.log <= t.log
    && (forall j :: 0 <= j <= k && s.height + j < tip ==>
         PeerRuns.Requests(t.log[|s.log| + 2 * j], source, s.height + j + 1))
    && forall j :: 0 <= j < k ==> t.log[|s.log| + 2 * j + 1] == BlockAnswered(source)
  }

  lemma {:induction false} ServedSoFar(c: Setup, before: seq<Input>, talk: seq<Input>, source: Addr, tip: u64, k: nat)
    requires var s := HandleAll(c, before);
      && source in s.known && source !in c.own
      && !(source in s.inFlight && s.inFlight[source] == s.height + 1)
      && Serves(talk, source, s.height, tip)
    requires k < |talk|
    ensures Served(HandleAll(c, before), HandleAll(c, before + talk[..k + 1]), source, tip, k)
  {
    hide OnFrame, Served;
    var s, run := HandleAll(c, before), before + talk[..k + 1];
    assert run[..|run| - 1] == before + talk[..k] && run[|run| - 1] == talk[k];
    if k == 0 {
      assert before + talk[..0] == before;
      ServedTip(c, talk[0].have, s, source, tip, talk[0].now);
      NotGrown(s);
    } else {
      ServedSoFar(c, before, talk, source, tip, k - 1);
      var t := HandleAll(c, before + talk[..k]);
      NotGrown(t);
      ServedBlock(c, talk[k].have, s, t, source, tip, k, talk[k].frame.height, talk[k].now);
    }
  }

  lemma NotGrown(s: Service)
    ensures s.(height := s.height + 0) == s
  {
  }

  lemma ServedTip(c: Setup, have: set<Hash256>, s: Service, source: Addr, tip: u64, now: nat)
    requires source in s.known && source !in c.own && s.height <= tip
    requires !(source in s.inFlight && s.inFlight[source] == s.height + 1)
    ensures Served(s, OnFrame(c, have, s, source, Tip(tip), now), source, tip, 0)
  {
    hide OnFrame;
    TipExactly(c, have, s, source, tip, now);
  }

  lemma ServedBlock(c: Setup, have: set<Hash256>, s: Service, t: Service, source: Addr, tip: u64, k: nat, at: u64,
                    now: nat)
    requires source !in c.own && k > 0 && s.height + k <= tip && at == s.height + k
    requires Served(s, t, source, tip, k - 1)
    ensures Served(s, OnFrame(c, have, t, source, BlockResponse(at, true, true), now), source, tip, k)
  {
    hide OnFrame;
    BlockExactly(c, have, t, source, at, true, true, now);
    var u := OnFrame(c, have, t, source, BlockResponse(at, true, true), now);
    assert u.log[|t.log|] == BlockAnswered(source);
  }

  /** A known peer with nothing in flight that announces its tip and serves the blocks up to it in order
      is asked for each height once, each time right after it has answered, until the height is that tip;
      and then for nothing more. */
  lemma CatchesUp(c: Setup, before: seq<Input>, talk: seq<Input>, source: Addr, tip: u64)
    requires var s := HandleAll(c, before);
      && source in s.known && source !in c.own
      && !(source in s.inFlight && s.inFlight[source] == s.height + 1)
      && Serves(talk, source, s.height, tip)
    ensures var s, t := HandleAll(c, before), HandleAll(c, before + talk);
      && t.height == tip
      && s.log <= t.log && |t.log| == |s.log| + 2 * (tip - s.height)
      && (forall j :: 0 <= j < tip - s.height ==>
           && PeerRuns.Requests(t.log[|s.log| + 2 * j], source, s.height + j + 1)
           && t.log[|s.log| + 2 * j + 1] == BlockAnswered(source))
  {
    hide HandleAll;
    ServedSoFar(c, before, talk, source, tip, |talk| - 1);
    assert talk[..|talk|] == talk;
  }
}
