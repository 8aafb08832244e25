/** The peer table as the source keeps it: maps and sets that the handlers insert into and remove
    from. Every method is proved against PeerRules. */
module PeerObjects {
  import opened Types
  import PeerRules

  class SyncState {
    var tips: map<PeerRules.Addr, u64>
    var inFlight: map<PeerRules.Addr, nat>
    var known: set<PeerRules.Addr>
    var info: map<PeerRules.Addr, PeerRules.NodeInfo>
    var rejections: map<PeerRules.Addr, PeerRules.Incompatibility>
    var announced: map<PeerRules.Addr, set<Hash256>>
    var seenAt: map<PeerRules.Addr, nat>
    var infoSentAt: map<PeerRules.Addr, nat>
    var probedAt: map<PeerRules.Addr, nat>
    var height: nat
    var log: seq<PeerRules.Entry>

    constructor ()
      ensures State() == PeerRules.NEW_SERVICE
    {
      tips, inFlight, known, info := map[], map[], {}, map[];
      rejections, announced, seenAt, infoSentAt, probedAt := map[], map[], map[], map[], map[];
      height := 0;
      log := [];
    }

    function State(): PeerRules.Service
      reads this
    {
      PeerRules.Service(tips, inFlight, known, info, rejections, announced, seenAt, infoSentAt, probedAt, height, log)
    }

    method SendWire(to: PeerRules.Addr, message: PeerRules.Message, now: nat)
      modifies this`log
      ensures State() == PeerRules.Send(old(State()), to, message, now)
    {
      log := log + [PeerRules.Sent(to, message, now, to in known, to in rejections, height)];
    }

    method SendLocalNodeInfo(source: PeerRules.Addr, now: nat)
      modifies this
      ensures State() == PeerRules.SendInfo(old(State()), source, now)
    {
      infoSentAt := infoSentAt[source := now];
      SendWire(source, PeerRules.OwnInfo, now);
    }

    method RequestNodeInfoExchange(source: PeerRules.Addr, now: nat)
      modifies this
      ensures State() == PeerRules.Exchange(old(State()), source, now)
    {
      seenAt := seenAt[source := now];
      if source in probedAt
        && PeerRules.Since(now, probedAt[source]) < PeerRules.NODE_INFO_PROBE_MIN_INTERVAL { return; }
      probedAt := probedAt[source := now];
      SendWire(source, PeerRules.Probe, now);
      SendLocalNodeInfo(source, now);
    }

    method HandlePresenceAnnounce(source: PeerRules.Addr, now: nat)
      modifies this
      ensures State() == PeerRules.OnPresence(old(State()), source, now)
    {
      seenAt := seenAt[source := now];
      var recent := source in infoSentAt
        && PeerRules.Since(now, infoSentAt[source]) < PeerRules.NODE_INFO_RESPONSE_MIN_INTERVAL;
      if source !in known || !recent {
        SendLocalNodeInfo(source, now);
      }
    }

    method RejectPeer(source: PeerRules.Addr, reason: PeerRules.Incompatibility)
      modifies this
      ensures State() == PeerRules.Rejected(old(State()), source, reason)
    {
      known := known - {source};
      info := info - {source};
      rejections := rejections[source := reason];
      announced := announced - {source};
    }

    method AcceptPeer(source: PeerRules.Addr, remote: PeerRules.NodeInfo, now: nat) returns (waiting: set<Hash256>)
      modifies this
      ensures State() == PeerRules.Accepted(old(State()), source, remote, now)
      ensures waiting == PeerRules.Announced(old(State()), source)
    {
      known := known + {source};
      waiting := if source in announced then announced[source] else {};
      announced := announced - {source};
      rejections := rejections - {source};
      seenAt := seenAt[source := now];
      probedAt := probedAt - {source};
      info := info[source := remote];
    }

    /** A request for each announced transaction that is not here. */
    method RequestTransactions(source: PeerRules.Addr, ids: seq<Hash256>, have: set<Hash256>, now: nat)
      modifies this`log
      ensures State() == PeerRules.RequestAll(old(State()), source, ids, have, now)
    {
      hide PeerRules.Send;
      for i := 0 to |ids|
        invariant State() == PeerRules.RequestAll(old(State()), source, ids[..i], have, now)
      {
        assert ids[..i + 1][..i] == ids[..i];
        if ids[i] !in have {
          SendWire(source, PeerRules.TransactionRequest(ids[i]), now);
        }
      }
      assert ids[..|ids|] == ids;
    }

    method BroadcastTransactionAnnounce(targets: seq<PeerRules.Addr>, id: Hash256, now: nat)
      modifies this`log
      ensures State() == PeerRules.SendAll(old(State()), targets, PeerRules.Announcement(id), now)
    {
      hide PeerRules.Send;
      for i := 0 to |targets|
        invariant State() == PeerRules.SendAll(old(State()), targets[..i], PeerRules.Announcement(id), now)
      {
        assert targets[..i + 1][..i] == targets[..i];
        SendWire(targets[i], PeerRules.Announcement(id), now);
      }
      assert targets[..|targets|] == targets;
    }

    method HandleNodeInfo(c: PeerRules.Setup, have: set<Hash256>, source: PeerRules.Addr, remote: PeerRules.NodeInfo,
                          now: nat)
      modifies this
      ensures State() == PeerRules.OnNodeInfo(c, have, old(State()), source, remote, now)
    {
      hide PeerRules.Compatibility, PeerRules.Accepted, PeerRules.Rejected, PeerRules.RequestAll, PeerRules.Announced;
      var compatible := PeerRules.Compatibility(c.chainId, remote);
      if compatible.Fail? {
        RejectPeer(source, compatible.error);
        return;
      }
      var waiting := AcceptPeer(source, remote, now);
      RequestTransactions(source, c.order(waiting), have, now);
    }

    method HandleTransactionAnnounce(have: set<Hash256>, source: PeerRules.Addr, id: Hash256, now: nat)
      modifies this
      ensures State() == PeerRules.OnTransactionAnnounce(have, old(State()), source, id, now)
    {
      if id in have { return; }
      if source in known {
        SendWire(source, PeerRules.TransactionRequest(id), now);
      } else if source !in rejections {
        var waiting := if source in announced then announced[source] else {};
        announced := announced[source := waiting + {id}];
        RequestNodeInfoExchange(source, now);
      }
    }

    method EnsureCompatiblePeer(source: PeerRules.Addr, now: nat) returns (admitted: Result<bool,
                                PeerRules.Incompatibility>)
      modifies this
      ensures (State(), admitted) == PeerRules.Admit(old(State()), source, now)
    {
      if source in known { return Ok(true); }
      if source in rejections { return Err(rejections[source]); }
      RequestNodeInfoExchange(source, now);
      return Ok(false);
    }

    method RequestNextMissingBlock(source: PeerRules.Addr, remoteTip: u64, now: nat)
      modifies this
      ensures State() == PeerRules.RequestNext(old(State()), source, remoteTip, now)
    {
      if remoteTip <= height { return; }
      var next := height + 1;
      if source in inFlight && inFlight[source] == next { return; }
      inFlight := inFlight[source := next];
      SendWire(source, PeerRules.BlockRequest(next), now);
    }

    method RequestFollowUpBlock(source: PeerRules.Addr, now: nat)
      modifies this
      ensures State() == PeerRules.FollowUp(old(State()), source, now)
    {
      RequestNextMissingBlock(source, if source in tips then tips[source] else 0, now);
    }

    method HandleTipResponse(source: PeerRules.Addr, tip: u64, now: nat)
      modifies this
      ensures State() == PeerRules.OnTip(old(State()), source, tip, now)
    {
      hide PeerRules.Exchange;
      var admitted := EnsureCompatiblePeer(source, now);
      if admitted != Ok(true) { return; }
      tips := tips[source := tip];
      RequestNextMissingBlock(source, tip, now);
    }

    method HandleBlockResponse(source: PeerRules.Addr, at: u64, present: bool, applies: bool, now: nat)
      modifies this
      ensures State() == PeerRules.OnBlock(old(State()), source, at, present, applies, now)
    {
      hide PeerRules.Exchange, PeerRules.RequestNext;
      var admitted := EnsureCompatiblePeer(source, now);
      if admitted != Ok(true) { return; }
      inFlight := inFlight - {source};
      log := log + [PeerRules.BlockAnswered(source)];
      if !present { return; }
      if at > height {
        if !applies { return; }
        height := height + 1;
      }
      RequestFollowUpBlock(source, now);
    }

    method HandleRequest(source: PeerRules.Addr, answer: PeerRules.Message, now: nat)
      modifies this
      ensures State() == PeerRules.OnRequest(old(State()), source, answer, now)
    {
      hide PeerRules.Exchange;
      var admitted := EnsureCompatiblePeer(source, now);
      if admitted != Ok(true) { return; }
      SendWire(source, answer, now);
    }

    method HandleSubmitBlock(source: PeerRules.Addr, applies: bool, now: nat)
      modifies this
      ensures State() == PeerRules.OnSubmitBlock(old(State()), source, applies, now)
    {
      hide PeerRules.Exchange;
      var admitted := EnsureCompatiblePeer(source, now);
      if admitted != Ok(true) { return; }
      if applies {
        height := height + 1;
      }
      SendWire(source, PeerRules.BlockVerdict, now);
    }

    method HandleTransactionResponse(c: PeerRules.Setup, source: PeerRules.Addr, id: Hash256, accepted: bool, now: nat)
      modifies this
      ensures State() == PeerRules.OnTransactionResponse(c, old(State()), source, id, accepted, now)
    {
      hide PeerRules.Exchange, PeerRules.SendAll;
      var admitted := EnsureCompatiblePeer(source, now);
      if admitted != Ok(true) { return; }
      if accepted {
        BroadcastTransactionAnnounce(c.targets, id, now);
      }
    }

    method HandleSubmittedTransaction(c: PeerRules.Setup, source: PeerRules.Addr, id: Hash256, accepted: bool, now: nat)
      modifies this
      ensures State() == PeerRules.OnSubmitTransaction(c, old(State()), source, id, accepted, now)
    {
      hide PeerRules.SendAll;
      SendWire(source, PeerRules.TransactionVerdict(id), now);
      if accepted {
        BroadcastTransactionAnnounce(c.targets, id, now);
      }
    }

    method HandleFrame(c: PeerRules.Setup, have: set<Hash256>, source: PeerRules.Addr, frame: PeerRules.Frame, now: nat)
      modifies this
      ensures State() == PeerRules.OnFrame(c, have, old(State()), source, frame, now)
    {
      hide PeerRules.OnPresence, PeerRules.OnNodeInfo, PeerRules.OnTransactionAnnounce, PeerRules.OnTip,
           PeerRules.OnBlock;
      hide PeerRules.OnRequest, PeerRules.OnSubmitBlock, PeerRules.OnTransactionResponse, PeerRules.OnSubmitTransaction;
      if source in c.own { return; }
      match frame {
        case PresenceAnnounce => HandlePresenceAnnounce(source, now);
        case Info(info) => HandleNodeInfo(c, have, source, info, now);
        case TipRequest => HandleRequest(source, PeerRules.TipReply, now);
        case Tip(tip) => HandleTipResponse(source, tip, now);
        case BlockRequested(at) => HandleRequest(source, PeerRules.BlockReply(at), now);
        case BlockResponse(at, present, applies) => HandleBlockResponse(source, at, present, applies, now);
        case SubmitBlock(applies) => HandleSubmitBlock(source, applies, now);
        case TransactionAnnounce(id) => HandleTransactionAnnounce(have, source, id, now);
        case TransactionRequested(id) => HandleRequest(source, PeerRules.TransactionReply(id), now);
        case TransactionResponse(id, accepted) => HandleTransactionResponse(c, source, id, accepted, now);
        case SubmitTransaction(id, accepted) => HandleSubmittedTransaction(c, source, id, accepted, now);
        case Verdict =>
      }
    }
  }
}
