/** The message handlers of the Application Server as transactions that update a loaded device
    in place. Each is proved against its specification in module Handlers. */
module ApplicationServer {
  import opened Wrappers
  import opened Payload
  import opened DownlinkQueue
  import opened Handlers
  import opened QueueOperation

  /** The device registry. A write stores the masked fields of the updated device. */
  class DeviceRegistry {
    var stored: Option<Device>

    constructor (stored: Option<Device>)
      ensures this.stored == stored
    {
      this.stored := stored;
    }

    method Write(dev: EndDevice, mask: set<Field>)
      requires stored.Some?
      modifies this
      ensures stored == Some(WriteBack(old(stored.value), dev.View(), mask))
    {
      stored := Some(WriteBack(stored.value, dev.View(), mask));
    }
  }

  ghost predicate DistinctItems(items: seq<ApplicationDownlink>) {
    forall i, j | 0 <= i < j < |items| :: items[i] != items[j]
  }

  lemma DecryptQueueStep(crypto: Crypto, ring: KeyRing, queue: seq<Downlink>, i: nat)
    requires i < |queue|
    ensures var d := Payload.DecryptDownlink(crypto, ring, queue[i]);
            DecryptQueue(crypto, ring, queue[..i + 1]) == DecryptQueue(crypto, ring, queue[..i]) + (if d.Some? then [d.value] else [])
  {
    assert queue[..i + 1][..i] == queue[..i];
  }

  lemma NotYetSeen(msgs: seq<ApplicationDownlink>, i: nat, items: seq<ApplicationDownlink>)
    requires DistinctItems(msgs) && i < |msgs| && forall d | d in items :: d in msgs[..i]
    ensures msgs[i] !in items
  {
  }

  /** Decrypts messages in place and drops those that cannot be decrypted. */
  method DecryptItems(crypto: Crypto, dev: EndDevice, msgs: seq<ApplicationDownlink>, ternarySession: SessionRecord?)
    returns (items: seq<ApplicationDownlink>)
    requires DistinctItems(msgs)
    modifies msgs
    ensures Views(items) == DecryptQueue(crypto, RingOf(dev, ternarySession), old(Views(msgs)))
    ensures RingOf(dev, ternarySession) == old(RingOf(dev, ternarySession))
    ensures forall d | d in items :: d in msgs
  {
    hide Payload.DecryptDownlink;
    ghost var ring := RingOf(dev, ternarySession);
    ghost var queue := Views(msgs);
    items := [];
    for i := 0 to |msgs|
      invariant RingOf(dev, ternarySession) == ring
      invariant forall d | d in items :: d in msgs[..i]
      invariant forall k | i <= k < |msgs| :: msgs[k].View() == queue[k]
      invariant Views(items) == DecryptQueue(crypto, ring, queue[..i])
    {
      ghost var before := Views(items);
      DecryptQueueStep(crypto, ring, queue, i);
      NotYetSeen(msgs, i, items);
      var ok := QueueOperation.DecryptDownlink(crypto, dev, msgs[i], ternarySession);
      SameViews(items, before);
      ViewsPush(items, msgs[i]);
      if ok {
        items := items + [msgs[i]];
      }
    }
    assert queue[..|msgs|] == queue;
  }

  lemma ViewsPush(items: seq<ApplicationDownlink>, d: ApplicationDownlink)
    ensures Views(items + [d]) == Views(items) + [d.View()]
  {
  }

  lemma SameViews(items: seq<ApplicationDownlink>, before: seq<Downlink>)
    requires |before| == |items| && forall k | 0 <= k < |items| :: items[k].View() == before[k]
    ensures Views(items) == before
  {
  }

  ghost function RingOf(dev: EndDevice, ternarySession: SessionRecord?): KeyRing
    reads dev, dev.session, dev.pendingSession, ternarySession
  {
    KeyRing(dev.View().session, dev.View().pending, ViewOf(ternarySession))
  }

  /** Makes the session with the given key ID the current one. */
  method MatchSession(dev: EndDevice, addr: Option<Addr>, keyId: Bytes, peers: Peers, at: nat) returns (r: Option<set<Field>>)
    requires dev.Valid()
    modifies dev
    ensures dev.Valid()
    ensures dev.session == null || dev.session == old(dev.session) || dev.session == old(dev.pendingSession) || fresh(dev.session)
    ensures dev.pendingSession == null || dev.pendingSession == old(dev.pendingSession)
    ensures r.Some? <==> Handlers.MatchSession(old(dev.View()), addr, keyId, peers, at).Some?
    ensures r.Some? ==>
              && r.value == MatchMask(MatchKind(old(dev.View()), keyId))
              && dev.View() == Handlers.MatchSession(old(dev.View()), addr, keyId, peers, at).value
              && dev.session != null
  {
    if dev.session != null && dev.session.keyId == keyId {
      return Some({});
    }
    if dev.pendingSession != null && dev.pendingSession.keyId == keyId {
      dev.session := dev.pendingSession;
      dev.pendingSession := null;
      return Some({SessionField, PendingField});
    }
    var fetched := peers.keys(keyId, 2 * at);
    if fetched.Unavailable? {
      return None;
    }
    var restored := new SessionRecord(Session(addr, keyId, fetched.appSKey, 0));
    dev.session := restored;
    dev.pendingSession := null;
    dev.devAddr := addr;
    return Some({SessionField, PendingField, DevAddrField});
  }

  // The transactions. Each updates the loaded device and reports the changed fields, or fails.

  /** A transaction has made the requests of h and ends with its device and mask, or fails as h does. */
  ghost predicate Performs(dev: Device, r: Option<set<Field>>, before: seq<Request>, after: seq<Request>, h: Handled) {
    && (r.Some? <==> h.device.Some?)
    && (r.Some? ==> r.value == h.mask && dev == h.device.value)
    && after == before + Requests(h.exchanges)
  }

  lemma NoRequests(before: seq<Request>)
    ensures before + Requests([]) == before
  {
  }

  method Push(cfg: Config, dev: EndDevice, ns: NetworkServer, resultFunc: ResultFunc, items: seq<ApplicationDownlink>,
      skip: seq<Bytes>, mask: set<Field>)
    returns (r: Option<set<Field>>)
    requires dev.Valid()
    modifies dev, dev.session, dev.pendingSession, ns, resultFunc
    ensures Performs(dev.View(), r, old(ns.requests), ns.requests,
                     PushItems(cfg, old(dev.View()), old(Views(items)), skip, mask, ns.peers, |old(ns.requests)|))
  {
    if |items| == 0 {
      NoRequests(ns.requests);
      return Some(mask);
    }
    var pushMask := AttemptDownlinkQueueOp(cfg, dev, ns, items, skip, resultFunc);
    if pushMask.None? {
      return None;
    }
    return Some(mask + pushMask.value);
  }

  /** The join-accept that is handled and then passed on. */
  class JoinAcceptMessage {
    const sessionKeyId: Bytes
    var appSKey: Option<Bytes>
    var invalidatedDownlinks: seq<ApplicationDownlink>

    constructor (sessionKeyId: Bytes, appSKey: Option<Bytes>, invalidatedDownlinks: seq<ApplicationDownlink>)
      ensures this.sessionKeyId == sessionKeyId && this.appSKey == appSKey && this.invalidatedDownlinks == invalidatedDownlinks
    {
      this.sessionKeyId, this.appSKey, this.invalidatedDownlinks := sessionKeyId, appSKey, invalidatedDownlinks;
    }

    function View(addr: Option<Addr>): Event
      reads this, invalidatedDownlinks
    {
      JoinAccept(addr, sessionKeyId, appSKey, Views(invalidatedDownlinks))
    }
  }

  method JoinAcceptTransaction(cfg: Config, dev: EndDevice, ns: NetworkServer, resultFunc: ResultFunc,
      addr: Option<Addr>, msg: JoinAcceptMessage)
    returns (r: Option<set<Field>>)
    requires dev.Valid() && DistinctItems(msg.invalidatedDownlinks)
    modifies dev, dev.session, dev.pendingSession, ns, resultFunc, msg, msg.invalidatedDownlinks
    ensures Performs(dev.View(), r, old(ns.requests), ns.requests,
                     Handlers.HandleJoinAccept(cfg, old(dev.View()), old(msg.View(addr)), ns.peers, |old(ns.requests)|))
    ensures msg.View(addr) == JoinAcceptUpstream(cfg, old(dev.View()), old(msg.View(addr)), ns.peers, |old(ns.requests)|)
  {
    hide RestoreQueue, SkipPayloadCrypto;
    NoRequests(ns.requests);
    if msg.appSKey.None? {
      var fetched := ns.peers.keys(msg.sessionKeyId, 2 * |ns.requests|);
      if fetched.Unavailable? {
        return None;
      }
      msg.appSKey := fetched.appSKey;
    }
    var previousSession := dev.pendingSession;
    var joined := new SessionRecord(Session(addr, msg.sessionKeyId, msg.appSKey, 0));
    dev.pendingSession := joined;
    r := RestoreQueueTransaction(cfg, dev, ns, resultFunc, previousSession, msg);
  }

  lemma NothingToRestore(cfg: Config, dev: Device, previous: Option<Session>, queue: seq<Downlink>, peers: Peers, at: nat)
    ensures var items := DecryptQueue(cfg.crypto, KeyRing(dev.session, dev.pending, previous), queue);
            && (queue == [] ==> items == [])
            && (items == [] ==> RestoreQueue(cfg, dev, previous, queue, peers, at) == Handled(Some(dev), {PendingField}, []))
  {
  }

  method RestoreQueueTransaction(cfg: Config, dev: EndDevice, ns: NetworkServer, resultFunc: ResultFunc,
      previousSession: SessionRecord?, msg: JoinAcceptMessage)
    returns (r: Option<set<Field>>)
    requires dev.Valid() && DistinctItems(msg.invalidatedDownlinks)
    modifies dev, dev.session, dev.pendingSession, ns, resultFunc, msg, msg.invalidatedDownlinks
    ensures Performs(dev.View(), r, old(ns.requests), ns.requests,
                     RestoreQueue(cfg, old(dev.View()), old(ViewOf(previousSession)), old(Views(msg.invalidatedDownlinks)),
                                  ns.peers, |old(ns.requests)|))
    ensures if SkipPayloadCrypto(cfg.crypto, SkipFlag(cfg, old(dev.View())), old(dev.View()).pending)
            then unchanged(msg) && Views(msg.invalidatedDownlinks) == old(Views(msg.invalidatedDownlinks))
            else msg.appSKey.None? && msg.invalidatedDownlinks == []
  {
    hide PushItems, DecryptQueue, SkipPayloadCrypto;
    NoRequests(ns.requests);
    NothingToRestore(cfg, dev.View(), ViewOf(previousSession), Views(msg.invalidatedDownlinks), ns.peers, |ns.requests|);
    var mask := {PendingField};
    if SkipPayloadCrypto(cfg.crypto, SkipFlag(cfg, dev.View()), ViewOf(dev.pendingSession)) {
      return Some(mask);
    }
    msg.appSKey := None;
    if |msg.invalidatedDownlinks| == 0 {
      return Some(mask);
    }
    var items := DecryptItems(cfg.crypto, dev, msg.invalidatedDownlinks, previousSession);
    msg.invalidatedDownlinks := [];
    if |items| == 0 {
      return Some(mask);
    }
    assert [items[0].sessionKeyId] == Origin(Views(items));
    r := Push(cfg, dev, ns, resultFunc, items, [items[0].sessionKeyId], mask);
  }

  method QueueInvalidatedTransaction(cfg: Config, dev: EndDevice, ns: NetworkServer, resultFunc: ResultFunc,
      addr: Option<Addr>, keyId: Bytes, lastFCntDown: Counter, downlinks: seq<ApplicationDownlink>)
    returns (r: Option<set<Field>>, pass: bool, crashed: bool)
    requires dev.Valid() && DistinctItems(downlinks)
    modifies dev, dev.session, dev.pendingSession, ns, resultFunc, downlinks
    ensures var h := HandleQueueInvalidated(cfg, old(dev.View()), QueueInvalidated(addr, keyId, lastFCntDown, old(Views(downlinks))),
                                            ns.peers, |old(ns.requests)|);
            Performs(dev.View(), r, old(ns.requests), ns.requests, h) && crashed == h.crashed
    ensures pass <==> SkipPayloadCrypto(cfg.crypto, SkipFlag(cfg, old(dev.View())), old(dev.View()).session)
    ensures pass ==> Views(downlinks) == old(Views(downlinks))
  {
    hide QueueOp, DecryptQueue, SkipPayloadCrypto;
    NoRequests(ns.requests);
    pass, crashed := false, false;
    var mask := {SessionCounter};
    if SkipPayloadCrypto(cfg.crypto, SkipFlag(cfg, dev.View()), ViewOf(dev.session)) {
      pass := true;
      if dev.session == null {
        return None, pass, true;
      }
      dev.session.lastAFCntDown := lastFCntDown;
      return Some(mask), pass, crashed;
    }
    var matchMask := MatchSession(dev, addr, keyId, ns.peers, |ns.requests|);
    if matchMask.None? {
      return None, pass, crashed;
    }
    mask := mask + matchMask.value;
    dev.session.lastAFCntDown := lastFCntDown;
    r := RequeueTransaction(cfg, dev, ns, resultFunc, downlinks, mask);
  }

  method RequeueTransaction(cfg: Config, dev: EndDevice, ns: NetworkServer, resultFunc: ResultFunc,
      downlinks: seq<ApplicationDownlink>, mask: set<Field>)
    returns (r: Option<set<Field>>)
    requires dev.Valid() && DistinctItems(downlinks)
    modifies dev, dev.session, dev.pendingSession, ns, resultFunc, downlinks
    ensures Performs(dev.View(), r, old(ns.requests), ns.requests,
                     Requeue(cfg, old(dev.View()), old(Views(downlinks)), mask, ns.peers, |old(ns.requests)|))
  {
    var items := DecryptItems(cfg.crypto, dev, downlinks, null);
    r := Push(cfg, dev, ns, resultFunc, items, [], mask);
  }

  /** Counts the nack and says whether the retries are used up. */
  method CountNack(cfg: Config, msg: ApplicationDownlink) returns (usedUp: bool)
    modifies msg`confirmedRetry
    ensures usedUp <==> NextRetry(cfg, old(msg.confirmedRetry)).None?
    ensures msg.View() == old(msg.View()).(confirmedRetry := Some(Counted(old(msg.confirmedRetry))))
  {
    var retry := if msg.confirmedRetry.Some? then msg.confirmedRetry.value else ConfirmedRetry(0, None);
    retry := retry.(attempt := (retry.attempt + 1) % UINT32);
    msg.confirmedRetry := Some(retry);
    var maxRetries := cfg.defaultRetries;
    if retry.maxAttempts.Some? {
      maxRetries := retry.maxAttempts.value;
    }
    usedUp := retry.attempt > maxRetries;
  }

  method NackTransaction(cfg: Config, dev: EndDevice, ns: NetworkServer, resultFunc: ResultFunc, addr: Option<Addr>,
      msg: ApplicationDownlink)
    returns (r: Option<set<Field>>)
    requires dev.Valid()
    modifies dev, dev.session, dev.pendingSession, ns, resultFunc, msg
    ensures Performs(dev.View(), r, old(ns.requests), ns.requests,
                     HandleNack(cfg, old(dev.View()), Nack(addr, old(msg.View())), ns.peers, |old(ns.requests)|))
    ensures msg.View() == NackUpstream(cfg, old(dev.View()), Nack(addr, old(msg.View())), ns.peers, |old(ns.requests)|)
  {
    hide QueueOp, SkipPayloadCrypto, Payload.DecryptDownlink;
    NoRequests(ns.requests);
    if SkipPayloadCrypto(cfg.crypto, SkipFlag(cfg, dev.View()), ViewOf(dev.session)) {
      return Some({});
    }
    var matchMask := MatchSession(dev, addr, msg.sessionKeyId, ns.peers, |ns.requests|);
    if matchMask.None? {
      return None;
    }
    var decrypted := QueueOperation.DecryptDownlink(cfg.crypto, dev, msg, null);
    if !decrypted {
      return None;
    }
    var usedUp := CountNack(cfg, msg);
    if usedUp {
      return Some({});
    }
    assert Views([msg]) == [msg.View()];
    r := Push(cfg, dev, ns, resultFunc, [msg], [], matchMask.value);
  }

  /** Starts the retries of a confirmed item, unless it asks for too many. */
  method InitAndValidateConfirmationRetriesConfig(cfg: Config, item: ApplicationDownlink) returns (ok: bool)
    modifies item`confirmedRetry
    ensures ok <==> InitRetries(cfg, old(item.View())).Some?
    ensures ok ==> item.View() == InitRetries(cfg, old(item.View())).value
  {
    if !item.confirmed {
      return true;
    }
    if item.confirmedRetry.None? {
      item.confirmedRetry := Some(ConfirmedRetry(1, None));
    }
    var maxAttempts := item.confirmedRetry.value.maxAttempts;
    return !(maxAttempts.Some? && maxAttempts.value > cfg.maxRetries);
  }

  method InitAndValidateItems(cfg: Config, items: seq<ApplicationDownlink>) returns (ok: bool)
    requires DistinctItems(items)
    modifies items
    ensures ok <==> InitAllRetries(cfg, old(Views(items))).Some?
    ensures ok ==> Views(items) == InitAllRetries(cfg, old(Views(items))).value
  {
    ghost var all := Views(items);
    for i := 0 to |items|
      invariant forall k | i <= k < |items| :: items[k].View() == all[k]
      invariant InitAllRetries(cfg, all[..i]) == Some(Views(items[..i]))
    {
      InitPrefix(cfg, all, i);
      InitStep(cfg, all, i);
      ghost var before := Views(items[..i]);
      NotYetSeen(items, i, items[..i]);
      var valid := InitAndValidateConfirmationRetriesConfig(cfg, items[i]);
      if !valid {
        return false;
      }
      SameViews(items[..i], before);
      ViewsPush(items[..i], items[i]);
      assert items[..i + 1] == items[..i] + [items[i]];
    }
    assert all[..|items|] == all && items[..|items|] == items;
    return true;
  }

  lemma InitStep(cfg: Config, items: seq<Downlink>, i: nat)
    requires i < |items| && InitAllRetries(cfg, items[..i]).Some?
    ensures var d := InitRetries(cfg, items[i]);
            InitAllRetries(cfg, items[..i + 1]) == if d.Some? then Some(InitAllRetries(cfg, items[..i]).value + [d.value]) else None
  {
    assert items[..i + 1][..i] == items[..i];
  }

  lemma {:induction false} InitPrefix(cfg: Config, items: seq<Downlink>, i: nat)
    requires i < |items|
    ensures InitAllRetries(cfg, items[..i + 1]).None? ==> InitAllRetries(cfg, items).None?
    decreases |items|
  {
    if i + 1 < |items| {
      assert items[..|items| - 1][..i + 1] == items[..i + 1];
      InitPrefix(cfg, items[..|items| - 1], i);
    } else {
      assert items[..i + 1] == items;
    }
  }

  method PushTransaction(cfg: Config, dev: EndDevice, ns: NetworkServer, resultFunc: ResultFunc,
      items: seq<ApplicationDownlink>)
    returns (r: Option<set<Field>>)
    requires dev.Valid() && DistinctItems(items)
    modifies dev, dev.session, dev.pendingSession, ns, resultFunc, items
    ensures Performs(dev.View(), r, old(ns.requests), ns.requests,
                     HandlePush(cfg, old(dev.View()), old(Views(items)), ns.peers, |old(ns.requests)|))
  {
    NoRequests(ns.requests);
    var valid := InitAndValidateItems(cfg, items);
    if !valid {
      return None;
    }
    r := AttemptDownlinkQueueOp(cfg, dev, ns, items, [], resultFunc);
  }

  // The handlers.

  /** Handling an event stores and sends what the specification says. */
  ghost predicate Transacts(cfg: Config, stored: Option<Device>, sent: seq<Request>, e: Event, peers: Peers,
                            ok: bool, storedAfter: Option<Device>, sentAfter: seq<Request>) {
    match stored
    case None => !ok && storedAfter == None && sentAfter == sent
    case Some(dev) =>
      var h := Handle(cfg, dev, e, peers, |sent|);
      && (ok <==> h.device.Some?)
      && storedAfter == Some(Commit(dev, h))
      && sentAfter == sent + Requests(h.exchanges)
  }

  method DownlinkQueueOp(cfg: Config, registry: DeviceRegistry, ns: NetworkServer, resultFunc: ResultFunc,
      items: seq<ApplicationDownlink>)
    returns (ok: bool)
    requires DistinctItems(items)
    modifies registry, ns, resultFunc, items
    ensures Transacts(cfg, old(registry.stored), old(ns.requests), Event.Push(old(Views(items))),
                      ns.peers, ok, registry.stored, ns.requests)
  {
    if registry.stored.None? {
      return false;
    }
    var dev := new EndDevice(registry.stored.value);
    var mask := PushTransaction(cfg, dev, ns, resultFunc, items);
    ok := mask.Some?;
    if ok {
      registry.Write(dev, mask.value);
    }
  }

  method HandleJoinAccept(cfg: Config, registry: DeviceRegistry, ns: NetworkServer, resultFunc: ResultFunc,
      addr: Option<Addr>, msg: JoinAcceptMessage)
    returns (ok: bool)
    requires DistinctItems(msg.invalidatedDownlinks)
    modifies registry, ns, resultFunc, msg, msg.invalidatedDownlinks
    ensures Transacts(cfg, old(registry.stored), old(ns.requests), old(msg.View(addr)), ns.peers, ok, registry.stored, ns.requests)
    ensures msg.View(addr) ==
            match old(registry.stored)
            case None => old(msg.View(addr))
            case Some(dev) => JoinAcceptUpstream(cfg, dev, old(msg.View(addr)), ns.peers, |old(ns.requests)|)
  {
    if registry.stored.None? {
      return false;
    }
    var dev := new EndDevice(registry.stored.value);
    var mask := JoinAcceptTransaction(cfg, dev, ns, resultFunc, addr, msg);
    ok := mask.Some?;
    if ok {
      registry.Write(dev, mask.value);
    }
  }

  method HandleUplink(cfg: Config, registry: DeviceRegistry, ns: NetworkServer, addr: Option<Addr>, keyId: Bytes)
    returns (ok: bool)
    modifies registry
    ensures Transacts(cfg, old(registry.stored), ns.requests, Uplink(addr, keyId),
                      ns.peers, ok, registry.stored, ns.requests)
  {
    NoRequests(ns.requests);
    if registry.stored.None? {
      return false;
    }
    var dev := new EndDevice(registry.stored.value);
    var mask := MatchSession(dev, addr, keyId, ns.peers, |ns.requests|);
    if mask.None? || dev.session.appSKey.None? {
      return false;
    }
    registry.Write(dev, mask.value);
    return true;
  }

  /** If it crashes, the transaction is not completed, and nothing is returned. */
  method HandleDownlinkQueueInvalidated(cfg: Config, registry: DeviceRegistry, ns: NetworkServer,
      resultFunc: ResultFunc, addr: Option<Addr>, keyId: Bytes, lastFCntDown: Counter,
      downlinks: seq<ApplicationDownlink>)
    returns (ok: bool, pass: bool, crashed: bool)
    requires DistinctItems(downlinks)
    modifies registry, ns, resultFunc, downlinks
    ensures Transacts(cfg, old(registry.stored), old(ns.requests), QueueInvalidated(addr, keyId, lastFCntDown, old(Views(downlinks))),
                      ns.peers, ok, registry.stored, ns.requests)
    ensures pass <==> old(registry.stored).Some? &&
                      SkipPayloadCrypto(cfg.crypto, SkipFlag(cfg, old(registry.stored.value)), old(registry.stored.value.session))
    ensures pass ==> Views(downlinks) == old(Views(downlinks))
    ensures crashed <==> old(registry.stored).Some? && old(registry.stored.value.session).None? &&
                         SkipFlag(cfg, old(registry.stored.value))
  {
    hide SkipPayloadCrypto, HandleQueueInvalidated;
    if registry.stored.None? {
      return false, false, false;
    }
    var dev := new EndDevice(registry.stored.value);
    var mask;
    ghost var e := QueueInvalidated(addr, keyId, lastFCntDown, Views(downlinks));
    CrashesExactly(cfg, dev.View(), e, ns.peers, |ns.requests|);
    mask, pass, crashed := QueueInvalidatedTransaction(cfg, dev, ns, resultFunc, addr, keyId, lastFCntDown, downlinks);
    ok := mask.Some?;
    if ok {
      registry.Write(dev, mask.value);
    }
  }

  method HandleDownlinkNack(cfg: Config, registry: DeviceRegistry, ns: NetworkServer, resultFunc: ResultFunc,
      addr: Option<Addr>, msg: ApplicationDownlink)
    returns (ok: bool)
    modifies registry, ns, resultFunc, msg
    ensures Transacts(cfg, old(registry.stored), old(ns.requests), Nack(addr, old(msg.View())),
                      ns.peers, ok, registry.stored, ns.requests)
    ensures msg.View() ==
            match old(registry.stored)
            case None => old(msg.View())
            case Some(dev) => NackUpstream(cfg, dev, Nack(addr, old(msg.View())), ns.peers, |old(ns.requests)|)
  {
    if registry.stored.None? {
      return false;
    }
    var dev := new EndDevice(registry.stored.value);
    var mask := NackTransaction(cfg, dev, ns, resultFunc, addr, msg);
    ok := mask.Some?;
    if ok {
      registry.Write(dev, mask.value);
    }
  }
}
