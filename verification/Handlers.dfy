/** The message handlers of the Application Server on values, each as a transaction on the stored device. */
module Handlers {
  import opened Wrappers
  import opened Payload
  import opened DownlinkQueue

  // The device registry.

  /** Writing only the frame counter of a session. */
  function WriteCounter(stored: Option<Session>, updated: Option<Session>): Option<Session> {
    if stored.None? && updated.None? then None
    else
      var base := if stored.Some? then stored.value else Session(None, [], None, 0);
      Some(base.(lastAFCntDown := if updated.Some? then updated.value.lastAFCntDown else 0))
  }

  function WriteSession(stored: Option<Session>, updated: Option<Session>, whole: bool, counter: bool): Option<Session> {
    if whole then updated else if counter then WriteCounter(stored, updated) else stored
  }

  /** The stored device after a write of the masked fields. */
  function WriteBack(stored: Device, updated: Device, mask: set<Field>): Device {
    stored.(
      devAddr := if DevAddrField in mask then updated.devAddr else stored.devAddr,
      session := WriteSession(stored.session, updated.session, SessionField in mask, SessionCounter in mask),
      pending := WriteSession(stored.pending, updated.pending, PendingField in mask, PendingCounter in mask))
  }

  /** What a handler returns to the registry: nothing to be written on an error or a crash, and
      otherwise the updated device with the mask of its changed fields. */
  datatype Handled = Handled(device: Option<Device>, mask: set<Field>, exchanges: seq<Exchange>, crashed: bool := false)

  function Commit(stored: Device, h: Handled): Device {
    match h.device
    case None => stored
    case Some(updated) => WriteBack(stored, updated, h.mask)
  }

  const Rejects := Handled(None, {}, [])

  /** A null pointer is dereferenced. */
  const Crashes := Handled(None, {}, [], true)

  // Session matching.

  datatype Match = AlreadyCurrent | Switched | Restored

  function MatchKind(dev: Device, keyId: Bytes): Match {
    if dev.session.Some? && dev.session.value.keyId == keyId then AlreadyCurrent
    else if dev.pending.Some? && dev.pending.value.keyId == keyId then Switched
    else Restored
  }

  function MatchSession(dev: Device, addr: Option<Addr>, keyId: Bytes, peers: Peers, at: nat): Option<Device> {
    match MatchKind(dev, keyId)
    case AlreadyCurrent => Some(dev)
    case Switched => Some(dev.(session := dev.pending, pending := None))
    case Restored =>
      match peers.keys(keyId, 2 * at)
      case Unavailable => None
      case Fetched(appSKey) =>
        Some(dev.(devAddr := addr, session := Some(Session(addr, keyId, appSKey, 0)), pending := None))
  }

  function MatchMask(k: Match): set<Field> {
    match k
    case AlreadyCurrent => {}
    case Switched => {SessionField, PendingField}
    case Restored => SESSION_FIELDS
  }

  // The handlers.

  datatype Event =
    | Push(items: seq<Downlink>)
    | JoinAccept(addr: Option<Addr>, keyId: Bytes, appSKey: Option<Bytes>, invalidated: seq<Downlink>)
    | Uplink(addr: Option<Addr>, keyId: Bytes)
    | QueueInvalidated(addr: Option<Addr>, keyId: Bytes, lastFCntDown: Counter, downlinks: seq<Downlink>)
    | Nack(addr: Option<Addr>, msg: Downlink)

  /** A confirmed downlink gets its first attempt, and may not ask for more than the configured retries. */
  function InitRetries(cfg: Config, item: Downlink): Option<Downlink> {
    if !item.confirmed then Some(item)
    else
      var retry := if item.confirmedRetry.Some? then item.confirmedRetry.value else ConfirmedRetry(1, None);
      if retry.maxAttempts.Some? && retry.maxAttempts.value > cfg.maxRetries then None
      else Some(item.(confirmedRetry := Some(retry)))
  }

  function InitAllRetries(cfg: Config, items: seq<Downlink>): Option<seq<Downlink>> {
    if items == [] then Some([])
    else
      var init := InitAllRetries(cfg, items[..|items| - 1]);
      var last := InitRetries(cfg, items[|items| - 1]);
      if init.Some? && last.Some? then Some(init.value + [last.value]) else None
  }

  function HandlePush(cfg: Config, dev: Device, items: seq<Downlink>, peers: Peers, at: nat): Handled {
    match InitAllRetries(cfg, items)
    case None => Rejects
    case Some(items) =>
      var o := QueueOp(cfg, dev, items, [], peers, at);
      Handled(o.device, o.mask, o.exchanges)
  }

  /** Pushes recalculated items, if there are any, after the fields in mask have changed. */
  function PushItems(cfg: Config, dev: Device, items: seq<Downlink>, skip: seq<Bytes>, mask: set<Field>, peers: Peers,
      at: nat): Handled {
    if items == [] then Handled(Some(dev), mask, [])
    else
      var o := QueueOp(cfg, dev, items, skip, peers, at);
      Handled(o.device, mask + o.mask, o.exchanges)
  }

  /** The session that a queue comes from already contains it. */
  function Origin(items: seq<Downlink>): seq<Bytes> {
    if items == [] then [] else [items[0].sessionKeyId]
  }

  function JoinKey(e: Event, peers: Peers, at: nat): Fetched
    requires e.JoinAccept?
  {
    if e.appSKey.Some? then Fetched(e.appSKey) else peers.keys(e.keyId, 2 * at)
  }

  function Joined(dev: Device, e: Event, peers: Peers, at: nat): Device
    requires e.JoinAccept? && JoinKey(e, peers, at).Fetched?
  {
    dev.(pending := Some(Session(e.addr, e.keyId, JoinKey(e, peers, at).appSKey, 0)))
  }

  /** Restores the queue of the old session for the sessions it does not come from. */
  function RestoreQueue(cfg: Config, joined: Device, previous: Option<Session>, queue: seq<Downlink>, peers: Peers,
      at: nat): Handled {
    var items := DecryptQueue(cfg.crypto, KeyRing(joined.session, joined.pending, previous), queue);
    if SkipPayloadCrypto(cfg.crypto, SkipFlag(cfg, joined), joined.pending) then Handled(Some(joined), {PendingField}, [])
    else PushItems(cfg, joined, items, Origin(items), {PendingField}, peers, at)
  }

  function HandleJoinAccept(cfg: Config, dev: Device, e: Event, peers: Peers, at: nat): Handled
    requires e.JoinAccept?
  {
    if JoinKey(e, peers, at).Unavailable? then Rejects
    else RestoreQueue(cfg, Joined(dev, e, peers, at), dev.pending, e.invalidated, peers, at)
  }

  function HandleUplink(dev: Device, e: Event, peers: Peers, at: nat): Handled
    requires e.Uplink?
  {
    match MatchSession(dev, e.addr, e.keyId, peers, at)
    case None => Rejects
    case Some(matched) =>
      if matched.session.value.appSKey.None? then Rejects
      else Handled(Some(matched), MatchMask(MatchKind(dev, e.keyId)), [])
  }

  function SetCounter(dev: Device, last: Counter): Device
    requires dev.session.Some?
  {
    dev.(session := Some(dev.session.value.(lastAFCntDown := last)))
  }

  /** Pushes again what can be decrypted of an invalidated queue. */
  function Requeue(cfg: Config, dev: Device, queue: seq<Downlink>, mask: set<Field>, peers: Peers, at: nat): Handled {
    PushItems(cfg, dev, DecryptQueue(cfg.crypto, KeyRing(dev.session, dev.pending, None), queue), [], mask, peers, at)
  }

  function HandleQueueInvalidated(cfg: Config, dev: Device, e: Event, peers: Peers, at: nat): Handled
    requires e.QueueInvalidated?
  {
    if SkipPayloadCrypto(cfg.crypto, SkipFlag(cfg, dev), dev.session) then
      if dev.session.None? then Crashes else Handled(Some(SetCounter(dev, e.lastFCntDown)), {SessionCounter}, [])
    else
      match MatchSession(dev, e.addr, e.keyId, peers, at)
      case None => Rejects
      case Some(matched) =>
        Requeue(cfg, SetCounter(matched, e.lastFCntDown), e.downlinks, {SessionCounter} + MatchMask(MatchKind(dev, e.keyId)), peers, at)
  }

  /** A retry record with one more attempt counted. */
  function Counted(retry: Option<ConfirmedRetry>): ConfirmedRetry {
    var r := if retry.Some? then retry.value else ConfirmedRetry(0, None);
    r.(attempt := (r.attempt + 1) % UINT32)
  }

  /** The retry record of a nacked downlink, or none if its retries are used up. */
  function NextRetry(cfg: Config, retry: Option<ConfirmedRetry>): Option<ConfirmedRetry> {
    var next := Counted(retry);
    if next.attempt > RetryLimit(cfg, next.maxAttempts) then None else Some(next)
  }

  function RetryLimit(cfg: Config, maxAttempts: Option<Counter>): Counter {
    if maxAttempts.Some? then maxAttempts.value else cfg.defaultRetries
  }

  function HandleNack(cfg: Config, dev: Device, e: Event, peers: Peers, at: nat): Handled
    requires e.Nack?
  {
    if SkipPayloadCrypto(cfg.crypto, SkipFlag(cfg, dev), dev.session) then Handled(Some(dev), {}, [])
    else
      match MatchSession(dev, e.addr, e.msg.sessionKeyId, peers, at)
      case None => Rejects
      case Some(matched) =>
        match DecryptDownlink(cfg.crypto, KeyRing(matched.session, matched.pending, None), e.msg)
        case None => Rejects
        case Some(msg) =>
          match NextRetry(cfg, msg.confirmedRetry)
          case None => Handled(Some(matched), {}, [])
          case Some(retry) =>
            PushItems(cfg, matched, [msg.(confirmedRetry := Some(retry))], [], MatchMask(MatchKind(dev, e.msg.sessionKeyId)), peers, at)
  }

  function Handle(cfg: Config, dev: Device, e: Event, peers: Peers, at: nat): Handled {
    match e
    case Push(items) => HandlePush(cfg, dev, items, peers, at)
    case JoinAccept(_, _, _, _) => HandleJoinAccept(cfg, dev, e, peers, at)
    case Uplink(_, _) => HandleUplink(dev, e, peers, at)
    case QueueInvalidated(_, _, _, _) => HandleQueueInvalidated(cfg, dev, e, peers, at)
    case Nack(_, _) => HandleNack(cfg, dev, e, peers, at)
  }

  /** The one crash: a queue invalidation for a device without a session, with payload cryptography
      switched off for the device. */
  lemma CrashesExactly(cfg: Config, dev: Device, e: Event, peers: Peers, at: nat)
    ensures Handle(cfg, dev, e, peers, at).crashed <==>
            e.QueueInvalidated? && dev.session.None? && (if dev.skipOverride.Some? then dev.skipOverride.value else cfg.linkSkip)
    ensures Handle(cfg, dev, e, peers, at).crashed ==> Commit(dev, Handle(cfg, dev, e, peers, at)) == dev
  {
    hide QueueOp, DecryptQueue, InitAllRetries;
  }

  /** A device that has not joined yet and skips payload cryptography. */
  lemma UnjoinedDeviceCrashes(cfg: Config, peers: Peers, at: nat)
    ensures Handle(cfg, Device(None, None, None, Some(true)), QueueInvalidated(None, [1], 0, []), peers, at).crashed
  {
    CrashesExactly(cfg, Device(None, None, None, Some(true)), QueueInvalidated(None, [1], 0, []), peers, at);
  }

  // What goes upstream afterwards.

  /** The join-accept as it is passed on: unless payload cryptography is skipped for the new session, it
      carries neither its key nor the old queue. */
  function JoinAcceptUpstream(cfg: Config, dev: Device, e: Event, peers: Peers, at: nat): Event
    requires e.JoinAccept?
  {
    if JoinKey(e, peers, at).Unavailable? then e
    else
      var joined := Joined(dev, e, peers, at);
      if SkipPayloadCrypto(cfg.crypto, SkipFlag(cfg, joined), joined.pending) then e.(appSKey := JoinKey(e, peers, at).appSKey)
      else e.(appSKey := None, invalidated := [])
  }

  /** After a join-accept was handled: with payload cryptography switched on, or with a key that the
      Application Server can unwrap, the message that is passed on holds no key and no queue. Otherwise
      it holds the key, also if that came from the Join Server, and the queue as it was. */
  lemma KeyPassedOn(cfg: Config, dev: Device, e: Event, peers: Peers, at: nat)
    requires e.JoinAccept? && HandleJoinAccept(cfg, dev, e, peers, at).device.Some?
    ensures var up := JoinAcceptUpstream(cfg, dev, e, peers, at);
            var key := JoinKey(e, peers, at).appSKey;
            var flag := if dev.skipOverride.Some? then dev.skipOverride.value else cfg.linkSkip;
            if !flag || (key.Some? && cfg.crypto.unwrap(key.value).Some?) then up.appSKey.None? && up.invalidated == []
            else up.appSKey == key && up.invalidated == e.invalidated
  {
  }

  /** The nacked downlink as it is passed on: decrypted and with its nack counted, unless payload
      cryptography is skipped, or its session or key is not available. */
  function NackUpstream(cfg: Config, dev: Device, e: Event, peers: Peers, at: nat): Downlink
    requires e.Nack?
  {
    if SkipPayloadCrypto(cfg.crypto, SkipFlag(cfg, dev), dev.session) then e.msg
    else
      match MatchSession(dev, e.addr, e.msg.sessionKeyId, peers, at)
      case None => e.msg
      case Some(matched) =>
        match DecryptDownlink(cfg.crypto, KeyRing(matched.session, matched.pending, None), e.msg)
        case None => e.msg
        case Some(msg) => msg.(confirmedRetry := Some(Counted(msg.confirmedRetry)))
  }

  // Persistence: what a handler changed is what the registry stores.

  /** Writing the masked fields stores the whole updated device. */
  ghost predicate Covers(stored: Device, updated: Device, mask: set<Field>) {
    WriteBack(stored, updated, mask) == updated
  }

  lemma {:induction false} AttemptCovers(stored: Device, cfg: Config, dev: Device, base: set<Field>, mask: set<Field>,
      items: seq<Downlink>, skip: seq<Bytes>, peers: Peers, at: nat, attempt: nat, encrypted: seq<Downlink>)
    requires 1 <= attempt <= MAX_ATTEMPTS
    requires Covers(stored, dev, base + mask)
    ensures var o := Attempt(cfg, dev, mask, items, skip, peers, at, attempt, encrypted);
            o.device.Some? ==> Covers(stored, o.device.value, base + o.mask)
    decreases MAX_ATTEMPTS - attempt
  {
    hide AttemptOnce, Covers, Retry;
    if (Eligible(dev.session, skip) || Eligible(dev.pending, skip)) && AttemptOnce(cfg, dev, items, skip).Some? {
      var (e, dev') := AttemptOnce(cfg, dev, items, skip).value;
      if peers.answers(at).Accepted? {
        AdvanceCovers(stored, cfg, dev, base, mask, items, skip);
      } else {
        var retry := Retry(cfg, dev', peers.answers(at), peers, at, attempt);
        if retry.Some? {
          AdvanceCovers(stored, cfg, dev, base, mask, items, skip);
          RebuildCovers(stored, cfg, dev', base + (mask + CounterFields(dev, skip)), base, peers, at, attempt);
          AttemptCovers(stored, cfg, retry.value, base, SESSION_FIELDS, items, skip, peers, at + 1, attempt + 1, e.current + e.pending);
        }
      }
    }
  }

  /** A rebuild, which leaves attempts over, touches no more than the session fields. */
  lemma RebuildCovers(stored: Device, cfg: Config, dev: Device, mask: set<Field>, base: set<Field>, peers: Peers,
      at: nat, attempt: nat)
    requires Covers(stored, dev, mask) && Retry(cfg, dev, peers.answers(at), peers, at, attempt).Some?
    ensures attempt < MAX_ATTEMPTS
    ensures Covers(stored, Retry(cfg, dev, peers.answers(at), peers, at, attempt).value, base + SESSION_FIELDS)
  {
  }

  lemma AdvanceCovers(stored: Device, cfg: Config, dev: Device, base: set<Field>, mask: set<Field>,
      items: seq<Downlink>, skip: seq<Bytes>)
    requires Covers(stored, dev, base + mask) && AttemptOnce(cfg, dev, items, skip).Some?
    ensures Covers(stored, AttemptOnce(cfg, dev, items, skip).value.1, base + (mask + CounterFields(dev, skip)))
  {
  }

  lemma QueueOpCovers(stored: Device, cfg: Config, dev: Device, base: set<Field>, items: seq<Downlink>,
      skip: seq<Bytes>, peers: Peers, at: nat)
    requires Covers(stored, dev, base)
    ensures var o := QueueOp(cfg, dev, items, skip, peers, at);
            o.device.Some? ==> Covers(stored, o.device.value, base + o.mask)
  {
    if !exists d | d in items :: d.fPort == 0 {
      assert base + {} == base;
      AttemptCovers(stored, cfg, dev, base, {}, items, skip, peers, at, 1, []);
    }
  }

  /** A nack that is not retried, although it made the device switch to another session. */
  ghost predicate DropsMatch(cfg: Config, dev: Device, e: Event, peers: Peers, at: nat) {
    && e.Nack?
    && !SkipPayloadCrypto(cfg.crypto, SkipFlag(cfg, dev), dev.session)
    && NextRetry(cfg, e.msg.confirmedRetry).None?
    && MatchKind(dev, e.msg.sessionKeyId) != AlreadyCurrent
  }

  /** Whenever a handler succeeds, the registry stores exactly the device the handler ended up with,
      except for a nack that is dropped after a session match: there the match is lost. */
  lemma PersistenceSound(cfg: Config, dev: Device, e: Event, peers: Peers, at: nat)
    requires Handle(cfg, dev, e, peers, at).device.Some?
    ensures Commit(dev, Handle(cfg, dev, e, peers, at)) == Handle(cfg, dev, e, peers, at).device.value <==>
            !DropsMatch(cfg, dev, e, peers, at)
  {
    match e
    case Push(items) =>
      QueueOpCovers(dev, cfg, dev, {}, InitAllRetries(cfg, items).value, [], peers, at);
      var o := QueueOp(cfg, dev, InitAllRetries(cfg, items).value, [], peers, at);
      assert {} + o.mask == o.mask;
    case JoinAccept(_, _, _, _) => JoinAcceptPersists(cfg, dev, e, peers, at);
    case Uplink(_, _) =>
    case QueueInvalidated(_, _, _, _) => QueueInvalidatedPersists(cfg, dev, e, peers, at);
    case Nack(_, _) => NackPersists(cfg, dev, e, peers, at);
  }

  lemma JoinAcceptPersists(cfg: Config, dev: Device, e: Event, peers: Peers, at: nat)
    requires e.JoinAccept? && HandleJoinAccept(cfg, dev, e, peers, at).device.Some?
    ensures var h := HandleJoinAccept(cfg, dev, e, peers, at); Covers(dev, h.device.value, h.mask)
  {
    var joined := Joined(dev, e, peers, at);
    var items := DecryptQueue(cfg.crypto, KeyRing(joined.session, joined.pending, dev.pending), e.invalidated);
    if items != [] {
      QueueOpCovers(dev, cfg, joined, {PendingField}, items, [items[0].sessionKeyId], peers, at);
    }
  }

  lemma QueueInvalidatedPersists(cfg: Config, dev: Device, e: Event, peers: Peers, at: nat)
    requires e.QueueInvalidated? && HandleQueueInvalidated(cfg, dev, e, peers, at).device.Some?
    ensures var h := HandleQueueInvalidated(cfg, dev, e, peers, at); Covers(dev, h.device.value, h.mask)
  {
    if !SkipPayloadCrypto(cfg.crypto, SkipFlag(cfg, dev), dev.session) {
      var reset := SetCounter(MatchSession(dev, e.addr, e.keyId, peers, at).value, e.lastFCntDown);
      var mask := {SessionCounter} + MatchMask(MatchKind(dev, e.keyId));
      var items := DecryptQueue(cfg.crypto, KeyRing(reset.session, reset.pending, None), e.downlinks);
      assert Covers(dev, reset, mask);
      QueueOpCovers(dev, cfg, reset, mask, items, [], peers, at);
    }
  }

  lemma NackPersists(cfg: Config, dev: Device, e: Event, peers: Peers, at: nat)
    requires e.Nack? && HandleNack(cfg, dev, e, peers, at).device.Some?
    ensures var h := HandleNack(cfg, dev, e, peers, at);
            Covers(dev, h.device.value, h.mask) <==> !DropsMatch(cfg, dev, e, peers, at)
  {
    if !SkipPayloadCrypto(cfg.crypto, SkipFlag(cfg, dev), dev.session) {
      var matched := MatchSession(dev, e.addr, e.msg.sessionKeyId, peers, at).value;
      var msg := DecryptDownlink(cfg.crypto, KeyRing(matched.session, matched.pending, None), e.msg).value;
      var retry := NextRetry(cfg, msg.confirmedRetry);
      if retry.Some? {
        QueueOpCovers(dev, cfg, matched, MatchMask(MatchKind(dev, e.msg.sessionKeyId)), [msg.(confirmedRetry := retry)], [], peers, at);
      }
    }
  }

  /** A nack for the pending session whose retries are used up: the device switches to that session,
      but the registry keeps the old one. */
  lemma DroppedNackLosesMatch(cfg: Config, dev: Device, e: Event, peers: Peers, at: nat)
    requires e.Nack? && dev.session.Some? && dev.pending.Some?
    requires dev.session.value.keyId == [1] && dev.pending.value.keyId == [2] && e.msg.sessionKeyId == [2]
    requires AppSKey(cfg.crypto, dev.session.value).Some? && AppSKey(cfg.crypto, dev.pending.value).Some?
    requires e.msg.confirmedRetry == Some(ConfirmedRetry(1, Some(1)))
    ensures var h := HandleNack(cfg, dev, e, peers, at);
            && h.device.Some? && h.device.value.session == dev.pending && h.device.value.pending == None
            && Commit(dev, h) == dev
  {
    hide PushItems;
    assert dev.session.value.keyId[0] != e.msg.sessionKeyId[0];
    var matched := MatchSession(dev, e.addr, e.msg.sessionKeyId, peers, at).value;
    assert matched.session == dev.pending && matched.pending == None;
    assert NextRetry(cfg, e.msg.confirmedRetry).None?;
    assert DecryptDownlink(cfg.crypto, KeyRing(matched.session, matched.pending, None), e.msg).Some?;
  }
}
