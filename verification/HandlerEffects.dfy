/** What each handler does to the device and what it sends, stated without the functions that specify the
    handlers: from the event, the stored device and the answers of the peers alone. */
module HandlerEffects {
  import opened Wrappers
  import opened Payload
  import opened DownlinkQueue
  import opened Handlers
  import opened QueueRecalculation

  // Session matching.

  /** After a match the current session is the one with the given key ID. A current session is kept; a pending
      one becomes current with all its fields; otherwise the session is a new one with the key that the Join
      Server gives, the given address, which becomes the device's, and counter 0. Unless the current session
      is kept, there is no pending one any more. */
  ghost predicate Matched(before: Device, after: Device, addr: Option<Addr>, keyId: Bytes, peers: Peers, at: nat) {
    && Owns(after.session, keyId)
    && after.skipOverride == before.skipOverride
    && if Owns(before.session, keyId) then after == before
       else
         && after.pending.None?
         && if Owns(before.pending, keyId) then after.session == before.pending && after.devAddr == before.devAddr
            else
              && after.devAddr == after.session.value.devAddr == addr
              && after.session.value.lastAFCntDown == 0
              && peers.keys(keyId, 2 * at) == Fetched(after.session.value.appSKey)
  }

  lemma MatchEffect(dev: Device, addr: Option<Addr>, keyId: Bytes, peers: Peers, at: nat, after: Device)
    ensures MatchSession(dev, addr, keyId, peers, at) == Some(after) <==> Matched(dev, after, addr, keyId, peers, at)
  {
  }

  /** An uplink stores the matched device, and fails exactly if there is none or its session has no key. */
  lemma UplinkEffect(dev: Device, e: Event, peers: Peers, at: nat, after: Device)
    requires e.Uplink?
    ensures var h := HandleUplink(dev, e, peers, at);
            && h.exchanges == []
            && (h.device == Some(after) <==> Matched(dev, after, e.addr, e.keyId, peers, at) && after.session.value.appSKey.Some?)
            && (h.device == Some(after) ==> Commit(dev, h) == after)
  {
    MatchEffect(dev, e.addr, e.keyId, peers, at, after);
  }

  // Pushing.

  ghost function OutcomeOf(h: Handled): Outcome {
    var n := |h.exchanges|;
    Outcome(h.device, {}, h.exchanges, if n == 0 then [] else h.exchanges[n - 1].current + h.exchanges[n - 1].pending)
  }

  /** The handler pushes the items from the given device on, and succeeds with what comes of it. */
  ghost predicate Pushes(cfg: Config, dev: Device, items: seq<Downlink>, skip: seq<Bytes>, peers: Peers, at: nat, h: Handled) {
    if AllHavePort(items) then Faithful(cfg, dev, items, skip, peers, at, 50, OutcomeOf(h))
    else h.device.None? && h.exchanges == []
  }

  /** The handler ends with the given device and sends nothing. */
  ghost predicate EndsWith(dev: Device, h: Handled) {
    h.device == Some(dev) && h.exchanges == []
  }

  ghost predicate Fails(h: Handled) {
    h.device.None? && h.exchanges == []
  }

  lemma QueueOpPushes(cfg: Config, dev: Device, items: seq<Downlink>, skip: seq<Bytes>, peers: Peers, at: nat,
      h: Handled)
    requires Encrypts(cfg, dev, skip)
    requires var o := QueueOp(cfg, dev, items, skip, peers, at); h.device == o.device && h.exchanges == o.exchanges
    ensures Pushes(cfg, dev, items, skip, peers, at, h)
  {
    hide QueueOp, ExchangeCarries, FollowsRejection, CanSend, NothingToTry, AdvancedDevice;
    QueueOpRequests(cfg, dev, items, skip, peers, at);
  }

  // Pushes of the application.

  ghost predicate AsksTooMuch(cfg: Config, item: Downlink) {
    item.confirmed && item.confirmedRetry.Some? && item.confirmedRetry.value.maxAttempts.Some? &&
    item.confirmedRetry.value.maxAttempts.value > cfg.maxRetries
  }

  /** The item as it is pushed: a confirmed one without a retry record is in its first attempt. */
  ghost predicate Prepared(item: Downlink, d: Downlink) {
    d == if item.confirmed && item.confirmedRetry.None? then item.(confirmedRetry := Some(ConfirmedRetry(1, None))) else item
  }

  ghost predicate AllPrepared(items: seq<Downlink>, ds: seq<Downlink>) {
    |ds| == |items| && forall j | 0 <= j < |items| :: Prepared(items[j], ds[j])
  }

  /** All items of the application are pushed as they are, up to the first attempt of confirmed ones; if one
      of them asks for more retries than are allowed, nothing is. */
  lemma PushEffect(cfg: Config, dev: Device, items: seq<Downlink>, peers: Peers, at: nat, prepared: seq<Downlink>)
    requires Encrypts(cfg, dev, []) && AllPrepared(items, prepared)
    ensures var h := HandlePush(cfg, dev, items, peers, at);
            if exists item | item in items :: AsksTooMuch(cfg, item) then Fails(h)
            else Pushes(cfg, dev, prepared, [], peers, at, h)
  {
    hide QueueOp, Encrypts, Faithful;
    InitAllExact(cfg, items, prepared);
    if !exists item | item in items :: AsksTooMuch(cfg, item) {
      QueueOpPushes(cfg, dev, prepared, [], peers, at, HandlePush(cfg, dev, items, peers, at));
    }
  }

  lemma {:induction false} InitAllExact(cfg: Config, items: seq<Downlink>, prepared: seq<Downlink>)
    requires AllPrepared(items, prepared)
    ensures InitAllRetries(cfg, items) == if exists item | item in items :: AsksTooMuch(cfg, item) then None else Some(prepared)
  {
    if items != [] {
      var n := |items| - 1;
      InitAllExact(cfg, items[..n], prepared[..n]);
      assert items == items[..n] + [items[n]] && prepared == prepared[..n] + [prepared[n]];
      assert Prepared(items[n], prepared[n]);
      assert InitRetries(cfg, items[n]) == if AsksTooMuch(cfg, items[n]) then None else Some(prepared[n]);
      assert items[n] in items;
      assert forall item | item in items[..n] :: item in items;
    }
  }

  // Join-accepts.

  /** The device with the accepted session pending. */
  ghost predicate AcceptsSession(dev: Device, e: Event, peers: Peers, at: nat, after: Device)
    requires e.JoinAccept?
  {
    && Owns(after.pending, e.keyId)
    && after.pending.value.devAddr == e.addr && after.pending.value.lastAFCntDown == 0
    && (if e.appSKey.Some? then after.pending.value.appSKey == e.appSKey
        else peers.keys(e.keyId, 2 * at) == Fetched(after.pending.value.appSKey))
    && after == dev.(pending := after.pending)
  }

  /** The key ID of the session that the queue comes from: that of the first downlink that can be kept. */
  ghost function OriginOf(crypto: Crypto, ring: KeyRing, queue: seq<Downlink>): Bytes
    requires Kept(crypto, ring, queue) != []
  {
    KeptPositions(crypto, ring, queue);
    assert Kept(crypto, ring, queue)[0] in Kept(crypto, ring, queue);
    queue[Kept(crypto, ring, queue)[0]].sessionKeyId
  }

  lemma OriginIs(crypto: Crypto, ring: KeyRing, queue: seq<Downlink>)
    requires Kept(crypto, ring, queue) != []
    ensures Origin(DecryptQueue(crypto, ring, queue)) == [OriginOf(crypto, ring, queue)]
  {
    DecryptQueueSelects(crypto, ring, queue);
    var i := Kept(crypto, ring, queue)[0];
    assert DecryptDownlink(crypto, ring, queue[i]) == Some(DecryptQueue(crypto, ring, queue)[0]);
    DecryptedUnderOwner(crypto, ring, queue[i]);
  }

  /** No downlink goes to a session with the given key ID. */
  ghost predicate LeavesOut(keyId: Bytes, h: Handled) {
    forall x | x in h.exchanges ::
      (Owns(x.before.session, keyId) ==> x.current == []) && (Owns(x.before.pending, keyId) ==> x.pending == [])
  }

  lemma FaithfulLeavesOut(cfg: Config, dev: Device, items: seq<Downlink>, keyId: Bytes, peers: Peers, at: nat, h: Handled)
    requires Pushes(cfg, dev, items, [keyId], peers, at, h)
    ensures LeavesOut(keyId, h)
  {
    forall x | x in h.exchanges
      ensures (Owns(x.before.session, keyId) ==> x.current == []) && (Owns(x.before.pending, keyId) ==> x.pending == [])
    {
      assert ExchangeCarries(cfg, [keyId], items, x);
    }
  }

  /** A join-accept makes the accepted session the pending one. What is kept of the old queue, decrypted also
      with the previous pending session, is pushed to the sessions other than the one it comes from. */
  lemma JoinAcceptEffect(cfg: Config, dev: Device, e: Event, peers: Peers, at: nat, joined: Device)
    requires e.JoinAccept? && AcceptsSession(dev, e, peers, at, joined) && Encrypts(cfg, joined, [])
    ensures var h := HandleJoinAccept(cfg, dev, e, peers, at);
            var ring := KeyRing(dev.session, joined.pending, dev.pending);
            if Kept(cfg.crypto, ring, e.invalidated) == [] then EndsWith(joined, h)
            else
              var origin := OriginOf(cfg.crypto, ring, e.invalidated);
              && Pushes(cfg, joined, DecryptQueue(cfg.crypto, ring, e.invalidated), [origin], peers, at, h)
              && LeavesOut(origin, h)
  {
    hide QueueOp, DecryptQueue, Kept, OriginOf, Origin, Faithful;
    var h, ring := HandleJoinAccept(cfg, dev, e, peers, at), KeyRing(dev.session, joined.pending, dev.pending);
    assert joined == Joined(dev, e, peers, at);
    DecryptQueueSelects(cfg.crypto, ring, e.invalidated);
    if Kept(cfg.crypto, ring, e.invalidated) != [] {
      var origin := OriginOf(cfg.crypto, ring, e.invalidated);
      OriginIs(cfg.crypto, ring, e.invalidated);
      QueueOpPushes(cfg, joined, DecryptQueue(cfg.crypto, ring, e.invalidated), [origin], peers, at, h);
      FaithfulLeavesOut(cfg, joined, DecryptQueue(cfg.crypto, ring, e.invalidated), origin, peers, at, h);
    }
  }

  /** A join-accept fails without a key for the session, and with payload cryptography skipped for it does no
      more than to make it the pending one. */
  lemma JoinAcceptWithoutPush(cfg: Config, dev: Device, e: Event, peers: Peers, at: nat)
    requires e.JoinAccept?
    ensures var h := HandleJoinAccept(cfg, dev, e, peers, at);
            && (e.appSKey.None? && peers.keys(e.keyId, 2 * at).Unavailable? ==> Fails(h))
            && forall joined | AcceptsSession(dev, e, peers, at, joined) && SkipPayloadCrypto(cfg.crypto, SkipFlag(cfg, dev), joined.pending) ::
                 EndsWith(joined, h)
  {
    forall joined | AcceptsSession(dev, e, peers, at, joined) && SkipPayloadCrypto(cfg.crypto, SkipFlag(cfg, dev), joined.pending)
      ensures EndsWith(joined, HandleJoinAccept(cfg, dev, e, peers, at))
    {
      assert joined == Joined(dev, e, peers, at);
    }
  }

  // Queue invalidations.

  /** The device with the reported counter in its current session. */
  ghost predicate TakesCounter(before: Device, after: Device, last: Counter) {
    && before.session.Some? && after.session.Some?
    && after.session.value.lastAFCntDown == last
    && after.session.value == before.session.value.(lastAFCntDown := after.session.value.lastAFCntDown)
    && after == before.(session := after.session)
  }

  /** The first request after an invalidation goes on from the reported counter. */
  ghost predicate GoesOnFrom(last: Counter, h: Handled) {
    h.exchanges != [] ==>
      && h.exchanges[0].before.session.Some? && h.exchanges[0].before.session.value.lastAFCntDown == last
      && forall j | 0 <= j < |h.exchanges[0].current| :: h.exchanges[0].current[j].fCnt == (last + 1 + j) % UINT32
  }

  /** An invalidation sets the counter of the matched session to the reported one, and pushes what is kept of
      the queue from there on. */
  lemma InvalidationEffect(cfg: Config, dev: Device, e: Event, peers: Peers, at: nat, matched: Device, reset: Device)
    requires e.QueueInvalidated? && !SkipPayloadCrypto(cfg.crypto, SkipFlag(cfg, dev), dev.session)
    requires Matched(dev, matched, e.addr, e.keyId, peers, at) && TakesCounter(matched, reset, e.lastFCntDown)
    requires Encrypts(cfg, reset, [])
    ensures var h := HandleQueueInvalidated(cfg, dev, e, peers, at);
            var ring := KeyRing(matched.session, matched.pending, None);
            && (if Kept(cfg.crypto, ring, e.downlinks) == [] then EndsWith(reset, h)
                else Pushes(cfg, reset, DecryptQueue(cfg.crypto, ring, e.downlinks), [], peers, at, h))
            && GoesOnFrom(e.lastFCntDown, h)
  {
    hide QueueOp, DecryptQueue, Kept, Faithful, Encrypts, GoesOnFrom;
    var h, ring := HandleQueueInvalidated(cfg, dev, e, peers, at), KeyRing(matched.session, matched.pending, None);
    MatchEffect(dev, e.addr, e.keyId, peers, at, matched);
    CounterIrrelevant(cfg.crypto, ring, e.lastFCntDown, e.downlinks);
    assert reset == SetCounter(matched, e.lastFCntDown);
    DecryptQueueSelects(cfg.crypto, ring, e.downlinks);
    if Kept(cfg.crypto, ring, e.downlinks) != [] {
      QueueOpPushes(cfg, reset, DecryptQueue(cfg.crypto, ring, e.downlinks), [], peers, at, h);
      FirstGoesOn(cfg, reset, DecryptQueue(cfg.crypto, ring, e.downlinks), peers, at, h);
    } else {
      NothingSent(e.lastFCntDown, h);
    }
  }

  lemma NothingSent(last: Counter, h: Handled)
    requires h.exchanges == []
    ensures GoesOnFrom(last, h)
  {
  }

  lemma FirstGoesOn(cfg: Config, dev: Device, items: seq<Downlink>, peers: Peers, at: nat, h: Handled)
    requires dev.session.Some? && Pushes(cfg, dev, items, [], peers, at, h)
    ensures GoesOnFrom(dev.session.value.lastAFCntDown, h)
  {
    hide FollowsRejection, NothingToTry, CanSend, Ciphers, AdvancedDevice, AllHavePort;
    if h.exchanges != [] {
      var x, s := h.exchanges[0], dev.session.value;
      assert ExchangeCarries(cfg, [], items, x);
      forall j | 0 <= j < |x.current|
        ensures x.current[j].fCnt == (s.lastAFCntDown + 1 + j) % UINT32
      {
        assert CarriesItem(cfg.crypto, AppSKey(cfg.crypto, s).value, s, (s.lastAFCntDown + 1 + j) % UINT32, items[j], x.current[j]);
      }
    }
  }

  /** Where payload cryptography is skipped, an invalidation only sets the counter; and without a session that
      matches it fails. */
  lemma InvalidationWithoutPush(cfg: Config, dev: Device, e: Event, peers: Peers, at: nat, reset: Device)
    requires e.QueueInvalidated?
    ensures var h := HandleQueueInvalidated(cfg, dev, e, peers, at);
            if SkipPayloadCrypto(cfg.crypto, SkipFlag(cfg, dev), dev.session) then
              TakesCounter(dev, reset, e.lastFCntDown) ==> EndsWith(reset, h)
            else
              (forall matched :: !Matched(dev, matched, e.addr, e.keyId, peers, at)) ==> Fails(h)
  {
    var m := MatchSession(dev, e.addr, e.keyId, peers, at);
    if m.Some? {
      MatchEffect(dev, e.addr, e.keyId, peers, at, m.value);
    }
  }

  // Nacks.

  /** The nacked downlink with the given payload and one more attempt counted, from 0 if none was. */
  ghost predicate CountsNack(msg: Downlink, plain: Bytes, d: Downlink) {
    && d.confirmedRetry.Some?
    && d.confirmedRetry.value.attempt == (if msg.confirmedRetry.Some? then (msg.confirmedRetry.value.attempt + 1) % UINT32 else 1)
    && d.confirmedRetry.value.maxAttempts == (if msg.confirmedRetry.Some? then msg.confirmedRetry.value.maxAttempts else None)
    && d == msg.(frmPayload := plain, confirmedRetry := d.confirmedRetry)
  }

  ghost predicate UsedUp(cfg: Config, r: ConfirmedRetry) {
    r.attempt > if r.maxAttempts.Some? then r.maxAttempts.value else cfg.defaultRetries
  }

  /** The payload of a nacked downlink is deciphered with the key of the matched session. That payload is
      what goes upstream, and what is pushed again unless the retries are used up. */
  lemma NackEffect(cfg: Config, dev: Device, e: Event, peers: Peers, at: nat, matched: Device, plain: Bytes, d: Downlink)
    requires e.Nack? && !SkipPayloadCrypto(cfg.crypto, SkipFlag(cfg, dev), dev.session)
    requires Matched(dev, matched, e.addr, e.msg.sessionKeyId, peers, at) && AppSKey(cfg.crypto, matched.session.value).Some?
    requires var s := matched.session.value;
             Ciphers(cfg.crypto, AppSKey(cfg.crypto, s).value, OrZero(s.devAddr), e.msg.fCnt, plain, e.msg.frmPayload)
    requires CountsNack(e.msg, plain, d) && Encrypts(cfg, matched, [])
    ensures var h := HandleNack(cfg, dev, e, peers, at);
            && NackUpstream(cfg, dev, e, peers, at) == d
            && if UsedUp(cfg, d.confirmedRetry.value) then EndsWith(matched, h) else Pushes(cfg, matched, [d], [], peers, at, h)
  {
    hide QueueOp, Faithful, Encrypts;
    var s := matched.session.value;
    MatchEffect(dev, e.addr, e.msg.sessionKeyId, peers, at, matched);
    CipherExact(cfg.crypto, AppSKey(cfg.crypto, s).value, OrZero(s.devAddr), e.msg.fCnt, plain, e.msg.frmPayload);
    var ring := KeyRing(matched.session, matched.pending, None);
    assert DecryptDownlink(cfg.crypto, ring, e.msg) == Some(e.msg.(frmPayload := plain));
    assert d == e.msg.(frmPayload := plain, confirmedRetry := Some(Counted(e.msg.confirmedRetry)));
    if !UsedUp(cfg, d.confirmedRetry.value) {
      QueueOpPushes(cfg, matched, [d], [], peers, at, HandleNack(cfg, dev, e, peers, at));
    }
  }

  /** A nack of a downlink that carries an item under the matched session: every request carries that item again, with
      the next retry record, once per session, and the message that goes upstream has the item's payload. */
  lemma NackCarriesItem(cfg: Config, dev: Device, e: Event, peers: Peers, at: nat, matched: Device, item: Downlink)
    requires e.Nack? && !SkipPayloadCrypto(cfg.crypto, SkipFlag(cfg, dev), dev.session)
    requires Matched(dev, matched, e.addr, e.msg.sessionKeyId, peers, at) && AppSKey(cfg.crypto, matched.session.value).Some?
    requires var s := matched.session.value; CarriesItem(cfg.crypto, AppSKey(cfg.crypto, s).value, s, e.msg.fCnt, item, e.msg)
    requires Encrypts(cfg, matched, [])
    ensures exists d | CountsNack(e.msg, item.frmPayload, d) ::
              && NackUpstream(cfg, dev, e, peers, at) == d
              && forall x | x in HandleNack(cfg, dev, e, peers, at).exchanges :: ExchangeCarries(cfg, [], [d], x)
  {
    hide HandleNack, NackUpstream, ExchangeCarries, Encrypts, Matched;
    var was := e.msg.confirmedRetry;
    var d := e.msg.(frmPayload := item.frmPayload, confirmedRetry :=
      Some(if was.Some? then was.value.(attempt := (was.value.attempt + 1) % UINT32) else ConfirmedRetry(1, None)));
    NackEffect(cfg, dev, e, peers, at, matched, item.frmPayload, d);
  }

  /** Where payload cryptography is skipped, a nack changes nothing; and without a session that matches, or
      without its key, it fails and the message stays as it is. */
  lemma NackWithoutPush(cfg: Config, dev: Device, e: Event, peers: Peers, at: nat)
    requires e.Nack?
    ensures var h, up := HandleNack(cfg, dev, e, peers, at), NackUpstream(cfg, dev, e, peers, at);
            if SkipPayloadCrypto(cfg.crypto, SkipFlag(cfg, dev), dev.session) then EndsWith(dev, h) && up == e.msg
            else
              (forall matched | Matched(dev, matched, e.addr, e.msg.sessionKeyId, peers, at) :: AppSKey(cfg.crypto, matched.session.value).None?)
              ==> Fails(h) && up == e.msg
  {
    var m := MatchSession(dev, e.addr, e.msg.sessionKeyId, peers, at);
    if m.Some? {
      MatchEffect(dev, e.addr, e.msg.sessionKeyId, peers, at, m.value);
    }
  }
}
