/** When sessions change, the queue that the Network Server hands back is decrypted and encrypted
    anew. Key, address and frame counters change; the application's payloads do not. */
module QueueRecalculation {
  import opened Wrappers
  import opened Payload
  import opened DownlinkQueue
  import opened Handlers

  ghost predicate Decrypts(crypto: Crypto, ring: KeyRing, queue: seq<Downlink>, i: nat) {
    i < |queue| && DecryptDownlink(crypto, ring, queue[i]).Some?
  }

  /** The positions of a queue that decrypt, in order. */
  ghost function Kept(crypto: Crypto, ring: KeyRing, queue: seq<Downlink>): seq<nat> {
    if queue == [] then []
    else
      Kept(crypto, ring, queue[..|queue| - 1]) +
      (if Decrypts(crypto, ring, queue, |queue| - 1) then [|queue| - 1] else [])
  }

  lemma {:induction false} KeptPositions(crypto: Crypto, ring: KeyRing, queue: seq<Downlink>)
    ensures forall i: nat :: i in Kept(crypto, ring, queue) <==> Decrypts(crypto, ring, queue, i)
    ensures forall k, l | 0 <= k < l < |Kept(crypto, ring, queue)| :: Kept(crypto, ring, queue)[k] < Kept(crypto, ring, queue)[l]
  {
    if queue != [] {
      var init := queue[..|queue| - 1];
      KeptPositions(crypto, ring, init);
      assert forall i: nat | i < |init| :: Decrypts(crypto, ring, init, i) <==> Decrypts(crypto, ring, queue, i);
      forall k | 0 <= k < |Kept(crypto, ring, init)|
        ensures Kept(crypto, ring, init)[k] < |init|
      {
        assert Kept(crypto, ring, init)[k] in Kept(crypto, ring, init);
      }
    }
  }

  /** The items are the decryptions of the queue at the given positions. */
  ghost predicate DecryptionsAt(crypto: Crypto, ring: KeyRing, queue: seq<Downlink>, idx: seq<nat>,
      items: seq<Downlink>) {
    && |items| == |idx|
    && forall k | 0 <= k < |idx| :: idx[k] < |queue| && DecryptDownlink(crypto, ring, queue[idx[k]]) == Some(items[k])
  }

  lemma {:induction false} DecryptQueueSelects(crypto: Crypto, ring: KeyRing, queue: seq<Downlink>)
    ensures DecryptionsAt(crypto, ring, queue, Kept(crypto, ring, queue), DecryptQueue(crypto, ring, queue))
  {
    if queue != [] {
      DecryptQueueSelects(crypto, ring, queue[..|queue| - 1]);
    }
  }

  /** A queue that this server encrypted for a known session decrypts completely to the original items. */
  lemma {:induction false} DecryptQueueRestores(crypto: Crypto, ring: KeyRing, s: Session, items: seq<Downlink>,
      queue: seq<Downlink>)
    requires Carries(crypto, s, items, queue)
    requires var o := OwningSession(ring, s.keyId); o.Some? && o.value.appSKey == s.appSKey && o.value.devAddr == s.devAddr
    ensures var r := DecryptQueue(crypto, ring, queue);
            |r| == |items| && forall j | 0 <= j < |items| ::
              r[j] == items[j].(sessionKeyId := s.keyId, fCnt := queue[j].fCnt, decodedPayload := None)
  {
    if queue != [] {
      var n := |queue| - 1;
      DecryptQueueRestores(crypto, ring, s, items[..n], queue[..n]);
      var key := AppSKey(crypto, s).value;
      DecryptCarried(crypto, key, s, (s.lastAFCntDown + 1 + n) % UINT32, items[n], queue[n]);
    }
  }

  /** Position by position, the pushed downlinks carry under the session they are pushed to, with its next
      frame counters, what the old queue decrypts to with the old keys, leaving out what does not decrypt. */
  ghost predicate Recalculated(crypto: Crypto, s: Session, pushed: seq<Downlink>, ring: KeyRing, queue: seq<Downlink>) {
    var idx := Kept(crypto, ring, queue);
    && AppSKey(crypto, s).Some?
    && |pushed| == |idx|
    && forall k | 0 <= k < |idx| ::
         && Decrypts(crypto, ring, queue, idx[k])
         && CarriesItem(crypto, AppSKey(crypto, s).value, s, (s.lastAFCntDown + 1 + k) % UINT32,
                        DecryptDownlink(crypto, ring, queue[idx[k]]).value, pushed[k])
  }

  ghost predicate SegmentRecalculated(crypto: Crypto, s: Option<Session>, skip: seq<Bytes>, pushed: seq<Downlink>,
      ring: KeyRing, queue: seq<Downlink>) {
    if Eligible(s, skip) then Recalculated(crypto, s.value, pushed, ring, queue) else pushed == []
  }

  ghost predicate ExchangeRecalculated(crypto: Crypto, skip: seq<Bytes>, x: Exchange, ring: KeyRing,
      queue: seq<Downlink>) {
    && SegmentRecalculated(crypto, x.before.session, skip, x.current, ring, queue)
    && SegmentRecalculated(crypto, x.before.pending, skip, x.pending, ring, queue)
  }

  lemma CarriedIsRecalculated(crypto: Crypto, s: Session, pushed: seq<Downlink>, ring: KeyRing, queue: seq<Downlink>)
    requires DecryptQueue(crypto, ring, queue) != []
    requires Carries(crypto, s, DecryptQueue(crypto, ring, queue), pushed)
    ensures Recalculated(crypto, s, pushed, ring, queue)
  {
    var items, idx := DecryptQueue(crypto, ring, queue), Kept(crypto, ring, queue);
    DecryptQueueSelects(crypto, ring, queue);
    forall k | 0 <= k < |idx|
      ensures Decrypts(crypto, ring, queue, idx[k])
      ensures CarriesItem(crypto, AppSKey(crypto, s).value, s, (s.lastAFCntDown + 1 + k) % UINT32,
                          DecryptDownlink(crypto, ring, queue[idx[k]]).value, pushed[k])
    {
      assert DecryptDownlink(crypto, ring, queue[idx[k]]) == Some(items[k]);
    }
  }

  /** All that is pushed of the queue carries its content, and unless nothing is left of it the handler
      succeeds exactly if the Network Server accepts its last request. */
  ghost predicate Pushed(cfg: Config, h: Handled, skip: seq<Bytes>, ring: KeyRing, queue: seq<Downlink>, peers: Peers,
      at: nat) {
    && (forall x | x in h.exchanges :: ExchangeRecalculated(cfg.crypto, skip, x, ring, queue))
    && if Kept(cfg.crypto, ring, queue) == [] then h.device.Some? && h.exchanges == []
       else h.device.Some? <==> h.exchanges != [] && peers.answers(at + |h.exchanges| - 1).Accepted?
  }

  lemma RecalculationPreservesContent(cfg: Config, dev: Device, skip: seq<Bytes>, mask: set<Field>, peers: Peers,
      at: nat, ring: KeyRing, queue: seq<Downlink>)
    requires Encrypts(cfg, dev, skip)
    ensures Pushed(cfg, PushItems(cfg, dev, DecryptQueue(cfg.crypto, ring, queue), skip, mask, peers, at), skip, ring, queue, peers, at)
  {
    hide QueueOp, DecryptQueue, ExchangeCarries, ExchangeRecalculated, Encrypts, Kept;
    var items := DecryptQueue(cfg.crypto, ring, queue);
    DecryptQueueSelects(cfg.crypto, ring, queue);
    if items != [] {
      QueueOpRequests(cfg, dev, items, skip, peers, at);
      forall x | x in QueueOp(cfg, dev, items, skip, peers, at).exchanges
        ensures ExchangeRecalculated(cfg.crypto, skip, x, ring, queue)
      {
        assert ExchangeCarries(cfg, skip, items, x);
        ExchangeIsRecalculated(cfg, skip, x, ring, queue);
      }
    }
  }

  lemma ExchangeIsRecalculated(cfg: Config, skip: seq<Bytes>, x: Exchange, ring: KeyRing, queue: seq<Downlink>)
    requires DecryptQueue(cfg.crypto, ring, queue) != []
    requires ExchangeCarries(cfg, skip, DecryptQueue(cfg.crypto, ring, queue), x)
    ensures ExchangeRecalculated(cfg.crypto, skip, x, ring, queue)
  {
    if Eligible(x.before.session, skip) {
      CarriedIsRecalculated(cfg.crypto, x.before.session.value, x.current, ring, queue);
    }
    if Eligible(x.before.pending, skip) {
      CarriedIsRecalculated(cfg.crypto, x.before.pending.value, x.pending, ring, queue);
    }
  }

  /** On a join-accept, all that the old queue held for a known session is pushed to the sessions other
      than the one it comes from, unless payload cryptography is skipped for one of the sessions. */
  lemma JoinAcceptPreservesQueue(cfg: Config, dev: Device, e: Event, peers: Peers, at: nat)
    requires e.JoinAccept? && JoinKey(e, peers, at).Fetched? && Encrypts(cfg, Joined(dev, e, peers, at), [])
    ensures var joined := Session(e.addr, e.keyId, JoinKey(e, peers, at).appSKey, 0);
            var ring := KeyRing(dev.session, Some(joined), dev.pending);
            var origin := Origin(DecryptQueue(cfg.crypto, ring, e.invalidated));
            Pushed(cfg, HandleJoinAccept(cfg, dev, e, peers, at), origin, ring, e.invalidated, peers, at)
  {
    var joined := Joined(dev, e, peers, at);
    var ring := KeyRing(joined.session, joined.pending, dev.pending);
    var items := DecryptQueue(cfg.crypto, ring, e.invalidated);
    RecalculationPreservesContent(cfg, joined, Origin(items), {PendingField}, peers, at, ring, e.invalidated);
  }

  /** On a queue invalidation, all that the old queue held for the matched sessions is pushed again,
      unless payload cryptography is skipped for one of the sessions. */
  lemma InvalidationPreservesQueue(cfg: Config, dev: Device, e: Event, peers: Peers, at: nat)
    requires e.QueueInvalidated? && !SkipPayloadCrypto(cfg.crypto, SkipFlag(cfg, dev), dev.session)
    requires MatchSession(dev, e.addr, e.keyId, peers, at).Some?
    requires Encrypts(cfg, MatchSession(dev, e.addr, e.keyId, peers, at).value, [])
    ensures var matched := MatchSession(dev, e.addr, e.keyId, peers, at).value;
            var ring := KeyRing(matched.session, matched.pending, None);
            Pushed(cfg, HandleQueueInvalidated(cfg, dev, e, peers, at), [], ring, e.downlinks, peers, at)
  {
    var matched := MatchSession(dev, e.addr, e.keyId, peers, at).value;
    var reset := SetCounter(matched, e.lastFCntDown);
    var ring := KeyRing(matched.session, matched.pending, None);
    CounterIrrelevant(cfg.crypto, ring, e.lastFCntDown, e.downlinks);
    RecalculationPreservesContent(cfg, reset, [], {SessionCounter} + MatchMask(MatchKind(dev, e.keyId)), peers, at, ring, e.downlinks);
  }

  /** Decryption does not depend on a session's frame counter. */
  lemma {:induction false} CounterIrrelevant(crypto: Crypto, ring: KeyRing, last: Counter, queue: seq<Downlink>)
    requires ring.session.Some?
    ensures DecryptQueue(crypto, ring.(session := Some(ring.session.value.(lastAFCntDown := last))), queue) == DecryptQueue(crypto, ring, queue)
  {
    if queue != [] {
      CounterIrrelevant(crypto, ring, last, queue[..|queue| - 1]);
    }
  }
}
