/** Frame counters over whole runs of the Application Server: for each stored session, the frame
    counters of accepted downlinks are consecutive, and so are not used twice between resets. */
module FrameCounters {
  import opened Wrappers
  import opened Payload
  import opened DownlinkQueue
  import opened Handlers

  /** One message handled, with arbitrary peers. */
  datatype Occurrence = Occurrence(event: Event, peers: Peers, at: nat)

  /** The frame counters that the Network Server accepted for the stored current session and for the
      stored pending session, since the counter of that session was last set. */
  datatype History = History(current: seq<Counter>, pending: seq<Counter>)

  datatype RunState = RunState(device: Device, history: History)

  const NoHistory := History([], [])

  ghost function FCnts(downlinks: seq<Downlink>): seq<Counter> {
    seq(|downlinks|, i requires 0 <= i < |downlinks| => downlinks[i].fCnt)
  }

  // Which histories an event sets back. This looks at the event and the number of requests, never at counters.

  /** Switching to the pending session takes its history along; a restored session starts anew. */
  ghost function AfterMatch(h: History, k: Match): History {
    match k
    case AlreadyCurrent => h
    case Switched => History(h.pending, [])
    case Restored => NoHistory
  }

  ghost function BeforePush(dev: Device, h: History, e: Event): History {
    match e
    case Push(_) => h
    case JoinAccept(_, _, _, _) => History(h.current, [])
    case Uplink(_, keyId) => AfterMatch(h, MatchKind(dev, keyId))
    case QueueInvalidated(_, keyId, _, _) => History([], AfterMatch(h, MatchKind(dev, keyId)).pending)
    case Nack(_, msg) => AfterMatch(h, MatchKind(dev, msg.sessionKeyId))
  }

  /** A rebuild sets both counters; the last exchange is the accepted one. */
  ghost function AfterPush(h: History, exchanges: seq<Exchange>): History {
    if exchanges == [] then h
    else
      var base := if |exchanges| > 1 then NoHistory else h;
      var accepted := exchanges[|exchanges| - 1];
      History(base.current + FCnts(accepted.current), base.pending + FCnts(accepted.pending))
  }

  /** A handler that fails stores nothing, and neither does one that drops a nack. */
  ghost function NextHistory(cfg: Config, dev: Device, h: History, o: Occurrence): History {
    var handled := Handle(cfg, dev, o.event, o.peers, o.at);
    if handled.device.None? || DropsMatch(cfg, dev, o.event, o.peers, o.at) then h
    else AfterPush(BeforePush(dev, h, o.event), handled.exchanges)
  }

  ghost function Next(cfg: Config, s: RunState, o: Occurrence): RunState {
    RunState(Commit(s.device, Handle(cfg, s.device, o.event, o.peers, o.at)), NextHistory(cfg, s.device, s.history, o))
  }

  ghost function RunFrom(cfg: Config, s: RunState, run: seq<Occurrence>): RunState {
    if run == [] then s else Next(cfg, RunFrom(cfg, s, run[..|run| - 1]), run[|run| - 1])
  }

  // The invariant.

  /** h counts up to last in steps of one, modulo 2^32. */
  ghost predicate CountsUpTo(h: seq<Counter>, last: Counter) {
    forall i | 0 <= i < |h| :: (h[i] + (|h| - 1 - i)) % UINT32 == last
  }

  ghost predicate Tracks(s: Option<Session>, h: seq<Counter>) {
    match s
    case None => h == []
    case Some(session) => CountsUpTo(h, session.lastAFCntDown)
  }

  ghost predicate Invariant(s: RunState) {
    Tracks(s.device.session, s.history.current) && Tracks(s.device.pending, s.history.pending)
  }

  lemma CountsOn(h: seq<Counter>, last: Counter, more: seq<Counter>)
    requires CountsUpTo(h, last)
    requires forall j | 0 <= j < |more| :: more[j] == (last + 1 + j) % UINT32
    ensures CountsUpTo(h + more, (last + |more|) % UINT32)
  {
    var all, n := h + more, |more|;
    forall i | 0 <= i < |all|
      ensures (all[i] + (|all| - 1 - i)) % UINT32 == (last + n) % UINT32
    {
      if i < |h| {
        ModAdd(h[i] + (|h| - 1 - i), n);
      } else {
        ModAdd(last + 1 + (i - |h|), |all| - 1 - i);
      }
    }
  }

  lemma ModAdd(a: nat, b: nat)
    ensures (a % UINT32 + b) % UINT32 == (a + b) % UINT32
  {
  }

  /** One accepted segment continues the history of its session. */
  lemma SegmentContinues(cfg: Config, s: Option<Session>, h: seq<Counter>, skip: seq<Bytes>, items: seq<Downlink>,
      downlinks: seq<Downlink>)
    requires Tracks(s, h) && SegmentCarries(cfg, s, skip, items, downlinks)
    ensures Tracks(AdvancedBy(s, skip, |items|), h + FCnts(downlinks))
  {
    if Eligible(s, skip) {
      var last := s.value.lastAFCntDown;
      forall j | 0 <= j < |downlinks|
        ensures FCnts(downlinks)[j] == (last + 1 + j) % UINT32
      {
        assert CarriesItem(cfg.crypto, AppSKey(cfg.crypto, s.value).value, s.value, (last + 1 + j) % UINT32, items[j], downlinks[j]);
      }
      CountsOn(h, last, FCnts(downlinks));
    } else {
      assert h + FCnts(downlinks) == h;
    }
  }

  lemma QueueOpTracks(cfg: Config, dev: Device, h: History, items: seq<Downlink>, skip: seq<Bytes>, peers: Peers,
      at: nat)
    requires !SkipFlag(cfg, dev) && Invariant(RunState(dev, h))
    ensures var o := QueueOp(cfg, dev, items, skip, peers, at);
            o.device.Some? ==> o.exchanges != [] && Invariant(RunState(o.device.value, AfterPush(h, o.exchanges)))
  {
    QueueOpRequests(cfg, dev, items, skip, peers, at);
    if AllHavePort(items) {
      FaithfulTracks(cfg, dev, h, items, skip, peers, at, QueueOp(cfg, dev, items, skip, peers, at));
    }
  }

  lemma FaithfulTracks(cfg: Config, dev: Device, h: History, items: seq<Downlink>, skip: seq<Bytes>, peers: Peers,
      at: nat, o: Outcome)
    requires Invariant(RunState(dev, h)) && Faithful(cfg, dev, items, skip, peers, at, 50, o)
    ensures o.device.Some? ==> o.exchanges != [] && Invariant(RunState(o.device.value, AfterPush(h, o.exchanges)))
  {
    if o.device.Some? {
      var last := o.exchanges[|o.exchanges| - 1];
      assert ExchangeCarries(cfg, skip, items, last);
      var base := if |o.exchanges| > 1 then NoHistory else h;
      if |o.exchanges| > 1 {
        // Rebuilt sessions have no history yet.
        assert Tracks(last.before.session, []) && Tracks(last.before.pending, []);
      }
      SegmentContinues(cfg, last.before.session, base.current, skip, items, last.current);
      SegmentContinues(cfg, last.before.pending, base.pending, skip, items, last.pending);
    }
  }

  lemma MatchTracks(dev: Device, h: History, addr: Option<Addr>, keyId: Bytes, peers: Peers, at: nat)
    requires Invariant(RunState(dev, h)) && MatchSession(dev, addr, keyId, peers, at).Some?
    ensures Invariant(RunState(MatchSession(dev, addr, keyId, peers, at).value, AfterMatch(h, MatchKind(dev, keyId))))
  {
  }

  /** What the handler ends up with follows the history, dropped nacks aside. */
  lemma HandlerTracks(cfg: Config, dev: Device, h: History, e: Event, peers: Peers, at: nat)
    requires !SkipFlag(cfg, dev) && Invariant(RunState(dev, h))
    requires Handle(cfg, dev, e, peers, at).device.Some?
    ensures var handled := Handle(cfg, dev, e, peers, at);
            Invariant(RunState(handled.device.value, AfterPush(BeforePush(dev, h, e), handled.exchanges)))
  {
    match e
    case Push(items) =>
      QueueOpTracks(cfg, dev, h, InitAllRetries(cfg, items).value, [], peers, at);
    case JoinAccept(_, _, _, _) =>
      var joined := Joined(dev, e, peers, at);
      var items := DecryptQueue(cfg.crypto, KeyRing(joined.session, joined.pending, dev.pending), e.invalidated);
      if items != [] {
        QueueOpTracks(cfg, joined, History(h.current, []), items, [items[0].sessionKeyId], peers, at);
      }
    case Uplink(addr, keyId) =>
      MatchTracks(dev, h, addr, keyId, peers, at);
    case QueueInvalidated(addr, keyId, _, _) =>
      MatchTracks(dev, h, addr, keyId, peers, at);
      var reset := SetCounter(MatchSession(dev, addr, keyId, peers, at).value, e.lastFCntDown);
      var items := DecryptQueue(cfg.crypto, KeyRing(reset.session, reset.pending, None), e.downlinks);
      QueueOpTracks(cfg, reset, BeforePush(dev, h, e), items, [], peers, at);
    case Nack(addr, _) =>
      NackTracks(cfg, dev, h, e, peers, at);
  }

  lemma NackTracks(cfg: Config, dev: Device, h: History, e: Event, peers: Peers, at: nat)
    requires e.Nack? && !SkipFlag(cfg, dev) && Invariant(RunState(dev, h))
    requires HandleNack(cfg, dev, e, peers, at).device.Some?
    ensures var handled := HandleNack(cfg, dev, e, peers, at);
            Invariant(RunState(handled.device.value, AfterPush(BeforePush(dev, h, e), handled.exchanges)))
  {
    MatchTracks(dev, h, e.addr, e.msg.sessionKeyId, peers, at);
    var matched := MatchSession(dev, e.addr, e.msg.sessionKeyId, peers, at).value;
    var msg := DecryptDownlink(cfg.crypto, KeyRing(matched.session, matched.pending, None), e.msg).value;
    var retry := NextRetry(cfg, msg.confirmedRetry);
    if retry.Some? {
      QueueOpTracks(cfg, matched, BeforePush(dev, h, e), [msg.(confirmedRetry := retry)], [], peers, at);
    }
  }

  /** Every handled message keeps the invariant of what is stored. */
  lemma NextKeepsInvariant(cfg: Config, s: RunState, o: Occurrence)
    requires !SkipFlag(cfg, s.device) && Invariant(s)
    ensures Invariant(Next(cfg, s, o)) && !SkipFlag(cfg, Next(cfg, s, o).device)
  {
    var handled := Handle(cfg, s.device, o.event, o.peers, o.at);
    if handled.device.Some? {
      PersistenceSound(cfg, s.device, o.event, o.peers, o.at);
      HandlerTracks(cfg, s.device, s.history, o.event, o.peers, o.at);
    }
  }

  /** After every run from any stored device: the frame counters accepted for a stored session since
      its counter was last set are consecutive and end at the stored counter. */
  lemma {:induction false} RunsCountConsecutively(cfg: Config, dev: Device, run: seq<Occurrence>)
    requires !SkipFlag(cfg, dev)
    ensures Invariant(RunFrom(cfg, RunState(dev, NoHistory), run))
    ensures !SkipFlag(cfg, RunFrom(cfg, RunState(dev, NoHistory), run).device)
  {
    if run != [] {
      RunsCountConsecutively(cfg, dev, run[..|run| - 1]);
      NextKeepsInvariant(cfg, RunFrom(cfg, RunState(dev, NoHistory), run[..|run| - 1]), run[|run| - 1]);
    }
  }

  ghost predicate NoRepeats(h: seq<Counter>) {
    forall i, j | 0 <= i < j < |h| :: h[i] != h[j]
  }

  lemma ConsecutiveDiffer(h: seq<Counter>, last: Counter)
    requires CountsUpTo(h, last) && |h| <= UINT32
    ensures NoRepeats(h)
  {
    forall i, j | 0 <= i < j < |h|
      ensures h[i] != h[j]
    {
      OtherResidue(h[i] + (|h| - 1 - j), j - i);
    }
  }

  lemma OtherResidue(a: nat, d: nat)
    requires 0 < d < UINT32
    ensures (a + d) % UINT32 != a % UINT32
  {
  }

  /** No frame counter is used twice for a stored session between resets, unless more than 2^32
      downlinks were accepted in between. */
  lemma NoFrameCounterReuse(cfg: Config, dev: Device, run: seq<Occurrence>)
    requires !SkipFlag(cfg, dev)
    ensures var h := RunFrom(cfg, RunState(dev, NoHistory), run).history;
            (|h.current| <= UINT32 ==> NoRepeats(h.current)) && (|h.pending| <= UINT32 ==> NoRepeats(h.pending))
  {
    RunsCountConsecutively(cfg, dev, run);
    var s := RunFrom(cfg, RunState(dev, NoHistory), run);
    if |s.history.current| <= UINT32 && s.device.session.Some? {
      ConsecutiveDiffer(s.history.current, s.device.session.value.lastAFCntDown);
    }
    if |s.history.pending| <= UINT32 && s.device.pending.Some? {
      ConsecutiveDiffer(s.history.pending, s.device.pending.value.lastAFCntDown);
    }
  }

  // Only resets lower a counter.

  /** The event may replace a session other than by a join-accept, or set a counter. */
  ghost predicate MayReset(cfg: Config, dev: Device, o: Occurrence) {
    || o.event.QueueInvalidated?
    || (o.event.Uplink? && MatchKind(dev, o.event.keyId) != AlreadyCurrent)
    || (o.event.Nack? && MatchKind(dev, o.event.msg.sessionKeyId) != AlreadyCurrent)
    || |Handle(cfg, dev, o.event, o.peers, o.at).exchanges| > 1  // the sessions are rebuilt
  }

  function SessionAfter(s: Option<Session>, n: nat): Option<Session> {
    if s.Some? then Some(s.value.(lastAFCntDown := (s.value.lastAFCntDown + n) % UINT32)) else None
  }

  /** All other events keep the stored sessions, except that a join-accept replaces the pending one, and
      move their counters on by as many downlinks as the Network Server accepted for each. */
  lemma OnlyResetsLowerCounters(cfg: Config, dev: Device, h: History, o: Occurrence)
    requires !SkipFlag(cfg, dev) && !MayReset(cfg, dev, o)
    ensures var after := Next(cfg, RunState(dev, h), o);
            && |h.current| <= |after.history.current|
            && after.device.session == SessionAfter(dev.session, |after.history.current| - |h.current|)
            && (!o.event.JoinAccept? ==>
                  && |h.pending| <= |after.history.pending|
                  && after.device.pending == SessionAfter(dev.pending, |after.history.pending| - |h.pending|))
  {
    hide Handle, DecryptDownlink, MatchSession, NextRetry;
    var handled := Handle(cfg, dev, o.event, o.peers, o.at);
    if handled.device.Some? {
      PersistenceSound(cfg, dev, o.event, o.peers, o.at);
      HandlerAdvances(cfg, dev, o);
    }
  }

  ghost function Accepted(exchanges: seq<Exchange>): (counts: (nat, nat)) {
    if exchanges == [] then (0, 0) else (|exchanges[0].current|, |exchanges[0].pending|)
  }

  ghost predicate MovedOn(dev: Device, exchanges: seq<Exchange>, after: Device) {
    && after.session == SessionAfter(dev.session, Accepted(exchanges).0)
    && after.pending == SessionAfter(dev.pending, Accepted(exchanges).1)
  }

  lemma HandlerAdvances(cfg: Config, dev: Device, o: Occurrence)
    requires !SkipFlag(cfg, dev) && !MayReset(cfg, dev, o)
    requires Handle(cfg, dev, o.event, o.peers, o.at).device.Some?
    ensures var handled := Handle(cfg, dev, o.event, o.peers, o.at);
            MovedOn(if o.event.JoinAccept? then Joined(dev, o.event, o.peers, o.at) else dev, handled.exchanges,
              handled.device.value)
  {
    match o.event
    case Push(items) =>
      QueueOpAdvances(cfg, dev, InitAllRetries(cfg, items).value, [], o.peers, o.at);
    case JoinAccept(_, _, _, _) =>
      JoinAcceptAdvances(cfg, dev, o);
    case Uplink(_, _) =>
    case Nack(_, _) =>
      var msg := DecryptDownlink(cfg.crypto, KeyRing(dev.session, dev.pending, None), o.event.msg).value;
      var retry := NextRetry(cfg, msg.confirmedRetry);
      if retry.Some? {
        QueueOpAdvances(cfg, dev, [msg.(confirmedRetry := retry)], [], o.peers, o.at);
      }
  }

  lemma JoinAcceptAdvances(cfg: Config, dev: Device, o: Occurrence)
    requires !SkipFlag(cfg, dev) && !MayReset(cfg, dev, o)
    requires o.event.JoinAccept? && HandleJoinAccept(cfg, dev, o.event, o.peers, o.at).device.Some?
    ensures var handled := HandleJoinAccept(cfg, dev, o.event, o.peers, o.at);
            MovedOn(Joined(dev, o.event, o.peers, o.at), handled.exchanges, handled.device.value)
  {
    var joined := Joined(dev, o.event, o.peers, o.at);
    var items := DecryptQueue(cfg.crypto, KeyRing(joined.session, joined.pending, dev.pending), o.event.invalidated);
    if items != [] {
      QueueOpAdvances(cfg, joined, items, [items[0].sessionKeyId], o.peers, o.at);
    }
  }

  lemma QueueOpAdvances(cfg: Config, dev: Device, items: seq<Downlink>, skip: seq<Bytes>, peers: Peers, at: nat)
    requires !SkipFlag(cfg, dev)
    ensures var o := QueueOp(cfg, dev, items, skip, peers, at);
            o.device.Some? && |o.exchanges| <= 1 ==> MovedOn(dev, o.exchanges, o.device.value)
  {
    QueueOpRequests(cfg, dev, items, skip, peers, at);
    var o := QueueOp(cfg, dev, items, skip, peers, at);
    if o.device.Some? && |o.exchanges| <= 1 {
      FaithfulAdvances(cfg, dev, items, skip, peers, at, o);
    }
  }

  lemma FaithfulAdvances(cfg: Config, dev: Device, items: seq<Downlink>, skip: seq<Bytes>, peers: Peers, at: nat,
      o: Outcome)
    requires Faithful(cfg, dev, items, skip, peers, at, 50, o) && o.device.Some? && |o.exchanges| <= 1
    ensures MovedOn(dev, o.exchanges, o.device.value)
  {
    assert ExchangeCarries(cfg, skip, items, o.exchanges[0]);
  }
}
