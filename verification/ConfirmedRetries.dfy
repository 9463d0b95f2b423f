/** How often a confirmed downlink is pushed again when the device never acknowledges it. */
module ConfirmedRetries {
  import opened Wrappers
  import opened Payload
  import opened DownlinkQueue
  import opened Handlers

  const LAST := UINT32 - 1  // the largest frame and attempt counter

  datatype ConfigError = ZeroAttemptCounts | DefaultRetryCountLargerThanMax

  function ValidateDownlinkConfirmationConfig(cfg: Config): (r: Option<ConfigError>)
    ensures r.None? <==> 0 < cfg.defaultRetries <= cfg.maxRetries
    ensures r.None? ==> forall own: Option<Counter> | own.Some? ==> own.value <= cfg.maxRetries ::
              Limit(cfg, Some(ConfirmedRetry(0, own))) <= cfg.maxRetries
  {
    if cfg.defaultRetries == 0 || cfg.maxRetries == 0 then Some(ZeroAttemptCounts)
    else if cfg.defaultRetries > cfg.maxRetries then Some(DefaultRetryCountLargerThanMax)
    else None
  }

  /** The retry record with which a downlink goes into its first nack. */
  function Initial(retry: Option<ConfirmedRetry>): ConfirmedRetry {
    if retry.Some? then retry.value else ConfirmedRetry(0, None)
  }

  /** The retry record of a downlink pushed again after each of k nacks, or none if it was dropped before. */
  ghost function AfterNacks(cfg: Config, retry: Option<ConfirmedRetry>, k: nat): Option<ConfirmedRetry> {
    if k == 0 then Some(Initial(retry))
    else
      match AfterNacks(cfg, retry, k - 1)
      case None => None
      case Some(r) => NextRetry(cfg, Some(r))
  }

  /** The limit that the downlink brings along, or the default. */
  ghost function Limit(cfg: Config, retry: Option<ConfirmedRetry>): Counter {
    match Initial(retry).maxAttempts
    case Some(own) => own
    case None => cfg.defaultRetries
  }

  lemma NextAttempt(cfg: Config, r: ConfirmedRetry)
    requires r.attempt != LAST
    ensures NextRetry(cfg, Some(r)) ==
            if r.attempt + 1 <= Limit(cfg, Some(r)) then Some(r.(attempt := r.attempt + 1)) else None
  {
  }

  /** If every attempt is nacked, the downlink is pushed again exactly as often as its limit
      exceeds its initial attempt, and then dropped. */
  lemma {:induction false} RetriesExact(cfg: Config, retry: Option<ConfirmedRetry>, k: nat)
    requires Limit(cfg, retry) != LAST && Initial(retry).attempt != LAST
    ensures AfterNacks(cfg, retry, k).Some? <==> k == 0 || Initial(retry).attempt + k <= Limit(cfg, retry)
    ensures AfterNacks(cfg, retry, k).Some? ==>
              AfterNacks(cfg, retry, k).value == Initial(retry).(attempt := Initial(retry).attempt + k)
  {
    if k != 0 {
      RetriesExact(cfg, retry, k - 1);
      if AfterNacks(cfg, retry, k - 1).Some? {
        NextAttempt(cfg, AfterNacks(cfg, retry, k - 1).value);
      }
    }
  }

  ghost predicate NeverDropped(cfg: Config, retry: Option<ConfirmedRetry>) {
    forall k :: AfterNacks(cfg, retry, k).Some?
  }

  lemma {:induction false} SameLimit(cfg: Config, retry: Option<ConfirmedRetry>, k: nat)
    requires AfterNacks(cfg, retry, k).Some?
    ensures AfterNacks(cfg, retry, k).value.maxAttempts == Initial(retry).maxAttempts
  {
    if k != 0 {
      SameLimit(cfg, retry, k - 1);
    }
  }

  lemma {:induction false} UnlimitedRetries(cfg: Config, retry: Option<ConfirmedRetry>, k: nat)
    requires Limit(cfg, retry) == LAST
    ensures AfterNacks(cfg, retry, k).Some?
  {
    if k != 0 {
      UnlimitedRetries(cfg, retry, k - 1);
      SameLimit(cfg, retry, k - 1);
    }
  }

  /** Retries end for every limit but the largest, where the attempt counter wraps around. */
  lemma RetriesEnd(cfg: Config, retry: Option<ConfirmedRetry>)
    ensures NeverDropped(cfg, retry) <==> Limit(cfg, retry) == LAST
  {
    if Limit(cfg, retry) == LAST {
      forall k: nat
        ensures AfterNacks(cfg, retry, k).Some?
      {
        UnlimitedRetries(cfg, retry, k);
      }
    } else if Initial(retry).attempt != LAST {
      RetriesExact(cfg, retry, Limit(cfg, retry) + 1);
    } else {
      var wrapped := Some(Initial(retry).(attempt := 0));
      assert AfterNacks(cfg, retry, 0) == Some(Initial(retry));
      assert AfterNacks(cfg, retry, 1) == wrapped;
      OneLater(cfg, retry, wrapped, Limit(cfg, retry) + 1);
      RetriesExact(cfg, wrapped, Limit(cfg, retry) + 1);
    }
  }

  lemma {:induction false} OneLater(cfg: Config, retry: Option<ConfirmedRetry>, next: Option<ConfirmedRetry>, k: nat)
    requires AfterNacks(cfg, retry, 1) == next && next.Some?
    ensures AfterNacks(cfg, retry, k + 1) == AfterNacks(cfg, next, k)
  {
    if k != 0 {
      OneLater(cfg, retry, next, k - 1);
    }
  }

  /** No downlink with a limit below the largest counter is pushed again more often than its limit
      says; the one extra time is for an attempt counter that wraps around at once. */
  lemma RetriesBounded(cfg: Config, retry: Option<ConfirmedRetry>, k: nat)
    requires Limit(cfg, retry) != LAST && AfterNacks(cfg, retry, k).Some?
    ensures k <= Limit(cfg, retry) + 1
    ensures Initial(retry).attempt != LAST ==> k == 0 || Initial(retry).attempt + k <= Limit(cfg, retry)
  {
    if Initial(retry).attempt != LAST {
      RetriesExact(cfg, retry, k);
    } else if k != 0 {
      var wrapped := Some(Initial(retry).(attempt := 0));
      assert AfterNacks(cfg, retry, 0) == Some(Initial(retry));
      assert AfterNacks(cfg, retry, 1) == wrapped;
      OneLater(cfg, retry, wrapped, k - 1);
      RetriesExact(cfg, wrapped, k - 1);
    }
  }

  /** A confirmed downlink that was accepted for pushing, with its own retry record or a new one, has a
      limit within the configured maximum. It survives k nacks exactly if its limit exceeds the attempt it
      starts with by at least k: with a new record that is the first of the default number of attempts. */
  lemma PushedRetriesBounded(cfg: Config, item: Downlink, k: nat)
    requires ValidateDownlinkConfirmationConfig(cfg).None? && cfg.maxRetries != LAST
    requires item.confirmed && InitRetries(cfg, item).Some?
    ensures var retry := InitRetries(cfg, item).value.confirmedRetry;
            var survives := AfterNacks(cfg, retry, k).Some?;
            && Limit(cfg, retry) <= cfg.maxRetries
            && (survives ==> k <= Limit(cfg, retry) + 1)
            && (Initial(retry).attempt != LAST ==> (survives <==> k == 0 || Initial(retry).attempt + k <= Limit(cfg, retry)))
            && (item.confirmedRetry.None? ==> (survives <==> k <= cfg.defaultRetries - 1))
  {
    var retry := InitRetries(cfg, item).value.confirmedRetry;
    if AfterNacks(cfg, retry, k).Some? {
      RetriesBounded(cfg, retry, k);
    }
    if Initial(retry).attempt != LAST {
      RetriesExact(cfg, retry, k);
    }
  }

  /** Handling a nack either pushes the downlink again with the next retry record, or drops it. What is
      pushed carries the decrypted downlink that goes upstream. */
  lemma NackPushesOrDrops(cfg: Config, dev: Device, e: Event, peers: Peers, at: nat)
    requires e.Nack? && !SkipFlag(cfg, dev) && HandleNack(cfg, dev, e, peers, at).device.Some?
    ensures HandleNack(cfg, dev, e, peers, at).exchanges != [] <==> NextRetry(cfg, e.msg.confirmedRetry).Some?
    ensures forall x | x in HandleNack(cfg, dev, e, peers, at).exchanges ::
              ExchangeCarries(cfg, [], [NackUpstream(cfg, dev, e, peers, at)], x)
    ensures forall x, d | x in HandleNack(cfg, dev, e, peers, at).exchanges && d in x.current + x.pending ::
              d.confirmedRetry == NextRetry(cfg, e.msg.confirmedRetry) && d.confirmed == e.msg.confirmed && d.fPort == e.msg.fPort
  {
    hide FollowsRejection, NothingToTry, CanSend, AdvancedDevice, QueueOp, Carries, CarriesItem, Ciphers;
    var matched := MatchSession(dev, e.addr, e.msg.sessionKeyId, peers, at).value;
    var msg := DecryptDownlink(cfg.crypto, KeyRing(matched.session, matched.pending, None), e.msg).value;
    var retry := NextRetry(cfg, msg.confirmedRetry);
    if retry.Some? {
      var items := [msg.(confirmedRetry := retry)];
      QueueOpRequests(cfg, matched, items, [], peers, at);
      forall x, d | x in HandleNack(cfg, dev, e, peers, at).exchanges && d in x.current + x.pending
        ensures d.confirmedRetry == retry && d.confirmed == e.msg.confirmed && d.fPort == e.msg.fPort
      {
        assert ExchangeCarries(cfg, [], items, x);
        if d in x.current {
          var j := CarriedFrom(cfg, x.before.session, items, x.current, d);
        } else {
          var j := CarriedFrom(cfg, x.before.pending, items, x.pending, d);
        }
      }
    }
  }

  // Runs in which every attempt is nacked.

  /** A nack that is handled, whatever has become of the device by then. */
  datatype NackStep = NackStep(dev: Device, addr: Option<Addr>, msg: Downlink, peers: Peers, at: nat)

  function Handling(cfg: Config, n: NackStep): Handled {
    HandleNack(cfg, n.dev, Nack(n.addr, n.msg), n.peers, n.at)
  }

  ghost predicate Sent(h: Handled, d: Downlink) {
    exists x | x in h.exchanges :: d in x.current + x.pending
  }

  /** Each nack is handled, and all but the first are for a downlink that was pushed on the nack before. */
  ghost predicate NackedRun(cfg: Config, run: seq<NackStep>) {
    && (forall i | 0 <= i < |run| :: !SkipFlag(cfg, run[i].dev) && Handling(cfg, run[i]).device.Some?)
    && (forall i | 1 <= i < |run| :: Sent(Handling(cfg, run[i - 1]), run[i].msg))
  }

  ghost predicate PushesAgain(cfg: Config, n: NackStep) {
    Handling(cfg, n).exchanges != []
  }

  /** How many of the nacks push the downlink again. */
  ghost function Pushes(cfg: Config, run: seq<NackStep>): nat {
    if run == [] then 0
    else Pushes(cfg, run[..|run| - 1]) + (if PushesAgain(cfg, run[|run| - 1]) then 1 else 0)
  }

  lemma NackStepPushes(cfg: Config, n: NackStep, d: Downlink)
    requires !SkipFlag(cfg, n.dev) && Handling(cfg, n).device.Some?
    ensures PushesAgain(cfg, n) <==> NextRetry(cfg, n.msg.confirmedRetry).Some?
    ensures Sent(Handling(cfg, n), d) ==> PushesAgain(cfg, n) && d.confirmedRetry == NextRetry(cfg, n.msg.confirmedRetry)
  {
    NackPushesOrDrops(cfg, n.dev, Nack(n.addr, n.msg), n.peers, n.at);
  }

  /** Every downlink of the run carries the record after as many nacks. */
  lemma {:induction false} RecordInRun(cfg: Config, run: seq<NackStep>, i: nat)
    requires NackedRun(cfg, run) && i < |run|
    ensures AfterNacks(cfg, run[0].msg.confirmedRetry, i) == Some(Initial(run[i].msg.confirmedRetry))
    ensures PushesAgain(cfg, run[i]) <==> AfterNacks(cfg, run[0].msg.confirmedRetry, i + 1).Some?
  {
    hide Handling, NextRetry;
    NackStepPushes(cfg, run[i], run[i].msg);
    InitialNext(cfg, run[i].msg.confirmedRetry);
    if i != 0 {
      RecordInRun(cfg, run, i - 1);
      NackStepPushes(cfg, run[i - 1], run[i].msg);
      InitialNext(cfg, run[i - 1].msg.confirmedRetry);
    }
  }

  lemma InitialNext(cfg: Config, retry: Option<ConfirmedRetry>)
    ensures NextRetry(cfg, Some(Initial(retry))) == NextRetry(cfg, retry)
  {
  }

  /** All nacks of a run but the last push the downlink again; the last may drop it. */
  lemma {:induction false} PushesInRun(cfg: Config, run: seq<NackStep>)
    requires NackedRun(cfg, run) && run != []
    ensures Pushes(cfg, run) == if PushesAgain(cfg, run[|run| - 1]) then |run| else |run| - 1
  {
    hide Handling;
    if |run| > 1 {
      var init := run[..|run| - 1];
      PushesInRun(cfg, init);
      NackStepPushes(cfg, run[|run| - 2], run[|run| - 1].msg);
      assert init[|init| - 1] == run[|run| - 2];
    }
  }

  /** If every attempt is nacked, a downlink is pushed again as long as its limit exceeds its attempts:
      never more often, and when it is dropped it was pushed exactly that often. */
  lemma NackedRunPushes(cfg: Config, run: seq<NackStep>)
    requires NackedRun(cfg, run) && run != []
    requires Limit(cfg, run[0].msg.confirmedRetry) != LAST && Initial(run[0].msg.confirmedRetry).attempt != LAST
    ensures var retry := run[0].msg.confirmedRetry;
            var most := if Limit(cfg, retry) > Initial(retry).attempt then Limit(cfg, retry) - Initial(retry).attempt else 0;
            && Pushes(cfg, run) <= most
            && |run| <= most + 1
            && (!PushesAgain(cfg, run[|run| - 1]) <==> |run| == most + 1)
            && (!PushesAgain(cfg, run[|run| - 1]) ==> Pushes(cfg, run) == most)
  {
    hide Handling, NackedRun, NextRetry;
    var retry, n := run[0].msg.confirmedRetry, |run|;
    PushesInRun(cfg, run);
    RecordInRun(cfg, run, n - 1);
    RetriesExact(cfg, retry, n - 1);
    RetriesExact(cfg, retry, n);
  }

  /** A run that starts with a downlink pushed by the application, which accepted it with item's record. */
  ghost predicate StartsWith(cfg: Config, run: seq<NackStep>, dev: Device, items: seq<Downlink>, peers: Peers, at: nat) {
    && NackedRun(cfg, run) && run != []
    && !SkipFlag(cfg, dev)
    && Sent(HandlePush(cfg, dev, items, peers, at), run[0].msg)
    && run[0].msg.confirmed
  }

  /** Whatever the application pushes and however often it is nacked: with a valid configuration a
      confirmed downlink is pushed again at most one time more than the configured maximum. */
  lemma PushedThenNacked(cfg: Config, run: seq<NackStep>, dev: Device, items: seq<Downlink>, peers: Peers, at: nat)
    requires ValidateDownlinkConfirmationConfig(cfg).None? && cfg.maxRetries != LAST
    requires StartsWith(cfg, run, dev, items, peers, at)
    ensures Pushes(cfg, run) <= cfg.maxRetries + 1
    ensures Initial(run[0].msg.confirmedRetry).attempt != LAST ==> Pushes(cfg, run) <= cfg.maxRetries
  {
    hide Handling, HandlePush, NackedRun, NextRetry, AfterNacks, InitRetries;
    var n := |run|;
    var item := PushedItem(cfg, dev, items, peers, at, run[0].msg);
    PushesInRun(cfg, run);
    RecordInRun(cfg, run, n - 1);
    PushedRetriesBounded(cfg, item, Pushes(cfg, run));
  }

  /** A pushed downlink has the retry record of one of the items. */
  lemma PushedItem(cfg: Config, dev: Device, items: seq<Downlink>, peers: Peers, at: nat, d: Downlink)
    returns (item: Downlink)
    requires !SkipFlag(cfg, dev) && Sent(HandlePush(cfg, dev, items, peers, at), d)
    ensures InitRetries(cfg, item).Some? && item.confirmed == d.confirmed
    ensures InitRetries(cfg, item).value.confirmedRetry == d.confirmedRetry
  {
    hide InitRetries, QueueOp;
    var all := InitAllRetries(cfg, items).value;
    QueueOpRequests(cfg, dev, all, [], peers, at);
    var x :| x in HandlePush(cfg, dev, items, peers, at).exchanges && d in x.current + x.pending;
    assert ExchangeCarries(cfg, [], all, x);
    var j;
    if d in x.current {
      j := CarriedFrom(cfg, x.before.session, all, x.current, d);
    } else {
      j := CarriedFrom(cfg, x.before.pending, all, x.pending, d);
    }
    InitAllEach(cfg, items, j);
    item := items[j];
  }

  lemma {:induction false} InitAllEach(cfg: Config, items: seq<Downlink>, j: nat)
    requires InitAllRetries(cfg, items).Some? && j < |InitAllRetries(cfg, items).value|
    ensures j < |items| && InitRetries(cfg, items[j]) == Some(InitAllRetries(cfg, items).value[j])
    ensures InitAllRetries(cfg, items).value[j].confirmed == items[j].confirmed
  {
    if j < |InitAllRetries(cfg, items[..|items| - 1]).value| {
      InitAllEach(cfg, items[..|items| - 1], j);
    } else {
      InitAllLength(cfg, items);
    }
  }

  lemma {:induction false} InitAllLength(cfg: Config, items: seq<Downlink>)
    requires InitAllRetries(cfg, items).Some?
    ensures |InitAllRetries(cfg, items).value| == |items|
  {
    if items != [] {
      InitAllLength(cfg, items[..|items| - 1]);
    }
  }

  /** The options of a downlink are those of the item that it carries. */
  lemma CarriedFrom(cfg: Config, s: Option<Session>, items: seq<Downlink>, downlinks: seq<Downlink>, d: Downlink)
    returns (j: nat)
    requires SegmentCarries(cfg, s, [], items, downlinks) && d in downlinks
    ensures j < |items|
    ensures d.confirmedRetry == items[j].confirmedRetry && d.confirmed == items[j].confirmed && d.fPort == items[j].fPort
  {
    j :| 0 <= j < |downlinks| && downlinks[j] == d;
    var key := AppSKey(cfg.crypto, s.value).value;
    assert CarriesItem(cfg.crypto, key, s.value, (s.value.lastAFCntDown + 1 + j) % UINT32, items[j], downlinks[j]);
  }
}
