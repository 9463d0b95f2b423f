/** The downlink queue protocol of the Application Server on values: matching and rebuilding
    sessions, and the bounded loop that pushes downlinks to an arbitrary Network Server. */
module DownlinkQueue {
  import opened Wrappers
  import opened Payload

  /** The part of an end device that the protocol reads and writes. */
  datatype Device = Device(devAddr: Option<Addr>, session: Option<Session>, pending: Option<Session>, skipOverride: Option<bool>)

  datatype Field = DevAddrField | SessionField | SessionCounter | PendingField | PendingCounter

  const SESSION_FIELDS: set<Field> := {SessionField, DevAddrField, PendingField}

  datatype Config = Config(crypto: Crypto, linkSkip: bool, defaultRetries: Counter, maxRetries: Counter)

  /** The Network Server's view of the sessions, given along with a rejection. */
  datatype Diagnostics = Diagnostics(
    devAddr: Option<Addr>, keyId: Bytes, minFCntDown: Counter,
    pendingDevAddr: Option<Addr>, pendingKeyId: Bytes, pendingMinFCntDown: Counter)

  datatype Answer = Accepted | Rejected(diagnostics: Option<Diagnostics>)

  /** An AppSKey request fails, or succeeds with or without a key. */
  datatype Fetched = Unavailable | Fetched(appSKey: Option<Bytes>)

  /** Arbitrary peers. The Network Server answers request i with answers(i); before the i-th request
      the Join Server answers up to two key requests with keys(keyId, 2 * i) and keys(keyId, 2 * i + 1). */
  datatype Peers = Peers(answers: nat -> Answer, keys: (Bytes, nat) -> Fetched)

  const MAX_ATTEMPTS := 50

  function SkipFlag(cfg: Config, dev: Device): bool {
    if dev.skipOverride.Some? then dev.skipOverride.value else cfg.linkSkip
  }

  // Rebuilding sessions from diagnostics.

  function LastAFCntDownFromMinFCnt(min: Counter): (last: Counter)
    ensures NextFCnt(last) == if min == 0 then 1 else min
  {
    if min == 0 then 0 else min - 1
  }

  function SameSession(s: Option<Session>, keyId: Bytes, addr: Addr): bool {
    s.Some? && keyId == s.value.keyId && OrZero(s.value.devAddr) == addr
  }

  function RebuildSession(s: Option<Session>, addr: Addr, keyId: Bytes, min: Counter, fetched: Fetched): Option<Session> {
    if SameSession(s, keyId, addr) then Some(s.value.(lastAFCntDown := LastAFCntDownFromMinFCnt(min)))
    else if |keyId| > 0 && fetched.Fetched? then Some(Session(Some(addr), keyId, fetched.appSKey, LastAFCntDownFromMinFCnt(min)))
    else None
  }

  /** The session that replaces s, if it can be built; none is wanted without a reported address. */
  function RebuildSlot(s: Option<Session>, addr: Option<Addr>, keyId: Bytes, min: Counter, fetched: Fetched)
    : Option<Option<Session>>
  {
    if addr.None? then Some(None)
    else
      match RebuildSession(s, addr.value, keyId, min, fetched)
      case None => None
      case rebuilt => Some(rebuilt)
  }

  /** The first half of a rebuild: the current session, and with a new one the device address. */
  function BuildCurrent(dev: Device, diag: Diagnostics, peers: Peers, at: nat): Option<Device> {
    match RebuildSlot(dev.session, diag.devAddr, diag.keyId, diag.minFCntDown, peers.keys(diag.keyId, 2 * at))
    case None => None
    case Some(session) =>
      var kept := diag.devAddr.Some? && SameSession(dev.session, diag.keyId, diag.devAddr.value);
      Some(dev.(devAddr := if kept then dev.devAddr else diag.devAddr, session := session))
  }

  function BuildPending(dev: Device, diag: Diagnostics, peers: Peers, at: nat): Option<Device> {
    match RebuildSlot(dev.pending, diag.pendingDevAddr, diag.pendingKeyId, diag.pendingMinFCntDown,
                      peers.keys(diag.pendingKeyId, 2 * at + 1))
    case None => None
    case Some(pending) => Some(dev.(pending := pending))
  }

  function BuildSessions(dev: Device, diag: Diagnostics, peers: Peers, at: nat): Option<Device> {
    match BuildCurrent(dev, diag, peers, at)
    case None => None
    case Some(half) => BuildPending(half, diag, peers, at)
  }

  /** The Network Server reports the session that the device has. */
  ghost predicate Known(before: Option<Session>, addr: Option<Addr>, keyId: Bytes) {
    addr.Some? && Owns(before, keyId) && OrZero(before.value.devAddr) == addr.value
  }

  /** After a rebuild there is a session exactly if one is reported, and its next frame counter is the
      reported minimum, or 1. A known session is kept; another one has the reported key ID and address,
      and the key that the Join Server gives for them. */
  ghost predicate RebuiltSlot(before: Option<Session>, after: Option<Session>, addr: Option<Addr>, keyId: Bytes,
      min: Counter, fetched: Fetched) {
    && (after.Some? <==> addr.Some?)
    && (after.Some? ==>
          && (after.value.lastAFCntDown + 1) % UINT32 == (if min == 0 then 1 else min)
          && if Known(before, addr, keyId) then after.value == before.value.(lastAFCntDown := after.value.lastAFCntDown)
             else keyId != [] && after.value.keyId == keyId && after.value.devAddr == addr && fetched == Fetched(after.value.appSKey))
  }

  /** The device after a rebuild from the diagnostics. A new current session gives the device its address. */
  ghost predicate RebuiltDevice(before: Device, after: Device, diag: Diagnostics, peers: Peers, at: nat) {
    && RebuiltSlot(before.session, after.session, diag.devAddr, diag.keyId, diag.minFCntDown, peers.keys(diag.keyId, 2 * at))
    && RebuiltSlot(before.pending, after.pending, diag.pendingDevAddr, diag.pendingKeyId, diag.pendingMinFCntDown,
                   peers.keys(diag.pendingKeyId, 2 * at + 1))
    && after.skipOverride == before.skipOverride
    && after.devAddr == if Known(before.session, diag.devAddr, diag.keyId) then before.devAddr else diag.devAddr
  }

  lemma SlotReflects(before: Option<Session>, after: Option<Session>, addr: Option<Addr>, keyId: Bytes, min: Counter,
      fetched: Fetched)
    ensures RebuildSlot(before, addr, keyId, min, fetched) == Some(after) <==> RebuiltSlot(before, after, addr, keyId, min, fetched)
  {
    if after.Some? && RebuiltSlot(before, after, addr, keyId, min, fetched) {
      assert after.value.lastAFCntDown == LastAFCntDownFromMinFCnt(min);
    }
  }

  /** A rebuild succeeds exactly if there is a device that reflects the diagnostics, and yields that device. */
  lemma RebuildReflectsDiagnostics(dev: Device, diag: Diagnostics, peers: Peers, at: nat, after: Device)
    ensures BuildSessions(dev, diag, peers, at) == Some(after) <==> RebuiltDevice(dev, after, diag, peers, at)
  {
    hide RebuildSlot, RebuiltSlot;
    SlotReflects(dev.session, after.session, diag.devAddr, diag.keyId, diag.minFCntDown, peers.keys(diag.keyId, 2 * at));
    SlotReflects(dev.pending, after.pending, diag.pendingDevAddr, diag.pendingKeyId, diag.pendingMinFCntDown,
                 peers.keys(diag.pendingKeyId, 2 * at + 1));
  }

  // One attempt.

  function Eligible(s: Option<Session>, skip: seq<Bytes>): bool {
    s.Some? && s.value.keyId !in skip
  }

  /** What an attempt sends, session by session. The request to the Network Server names the device
      address and lists the downlinks of the current session before those of the pending one. */
  datatype Exchange = Exchange(before: Device, current: seq<Downlink>, pending: seq<Downlink>)

  datatype Request = Request(devAddr: Option<Addr>, downlinks: seq<Downlink>)

  function RequestOf(e: Exchange): Request {
    Request(e.before.devAddr, e.current + e.pending)
  }

  function EncryptFor(cfg: Config, dev: Device, s: Option<Session>, items: seq<Downlink>, skip: seq<Bytes>)
    : Option<(seq<Downlink>, Option<Session>)>
  {
    if !Eligible(s, skip) then Some(([], s))
    else
      match EncryptItems(cfg.crypto, SkipFlag(cfg, dev), s.value, items)
      case None => None
      case Some(e) => Some((e.downlinks, Some(s.value.(lastAFCntDown := e.last))))
  }

  function CounterFields(dev: Device, skip: seq<Bytes>): set<Field> {
    (if Eligible(dev.session, skip) then {SessionCounter} else {}) +
    (if Eligible(dev.pending, skip) then {PendingCounter} else {})
  }

  /** The result of a queue operation: the updated device and its changed fields unless the
      operation failed, all exchanges, and the downlinks that were last encrypted. */
  datatype Outcome = Outcome(device: Option<Device>, mask: set<Field>, exchanges: seq<Exchange>, encrypted: seq<Downlink>)

  function Failed(exchanges: seq<Exchange>, encrypted: seq<Downlink>): Outcome {
    Outcome(None, {}, exchanges, encrypted)
  }

  /** The exchange of one attempt and the device with its counters advanced, unless encryption fails. */
  function AttemptOnce(cfg: Config, dev: Device, items: seq<Downlink>, skip: seq<Bytes>): Option<(Exchange, Device)> {
    var current := EncryptFor(cfg, dev, dev.session, items, skip);
    var pending := EncryptFor(cfg, dev, dev.pending, items, skip);
    if current.None? || pending.None? then None
    else
      Some((Exchange(dev, current.value.0, pending.value.0),
            dev.(session := current.value.1, pending := pending.value.1)))
  }

  /** The rebuilt device for the next attempt, if the rejection admits one. */
  function Retry(cfg: Config, dev: Device, answer: Answer, peers: Peers, at: nat, attempt: nat): Option<Device> {
    if answer.Accepted? || attempt >= MAX_ATTEMPTS || SkipFlag(cfg, dev) || answer.diagnostics.None? then None
    else BuildSessions(dev, answer.diagnostics.value, peers, at + 1)
  }

  /** One attempt ends the operation or, after a rejection, leads to a rebuilt device for the next one. */
  datatype Verdict = Stop(outcome: Outcome) | Again(exchange: Exchange, rebuilt: Device)

  function AttemptVerdict(cfg: Config, dev: Device, mask: set<Field>, items: seq<Downlink>, skip: seq<Bytes>,
      peers: Peers, at: nat, attempt: nat, encrypted: seq<Downlink>): Verdict {
    if !Eligible(dev.session, skip) && !Eligible(dev.pending, skip) then
      Stop(Failed([], encrypted))
    else
      match AttemptOnce(cfg, dev, items, skip)
      case None => Stop(Failed([], []))
      case Some((e, dev')) =>
        if peers.answers(at).Accepted? then
          Stop(Outcome(Some(dev'), mask + CounterFields(dev, skip), [e], e.current + e.pending))
        else
          match Retry(cfg, dev', peers.answers(at), peers, at, attempt)
          case None => Stop(Failed([e], e.current + e.pending))
          case Some(rebuilt) => Again(e, rebuilt)
  }

  function Attempt(cfg: Config, dev: Device, mask: set<Field>, items: seq<Downlink>, skip: seq<Bytes>, peers: Peers,
      at: nat, attempt: nat, encrypted: seq<Downlink>): Outcome
    requires 1 <= attempt <= MAX_ATTEMPTS
    decreases MAX_ATTEMPTS - attempt
  {
    match AttemptVerdict(cfg, dev, mask, items, skip, peers, at, attempt, encrypted)
    case Stop(outcome) => outcome
    case Again(e, rebuilt) =>
      var rest := Attempt(cfg, rebuilt, SESSION_FIELDS, items, skip, peers, at + 1, attempt + 1, e.current + e.pending);
      rest.(exchanges := [e] + rest.exchanges)
  }

  /** The whole queue operation. */
  function QueueOp(cfg: Config, dev: Device, items: seq<Downlink>, skip: seq<Bytes>, peers: Peers, at: nat): Outcome {
    if exists d | d in items :: d.fPort == 0 then Failed([], [])
    else Attempt(cfg, dev, {}, items, skip, peers, at, 1, [])
  }

  // What every request carries.

  ghost predicate SegmentCarries(cfg: Config, s: Option<Session>, skip: seq<Bytes>, items: seq<Downlink>,
      downlinks: seq<Downlink>) {
    if s.Some? && s.value.keyId !in skip then Carries(cfg.crypto, s.value, items, downlinks) else downlinks == []
  }

  /** The request of an exchange carries all items once per eligible session. */
  ghost predicate ExchangeCarries(cfg: Config, skip: seq<Bytes>, items: seq<Downlink>, e: Exchange) {
    && (Eligible(e.before.session, skip) || Eligible(e.before.pending, skip))
    && SegmentCarries(cfg, e.before.session, skip, items, e.current)
    && SegmentCarries(cfg, e.before.pending, skip, items, e.pending)
  }

  /** The next exchange follows on a rejection: it is made with the device rebuilt from the diagnostics. */
  ghost predicate FollowsRejection(peers: Peers, at: nat, before: Device, after: Device) {
    && peers.answers(at).Rejected?
    && peers.answers(at).diagnostics.Some?
    && RebuiltDevice(before, after, peers.answers(at).diagnostics.value, peers, at + 1)
  }

  /** Payload cryptography is not skipped for any session that downlinks are pushed to. Without the flag
      it never is; with the flag it is skipped for sessions whose keys are not available. */
  ghost predicate Encrypts(cfg: Config, dev: Device, skip: seq<Bytes>) {
    && (Eligible(dev.session, skip) ==> !SkipPayloadCrypto(cfg.crypto, SkipFlag(cfg, dev), dev.session))
    && (Eligible(dev.pending, skip) ==> !SkipPayloadCrypto(cfg.crypto, SkipFlag(cfg, dev), dev.pending))
  }

  lemma EncryptForCarries(cfg: Config, dev: Device, s: Option<Session>, items: seq<Downlink>, skip: seq<Bytes>)
    requires Eligible(s, skip) ==> !SkipPayloadCrypto(cfg.crypto, SkipFlag(cfg, dev), s)
    requires EncryptFor(cfg, dev, s, items, skip).Some?
    ensures SegmentCarries(cfg, s, skip, items, EncryptFor(cfg, dev, s, items, skip).value.0)
    ensures EncryptFor(cfg, dev, s, items, skip).value.1 == AdvancedBy(s, skip, |items|)
  {
    if Eligible(s, skip) {
      EncryptItemsCarry(cfg.crypto, SkipFlag(cfg, dev), s.value, items);
    }
  }

  function AdvancedBy(s: Option<Session>, skip: seq<Bytes>, n: nat): Option<Session> {
    if Eligible(s, skip) then Some(s.value.(lastAFCntDown := (s.value.lastAFCntDown + n) % UINT32)) else s
  }

  lemma AttemptOnceCarries(cfg: Config, dev: Device, items: seq<Downlink>, skip: seq<Bytes>)
    requires Encrypts(cfg, dev, skip) && AttemptOnce(cfg, dev, items, skip).Some?
    requires Eligible(dev.session, skip) || Eligible(dev.pending, skip)
    ensures var (e, dev') := AttemptOnce(cfg, dev, items, skip).value;
            && e.before == dev
            && ExchangeCarries(cfg, skip, items, e)
            && dev' == AdvancedDevice(dev, skip, |items|)
  {
    EncryptForCarries(cfg, dev, dev.session, items, skip);
    EncryptForCarries(cfg, dev, dev.pending, items, skip);
  }

  /** The device with the counters of its sessions moved on by n items. */
  function AdvancedDevice(dev: Device, skip: seq<Bytes>, n: nat): Device {
    dev.(session := AdvancedBy(dev.session, skip, n), pending := AdvancedBy(dev.pending, skip, n))
  }

  lemma CountersIrrelevant(dev: Device, skip: seq<Bytes>, n: nat, after: Device, diag: Diagnostics, peers: Peers, at: nat)
    ensures RebuiltDevice(AdvancedDevice(dev, skip, n), after, diag, peers, at) <==> RebuiltDevice(dev, after, diag, peers, at)
  {
  }

  /** Something can be sent: there is a session for the items, and each of them has its key. */
  ghost predicate CanSend(cfg: Config, dev: Device, items: seq<Downlink>, skip: seq<Bytes>) {
    var current, pending := dev.session.Some? && dev.session.value.keyId !in skip, dev.pending.Some? && dev.pending.value.keyId !in skip;
    && (current || pending)
    && (current && items != [] ==> AppSKey(cfg.crypto, dev.session.value).Some?)
    && (pending && items != [] ==> AppSKey(cfg.crypto, dev.pending.value).Some?)
  }

  /** After the rejection of the request made with dev there is nothing left to try. */
  ghost predicate NothingToTry(cfg: Config, dev: Device, items: seq<Downlink>, skip: seq<Bytes>, peers: Peers, at: nat) {
    SkipFlag(cfg, dev) || forall after | FollowsRejection(peers, at, dev, after) :: !CanSend(cfg, after, items, skip)
  }

  ghost predicate LastAccepted(o: Outcome, peers: Peers, at: nat) {
    o.exchanges != [] && peers.answers(at + |o.exchanges| - 1).Accepted?
  }

  /** The exchanges are the requests of a bounded, faithful and persistent retry loop: it starts if anything
      can be sent, and gives up only after budget requests or when there is nothing left to try. */
  ghost predicate Faithful(cfg: Config, dev: Device, items: seq<Downlink>, skip: seq<Bytes>, peers: Peers, at: nat,
      budget: nat, o: Outcome) {
    var n := |o.exchanges|;
    && n <= budget
    && (forall i | 0 <= i < n :: ExchangeCarries(cfg, skip, items, o.exchanges[i]))
    && (forall i | 1 <= i < n :: FollowsRejection(peers, at + i - 1, o.exchanges[i - 1].before, o.exchanges[i].before))
    && (n > 0 <==> CanSend(cfg, dev, items, skip))
    && (n > 0 ==> o.exchanges[0].before == dev)
    && (o.device.Some? <==> LastAccepted(o, peers, at))
    && (n > 0 && o.device.None? ==> n == budget || NothingToTry(cfg, o.exchanges[n - 1].before, items, skip, peers, at + n - 1))
    && (o.device.Some? ==>
          var last := o.exchanges[n - 1];
          o.device.value == AdvancedDevice(last.before, skip, |items|) && o.encrypted == last.current + last.pending)
  }

  lemma FaithfulCons(cfg: Config, dev: Device, items: seq<Downlink>, skip: seq<Bytes>, peers: Peers, at: nat,
      budget: nat, e: Exchange, rest: Outcome, rebuilt: Device)
    requires Faithful(cfg, rebuilt, items, skip, peers, at + 1, budget, rest)
    requires e.before == dev && ExchangeCarries(cfg, skip, items, e) && CanSend(cfg, dev, items, skip)
    requires forall after :: FollowsRejection(peers, at, dev, after) <==> after == rebuilt
    ensures Faithful(cfg, dev, items, skip, peers, at, budget + 1, rest.(exchanges := [e] + rest.exchanges))
  {
    hide RebuiltDevice, CanSend, ExchangeCarries;
    assert FollowsRejection(peers, at, dev, rebuilt);
    var all, n := [e] + rest.exchanges, |rest.exchanges|;
    assert forall i | 1 <= i < |all| :: all[i] == rest.exchanges[i - 1];
    forall i | 0 <= i < |all|
      ensures ExchangeCarries(cfg, skip, items, all[i])
    {
      assert i >= 1 ==> ExchangeCarries(cfg, skip, items, rest.exchanges[i - 1]);
    }
    forall i | 1 <= i < |all|
      ensures FollowsRejection(peers, at + i - 1, all[i - 1].before, all[i].before)
    {
      assert i > 1 ==> FollowsRejection(peers, at + 1 + (i - 1) - 1, rest.exchanges[i - 2].before, rest.exchanges[i - 1].before);
    }
    assert at + 1 + n - 1 == at + |all| - 1;
  }

  lemma NoExchangeIsFaithful(cfg: Config, dev: Device, items: seq<Downlink>, skip: seq<Bytes>, peers: Peers, at: nat,
      budget: nat, o: Outcome)
    requires o.exchanges == [] && o.device.None? && !CanSend(cfg, dev, items, skip)
    ensures Faithful(cfg, dev, items, skip, peers, at, budget, o)
  {
  }

  lemma OneExchangeIsFaithful(cfg: Config, dev: Device, items: seq<Downlink>, skip: seq<Bytes>, peers: Peers, at: nat,
      budget: nat, e: Exchange, o: Outcome)
    requires budget > 0
    requires o.exchanges == [e] && e.before == dev && ExchangeCarries(cfg, skip, items, e) && CanSend(cfg, dev, items, skip)
    requires o.device.Some? <==> peers.answers(at).Accepted?
    requires o.device.None? ==> budget == 1 || NothingToTry(cfg, dev, items, skip, peers, at)
    requires o.device.Some? ==> o.device.value == AdvancedDevice(dev, skip, |items|) && o.encrypted == e.current + e.pending
    ensures Faithful(cfg, dev, items, skip, peers, at, budget, o)
  {
  }

  lemma SendsIfItCan(cfg: Config, dev: Device, items: seq<Downlink>, skip: seq<Bytes>)
    requires Encrypts(cfg, dev, skip)
    ensures (Eligible(dev.session, skip) || Eligible(dev.pending, skip)) && AttemptOnce(cfg, dev, items, skip).Some? <==>
            CanSend(cfg, dev, items, skip)
  {
    if Eligible(dev.session, skip) {
      EncryptItemsCarry(cfg.crypto, SkipFlag(cfg, dev), dev.session.value, items);
    }
    if Eligible(dev.pending, skip) {
      EncryptItemsCarry(cfg.crypto, SkipFlag(cfg, dev), dev.pending.value, items);
    }
  }

  /** The rebuilt device that a retry goes on with is the only one that reflects the rejection. */
  lemma RetryFollows(cfg: Config, dev: Device, items: seq<Downlink>, skip: seq<Bytes>, peers: Peers, at: nat,
      attempt: nat, after: Device)
    requires peers.answers(at).Rejected? && attempt < MAX_ATTEMPTS && !SkipFlag(cfg, dev)
    ensures Retry(cfg, AdvancedDevice(dev, skip, |items|), peers.answers(at), peers, at, attempt) == Some(after) <==>
            FollowsRejection(peers, at, dev, after)
  {
    if peers.answers(at).diagnostics.Some? {
      var diag := peers.answers(at).diagnostics.value;
      RebuildReflectsDiagnostics(AdvancedDevice(dev, skip, |items|), diag, peers, at + 1, after);
      CountersIrrelevant(dev, skip, |items|, after, diag, peers, at + 1);
    }
  }

  lemma StopIsFaithful(cfg: Config, dev: Device, mask: set<Field>, items: seq<Downlink>, skip: seq<Bytes>,
      peers: Peers, at: nat, attempt: nat, encrypted: seq<Downlink>)
    requires Encrypts(cfg, dev, skip) && 1 <= attempt <= MAX_ATTEMPTS
    requires AttemptVerdict(cfg, dev, mask, items, skip, peers, at, attempt, encrypted).Stop?
    ensures var o := AttemptVerdict(cfg, dev, mask, items, skip, peers, at, attempt, encrypted).outcome;
            Faithful(cfg, dev, items, skip, peers, at, MAX_ATTEMPTS + 1 - attempt, o)
  {
    hide Faithful, Encrypts, CanSend, AttemptOnce, RebuiltDevice, BuildSessions;
    var o := AttemptVerdict(cfg, dev, mask, items, skip, peers, at, attempt, encrypted).outcome;
    SendsIfItCan(cfg, dev, items, skip);
    if o.exchanges == [] {
      NoExchangeIsFaithful(cfg, dev, items, skip, peers, at, MAX_ATTEMPTS + 1 - attempt, o);
    } else {
      AttemptOnceCarries(cfg, dev, items, skip);
      if o.device.None? && attempt < MAX_ATTEMPTS && !SkipFlag(cfg, dev) {
        forall after
          ensures !FollowsRejection(peers, at, dev, after)
        {
          RetryFollows(cfg, dev, items, skip, peers, at, attempt, after);
        }
      }
      OneExchangeIsFaithful(cfg, dev, items, skip, peers, at, MAX_ATTEMPTS + 1 - attempt, AttemptOnce(cfg, dev, items, skip).value.0, o);
    }
  }

  lemma AgainIsFaithful(cfg: Config, dev: Device, mask: set<Field>, items: seq<Downlink>, skip: seq<Bytes>,
      peers: Peers, at: nat, attempt: nat, encrypted: seq<Downlink>)
    requires Encrypts(cfg, dev, skip)
    requires AttemptVerdict(cfg, dev, mask, items, skip, peers, at, attempt, encrypted).Again?
    ensures var v := AttemptVerdict(cfg, dev, mask, items, skip, peers, at, attempt, encrypted);
            && attempt < MAX_ATTEMPTS
            && v.exchange.before == dev
            && ExchangeCarries(cfg, skip, items, v.exchange)
            && CanSend(cfg, dev, items, skip)
            && Encrypts(cfg, v.rebuilt, skip)
            && forall after :: FollowsRejection(peers, at, dev, after) <==> after == v.rebuilt
  {
    hide CanSend, AttemptOnce, RebuiltDevice, BuildSessions;
    SendsIfItCan(cfg, dev, items, skip);
    AttemptOnceCarries(cfg, dev, items, skip);
    var v := AttemptVerdict(cfg, dev, mask, items, skip, peers, at, attempt, encrypted);
    forall after
      ensures FollowsRejection(peers, at, dev, after) <==> after == v.rebuilt
    {
      RetryFollows(cfg, dev, items, skip, peers, at, attempt, after);
    }
    RetryFollows(cfg, dev, items, skip, peers, at, attempt, v.rebuilt);
    RebuiltStillEncrypts(cfg, dev, v.rebuilt, skip, peers, at);
  }

  lemma RebuiltStillEncrypts(cfg: Config, dev: Device, after: Device, skip: seq<Bytes>, peers: Peers, at: nat)
    requires !SkipFlag(cfg, dev) && FollowsRejection(peers, at, dev, after)
    ensures Encrypts(cfg, after, skip)
  {
  }

  /** Against every Network Server and Join Server, unless payload cryptography is skipped: at most 50
      requests are made, all of them carry the original items, and each but the first is made with the device
      rebuilt from the diagnostics of the rejection before it. The operation succeeds exactly if the last
      request is accepted, and does not give up as long as there is something to try. */
  lemma {:induction false} AttemptRequests(cfg: Config, dev: Device, mask: set<Field>, items: seq<Downlink>,
      skip: seq<Bytes>, peers: Peers, at: nat, attempt: nat, encrypted: seq<Downlink>)
    requires 1 <= attempt <= MAX_ATTEMPTS && Encrypts(cfg, dev, skip)
    ensures Faithful(cfg, dev, items, skip, peers, at, MAX_ATTEMPTS + 1 - attempt,
                     Attempt(cfg, dev, mask, items, skip, peers, at, attempt, encrypted))
    decreases MAX_ATTEMPTS - attempt
  {
    hide AttemptVerdict, Faithful, Encrypts, RebuiltDevice;
    match AttemptVerdict(cfg, dev, mask, items, skip, peers, at, attempt, encrypted)
    case Stop(_) =>
      StopIsFaithful(cfg, dev, mask, items, skip, peers, at, attempt, encrypted);
    case Again(e, rebuilt) =>
      AgainIsFaithful(cfg, dev, mask, items, skip, peers, at, attempt, encrypted);
      var rest := Attempt(cfg, rebuilt, SESSION_FIELDS, items, skip, peers, at + 1, attempt + 1, e.current + e.pending);
      AttemptRequests(cfg, rebuilt, SESSION_FIELDS, items, skip, peers, at + 1, attempt + 1, e.current + e.pending);
      FaithfulCons(cfg, dev, items, skip, peers, at, MAX_ATTEMPTS - attempt, e, rest, rebuilt);
  }

  ghost predicate AllHavePort(items: seq<Downlink>) {
    forall d | d in items :: d.fPort != 0
  }

  /** The same for the whole queue operation: an item without port stops it, and otherwise it is a retry
      loop of at most 50 requests. */
  lemma QueueOpRequests(cfg: Config, dev: Device, items: seq<Downlink>, skip: seq<Bytes>, peers: Peers, at: nat)
    requires Encrypts(cfg, dev, skip)
    ensures var o := QueueOp(cfg, dev, items, skip, peers, at);
            if AllHavePort(items) then Faithful(cfg, dev, items, skip, peers, at, 50, o)
            else o.device.None? && o.exchanges == []
  {
    hide Encrypts, Faithful;
    if AllHavePort(items) {
      AttemptRequests(cfg, dev, {}, items, skip, peers, at, 1, []);
    }
  }

  // Without payload cryptography.

  /** The items are passed on with their own payloads, frame counters and, as far as they have one, key IDs. */
  ghost predicate PassesOn(s: Session, items: seq<Downlink>, downlinks: seq<Downlink>) {
    && |downlinks| == |items|
    && forall j | 0 <= j < |items| ::
         downlinks[j] == items[j].(sessionKeyId := if items[j].sessionKeyId == [] then s.keyId else items[j].sessionKeyId, decodedPayload := None)
  }

  ghost predicate SegmentPassesOn(cfg: Config, s: Option<Session>, skip: seq<Bytes>, items: seq<Downlink>,
      downlinks: seq<Downlink>) {
    && (s.Some? && s.value.keyId !in skip && AppSKey(cfg.crypto, s.value).None? ==> PassesOn(s.value, items, downlinks))
    && (s.None? || s.value.keyId in skip ==> downlinks == [])
  }

  /** With payload cryptography switched off there is one request and no retry, and for sessions without a key
      the items are passed on. */
  lemma SkippingSendsOnce(cfg: Config, dev: Device, items: seq<Downlink>, skip: seq<Bytes>, peers: Peers, at: nat)
    requires SkipFlag(cfg, dev)
    ensures var o := QueueOp(cfg, dev, items, skip, peers, at);
            && |o.exchanges| <= 1
            && (o.device.Some? <==> LastAccepted(o, peers, at))
            && forall e | e in o.exchanges ::
                 && e.before == dev
                 && SegmentPassesOn(cfg, dev.session, skip, items, e.current)
                 && SegmentPassesOn(cfg, dev.pending, skip, items, e.pending)
  {
    hide BuildSessions, PassesOn;
    if AllHavePort(items) && AttemptOnce(cfg, dev, items, skip).Some? {
      SegmentSkips(cfg, dev, dev.session, items, skip);
      SegmentSkips(cfg, dev, dev.pending, items, skip);
    }
  }

  lemma SegmentSkips(cfg: Config, dev: Device, s: Option<Session>, items: seq<Downlink>, skip: seq<Bytes>)
    requires SkipFlag(cfg, dev) && EncryptFor(cfg, dev, s, items, skip).Some?
    ensures SegmentPassesOn(cfg, s, skip, items, EncryptFor(cfg, dev, s, items, skip).value.0)
  {
    if Eligible(s, skip) && AppSKey(cfg.crypto, s.value).None? {
      SkippedItemsUntouched(cfg.crypto, s.value, items);
    }
  }

  // What is sent.

  ghost function Requests(exchanges: seq<Exchange>): seq<Request> {
    seq(|exchanges|, i requires 0 <= i < |exchanges| => RequestOf(exchanges[i]))
  }

  /** A request names the device's address and lists the items once per session that is not left out: first
      for the current session, then for the pending one, each time under the session's key ID, with its next
      frame counters and enciphered for it. */
  ghost predicate RequestServes(cfg: Config, dev: Device, skip: seq<Bytes>, items: seq<Downlink>, r: Request) {
    var n := if dev.session.Some? && dev.session.value.keyId !in skip then |items| else 0;
    && r.devAddr == dev.devAddr
    && n <= |r.downlinks|
    && SegmentCarries(cfg, dev.session, skip, items, r.downlinks[..n])
    && SegmentCarries(cfg, dev.pending, skip, items, r.downlinks[n..])
  }

  lemma ExchangeServes(cfg: Config, skip: seq<Bytes>, items: seq<Downlink>, exchanges: seq<Exchange>)
    requires forall e | e in exchanges :: ExchangeCarries(cfg, skip, items, e)
    ensures |Requests(exchanges)| == |exchanges|
    ensures forall i | 0 <= i < |exchanges| :: RequestServes(cfg, exchanges[i].before, skip, items, Requests(exchanges)[i])
  {
    forall i | 0 <= i < |exchanges|
      ensures RequestServes(cfg, exchanges[i].before, skip, items, Requests(exchanges)[i])
    {
      var e := exchanges[i];
      assert e in exchanges && ExchangeCarries(cfg, skip, items, e);
      assert (e.current + e.pending)[..|e.current|] == e.current;
      assert (e.current + e.pending)[|e.current|..] == e.pending;
    }
  }
}
