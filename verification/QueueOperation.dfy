/** The downlink queue operation as it updates devices, sessions and messages in place. */
module QueueOperation {
  import opened Wrappers
  import opened Payload
  import opened DownlinkQueue

  class SessionRecord {
    const devAddr: Option<Addr>
    const keyId: Bytes
    const appSKey: Option<Bytes>
    var lastAFCntDown: Counter

    constructor (s: Session)
      ensures View() == s
    {
      devAddr, keyId, appSKey, lastAFCntDown := s.devAddr, s.keyId, s.appSKey, s.lastAFCntDown;
    }

    function View(): Session
      reads this
    {
      Session(devAddr, keyId, appSKey, lastAFCntDown)
    }
  }

  class ApplicationDownlink {
    const sessionKeyId: Bytes
    const fPort: nat
    const fCnt: Counter
    var frmPayload: Bytes
    var decodedPayload: Option<Bytes>
    const confirmed: bool
    const classBC: Option<Bytes>
    const priority: nat
    const correlationIds: seq<string>
    var confirmedRetry: Option<ConfirmedRetry>

    constructor (d: Downlink)
      ensures View() == d
    {
      sessionKeyId, fPort, fCnt, frmPayload, decodedPayload := d.sessionKeyId, d.fPort, d.fCnt, d.frmPayload, d.decodedPayload;
      confirmed, classBC, priority, correlationIds, confirmedRetry := d.confirmed, d.classBC, d.priority, d.correlationIds, d.confirmedRetry;
    }

    function View(): Downlink
      reads this
    {
      Downlink(sessionKeyId, fPort, fCnt, frmPayload, decodedPayload, confirmed, classBC, priority, correlationIds, confirmedRetry)
    }
  }

  class EndDevice {
    var devAddr: Option<Addr>
    var session: SessionRecord?
    var pendingSession: SessionRecord?
    const skipOverride: Option<bool>

    constructor (d: Device)
      ensures Valid() && View() == d
      ensures fresh(Footprint())
    {
      devAddr, skipOverride := d.devAddr, d.skipOverride;
      session, pendingSession := null, null;
      new;
      if d.session.Some? {
        session := new SessionRecord(d.session.value);
      }
      if d.pending.Some? {
        pendingSession := new SessionRecord(d.pending.value);
      }
    }

    /** No update of one session is an update of the other. */
    ghost predicate Valid()
      reads this
    {
      session != null ==> session != pendingSession
    }

    ghost function Footprint(): set<object>
      reads this
    {
      {this} + (if session != null then {session} else {}) + (if pendingSession != null then {pendingSession} else {})
    }

    function View(): Device
      reads this, session, pendingSession
    {
      Device(devAddr, ViewOf(session), ViewOf(pendingSession), skipOverride)
    }
  }

  function ViewOf(s: SessionRecord?): Option<Session>
    reads s
  {
    if s == null then None else Some(s.View())
  }

  function Views(items: seq<ApplicationDownlink>): (r: seq<Downlink>)
    reads items
    ensures |r| == |items|
  {
    seq(|items|, i requires 0 <= i < |items| reads items => items[i].View())
  }

  // The peers.

  class NetworkServer {
    const peers: Peers
    var requests: seq<Request>

    constructor (peers: Peers)
      ensures this.peers == peers && requests == []
    {
      this.peers, requests := peers, [];
    }

    method Operation(request: Request) returns (answer: Answer)
      modifies this
      ensures requests == old(requests) + [request]
      ensures answer == peers.answers(|old(requests)|)
    {
      answer := peers.answers(|requests|);
      requests := requests + [request];
    }
  }

  /** What the result function of a queue operation is called with. */
  datatype Result = Result(decrypted: seq<Downlink>, encrypted: seq<Downlink>, succeeded: bool)

  class ResultFunc {
    var calls: seq<Result>

    constructor ()
      ensures calls == []
    {
      calls := [];
    }

    method Call(result: Result)
      modifies this
      ensures calls == old(calls) + [result]
    {
      calls := calls + [result];
    }
  }

  // Encryption and decryption.

  method EncryptDownlink(crypto: Crypto, session: SessionRecord, downlink: ApplicationDownlink) returns (ok: bool)
    modifies downlink`frmPayload
    ensures ok <==> AppSKey(crypto, session.View()).Some?
    ensures ok ==>
              var key := AppSKey(crypto, session.View()).value;
              downlink.View() == old(downlink.View()).(
                frmPayload := CryptPayload(crypto, key, OrZero(session.devAddr), downlink.fCnt, old(downlink.frmPayload)))
    ensures !ok ==> unchanged(downlink)
  {
    if session.appSKey.None? {
      return false;
    }
    var key := crypto.unwrap(session.appSKey.value);
    if key.None? {
      return false;
    }
    downlink.frmPayload := CryptPayload(crypto, key.value, OrZero(session.devAddr), downlink.fCnt, downlink.frmPayload);
    return true;
  }

  /** An item for one session: it is copied, and only the copy is encrypted. */
  method EncryptCopy(crypto: Crypto, skipFlag: bool, item: Downlink, session: SessionRecord) returns (r: Option<ApplicationDownlink>)
    ensures r.Some? <==> EncryptItem(crypto, skipFlag, session.View(), item).Some?
    ensures r.Some? ==> fresh(r.value) && EncryptItem(crypto, skipFlag, session.View(), item) == Some(r.value.View())
  {
    var skip := SkipPayloadCrypto(crypto, skipFlag, Some(session.View()));
    var fCnt := NextFCnt(session.lastAFCntDown);
    var keyId := session.keyId;
    if skip {
      fCnt := item.fCnt;
      if |item.sessionKeyId| > 0 {
        keyId := item.sessionKeyId;
      }
    }
    var encryptedItem := new ApplicationDownlink(item.(sessionKeyId := keyId, fCnt := fCnt));
    if !skip {
      var ok := EncryptDownlink(crypto, session, encryptedItem);
      if !ok {
        return None;
      }
    }
    encryptedItem.decodedPayload := None;
    return Some(encryptedItem);
  }

  /** The items for one session, whose frame counter moves on with each of them. If it fails, it does so
      for the first item, before the counter has moved. */
  method EncryptForSession(crypto: Crypto, skipFlag: bool, items: seq<ApplicationDownlink>, session: SessionRecord)
    returns (r: Option<seq<ApplicationDownlink>>)
    modifies session`lastAFCntDown
    ensures r.Some? <==> EncryptItems(crypto, skipFlag, old(session.View()), Views(items)).Some?
    ensures r.Some? ==>
              && (forall d | d in r.value :: fresh(d))
              && EncryptItems(crypto, skipFlag, old(session.View()), Views(items)) == Some(Encrypted(Views(r.value), session.lastAFCntDown))
    ensures r.None? ==> unchanged(session)
  {
    ghost var s, all := session.View(), Views(items);
    var encryptedItems: seq<ApplicationDownlink> := [];
    for i := 0 to |items|
      invariant Views(items) == all
      invariant forall d | d in encryptedItems :: fresh(d)
      invariant EncryptItems(crypto, skipFlag, s, all[..i]) == Some(Encrypted(Views(encryptedItems), session.lastAFCntDown))
    {
      EncryptPrefix(crypto, skipFlag, s, all, i);
      EncryptStep(crypto, skipFlag, s, all, i);
      assert all[i] == items[i].View();
      ghost var before := Views(encryptedItems);
      var encryptedItem := EncryptCopy(crypto, skipFlag, items[i].View(), session);
      if encryptedItem.None? {
        FirstItemDecides(crypto, skipFlag, s, all[..i]);
        return None;
      }
      session.lastAFCntDown := encryptedItem.value.fCnt;
      encryptedItems := encryptedItems + [encryptedItem.value];
      assert Views(encryptedItems) == before + [encryptedItem.value.View()];
    }
    assert all[..|items|] == all;
    return Some(encryptedItems);
  }

  /** Whether items can be encrypted for a session does not depend on the items. */
  lemma {:induction false} FirstItemDecides(crypto: Crypto, skipFlag: bool, s: Session, items: seq<Downlink>)
    requires EncryptItems(crypto, skipFlag, s, items).Some?
    ensures items != [] ==> SkipPayloadCrypto(crypto, skipFlag, Some(s)) || AppSKey(crypto, s).Some?
    ensures items == [] ==> EncryptItems(crypto, skipFlag, s, items).value.last == s.lastAFCntDown
  {
  }

  lemma EncryptStep(crypto: Crypto, skipFlag: bool, s: Session, items: seq<Downlink>, i: nat)
    requires i < |items| && EncryptItems(crypto, skipFlag, s, items[..i]).Some?
    ensures var e := EncryptItems(crypto, skipFlag, s, items[..i]).value;
            var d := EncryptItem(crypto, skipFlag, s.(lastAFCntDown := e.last), items[i]);
            EncryptItems(crypto, skipFlag, s, items[..i + 1]) ==
            if d.Some? then Some(Encrypted(e.downlinks + [d.value], d.value.fCnt)) else None
  {
    assert items[..i + 1][..i] == items[..i];
  }

  /** Encryption of all items fails if it fails for a prefix, and goes on one item at a time. */
  lemma {:induction false} EncryptPrefix(crypto: Crypto, skipFlag: bool, s: Session, items: seq<Downlink>, i: nat)
    requires i < |items|
    ensures EncryptItems(crypto, skipFlag, s, items[..i + 1]).None? ==> EncryptItems(crypto, skipFlag, s, items).None?
    decreases |items|
  {
    if i + 1 < |items| {
      assert items[..|items| - 1][..i + 1] == items[..i + 1];
      EncryptPrefix(crypto, skipFlag, s, items[..|items| - 1], i);
    } else {
      assert items[..i + 1] == items;
    }
  }

  function SessionViews(sessions: seq<SessionRecord>): (r: seq<Session>)
    reads sessions
    ensures |r| == |sessions|
  {
    seq(|sessions|, i requires 0 <= i < |sessions| reads sessions => sessions[i].View())
  }

  ghost predicate Distinct(sessions: seq<SessionRecord>) {
    forall i, j | 0 <= i < j < |sessions| :: sessions[i] != sessions[j]
  }

  /** All items for each session in turn, and the sessions with their counters moved on. */
  ghost function EncryptAll(crypto: Crypto, skipFlag: bool, sessions: seq<Session>, items: seq<Downlink>): Option<(seq<Downlink>, seq<Session>)> {
    if sessions == [] then Some(([], []))
    else
      match EncryptAll(crypto, skipFlag, sessions[..|sessions| - 1], items)
      case None => None
      case Some((downlinks, updated)) =>
        var s := sessions[|sessions| - 1];
        match EncryptItems(crypto, skipFlag, s, items)
        case None => None
        case Some(e) => Some((downlinks + e.downlinks, updated + [s.(lastAFCntDown := e.last)]))
  }

  lemma {:induction false} EncryptAllPrefix(crypto: Crypto, skipFlag: bool, sessions: seq<Session>,
      items: seq<Downlink>, i: nat)
    requires i < |sessions|
    ensures EncryptAll(crypto, skipFlag, sessions[..i + 1], items).None? ==> EncryptAll(crypto, skipFlag, sessions, items).None?
    decreases |sessions|
  {
    if i + 1 < |sessions| {
      assert sessions[..|sessions| - 1][..i + 1] == sessions[..i + 1];
      EncryptAllPrefix(crypto, skipFlag, sessions[..|sessions| - 1], items, i);
    } else {
      assert sessions[..i + 1] == sessions;
    }
  }

  lemma EncryptAllStep(crypto: Crypto, skipFlag: bool, sessions: seq<Session>, items: seq<Downlink>, i: nat)
    requires i < |sessions| && EncryptAll(crypto, skipFlag, sessions[..i], items).Some?
    ensures var (downlinks, updated) := EncryptAll(crypto, skipFlag, sessions[..i], items).value;
            var e := EncryptItems(crypto, skipFlag, sessions[i], items);
            EncryptAll(crypto, skipFlag, sessions[..i + 1], items) ==
            if e.Some? then Some((downlinks + e.value.downlinks, updated + [sessions[i].(lastAFCntDown := e.value.last)])) else None
  {
    assert sessions[..i + 1][..i] == sessions[..i];
  }

  /** The sessions after a failure for one of them: the counters of those before it have moved on. */
  ghost predicate StopsAt(crypto: Crypto, skipFlag: bool, sessions: seq<Session>, items: seq<Downlink>, after: seq<Session>,
      i: nat) {
    && i < |sessions|
    && EncryptItems(crypto, skipFlag, sessions[i], items).None?
    && EncryptAll(crypto, skipFlag, sessions[..i], items).Some?
    && after == EncryptAll(crypto, skipFlag, sessions[..i], items).value.1 + sessions[i..]
  }

  lemma ViewsConcat(a: seq<ApplicationDownlink>, b: seq<ApplicationDownlink>)
    ensures Views(a + b) == Views(a) + Views(b)
  {
  }

  lemma SessionViewsPush(sessions: seq<SessionRecord>, i: nat)
    requires i < |sessions|
    ensures SessionViews(sessions[..i + 1]) == SessionViews(sessions[..i]) + [sessions[i].View()]
  {
  }

  lemma SessionViewsSplit(sessions: seq<SessionRecord>, i: nat, updated: seq<Session>, before: seq<Session>)
    requires i <= |sessions| == |before| && SessionViews(sessions[..i]) == updated
    requires forall k | i <= k < |sessions| :: sessions[k].View() == before[k]
    ensures SessionViews(sessions) == updated + before[i..]
  {
  }

  method EncryptDownlinks(crypto: Crypto, skipFlag: bool, items: seq<ApplicationDownlink>, sessions: seq<SessionRecord>)
    returns (r: Option<seq<ApplicationDownlink>>)
    requires Distinct(sessions)
    modifies sessions
    ensures r.Some? <==> EncryptAll(crypto, skipFlag, old(SessionViews(sessions)), Views(items)).Some?
    ensures r.Some? ==>
              && (forall d | d in r.value :: fresh(d))
              && EncryptAll(crypto, skipFlag, old(SessionViews(sessions)), Views(items)) == Some((Views(r.value), SessionViews(sessions)))
    ensures r.None? ==> exists i :: StopsAt(crypto, skipFlag, old(SessionViews(sessions)), Views(items), SessionViews(sessions), i)
  {
    ghost var ss, all := SessionViews(sessions), Views(items);
    var encryptedItems: seq<ApplicationDownlink> := [];
    for i := 0 to |sessions|
      invariant Views(items) == all
      invariant forall d | d in encryptedItems :: fresh(d)
      invariant forall k | i <= k < |sessions| :: sessions[k].View() == ss[k]
      invariant EncryptAll(crypto, skipFlag, ss[..i], all) == Some((Views(encryptedItems), SessionViews(sessions[..i])))
    {
      EncryptAllPrefix(crypto, skipFlag, ss, all, i);
      EncryptAllStep(crypto, skipFlag, ss, all, i);
      ghost var before, updated := Views(encryptedItems), SessionViews(sessions[..i]);
      var segment := EncryptForSession(crypto, skipFlag, items, sessions[i]);
      if segment.None? {
        SessionViewsSplit(sessions, i, updated, ss);
        assert StopsAt(crypto, skipFlag, ss, all, SessionViews(sessions), i);
        return None;
      }
      assert Views(encryptedItems) == before;
      ViewsConcat(encryptedItems, segment.value);
      SessionViewsPush(sessions, i);
      assert SessionViews(sessions[..i]) == updated;
      encryptedItems := encryptedItems + segment.value;
    }
    assert ss[..|sessions|] == ss && sessions[..|sessions|] == sessions;
    return Some(encryptedItems);
  }

  method DecryptDownlink(crypto: Crypto, dev: EndDevice, downlink: ApplicationDownlink, ternarySession: SessionRecord?) returns (ok: bool)
    modifies downlink`frmPayload
    ensures var ring := KeyRing(dev.View().session, dev.View().pending, ViewOf(ternarySession));
            var r := Payload.DecryptDownlink(crypto, ring, old(downlink.View()));
            && (ok <==> r.Some?)
            && downlink.View() == if ok then r.value else old(downlink.View())
  {
    var session: SessionRecord;
    if dev.session != null && dev.session.keyId == downlink.sessionKeyId {
      session := dev.session;
    } else if dev.pendingSession != null && dev.pendingSession.keyId == downlink.sessionKeyId {
      session := dev.pendingSession;
    } else if ternarySession != null && ternarySession.keyId == downlink.sessionKeyId {
      session := ternarySession;
    } else {
      return false;
    }
    if session.appSKey.None? {
      return false;
    }
    var key := crypto.unwrap(session.appSKey.value);
    if key.None? {
      return false;
    }
    downlink.frmPayload := CryptPayload(crypto, key.value, OrZero(session.devAddr), downlink.fCnt, downlink.frmPayload);
    return true;
  }

  // Rebuilding sessions.

  /** Updates a session in place or replaces it by one with a fetched key. */
  method RebuildSessionRecord(s: SessionRecord?, addr: Addr, keyId: Bytes, min: Counter, fetched: Fetched) returns (r: SessionRecord?)
    modifies s
    ensures (r != null) <==> RebuildSession(old(ViewOf(s)), addr, keyId, min, fetched).Some?
    ensures r != null ==> ViewOf(r) == RebuildSession(old(ViewOf(s)), addr, keyId, min, fetched)
    ensures r == null || r == s || fresh(r)
    ensures r == null ==> ViewOf(s) == old(ViewOf(s))
    ensures r == s && s != null <==> SameSession(old(ViewOf(s)), keyId, addr)
  {
    if s != null && s.keyId == keyId && OrZero(s.devAddr) == addr {
      s.lastAFCntDown := LastAFCntDownFromMinFCnt(min);
      return s;
    }
    if |keyId| == 0 || fetched.Unavailable? {
      return null;
    }
    r := new SessionRecord(Session(Some(addr), keyId, fetched.appSKey, LastAFCntDownFromMinFCnt(min)));
  }

  /** What a failed rebuild leaves behind: nothing rebuilt, or only the current session. */
  function HalfBuilt(dev: Device, answer: Answer, peers: Peers, at: nat): Device
    requires answer.Rejected?
  {
    if answer.diagnostics.None? then dev
    else
      match BuildCurrent(dev, answer.diagnostics.value, peers, at)
      case None => dev
      case Some(half) => half
  }

  method BuildCurrentSession(dev: EndDevice, diag: Diagnostics, peers: Peers, at: nat) returns (ok: bool)
    requires dev.Valid()
    modifies dev, dev.session
    ensures dev.Valid() && dev.pendingSession == old(dev.pendingSession)
    ensures dev.session == null || dev.session == old(dev.session) || fresh(dev.session)
    ensures ok <==> BuildCurrent(old(dev.View()), diag, peers, at).Some?
    ensures dev.View() == if ok then BuildCurrent(old(dev.View()), diag, peers, at).value else old(dev.View())
  {
    if diag.devAddr.None? {
      dev.session := null;
      dev.devAddr := None;
      return true;
    }
    var same := SameSession(ViewOf(dev.session), diag.keyId, diag.devAddr.value);
    var fetched := peers.keys(diag.keyId, 2 * at);
    var session := RebuildSessionRecord(dev.session, diag.devAddr.value, diag.keyId, diag.minFCntDown, fetched);
    if session == null {
      return false;
    }
    if !same {
      dev.session := session;
      dev.devAddr := session.devAddr;
    }
    return true;
  }

  method BuildPendingSession(dev: EndDevice, diag: Diagnostics, peers: Peers, at: nat) returns (ok: bool)
    requires dev.Valid()
    modifies dev, dev.pendingSession
    ensures dev.Valid() && dev.session == old(dev.session)
    ensures dev.pendingSession == null || dev.pendingSession == old(dev.pendingSession) || fresh(dev.pendingSession)
    ensures ok <==> BuildPending(old(dev.View()), diag, peers, at).Some?
    ensures dev.View() == if ok then BuildPending(old(dev.View()), diag, peers, at).value else old(dev.View())
  {
    if diag.pendingDevAddr.None? {
      dev.pendingSession := null;
      return true;
    }
    var fetched := peers.keys(diag.pendingKeyId, 2 * at + 1);
    var session := RebuildSessionRecord(dev.pendingSession, diag.pendingDevAddr.value, diag.pendingKeyId, diag.pendingMinFCntDown, fetched);
    if session == null {
      return false;
    }
    dev.pendingSession := session;
    return true;
  }

  method BuildSessionsFromError(dev: EndDevice, answer: Answer, peers: Peers, at: nat) returns (r: Option<set<Field>>)
    requires dev.Valid() && answer.Rejected?
    modifies dev, dev.session, dev.pendingSession
    ensures dev.Valid()
    ensures dev.session == null || dev.session == old(dev.session) || fresh(dev.session)
    ensures dev.pendingSession == null || dev.pendingSession == old(dev.pendingSession) || fresh(dev.pendingSession)
    ensures r.Some? <==> answer.diagnostics.Some? && BuildSessions(old(dev.View()), answer.diagnostics.value, peers, at).Some?
    ensures r.Some? ==> r.value == SESSION_FIELDS && dev.View() == BuildSessions(old(dev.View()), answer.diagnostics.value, peers, at).value
    ensures r.None? ==> dev.View() == HalfBuilt(old(dev.View()), answer, peers, at)
  {
    hide BuildCurrent, BuildPending;
    if answer.diagnostics.None? {
      return None;
    }
    var mask: set<Field> := {};
    var ok := BuildCurrentSession(dev, answer.diagnostics.value, peers, at);
    if !ok {
      return None;
    }
    mask := mask + {SessionField, DevAddrField};
    ok := BuildPendingSession(dev, answer.diagnostics.value, peers, at);
    if !ok {
      return None;
    }
    mask := mask + {PendingField};
    return Some(mask);
  }

  // The retry loop.

  function EligibleList(s: Option<Session>, skip: seq<Bytes>): seq<Session> {
    if Eligible(s, skip) then [s.value] else []
  }

  lemma EncryptAllOne(crypto: Crypto, skipFlag: bool, s: Session, items: seq<Downlink>)
    ensures EncryptAll(crypto, skipFlag, [s], items) ==
            match EncryptItems(crypto, skipFlag, s, items)
            case None => None
            case Some(e) => Some((e.downlinks, [s.(lastAFCntDown := e.last)]))
  {
    EncryptAllTwo(crypto, skipFlag, [], s, items);
    var e := EncryptItems(crypto, skipFlag, s, items);
    if e.Some? {
      assert [] + e.value.downlinks == e.value.downlinks;
      assert [] + [s.(lastAFCntDown := e.value.last)] == [s.(lastAFCntDown := e.value.last)];
    }
    assert [] + [s] == [s];
  }

  lemma EncryptAllTwo(crypto: Crypto, skipFlag: bool, a: seq<Session>, s: Session, items: seq<Downlink>)
    ensures var ra, e := EncryptAll(crypto, skipFlag, a, items), EncryptItems(crypto, skipFlag, s, items);
            EncryptAll(crypto, skipFlag, a + [s], items) ==
            if ra.Some? && e.Some? then Some((ra.value.0 + e.value.downlinks, ra.value.1 + [s.(lastAFCntDown := e.value.last)])) else None
  {
    assert (a + [s])[..|a|] == a && (a + [s])[|a|] == s;
  }

  lemma EncryptAllSplit(crypto: Crypto, skipFlag: bool, a: seq<Session>, b: seq<Session>, items: seq<Downlink>)
    requires |b| <= 1
    ensures var ra, rb := EncryptAll(crypto, skipFlag, a, items), EncryptAll(crypto, skipFlag, b, items);
            EncryptAll(crypto, skipFlag, a + b, items) ==
            if ra.Some? && rb.Some? then Some((ra.value.0 + rb.value.0, ra.value.1 + rb.value.1)) else None
  {
    var ra := EncryptAll(crypto, skipFlag, a, items);
    if b == [] {
      assert a + b == a;
      if ra.Some? {
        assert ra.value.0 + [] == ra.value.0;
        assert ra.value.1 + [] == ra.value.1;
      }
    } else {
      assert b == [b[0]];
      EncryptAllTwo(crypto, skipFlag, a, b[0], items);
      EncryptAllOne(crypto, skipFlag, b[0], items);
    }
  }

  lemma SlotIsEncryptAll(cfg: Config, dev: Device, s: Option<Session>, items: seq<Downlink>, skip: seq<Bytes>)
    ensures EncryptAll(cfg.crypto, SkipFlag(cfg, dev), EligibleList(s, skip), items) ==
            match EncryptFor(cfg, dev, s, items, skip)
            case None => None
            case Some((downlinks, updated)) => Some((downlinks, EligibleList(updated, skip)))
  {
    if Eligible(s, skip) {
      EncryptAllOne(cfg.crypto, SkipFlag(cfg, dev), s.value, items);
    }
  }

  /** Encrypting for the list of eligible sessions is one attempt. */
  lemma AttemptIsEncryptAll(cfg: Config, dev: Device, items: seq<Downlink>, skip: seq<Bytes>)
    ensures var r := EncryptAll(cfg.crypto, SkipFlag(cfg, dev), EligibleList(dev.session, skip) + EligibleList(dev.pending, skip), items);
            && (r.Some? <==> AttemptOnce(cfg, dev, items, skip).Some?)
            && (r.Some? ==>
                  var (e, dev') := AttemptOnce(cfg, dev, items, skip).value;
                  r.value == (e.current + e.pending, EligibleList(dev'.session, skip) + EligibleList(dev'.pending, skip)))
  {
    SlotIsEncryptAll(cfg, dev, dev.session, items, skip);
    SlotIsEncryptAll(cfg, dev, dev.pending, items, skip);
    EncryptAllSplit(cfg.crypto, SkipFlag(cfg, dev), EligibleList(dev.session, skip), EligibleList(dev.pending, skip), items);
  }

  /** The lists of eligible sessions determine the device. */
  lemma SameEligible(a: Device, b: Device, skip: seq<Bytes>)
    requires Eligible(a.session, skip) <==> Eligible(b.session, skip)
    requires Eligible(a.pending, skip) <==> Eligible(b.pending, skip)
    requires EligibleList(a.session, skip) + EligibleList(a.pending, skip) == EligibleList(b.session, skip) + EligibleList(b.pending, skip)
    requires !Eligible(a.session, skip) ==> a.session == b.session
    requires !Eligible(a.pending, skip) ==> a.pending == b.pending
    requires a.devAddr == b.devAddr && a.skipOverride == b.skipOverride
    ensures a == b
  {
    var la := EligibleList(a.session, skip) + EligibleList(a.pending, skip);
    var lb := EligibleList(b.session, skip) + EligibleList(b.pending, skip);
    assert la == lb;
    if Eligible(a.session, skip) {
      assert la[0] == a.session.value && lb[0] == b.session.value;
    }
    if Eligible(a.pending, skip) {
      assert la[|la| - 1] == a.pending.value && lb[|lb| - 1] == b.pending.value;
    }
  }

  lemma OnceKeepsEligible(cfg: Config, dev: Device, items: seq<Downlink>, skip: seq<Bytes>)
    requires AttemptOnce(cfg, dev, items, skip).Some?
    ensures var dev' := AttemptOnce(cfg, dev, items, skip).value.1;
            && (Eligible(dev.session, skip) <==> Eligible(dev'.session, skip))
            && (Eligible(dev.pending, skip) <==> Eligible(dev'.pending, skip))
            && (!Eligible(dev.session, skip) ==> dev'.session == dev.session)
            && (!Eligible(dev.pending, skip) ==> dev'.pending == dev.pending)
            && dev'.devAddr == dev.devAddr && dev'.skipOverride == dev.skipOverride
  {
  }

  ghost predicate AreEligible(dev: EndDevice, skip: seq<Bytes>, sessions: seq<SessionRecord>)
    reads dev
  {
    sessions == (if dev.session != null && dev.session.keyId !in skip then [dev.session] else []) +
                (if dev.pendingSession != null && dev.pendingSession.keyId !in skip then [dev.pendingSession] else [])
  }

  lemma EligibleSessionViews(dev: EndDevice, skip: seq<Bytes>, sessions: seq<SessionRecord>)
    requires AreEligible(dev, skip, sessions)
    ensures SessionViews(sessions) == EligibleList(dev.View().session, skip) + EligibleList(dev.View().pending, skip)
  {
  }

  method EligibleSessions(dev: EndDevice, skip: seq<Bytes>) returns (sessions: seq<SessionRecord>)
    requires dev.Valid()
    ensures AreEligible(dev, skip, sessions) && Distinct(sessions)
  {
    sessions := [];
    if dev.session != null && dev.session.keyId !in skip {
      sessions := sessions + [dev.session];
    }
    if dev.pendingSession != null && dev.pendingSession.keyId !in skip {
      sessions := sessions + [dev.pendingSession];
    }
  }

  /** Encrypts the items for the eligible sessions of the device. */
  method EncryptForDevice(cfg: Config, dev: EndDevice, items: seq<ApplicationDownlink>, skip: seq<Bytes>)
    returns (r: Option<seq<ApplicationDownlink>>)
    requires dev.Valid()
    modifies dev.session, dev.pendingSession
    ensures unchanged(dev)
    ensures r.Some? <==> AttemptOnce(cfg, old(dev.View()), Views(items), skip).Some?
    ensures r.Some? ==>
              && (forall d | d in r.value :: fresh(d))
              && var (e, dev') := AttemptOnce(cfg, old(dev.View()), Views(items), skip).value;
                 Views(r.value) == e.current + e.pending && dev.View() == dev'
  {
    hide AttemptOnce, EncryptAll;
    ghost var before, all := dev.View(), Views(items);
    AttemptIsEncryptAll(cfg, before, all, skip);
    var sessions := EligibleSessions(dev, skip);
    EligibleSessionViews(dev, skip, sessions);
    r := EncryptDownlinks(cfg.crypto, SkipFlag(cfg, dev.View()), items, sessions);
    assert Views(items) == all;
    if r.Some? {
      EligibleSessionViews(dev, skip, sessions);
      OnceKeepsEligible(cfg, before, all, skip);
      SameEligible(dev.View(), AttemptOnce(cfg, before, all, skip).value.1, skip);
    }
  }

  method AttemptDownlinkQueueOp(cfg: Config, dev: EndDevice, ns: NetworkServer, items: seq<ApplicationDownlink>,
      skip: seq<Bytes>, resultFunc: ResultFunc)
    returns (r: Option<set<Field>>)
    requires dev.Valid()
    modifies dev, dev.session, dev.pendingSession, ns, resultFunc
    ensures dev.Valid()
    ensures var o := QueueOp(cfg, old(dev.View()), Views(items), skip, ns.peers, |old(ns.requests)|);
            && (r.Some? <==> o.device.Some?)
            && (r.Some? ==> r.value == o.mask && dev.View() == o.device.value)
            && ns.requests == old(ns.requests) + Requests(o.exchanges)
            && resultFunc.calls == old(resultFunc.calls) + [Result(Views(items), o.encrypted, r.Some?)]
            && (Encrypts(cfg, old(dev.View()), skip) ==> Serves(cfg, o.exchanges, skip, Views(items), ns.requests[|old(ns.requests)|..]))
  {
    ghost var o := QueueOp(cfg, dev.View(), Views(items), skip, ns.peers, |ns.requests|);
    var encryptedItems: seq<ApplicationDownlink> := [];
    for i := 0 to |items|
      invariant forall j | 0 <= j < i :: items[j].fPort != 0
    {
      if items[i].fPort == 0 {
        assert Views(items)[i].fPort == 0;
        resultFunc.Call(Result(Views(items), [], false));
        return None;
      }
    }
    assert forall d | d in Views(items) :: d.fPort != 0;
    ghost var done;
    r, encryptedItems, done := AttemptUntilAccepted(cfg, dev, ns, items, skip);
    resultFunc.Call(Result(Views(items), Views(encryptedItems), r.Some?));
    SentServes(cfg, old(dev.View()), Views(items), skip, ns.peers, |old(ns.requests)|);
  }

  /** Each request serves the device that its exchange was made with. */
  ghost predicate Serves(cfg: Config, exchanges: seq<Exchange>, skip: seq<Bytes>, items: seq<Downlink>, sent: seq<Request>) {
    |sent| == |exchanges| && forall i | 0 <= i < |sent| :: RequestServes(cfg, exchanges[i].before, skip, items, sent[i])
  }

  lemma SentServes(cfg: Config, dev: Device, items: seq<Downlink>, skip: seq<Bytes>, peers: Peers, at: nat)
    ensures var o := QueueOp(cfg, dev, items, skip, peers, at);
            Encrypts(cfg, dev, skip) ==> Serves(cfg, o.exchanges, skip, items, Requests(o.exchanges))
  {
    hide ExchangeCarries, RequestServes, QueueOp, FollowsRejection, NothingToTry, CanSend, AdvancedDevice;
    if Encrypts(cfg, dev, skip) {
      QueueOpRequests(cfg, dev, items, skip, peers, at);
      ExchangeServes(cfg, skip, items, QueueOp(cfg, dev, items, skip, peers, at).exchanges);
    }
  }

  /** After the answer to an attempt: rebuilds the sessions if there is to be another one. */
  method RetryInPlace(cfg: Config, dev: EndDevice, answer: Answer, peers: Peers, at: nat, attempt: nat) returns (r: Option<set<Field>>)
    requires dev.Valid() && answer.Rejected?
    modifies dev, dev.session, dev.pendingSession
    ensures dev.Valid()
    ensures dev.session == null || dev.session == old(dev.session) || fresh(dev.session)
    ensures dev.pendingSession == null || dev.pendingSession == old(dev.pendingSession) || fresh(dev.pendingSession)
    ensures r.Some? <==> Retry(cfg, old(dev.View()), answer, peers, at, attempt).Some?
    ensures r.Some? ==> r == Some(SESSION_FIELDS) && Some(dev.View()) == Retry(cfg, old(dev.View()), answer, peers, at, attempt)
  {
    if attempt >= MAX_ATTEMPTS || SkipFlag(cfg, dev.View()) {
      return None;
    }
    r := BuildSessionsFromError(dev, answer, peers, at + 1);
  }

  /** Encrypts the items and sends them to the Network Server. */
  method SendInPlace(cfg: Config, dev: EndDevice, ns: NetworkServer, items: seq<ApplicationDownlink>, skip: seq<Bytes>)
    returns (sent: Option<seq<ApplicationDownlink>>, answer: Answer)
    requires dev.Valid()
    modifies dev.session, dev.pendingSession, ns
    ensures unchanged(dev)
    ensures sent.Some? <==> AttemptOnce(cfg, old(dev.View()), Views(items), skip).Some?
    ensures sent.None? ==> unchanged(ns)
    ensures sent.Some? ==>
              && (forall d | d in sent.value :: fresh(d))
              && var (e, dev') := AttemptOnce(cfg, old(dev.View()), Views(items), skip).value;
                 && Views(sent.value) == e.current + e.pending && dev.View() == dev'
                 && ns.requests == old(ns.requests) + [RequestOf(e)]
                 && answer == ns.peers.answers(|old(ns.requests)|)
  {
    answer := Accepted;
    sent := EncryptForDevice(cfg, dev, items, skip);
    if sent.Some? {
      answer := ns.Operation(Request(dev.devAddr, Views(sent.value)));
    }
  }

  /** One pass of the retry loop; again means that the sessions were rebuilt for another one. */
  method AttemptInPlace(cfg: Config, dev: EndDevice, ns: NetworkServer, items: seq<ApplicationDownlink>,
      skip: seq<Bytes>, mask: set<Field>, attempt: nat, encryptedBefore: seq<ApplicationDownlink>)
    returns (again: bool, r: Option<set<Field>>, encryptedItems: seq<ApplicationDownlink>)
    requires dev.Valid()
    modifies dev, dev.session, dev.pendingSession, ns
    ensures dev.Valid()
    ensures dev.session == null || dev.session == old(dev.session) || fresh(dev.session)
    ensures dev.pendingSession == null || dev.pendingSession == old(dev.pendingSession) || fresh(dev.pendingSession)
    ensures match AttemptVerdict(cfg, old(dev.View()), mask, Views(items), skip, ns.peers, |old(ns.requests)|, attempt,
                                 old(Views(encryptedBefore)))
            case Stop(o) =>
              && !again
              && Concludes(dev.View(), r, Views(encryptedItems), o.exchanges, o)
              && ns.requests == old(ns.requests) + Requests(o.exchanges)
            case Again(e, rebuilt) =>
              && again
              && r == Some(SESSION_FIELDS) && dev.View() == rebuilt
              && ns.requests == old(ns.requests) + [RequestOf(e)]
              && Views(encryptedItems) == e.current + e.pending
  {
    hide AttemptOnce, Retry;
    ghost var before := ns.requests;
    RequestsConcat(before, [], []);
    var changed := mask + CounterFields(dev.View(), skip);
    if (dev.session == null || dev.session.keyId in skip) && (dev.pendingSession == null || dev.pendingSession.keyId in skip) {
      return false, None, encryptedBefore;
    }
    ghost var once := AttemptOnce(cfg, dev.View(), Views(items), skip);
    var sent, answer := SendInPlace(cfg, dev, ns, items, skip);
    if sent.None? {
      return false, None, [];
    }
    encryptedItems := sent.value;
    ghost var views := Views(encryptedItems);
    RequestsConcat(before, [], [once.value.0]);
    if answer.Accepted? {
      return false, Some(changed), encryptedItems;
    }
    r := RetryInPlace(cfg, dev, answer, ns.peers, |ns.requests| - 1, attempt);
    assert Views(encryptedItems) == views;
    again := r.Some?;
  }

  lemma AgainLeavesAttempts(cfg: Config, dev: Device, mask: set<Field>, items: seq<Downlink>, skip: seq<Bytes>,
      peers: Peers, at: nat, attempt: nat, encrypted: seq<Downlink>)
    ensures AttemptVerdict(cfg, dev, mask, items, skip, peers, at, attempt, encrypted).Again? ==> attempt < MAX_ATTEMPTS
  {
  }

  /** The same pass as a step of the whole operation, of which e is the exchange made, if any. */
  method NextAttempt(cfg: Config, dev: EndDevice, ns: NetworkServer, items: seq<ApplicationDownlink>,
      skip: seq<Bytes>, mask: set<Field>, attempt: nat, encryptedBefore: seq<ApplicationDownlink>)
    returns (again: bool, r: Option<set<Field>>, encryptedItems: seq<ApplicationDownlink>, ghost made: seq<Exchange>)
    requires dev.Valid() && 1 <= attempt <= MAX_ATTEMPTS
    modifies dev, dev.session, dev.pendingSession, ns
    ensures dev.Valid()
    ensures dev.session == null || dev.session == old(dev.session) || fresh(dev.session)
    ensures dev.pendingSession == null || dev.pendingSession == old(dev.pendingSession) || fresh(dev.pendingSession)
    ensures ns.requests == old(ns.requests) + Requests(made)
    ensures var o := Attempt(cfg, old(dev.View()), mask, Views(items), skip, ns.peers, |old(ns.requests)|, attempt,
                             old(Views(encryptedBefore)));
            if again then
              && attempt < MAX_ATTEMPTS && r.Some?
              && o == After(made, Attempt(cfg, dev.View(), r.value, Views(items), skip, ns.peers, |ns.requests|, attempt + 1,
                                          Views(encryptedItems)))
            else
              Concludes(dev.View(), r, Views(encryptedItems), made, o)
  {
    hide AttemptVerdict;
    ghost var v := AttemptVerdict(cfg, dev.View(), mask, Views(items), skip, ns.peers, |ns.requests|, attempt, Views(encryptedBefore));
    AgainLeavesAttempts(cfg, dev.View(), mask, Views(items), skip, ns.peers, |ns.requests|, attempt, Views(encryptedBefore));
    made := if v.Stop? then v.outcome.exchanges else [v.exchange];
    assert v.Again? ==> Requests(made) == [RequestOf(v.exchange)];
    again, r, encryptedItems := AttemptInPlace(cfg, dev, ns, items, skip, mask, attempt, encryptedBefore);
  }

  /** The result of the operation is the specified outcome. */
  ghost predicate Concludes(dev: Device, r: Option<set<Field>>, encrypted: seq<Downlink>, exchanges: seq<Exchange>,
      o: Outcome) {
    && (r.Some? <==> o.device.Some?)
    && (r.Some? ==> r.value == o.mask && dev == o.device.value)
    && exchanges == o.exchanges
    && encrypted == o.encrypted
  }

  method AttemptUntilAccepted(cfg: Config, dev: EndDevice, ns: NetworkServer, items: seq<ApplicationDownlink>,
      skip: seq<Bytes>)
    returns (r: Option<set<Field>>, encryptedItems: seq<ApplicationDownlink>, ghost done: seq<Exchange>)
    requires dev.Valid()
    modifies dev, dev.session, dev.pendingSession, ns
    ensures dev.Valid()
    ensures ns.requests == old(ns.requests) + Requests(done)
    ensures Concludes(dev.View(), r, Views(encryptedItems), done,
                      Attempt(cfg, old(dev.View()), {}, Views(items), skip, ns.peers, |old(ns.requests)|, 1, []))
  {
    hide Attempt;
    ghost var all := Views(items);
    ghost var o := Attempt(cfg, dev.View(), {}, all, skip, ns.peers, |ns.requests|, 1, []);
    done := [];
    r, encryptedItems := Some({}), [];
    var attempt := 1;
    var again := true;
    AfterNothing(o);
    assert Views([]) == [] && Requests([]) == [];
    assert ns.requests + [] == ns.requests;
    while again
      invariant 1 <= attempt <= MAX_ATTEMPTS && dev.Valid() && Views(items) == all
      invariant dev.session == null || dev.session == old(dev.session) || fresh(dev.session)
      invariant dev.pendingSession == null || dev.pendingSession == old(dev.pendingSession) || fresh(dev.pendingSession)
      invariant ns.requests == old(ns.requests) + Requests(done)
      invariant again ==> r.Some?
      invariant again ==> o == After(done, Attempt(cfg, dev.View(), r.value, all, skip, ns.peers, |ns.requests|, attempt,
                                                   Views(encryptedItems)))
      invariant !again ==> Concludes(dev.View(), r, Views(encryptedItems), done, o)
      decreases again, MAX_ATTEMPTS - attempt
    {
      ghost var made;
      again, r, encryptedItems, made := NextAttempt(cfg, dev, ns, items, skip, r.value, attempt, encryptedItems);
      RequestsConcat(old(ns.requests), done, made);
      if again {
        attempt := attempt + 1;
        AfterConcat(done, made, Attempt(cfg, dev.View(), r.value, all, skip, ns.peers, |ns.requests|, attempt, Views(encryptedItems)));
      }
      done := done + made;
    }
  }

  ghost function After(done: seq<Exchange>, o: Outcome): Outcome {
    o.(exchanges := done + o.exchanges)
  }

  lemma AfterConcat(done: seq<Exchange>, made: seq<Exchange>, o: Outcome)
    ensures After(done + made, o) == After(done, After(made, o))
  {
    assert done + made + o.exchanges == done + (made + o.exchanges);
  }

  lemma AfterNothing(o: Outcome)
    ensures After([], o) == o
  {
    assert [] + o.exchanges == o.exchanges;
  }

  lemma RequestsConcat(before: seq<Request>, a: seq<Exchange>, b: seq<Exchange>)
    ensures before + Requests(a + b) == before + Requests(a) + Requests(b)
    ensures |b| == 1 ==> Requests(b) == [RequestOf(b[0])]
  {
    assert Requests(a + b) == Requests(a) + Requests(b);
  }
}
