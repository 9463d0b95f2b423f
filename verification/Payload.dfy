/** Application downlinks and their payload encryption. */
module Payload {
  import opened Wrappers

  const UINT32 := 0x1_0000_0000

  type Counter = n: nat | n < UINT32

  type Bytes = seq<bv8>

  type Addr = Counter

  /** A session of a device: session key ID, wrapped AppSKey and last downlink frame counter. */
  datatype Session = Session(devAddr: Option<Addr>, keyId: Bytes, appSKey: Option<Bytes>, lastAFCntDown: Counter)

  datatype ConfirmedRetry = ConfirmedRetry(attempt: Counter, maxAttempts: Option<Counter>)

  datatype Downlink = Downlink(
    sessionKeyId: Bytes,
    fPort: nat,
    fCnt: Counter,
    frmPayload: Bytes,
    decodedPayload: Option<Bytes>,
    confirmed: bool,
    classBC: Option<Bytes>,
    priority: nat,
    correlationIds: seq<string>,
    confirmedRetry: Option<ConfirmedRetry>)

  /** Key unwrapping, and the key stream of section 4.3.3.1 of LoRaWAN 1.0.2 for downlinks:
      the AES encryption of the blocks A_i, which depend on address and frame counter. */
  datatype Crypto = Crypto(
    unwrap: Bytes -> Option<Bytes>,
    keyStream: (Bytes, Addr, Counter, nat) -> bv8)

  function OrZero(addr: Option<Addr>): Addr {
    match addr
    case None => 0
    case Some(a) => a
  }

  function Xor(x: bv8, y: bv8): bv8 {
    x ^ y
  }

  /** Encryption and decryption are the same operation. */
  function CryptPayload(crypto: Crypto, key: Bytes, addr: Addr, fCnt: Counter, payload: Bytes): (r: Bytes)
  {
    seq(|payload|, i requires 0 <= i < |payload| => Xor(payload[i], crypto.keyStream(key, addr, fCnt, i)))
  }

  lemma XorTwice(x: bv8, y: bv8)
    ensures Xor(Xor(x, y), y) == x
  {
  }

  lemma DecryptEncrypted(crypto: Crypto, key: Bytes, addr: Addr, fCnt: Counter, payload: Bytes)
    ensures CryptPayload(crypto, key, addr, fCnt, CryptPayload(crypto, key, addr, fCnt, payload)) == payload
  {
    forall i | 0 <= i < |payload| {
      XorTwice(payload[i], crypto.keyStream(key, addr, fCnt, i));
    }
  }

  /** The cipher text is the plain text combined with the key stream, bit by bit. */
  ghost predicate Ciphers(crypto: Crypto, key: Bytes, addr: Addr, fCnt: Counter, plain: Bytes, cipher: Bytes) {
    |cipher| == |plain| && forall i | 0 <= i < |plain| :: cipher[i] == plain[i] ^ crypto.keyStream(key, addr, fCnt, i)
  }

  /** Encryption gives the one cipher text of a payload, and decryption the one payload of a cipher text. */
  lemma CipherExact(crypto: Crypto, key: Bytes, addr: Addr, fCnt: Counter, plain: Bytes, cipher: Bytes)
    ensures Ciphers(crypto, key, addr, fCnt, plain, cipher) <==> cipher == CryptPayload(crypto, key, addr, fCnt, plain)
    ensures Ciphers(crypto, key, addr, fCnt, plain, cipher) <==> plain == CryptPayload(crypto, key, addr, fCnt, cipher)
  {
    if Ciphers(crypto, key, addr, fCnt, plain, cipher) {
      assert cipher == CryptPayload(crypto, key, addr, fCnt, plain);
    }
    DecryptEncrypted(crypto, key, addr, fCnt, plain);
    DecryptEncrypted(crypto, key, addr, fCnt, cipher);
  }

  // One session.

  /** The AppSKey of a session, if it has one that can be unwrapped. */
  function AppSKey(crypto: Crypto, s: Session): Option<Bytes> {
    if s.appSKey.Some? then crypto.unwrap(s.appSKey.value) else None
  }

  /** Payload cryptography is skipped for a session only if its key is not available. */
  function SkipPayloadCrypto(crypto: Crypto, skipFlag: bool, s: Option<Session>): bool {
    if s.Some? && AppSKey(crypto, s.value).Some? then false else skipFlag
  }

  function NextFCnt(last: Counter): Counter {
    (last + 1) % UINT32
  }

  /** What is sent to the Network Server for an item, if it can be encrypted. */
  function EncryptItem(crypto: Crypto, skipFlag: bool, s: Session, item: Downlink): Option<Downlink> {
    if SkipPayloadCrypto(crypto, skipFlag, Some(s)) then
      Some(item.(sessionKeyId := if |item.sessionKeyId| > 0 then item.sessionKeyId else s.keyId, decodedPayload := None))
    else if AppSKey(crypto, s).None? then
      None
    else
      var fCnt := NextFCnt(s.lastAFCntDown);
      Some(item.(
             sessionKeyId := s.keyId,
             fCnt := fCnt,
             frmPayload := CryptPayload(crypto, AppSKey(crypto, s).value, OrZero(s.devAddr), fCnt, item.frmPayload),
             decodedPayload := None))
  }

  datatype Encrypted = Encrypted(downlinks: seq<Downlink>, last: Counter)

  /** All items in order for one session, and the frame counter that the session ends up with. */
  function EncryptItems(crypto: Crypto, skipFlag: bool, s: Session, items: seq<Downlink>): Option<Encrypted> {
    if items == [] then
      Some(Encrypted([], s.lastAFCntDown))
    else
      match EncryptItems(crypto, skipFlag, s, items[..|items| - 1])
      case None => None
      case Some(e) =>
        match EncryptItem(crypto, skipFlag, s.(lastAFCntDown := e.last), items[|items| - 1])
        case None => None
        case Some(d) => Some(Encrypted(e.downlinks + [d], d.fCnt))
  }

  /** The item that the end device or this server gets back from a downlink under a session. */
  function DecryptItem(crypto: Crypto, key: Bytes, s: Session, d: Downlink): Downlink {
    d.(frmPayload := CryptPayload(crypto, key, OrZero(s.devAddr), d.fCnt, d.frmPayload))
  }

  /** The downlink carries the item under the session's key ID and the given frame counter: its payload
      is the item's, enciphered for the session's address and that counter. Nothing else differs. */
  ghost predicate CarriesItem(crypto: Crypto, key: Bytes, s: Session, fCnt: Counter, item: Downlink, d: Downlink) {
    && Ciphers(crypto, key, OrZero(s.devAddr), fCnt, item.frmPayload, d.frmPayload)
    && d == item.(sessionKeyId := s.keyId, fCnt := fCnt, decodedPayload := None, frmPayload := d.frmPayload)
  }

  /** Decrypting restores a carried item, up to what identifies the downlink. */
  lemma DecryptCarried(crypto: Crypto, key: Bytes, s: Session, fCnt: Counter, item: Downlink, d: Downlink)
    ensures CarriesItem(crypto, key, s, fCnt, item, d) <==>
            d.fCnt == fCnt && DecryptItem(crypto, key, s, d) == item.(sessionKeyId := s.keyId, fCnt := fCnt, decodedPayload := None)
  {
    CipherExact(crypto, key, OrZero(s.devAddr), fCnt, item.frmPayload, d.frmPayload);
  }

  /** The downlinks carry the items in order, with consecutive frame counters after the session's last one. */
  ghost predicate Carries(crypto: Crypto, s: Session, items: seq<Downlink>, downlinks: seq<Downlink>) {
    && |downlinks| == |items|
    && (items != [] ==> AppSKey(crypto, s).Some?)
    && forall j | 0 <= j < |items| ::
         CarriesItem(crypto, AppSKey(crypto, s).value, s, (s.lastAFCntDown + 1 + j) % UINT32, items[j], downlinks[j])
  }

  lemma EncryptItemCarries(crypto: Crypto, skipFlag: bool, s: Session, item: Downlink)
    requires !SkipPayloadCrypto(crypto, skipFlag, Some(s))
    ensures EncryptItem(crypto, skipFlag, s, item).Some? <==> AppSKey(crypto, s).Some?
    ensures AppSKey(crypto, s).Some? ==>
              CarriesItem(crypto, AppSKey(crypto, s).value, s, NextFCnt(s.lastAFCntDown), item, EncryptItem(crypto, skipFlag, s, item).value)
  {
    if AppSKey(crypto, s).Some? {
      var key, fCnt := AppSKey(crypto, s).value, NextFCnt(s.lastAFCntDown);
      CipherExact(crypto, key, OrZero(s.devAddr), fCnt, item.frmPayload, EncryptItem(crypto, skipFlag, s, item).value.frmPayload);
    }
  }

  lemma NextInRange(last: Counter, n: nat)
    ensures NextFCnt((last + n) % UINT32) == (last + 1 + n) % UINT32
  {
  }

  /** Encrypting items for a session succeeds if its key is available, and then carries them. */
  lemma {:induction false} EncryptItemsCarry(crypto: Crypto, skipFlag: bool, s: Session, items: seq<Downlink>)
    requires !SkipPayloadCrypto(crypto, skipFlag, Some(s))
    ensures EncryptItems(crypto, skipFlag, s, items).Some? <==> items == [] || AppSKey(crypto, s).Some?
    ensures EncryptItems(crypto, skipFlag, s, items).Some? ==>
              && Carries(crypto, s, items, EncryptItems(crypto, skipFlag, s, items).value.downlinks)
              && EncryptItems(crypto, skipFlag, s, items).value.last == (s.lastAFCntDown + |items|) % UINT32
  {
    hide EncryptItem, CarriesItem, Carries;
    if items == [] {
      NothingCarried(crypto, s, EncryptItems(crypto, skipFlag, s, items).value.downlinks);
    } else {
      var init, item := items[..|items| - 1], items[|items| - 1];
      EncryptItemsCarry(crypto, skipFlag, s, init);
      if EncryptItems(crypto, skipFlag, s, init).Some? {
        var e := EncryptItems(crypto, skipFlag, s, init).value;
        var s' := s.(lastAFCntDown := e.last);
        EncryptItemCarries(crypto, skipFlag, s', item);
        if AppSKey(crypto, s).Some? {
          var d := EncryptItem(crypto, skipFlag, s', item).value;
          CarriesOneMore(crypto, s, init, e.downlinks, item, d);
          assert items == init + [item];
        }
      }
    }
  }

  lemma NothingCarried(crypto: Crypto, s: Session, downlinks: seq<Downlink>)
    ensures Carries(crypto, s, [], downlinks) <==> downlinks == []
  {
  }

  /** Carrying goes on with an item that is carried under the next counter. */
  lemma CarriesOneMore(crypto: Crypto, s: Session, items: seq<Downlink>, downlinks: seq<Downlink>, item: Downlink,
      d: Downlink)
    requires AppSKey(crypto, s).Some? && Carries(crypto, s, items, downlinks)
    requires var s' := s.(lastAFCntDown := (s.lastAFCntDown + |items|) % UINT32);
             CarriesItem(crypto, AppSKey(crypto, s).value, s', NextFCnt(s'.lastAFCntDown), item, d)
    ensures Carries(crypto, s, items + [item], downlinks + [d])
    ensures d.fCnt == (s.lastAFCntDown + |items| + 1) % UINT32
  {
    hide Ciphers;
    NextInRange(s.lastAFCntDown, |items|);
    forall j | 0 <= j < |items|
      ensures CarriesItem(crypto, AppSKey(crypto, s).value, s, (s.lastAFCntDown + 1 + j) % UINT32, items[j], downlinks[j])
    {
    }
  }

  /** The counter that the application itself has chosen for the last of its items. */
  ghost function OwnCounter(s: Session, items: seq<Downlink>): Counter {
    if items == [] then s.lastAFCntDown else items[|items| - 1].fCnt
  }

  /** Where payload cryptography is skipped, items are passed on with their own payload and frame counter,
      and the session takes over the last of their counters. */
  lemma {:induction false} SkippedItemsUntouched(crypto: Crypto, s: Session, items: seq<Downlink>)
    requires AppSKey(crypto, s).None?
    ensures var e := EncryptItems(crypto, true, s, items);
            && e.Some? && e.value.last == OwnCounter(s, items) && |e.value.downlinks| == |items|
            && forall j | 0 <= j < |items| ::
                 e.value.downlinks[j] ==
                 items[j].(sessionKeyId := if items[j].sessionKeyId == [] then s.keyId else items[j].sessionKeyId, decodedPayload := None)
  {
    if items != [] {
      SkippedItemsUntouched(crypto, s, items[..|items| - 1]);
    }
  }

  // Decryption of a downlink queue.

  /** The sessions that a downlink is matched with, in the order in which they are tried. */
  datatype KeyRing = KeyRing(session: Option<Session>, pending: Option<Session>, ternary: Option<Session>)

  function OwningSession(ring: KeyRing, keyId: Bytes): Option<Session> {
    if ring.session.Some? && ring.session.value.keyId == keyId then ring.session
    else if ring.pending.Some? && ring.pending.value.keyId == keyId then ring.pending
    else if ring.ternary.Some? && ring.ternary.value.keyId == keyId then ring.ternary
    else None
  }

  function DecryptDownlink(crypto: Crypto, ring: KeyRing, d: Downlink): Option<Downlink> {
    match OwningSession(ring, d.sessionKeyId)
    case None => None
    case Some(s) =>
      match AppSKey(crypto, s)
      case None => None
      case Some(key) => Some(DecryptItem(crypto, key, s, d))
  }

  ghost predicate Owns(s: Option<Session>, keyId: Bytes) {
    s.Some? && s.value.keyId == keyId
  }

  /** The downlink is decrypted under session s, as far as the session has a key. */
  ghost predicate DecryptedUnder(crypto: Crypto, s: Session, d: Downlink, r: Option<Downlink>) {
    match AppSKey(crypto, s)
    case None => r.None?
    case Some(key) =>
      && r.Some? && r.value == d.(frmPayload := r.value.frmPayload)
      && Ciphers(crypto, key, OrZero(s.devAddr), d.fCnt, r.value.frmPayload, d.frmPayload)
  }

  /** A downlink is decrypted under the current session if that has its key ID, else under the pending
      session, else under the third one given, and not at all if none of them has its key ID. */
  lemma DecryptedUnderOwner(crypto: Crypto, ring: KeyRing, d: Downlink)
    ensures var r := DecryptDownlink(crypto, ring, d);
            if Owns(ring.session, d.sessionKeyId) then DecryptedUnder(crypto, ring.session.value, d, r)
            else if Owns(ring.pending, d.sessionKeyId) then DecryptedUnder(crypto, ring.pending.value, d, r)
            else if Owns(ring.ternary, d.sessionKeyId) then DecryptedUnder(crypto, ring.ternary.value, d, r)
            else r.None?
  {
    var s, r := OwningSession(ring, d.sessionKeyId), DecryptDownlink(crypto, ring, d);
    if s.Some? && r.Some? {
      CipherExact(crypto, AppSKey(crypto, s.value).value, OrZero(s.value.devAddr), d.fCnt, r.value.frmPayload, d.frmPayload);
      DecryptEncrypted(crypto, AppSKey(crypto, s.value).value, OrZero(s.value.devAddr), d.fCnt, d.frmPayload);
    }
  }

  /** The downlinks of a queue that can be decrypted, in order. */
  function DecryptQueue(crypto: Crypto, ring: KeyRing, queue: seq<Downlink>): (items: seq<Downlink>)
    ensures |items| <= |queue|
  {
    if queue == [] then []
    else
      DecryptQueue(crypto, ring, queue[..|queue| - 1]) +
      (match DecryptDownlink(crypto, ring, queue[|queue| - 1])
       case None => []
       case Some(d) => [d])
  }
}
