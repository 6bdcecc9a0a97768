/** The key tables and the packet framing of CryptoManager. */
module Crypto {
  import opened Common
  import opened Text
  import opened Wire
  import opened Messages

  // ---------- key exchange ----------

  /** An X25519 key pair. The secret of an honest pair carries the number of its public key;
      sodium_memzero leaves the secret 0. */
  datatype KeyPair = KeyPair(public: nat, secret: nat)

  const ZEROED: nat := 0

  function FreshPair(n: nat): KeyPair { KeyPair(n, n) }

  /** Receiving and sending key of one end of a session. */
  datatype SessionKeys = SessionKeys(rx: SessionKey, tx: SessionKey)

  type KeyTable = map<string, SessionKeys>

  /** The Diffie-Hellman secret of one party's secret key and the other's public key. */
  function SharedSecret(secret: nat, public: nat): set<nat> { {secret, public} }

  /** crypto_kx_server_session_keys */
  function ServerSessionKeys(own: KeyPair, client: nat): SessionKeys {
    var q := SharedSecret(own.secret, client);
    SessionKeys(SessionKey(q, client, own.public, true), SessionKey(q, client, own.public, false))
  }

  /** crypto_kx_client_session_keys */
  function ClientSessionKeys(own: KeyPair, server: nat): SessionKeys {
    var q := SharedSecret(own.secret, server);
    SessionKeys(SessionKey(q, own.public, server, false), SessionKey(q, own.public, server, true))
  }

  predicate Mirrors(a: SessionKeys, b: SessionKeys) { a.rx == b.tx && a.tx == b.rx }

  /** Two ends hold mirrored keys exactly when each used the other's public key. */
  lemma KeysMirror(c: nat, peerOfClient: nat, s: nat, peerOfServer: nat)
    ensures Mirrors(ClientSessionKeys(FreshPair(c), peerOfClient), ServerSessionKeys(FreshPair(s), peerOfServer))
            <==> peerOfClient == s && peerOfServer == c
  {
    assert SharedSecret(c, s) == SharedSecret(s, c);
  }

  /** Each end uses different keys for the two directions. */
  lemma DirectionsDiffer(own: KeyPair, peer: nat)
    ensures ServerSessionKeys(own, peer).rx != ServerSessionKeys(own, peer).tx
    ensures ClientSessionKeys(own, peer).rx != ClientSessionKeys(own, peer).tx
  {
  }

  /** unordered_map::emplace: an entry that is already there stays. */
  function Emplace(table: KeyTable, id: string, keys: SessionKeys): KeyTable {
    if id in table then table else table[id := keys]
  }

  // ---------- session identifiers ----------

  /** Base id, an underscore and the clock count. */
  function UniqueIdentifier(base: string, clock: int): string { base + "_" + Decimal(clock) }

  /** The last underscore splits an identifier again, whatever the base id contains. */
  lemma UniqueIdentifierInjective(b1: string, c1: int, b2: string, c2: int)
    requires UniqueIdentifier(b1, c1) == UniqueIdentifier(b2, c2)
    ensures b1 == b2 && c1 == c2
  {
    var s := UniqueIdentifier(b1, c1);
    LastUnderscore(b1, c1);
    LastUnderscore(b2, c2);
    assert s[..|b1|] == b1 && s[..|b2|] == b2;
    assert s[|b1| + 1..] == Decimal(c1) && s[|b2| + 1..] == Decimal(c2);
    DecimalInjective(c1, c2);
  }

  lemma LastUnderscore(base: string, clock: int)
    ensures RFind(UniqueIdentifier(base, clock), '_') == |base|
  {
    var s := UniqueIdentifier(base, clock);
    DecimalAvoids(clock, '_');
    assert forall i :: |base| < i < |s| ==> s[i] == Decimal(clock)[i - |base| - 1];
    assert s[|base|] == '_';
  }

  /** An identifier has a slash exactly when the base id has one. */
  lemma UniqueIdentifierSlash(base: string, clock: int)
    ensures '/' in UniqueIdentifier(base, clock) <==> '/' in base
  {
    var s := UniqueIdentifier(base, clock);
    DecimalAvoids(clock, '/');
    assert forall c :: c in s <==> c in base || c == '_' || c in Decimal(clock);
  }

  // ---------- framing ----------

  const TWO_64 := 0x1_0000_0000_0000_0000
  /** std::vector<unsigned char>::max_size */
  const MAX_VECTOR := 0x7fff_ffff_ffff_ffff

  /** Subtraction on size_t. */
  function SizeMinus(a: int, b: int): int { (a - b) % TWO_64 }

  function Encrypt(table: KeyTable, plain: Payload, id: string, nonce: Nonce): Result<Payload> {
    if id !in table then Failure(NoSession) else Success(nonce + Seal(table[id].tx, nonce, plain))
  }

  function Decrypt(table: KeyTable, packet: Payload, id: string): Result<Payload> {
    if id !in table then Failure(NoSession)
    else
      var cipherLength := SizeMinus(|packet|, NONCE_BYTES);
      var plainLength := SizeMinus(cipherLength, MAC_BYTES);
      if plainLength > MAX_VECTOR then Failure(TooLong)
      else
        match Open(table[id].rx, packet[..NONCE_BYTES], packet[NONCE_BYTES..])
        case None => Failure(NotAuthentic)
        case Some(plain) => Success(plain)
  }

  /** A packet is 40 octets longer than its payload, and the peer gets the payload back exactly when
      it receives with the key the packet was sent with. */
  lemma FramingRoundTrip(sender: KeyTable, receiver: KeyTable, plain: Payload, from: string, to: string, nonce: Nonce)
    requires |plain| <= 0x7fff_ffff_ffff_ffff
    requires from in sender && to in receiver
    ensures var packet := Encrypt(sender, plain, from, nonce);
            && packet.Success? && |packet.value| == |plain| + 40 && packet.value[..24] == nonce
            && Decrypt(receiver, packet.value, to) ==
               if receiver[to].rx == sender[from].tx then Success(plain) else Failure(NotAuthentic)
  {
    var packet := Encrypt(sender, plain, from, nonce).value;
    var cipher := Seal(sender[from].tx, nonce, plain);
    assert packet[..NONCE_BYTES] == nonce && packet[NONCE_BYTES..] == cipher;
    OpenSeal(sender[from].tx, nonce, plain, receiver[to].rx, nonce);
  }

  /** Below 40 octets the length computed on size_t wraps to at least 2^64 - 40, so the buffer for the plaintext
      is never allocated and the packet is refused whatever keys are held. */
  lemma ShortPacketsRefused(table: KeyTable, packet: Payload, id: string)
    requires |packet| < 40
    ensures SizeMinus(SizeMinus(|packet|, NONCE_BYTES), MAC_BYTES) >= TWO_64 - 40
    ensures Decrypt(table, packet, id) == Failure(if id in table then TooLong else NoSession)
  {
  }

  /** Whatever decrypts was framed under the receiver's key from the plaintext that comes out. */
  lemma DecryptOnlyFramed(table: KeyTable, packet: Payload, id: string)
    requires Decrypt(table, packet, id).Success?
    ensures id in table && |packet| >= 40
    ensures packet == packet[..NONCE_BYTES]
                      + Seal(table[id].rx, packet[..NONCE_BYTES], Decrypt(table, packet, id).value)
  {
    if |packet| < 40 {
      ShortPacketsRefused(table, packet, id);
    }
    OpenOnlySealed(table[id].rx, packet[..NONCE_BYTES], packet[NONCE_BYTES..]);
    assert packet == packet[..NONCE_BYTES] + packet[NONCE_BYTES..];
  }

  // ---------- signatures ----------

  function Sign(identity: nat, key: nat): Signature { Signature(identity, key) }

  predicate Verifies(s: Signature, key: nat, identity: nat) { s == Signature(identity, key) }

  /** Whether a client accepts a ServerHelloCrypto: verification is skipped, or a pinned key verifies it. */
  predicate Accepts(skipVerification: bool, pinned: Option<nat>, key: nat, s: Signature) {
    skipVerification || (pinned.Some? && Verifies(s, key, pinned.value))
  }

  // ---------- the class ----------

  class CryptoManager {
    var sessionMap: KeyTable
    var clientEphemeral: KeyPair
    const identity: nat           // the server's signing identity
    const pinned: Option<nat>     // what identity.pub holds on a client
    const skipVerification: bool

    constructor (identity: nat, pinned: Option<nat>, skipVerification: bool)
      ensures sessionMap == map[] && this.identity == identity && this.pinned == pinned
      ensures this.skipVerification == skipVerification && clientEphemeral == KeyPair(ZEROED, ZEROED)
    {
      sessionMap, clientEphemeral := map[], KeyPair(ZEROED, ZEROED);
      this.identity, this.pinned, this.skipVerification := identity, pinned, skipVerification;
    }

    method GenerateClientHello(baseId: string, ephemeral: nat) returns (hello: Message)
      modifies this`clientEphemeral
      ensures clientEphemeral == FreshPair(ephemeral)
      ensures hello == ClientHelloCrypto(baseId, ephemeral)
    {
      clientEphemeral := FreshPair(ephemeral);
      hello := ClientHelloCrypto(baseId, clientEphemeral.public);
    }

    method EstablishServerSession(baseId: string, clientKey: nat, ephemeral: nat, clock: int) returns (hello: Message)
      modifies this`sessionMap
      ensures hello == ServerHelloCrypto(UniqueIdentifier(baseId, clock), ephemeral, Sign(identity, ephemeral))
      ensures sessionMap == Emplace(old(sessionMap), UniqueIdentifier(baseId, clock),
                                    ServerSessionKeys(FreshPair(ephemeral), clientKey))
    {
      var pair := FreshPair(ephemeral);
      var id := UniqueIdentifier(baseId, clock);
      var signature := Sign(identity, pair.public);
      var keys := ServerSessionKeys(pair, clientKey);
      hello := ServerHelloCrypto(id, pair.public, signature);
      pair := pair.(secret := ZEROED);
      if id !in sessionMap {
        sessionMap := sessionMap[id := keys];
      }
    }

    method EstablishClientSession(uniqueId: string, serverKey: nat, signature: Signature) returns (ok: bool)
      modifies this`sessionMap, this`clientEphemeral
      ensures ok <==> skipVerification || (pinned.Some? && signature == Signature(pinned.value, serverKey))
      ensures !ok ==> sessionMap == old(sessionMap) && clientEphemeral == old(clientEphemeral)
      ensures ok ==> clientEphemeral == old(clientEphemeral).(secret := ZEROED)
      ensures ok ==> sessionMap == Emplace(old(sessionMap), uniqueId, ClientSessionKeys(old(clientEphemeral), serverKey))
    {
      if !skipVerification {
        if pinned.None? {
          return false;
        }
        if !Verifies(signature, serverKey, pinned.value) {
          return false;
        }
      }
      var keys := ClientSessionKeys(clientEphemeral, serverKey);
      clientEphemeral := clientEphemeral.(secret := ZEROED);
      if uniqueId !in sessionMap {
        sessionMap := sessionMap[uniqueId := keys];
      }
      ok := true;
    }

    method EncryptData(plain: Payload, id: string, nonce: Nonce) returns (r: Result<Payload>)
      ensures r == Encrypt(sessionMap, plain, id, nonce)
    {
      if id !in sessionMap {
        return Failure(NoSession);
      }
      var session := sessionMap[id];
      var packet := new Octet[NONCE_BYTES + |plain| + MAC_BYTES](_ => Raw(0));
      forall i | 0 <= i < NONCE_BYTES {
        packet[i] := nonce[i];
      }
      var cipher := Seal(session.tx, nonce, plain);
      forall i | 0 <= i < |cipher| {
        packet[NONCE_BYTES + i] := cipher[i];
      }
      assert packet[..] == nonce + cipher;
      r := Success(packet[..]);
    }

    method DecryptData(packet: Payload, id: string) returns (r: Result<Payload>)
      ensures r == Decrypt(sessionMap, packet, id)
    {
      if id !in sessionMap {
        return Failure(NoSession);
      }
      var session := sessionMap[id];
      var cipherLength := SizeMinus(|packet|, NONCE_BYTES);
      var plainLength := SizeMinus(cipherLength, MAC_BYTES);
      if plainLength > MAX_VECTOR {
        return Failure(TooLong);
      }
      var plaintext := Open(session.rx, packet[..NONCE_BYTES], packet[NONCE_BYTES..]);
      match plaintext
      case None => r := Failure(NotAuthentic);
      case Some(plain) => r := Success(plain);
    }
  }
}
