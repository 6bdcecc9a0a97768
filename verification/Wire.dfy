/** What travels over the broker. Cryptography is symbolic: an octet of a ciphertext knows the key, the nonce
    and the plaintext it was sealed from, so only the sealing key and nonce open it. The JSON text of a record
    is one symbolic octet that carries the fields of the record. */
module Wire {
  import opened Common

  /** The names of the fields of the command messages. */
  datatype Field =
    | MessageIdentifierField | ClientBaseIdField | AuthenticationField | AuthDataField
    | HandshakeIdentifierField | TunnelModeField | AssignedClientIdField | AssignedClientIpField
    | ServerAddressField | AssignedInboundTopicField | AssignedOutboundTopicField | SessionIdField
    | ClientIdField | ReasonField | ClientEphemeralKeyField | UniqueIdentifierField
    | ServerEphemeralKeyField | SignatureField | EncryptedPayloadField

  datatype Value =
    | Text(text: string)
    | Number(number: int)
    | Flag(flag: bool)
    | PublicKey(key: nat)
    | Signed(signature: Signature)
    | Blob(octets: seq<Octet>)

  /** A detached Ed25519 signature names its signer and what was signed. */
  datatype Signature = Signature(signer: nat, key: nat)

  datatype Octet =
    | Raw(code: nat)
    | Doc(fields: map<Field, Value>)
    | Box(key: SessionKey, nonce: seq<Octet>, plain: seq<Octet>, index: int)

  type Payload = seq<Octet>

  /** A kx session key: a hash of the Diffie-Hellman secret and both public keys, one key for each direction. */
  datatype SessionKey = SessionKey(secret: set<nat>, clientKey: nat, serverKey: nat, toServer: bool)

  // ---------- crypto_secretbox ----------

  const NONCE_BYTES := 24
  const MAC_BYTES := 16

  type Nonce = n: seq<Octet> | |n| == NONCE_BYTES witness seq(NONCE_BYTES, i => Raw(0))

  function Seal(key: SessionKey, nonce: seq<Octet>, plain: seq<Octet>): (c: seq<Octet>)
    ensures |c| == |plain| + MAC_BYTES
  {
    seq(|plain| + MAC_BYTES, i => Box(key, nonce, plain, i))
  }

  function Open(key: SessionKey, nonce: seq<Octet>, cipher: seq<Octet>): Option<seq<Octet>> {
    if |cipher| > 0 && cipher[0].Box? && cipher == Seal(key, nonce, cipher[0].plain)
    then Some(cipher[0].plain) else None
  }

  /** Secretbox opens exactly under the sealing key and nonce. */
  lemma OpenSeal(key: SessionKey, nonce: seq<Octet>, plain: seq<Octet>, key': SessionKey, nonce': seq<Octet>)
    ensures Open(key', nonce', Seal(key, nonce, plain)) ==
            if key == key' && nonce == nonce' then Some(plain) else None
  {
    var c := Seal(key, nonce, plain);
    assert c[0] == Box(key, nonce, plain, 0);
    assert Seal(key', nonce', plain)[0] == Box(key', nonce', plain, 0);
  }

  /** A packet that opens was sealed with that key and nonce from the plaintext that comes out. */
  lemma OpenOnlySealed(key: SessionKey, nonce: seq<Octet>, cipher: seq<Octet>)
    requires Open(key, nonce, cipher).Some?
    ensures cipher == Seal(key, nonce, Open(key, nonce, cipher).value)
  {
  }

  // ---------- JSON text ----------

  function Render(fields: map<Field, Value>): Payload { [Doc(fields)] }

  /** The fields found in a text; a text that is no rendered record has none. */
  function FieldsOf(p: Payload): map<Field, Value> {
    if |p| == 1 && p[0].Doc? then p[0].fields else map[]
  }
}
