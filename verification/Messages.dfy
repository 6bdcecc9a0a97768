/** The command messages. A text is read field by field and by name; its message tag is read like any
    other number and compared with nothing, so a text parses as every record whose fields it contains. */
module Messages {
  import opened Common
  import opened Wire

  const CLIENT_HELLO_CRYPTO := 1
  const SERVER_HELLO_CRYPTO := 2
  const CLIENT_HELLO := 3
  const SERVER_HELLO := 4
  const CLIENT_ACK := 5
  const SERVER_ACK := 6
  const SESSION_TERMINATION := 8
  const ENCRYPTED_WRAPPER := 9

  datatype Message =
    | ClientHello(clientBaseId: string, authentication: bool, authData: string, handshakeId: string, mode: int)
    | ServerHello(handshakeId: string, clientId: string, clientIp: string, serverAddress: string,
                  inbound: string, outbound: string, sessionId: string)
    | ClientAck(clientId: string, handshakeId: string)
    | ServerAck(handshakeId: string)
    | SessionTermination(clientId: string, sessionId: string, reason: string)
    | ClientHelloCrypto(clientBaseId: string, clientKey: nat)
    | ServerHelloCrypto(uniqueId: string, serverKey: nat, signature: Signature)
    | EncryptedWrapper(clientId: string, packet: seq<Octet>)

  /** The record types, each with the tag its constructor writes. */
  datatype Kind =
    | ClientHelloKind | ServerHelloKind | ClientAckKind | ServerAckKind
    | SessionTerminationKind | ClientHelloCryptoKind | ServerHelloCryptoKind | EncryptedWrapperKind

  function KindOf(m: Message): Kind {
    match m
    case ClientHello(_, _, _, _, _) => ClientHelloKind
    case ServerHello(_, _, _, _, _, _, _) => ServerHelloKind
    case ClientAck(_, _) => ClientAckKind
    case ServerAck(_) => ServerAckKind
    case SessionTermination(_, _, _) => SessionTerminationKind
    case ClientHelloCrypto(_, _) => ClientHelloCryptoKind
    case ServerHelloCrypto(_, _, _) => ServerHelloCryptoKind
    case EncryptedWrapper(_, _) => EncryptedWrapperKind
  }

  function Tag(k: Kind): int {
    match k
    case ClientHelloKind => CLIENT_HELLO
    case ServerHelloKind => SERVER_HELLO
    case ClientAckKind => CLIENT_ACK
    case ServerAckKind => SERVER_ACK
    case SessionTerminationKind => SESSION_TERMINATION
    case ClientHelloCryptoKind => CLIENT_HELLO_CRYPTO
    case ServerHelloCryptoKind => SERVER_HELLO_CRYPTO
    case EncryptedWrapperKind => ENCRYPTED_WRAPPER
  }

  /** to_string of a message. */
  function Write(m: Message): Payload { Render(ToFields(m)) }

  function ToFields(m: Message): map<Field, Value> {
    var tag := Number(Tag(KindOf(m)));
    match m
    case ClientHello(id, auth, data, hid, mode) =>
      map[MessageIdentifierField := tag, ClientBaseIdField := Text(id), AuthenticationField := Flag(auth),
          AuthDataField := Text(data), HandshakeIdentifierField := Text(hid), TunnelModeField := Number(mode)]
    case ServerHello(hid, id, ip, server, inbound, outbound, sid) =>
      map[MessageIdentifierField := tag, HandshakeIdentifierField := Text(hid), AssignedClientIdField := Text(id),
          AssignedClientIpField := Text(ip), ServerAddressField := Text(server),
          AssignedInboundTopicField := Text(inbound), AssignedOutboundTopicField := Text(outbound),
          SessionIdField := Text(sid)]
    case ClientAck(id, hid) =>
      map[MessageIdentifierField := tag, ClientIdField := Text(id), HandshakeIdentifierField := Text(hid)]
    case ServerAck(hid) =>
      map[MessageIdentifierField := tag, HandshakeIdentifierField := Text(hid)]
    case SessionTermination(id, sid, reason) =>
      map[MessageIdentifierField := tag, ClientIdField := Text(id), SessionIdField := Text(sid),
          ReasonField := Text(reason)]
    case ClientHelloCrypto(id, key) =>
      map[MessageIdentifierField := tag, ClientBaseIdField := Text(id), ClientEphemeralKeyField := PublicKey(key)]
    case ServerHelloCrypto(id, key, signature) =>
      map[MessageIdentifierField := tag, UniqueIdentifierField := Text(id),
          ServerEphemeralKeyField := PublicKey(key), SignatureField := Signed(signature)]
    case EncryptedWrapper(id, packet) =>
      map[MessageIdentifierField := tag, ClientIdField := Text(id), EncryptedPayloadField := Blob(packet)]
  }

  // ---------- reading ----------

  predicate HasText(f: map<Field, Value>, x: Field) { x in f && f[x].Text? }

  predicate HasNumber(f: map<Field, Value>, x: Field) { x in f && f[x].Number? }

  /** MessageHeader::from_string. */
  function Header(p: Payload): Option<int> {
    var f := FieldsOf(p);
    if HasNumber(f, MessageIdentifierField) then Some(f[MessageIdentifierField].number) else None
  }

  predicate Readable(f: map<Field, Value>, k: Kind) {
    && HasNumber(f, MessageIdentifierField)
    && match k
       case ClientHelloKind =>
         && HasText(f, ClientBaseIdField) && AuthenticationField in f && f[AuthenticationField].Flag?
         && HasText(f, AuthDataField) && HasText(f, HandshakeIdentifierField) && HasNumber(f, TunnelModeField)
       case ServerHelloKind =>
         && HasText(f, HandshakeIdentifierField) && HasText(f, AssignedClientIdField)
         && HasText(f, AssignedClientIpField) && HasText(f, ServerAddressField)
         && HasText(f, AssignedInboundTopicField) && HasText(f, AssignedOutboundTopicField)
         && HasText(f, SessionIdField)
       case ClientAckKind => HasText(f, ClientIdField) && HasText(f, HandshakeIdentifierField)
       case ServerAckKind => HasText(f, HandshakeIdentifierField)
       case SessionTerminationKind =>
         HasText(f, ClientIdField) && HasText(f, SessionIdField) && HasText(f, ReasonField)
       case ClientHelloCryptoKind =>
         HasText(f, ClientBaseIdField) && ClientEphemeralKeyField in f && f[ClientEphemeralKeyField].PublicKey?
       case ServerHelloCryptoKind =>
         && HasText(f, UniqueIdentifierField)
         && ServerEphemeralKeyField in f && f[ServerEphemeralKeyField].PublicKey?
         && SignatureField in f && f[SignatureField].Signed?
       case EncryptedWrapperKind =>
         HasText(f, ClientIdField) && EncryptedPayloadField in f && f[EncryptedPayloadField].Blob?
  }

  /** from_string of a record type; None is the exception cereal throws. */
  function Read(p: Payload, k: Kind): (r: Option<Message>)
    ensures r.Some? ==> KindOf(r.value) == k
  {
    var f := FieldsOf(p);
    if !Readable(f, k) then None
    else Some(
      match k
      case ClientHelloKind =>
        ClientHello(f[ClientBaseIdField].text, f[AuthenticationField].flag, f[AuthDataField].text,
                    f[HandshakeIdentifierField].text, f[TunnelModeField].number)
      case ServerHelloKind =>
        ServerHello(f[HandshakeIdentifierField].text, f[AssignedClientIdField].text, f[AssignedClientIpField].text,
                    f[ServerAddressField].text, f[AssignedInboundTopicField].text,
                    f[AssignedOutboundTopicField].text, f[SessionIdField].text)
      case ClientAckKind => ClientAck(f[ClientIdField].text, f[HandshakeIdentifierField].text)
      case ServerAckKind => ServerAck(f[HandshakeIdentifierField].text)
      case SessionTerminationKind =>
        SessionTermination(f[ClientIdField].text, f[SessionIdField].text, f[ReasonField].text)
      case ClientHelloCryptoKind =>
        ClientHelloCrypto(f[ClientBaseIdField].text, f[ClientEphemeralKeyField].key)
      case ServerHelloCryptoKind =>
        ServerHelloCrypto(f[UniqueIdentifierField].text, f[ServerEphemeralKeyField].key, f[SignatureField].signature)
      case EncryptedWrapperKind => EncryptedWrapper(f[ClientIdField].text, f[EncryptedPayloadField].octets)
    )
  }

  /** Which texts are mistaken for which records: a written message reads back as itself, it also reads as
      a ServerACK whenever it has a handshake identifier, and as nothing else. */
  lemma ReadWrite(m: Message, k: Kind)
    ensures Read(Write(m), k) ==
            if k == KindOf(m) then Some(m)
            else if k == ServerAckKind && (m.ClientHello? || m.ServerHello? || m.ClientAck?)
            then Some(ServerAck(m.handshakeId))
            else None
    ensures Header(Write(m)) == Some(Tag(KindOf(m)))
  {
    ReadBack(m);
    if k != KindOf(m) {
      if k == ServerAckKind { ReadAsAck(m); } else { ReadAsOther(m, k); }
    }
  }

  /** The numbers of the types, as they stand in the texts. */
  lemma TypeNumbers(m: Message)
    ensures Header(Write(m)) == Some(
              if m.ClientHelloCrypto? then 1 else if m.ServerHelloCrypto? then 2 else if m.ClientHello? then 3
              else if m.ServerHello? then 4 else if m.ClientAck? then 5 else if m.ServerAck? then 6
              else if m.SessionTermination? then 8 else 9)
  {
    ReadBack(m);
  }

  lemma ReadBack(m: Message)
    ensures Read(Write(m), KindOf(m)) == Some(m)
    ensures Header(Write(m)) == Some(Tag(KindOf(m)))
  {
    assert FieldsOf(Write(m)) == ToFields(m);
  }

  lemma ReadAsAck(m: Message)
    requires !m.ServerAck?
    ensures Read(Write(m), ServerAckKind) ==
            if m.ClientHello? || m.ServerHello? || m.ClientAck? then Some(ServerAck(m.handshakeId)) else None
  {
    assert FieldsOf(Write(m)) == ToFields(m);
  }

  lemma ReadAsOther(m: Message, k: Kind)
    requires k != KindOf(m) && k != ServerAckKind
    ensures Read(Write(m), k).None?
  {
    assert FieldsOf(Write(m)) == ToFields(m);
    assert Missing(m, k) !in ToFields(m);
  }

  /** A field of record type k that a message of another type does not have. */
  function Missing(m: Message, k: Kind): Field {
    match k
    case ClientHelloKind => AuthenticationField
    case ServerHelloKind => AssignedClientIdField
    case ClientAckKind => if m.SessionTermination? || m.EncryptedWrapper? then HandshakeIdentifierField else ClientIdField
    case ServerAckKind => HandshakeIdentifierField
    case SessionTerminationKind => ReasonField
    case ClientHelloCryptoKind => ClientEphemeralKeyField
    case ServerHelloCryptoKind => UniqueIdentifierField
    case EncryptedWrapperKind => EncryptedPayloadField
  }
}
