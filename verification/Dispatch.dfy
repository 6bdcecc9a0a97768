/** What the dispatch loop makes of each message, and exactly when a message ends it. */
module Dispatch {
  import opened Common
  import opened Wire
  import opened Messages
  import opened Crypto
  import opened Server
  import opened Ownership

  /** The command a message stands for when it is read as a handshake message. */
  function HandshakeCommand(m: Message): Command {
    match m
    case ClientHelloCrypto(id, key) => CryptoHello(id, key)
    case ClientHello(id, _, _, hid, mode) => Hello(id, hid, mode)
    case ClientAck(id, hid) => Ack(id, hid)
    case _ => Unhandled
  }

  /** A message in the clear: handshake messages are taken even by an encrypting server, a termination ends the
      session it names, and the server's own messages are ignored. */
  lemma DecodeInClear(keys: KeyTable, m: Message)
    requires !m.EncryptedWrapper?
    ensures Decode(keys, Write(m)) == if m.SessionTermination? then Terminate(m.clientId) else HandshakeCommand(m)
  {
    ReadWrite(m, KindOf(m));
  }

  /** A message in a wrapper: read under the keys of the id on the wrapper, whatever id the message itself names.
      A wrapped termination and a wrapper in a wrapper are ignored; a wrapper that does not open is an exception. */
  lemma DecodeWrapped(keys: KeyTable, id: string, key: SessionKey, nonce: Nonce, m: Message)
    ensures Decode(keys, Write(EncryptedWrapper(id, nonce + Seal(key, nonce, Write(m)))))
            == if id in keys && keys[id].rx == key then HandshakeCommand(m) else Unreadable
  {
    ReadWrite(m, KindOf(m));
    ReadWrite(EncryptedWrapper(id, nonce + Seal(key, nonce, Write(m))), EncryptedWrapperKind);
    if id in keys {
      var sender: KeyTable := map["" := SessionKeys(key, key)];
      FramingRoundTrip(sender, keys, Write(m), "", id, nonce);
    }
  }

  /** Whether the loop reads messages of this type with all their fields. */
  predicate IsHandled(m: Message) {
    m.ClientHelloCrypto? || m.ClientHello? || m.ClientAck? || m.SessionTermination? || m.EncryptedWrapper?
  }

  function Without(m: Message, x: Field): Payload { Render(ToFields(m) - {x}) }

  lemma HeaderWithout(m: Message, x: Field)
    ensures Header(Without(m, x)) == if x == MessageIdentifierField then None else Some(Tag(KindOf(m)))
  {
    assert FieldsOf(Without(m, x)) == ToFields(m) - {x};
  }

  lemma HandshakeWithout(m: Message, x: Field)
    requires x in ToFields(m)
    ensures DecodeHandshake(Without(m, x), Tag(KindOf(m)))
            == if m.ClientHelloCrypto? || m.ClientHello? || m.ClientAck? then Unreadable else Unhandled
  {
    MissingFieldUnreadable(m, x);
  }

  /** A text without one of the fields of its type cannot be read: for the types the loop handles this is an exception,
      the others are ignored as long as the type is there. */
  lemma MissingField(keys: KeyTable, m: Message, x: Field)
    requires x in ToFields(m)
    ensures Decode(keys, Without(m, x)) == if x == MessageIdentifierField || IsHandled(m) then Unreadable else Unhandled
  {
    HeaderWithout(m, x);
    if m.SessionTermination? || m.EncryptedWrapper? {
      MissingFieldUnreadable(m, x);
    } else {
      HandshakeWithout(m, x);
    }
  }

  lemma MissingFieldUnreadable(m: Message, x: Field)
    requires x in ToFields(m)
    ensures Read(Without(m, x), KindOf(m)).None?
  {
    assert FieldsOf(Without(m, x)) == ToFields(m) - {x};
  }

  /** The same inside a wrapper that opens: only the three handshake messages are handled there. */
  lemma MissingFieldWrapped(keys: KeyTable, id: string, nonce: Nonce, m: Message, x: Field)
    requires x in ToFields(m) && id in keys
    ensures Decode(keys, Write(EncryptedWrapper(id, nonce + Seal(keys[id].rx, nonce, Without(m, x)))))
            == if x == MessageIdentifierField || m.ClientHelloCrypto? || m.ClientHello? || m.ClientAck?
               then Unreadable else Unhandled
  {
    WrapperOpens(keys, id, nonce, Without(m, x));
    HeaderWithout(m, x);
    if x != MessageIdentifierField {
      HandshakeWithout(m, x);
    }
  }

  /** A wrapper sealed under the receiving key of its id is read as its plaintext. */
  lemma WrapperOpens(keys: KeyTable, id: string, nonce: Nonce, text: Payload)
    requires id in keys && |text| <= MAX_VECTOR
    ensures Decode(keys, Write(EncryptedWrapper(id, nonce + Seal(keys[id].rx, nonce, text))))
            == if Header(text).None? then Unreadable else DecodeHandshake(text, Header(text).value)
  {
    ReadWrite(EncryptedWrapper(id, nonce + Seal(keys[id].rx, nonce, text)), EncryptedWrapperKind);
    var sender: KeyTable := map["" := SessionKeys(keys[id].rx, keys[id].rx)];
    FramingRoundTrip(sender, keys, text, "", id, nonce);
  }

  /** A payload that is no record at all ends the loop, and so does one of a handled type that lacks a field. */
  lemma MalformedEnds(s: Server, e: Event)
    requires !s.failed
    requires FieldsOf(e.payload) == map[]
             || exists m: Message, x :: x in ToFields(m) && IsHandled(m) && e.payload == Without(m, x)
    ensures Consume(s, e) == Step(s.(failed := true), [])
  {
    if FieldsOf(e.payload) != map[] {
      var m: Message, x :| x in ToFields(m) && IsHandled(m) && e.payload == Without(m, x);
      MissingField(s.keys, m, x);
    }
  }

  /** Exactly the messages that end the loop: those that cannot be read, a ClientACK whose handshake identifier is not
      that of the pending entry, and, with encryption on, a ClientHello for an id without keys. */
  lemma FailsExactly(s: Server, e: Event)
    requires Sound(s) && !s.failed
    ensures Consume(s, e).server.failed <==>
            match CommandOf(s, e)
            case Unreadable => true
            case Ack(id, hid) => IsPending(s.handshakes, id) && hid != s.handshakes[id].handshakeId
            case Hello(id, _, _) =>
              s.setup.encrypted && id !in s.keys
              && (id in s.handshakes ==> s.handshakes[id].state.HandshakeClientHello?)
            case _ => false
  {
    FailsBy(s, CommandOf(s, e), e.draw);
  }

  lemma FailsBy(s: Server, c: Command, d: Draw)
    requires Sound(s) && !s.failed
    ensures Execute(s, c, d).server.failed <==>
            match c
            case Unreadable => true
            case Ack(id, hid) => IsPending(s.handshakes, id) && hid != s.handshakes[id].handshakeId
            case Hello(id, _, _) =>
              s.setup.encrypted && id !in s.keys
              && (id in s.handshakes ==> s.handshakes[id].state.HandshakeClientHello?)
            case _ => false
  {
    if c.Terminate? {
      OnTerminateSound(s, c.clientId);
    }
  }

  /** No id ever leaves the handshake map: after the erase the log line brings the entry back. */
  lemma {:induction false} EntriesNeverLeave(s: Server, events: seq<Event>)
    ensures s.handshakes.Keys <= After(s, events).handshakes.Keys
    decreases |events|
  {
    if events != [] {
      var t := After(s, events[..|events| - 1]);
      EntriesNeverLeave(s, events[..|events| - 1]);
      EntriesStay(t, CommandOf(t, events[|events| - 1]), events[|events| - 1].draw);
    }
  }

  lemma EntriesStay(s: Server, c: Command, d: Draw)
    ensures s.handshakes.Keys <= Execute(s, c, d).server.handshakes.Keys
  {
  }
}
