/** Tunnelled packets: the read buffer, routing by destination address, and the callback for arriving data. */
module Packets {
  import opened Common
  import opened Text
  import opened Topics
  import opened Wire
  import opened Crypto
  import opened IpPool
  import opened Sessions

  type byte = x: int | 0 <= x < 256

  const BUFFER_SIZE := 1500

  /** A read buffer of the TUN loops. */
  type Buffer = b: seq<byte> | |b| == BUFFER_SIZE witness seq(BUFFER_SIZE, i => 0)

  function ZeroBuffer(): Buffer { seq(BUFFER_SIZE, i => 0) }

  datatype DataMessage = DataMessage(topic: string, payload: Payload)

  function Raws(bytes: seq<byte>): (p: Payload)
    ensures |p| == |bytes| && forall i :: 0 <= i < |bytes| ==> p[i] == Raw(bytes[i])
  {
    seq(|bytes|, i requires 0 <= i < |bytes| => Raw(bytes[i]))
  }

  /** A read overwrites the front of the buffer and leaves the rest of it. */
  function Refill(buffer: Buffer, bytes: seq<byte>): Buffer
    requires |bytes| <= BUFFER_SIZE
  {
    bytes + buffer[|bytes|..]
  }

  /** The reader finds the bytes of the last read at the front, and behind them what was there before. */
  lemma RefillKeeps(buffer: Buffer, bytes: seq<byte>, i: nat)
    requires |bytes| <= BUFFER_SIZE && i < BUFFER_SIZE
    ensures Refill(buffer, bytes)[..|bytes|] == bytes
    ensures Refill(buffer, bytes)[i] == if i < |bytes| then bytes[i] else buffer[i]
  {
  }

  /** inet_ntop of four bytes in network order. */
  function IpToString(a: byte, b: byte, c: byte, d: byte): (s: string)
    ensures s != ""
  {
    Natural(a) + "." + Natural(b) + "." + Natural(c) + "." + Natural(d)
  }

  /** The four octets in their order, separated by dots. */
  lemma {:induction false} DottedQuad(a: byte, b: byte, c: byte, d: byte)
    ensures Split(IpToString(a, b, c, d), '.') == [Natural(a), Natural(b), Natural(c), Natural(d)]
  {
    assert IpToString(a, b, c, d)
           == Natural(a) + ['.'] + (Natural(b) + ['.'] + (Natural(c) + ['.'] + Natural(d)));
    SplitFirst(Natural(a), '.', Natural(b) + ['.'] + (Natural(c) + ['.'] + Natural(d)));
    SplitFirst(Natural(b), '.', Natural(c) + ['.'] + Natural(d));
    SplitFirst(Natural(c), '.', Natural(d));
    SplitWhole(Natural(d), '.');
  }

  /** Different addresses are printed differently. */
  lemma IpToStringInjective(a: byte, b: byte, c: byte, d: byte, a': byte, b': byte, c': byte, d': byte)
    requires IpToString(a, b, c, d) == IpToString(a', b', c', d')
    ensures a == a' && b == b' && c == c' && d == d'
  {
    DottedQuad(a, b, c, d);
    DottedQuad(a', b', c', d');
  }

  /** The prefix of the network a.b.c.0, written out. */
  function NetworkPrefix(a: byte, b: byte, c: byte): string {
    Natural(a) + "." + Natural(b) + "." + Natural(c) + "."
  }

  /** A pool made from the network a.b.c.0 issues the addresses as they are printed from packet headers: slot k stands
      for a.b.c.(k+1). */
  lemma IssuedAsPrinted(a: byte, b: byte, c: byte, slot: nat)
    requires slot < 253
    ensures BaseOf(IpToString(a, b, c, 0)) == NetworkPrefix(a, b, c)
    ensures Address(BaseOf(IpToString(a, b, c, 0)), slot) == IpToString(a, b, c, slot + 1)
  {
    var prefix := Natural(a) + "." + Natural(b) + "." + Natural(c);
    BaseOfNetwork(prefix, Natural(0));
    assert IpToString(a, b, c, 0) == prefix + "." + Natural(0);
    assert NetworkPrefix(a, b, c) == prefix + ".";
    assert IpToString(a, b, c, slot + 1) == NetworkPrefix(a, b, c) + Natural(slot + 1);
  }

  /** The destination the header at the start of the buffer names, whatever part of it the last read filled. */
  function Destination(buffer: Buffer): (s: string)
    ensures s != ""
  {
    IpToString(buffer[16], buffer[17], buffer[18], buffer[19])
  }

  /** A packet with a whole IP header is routed by its own destination; a shorter one by stale bytes. */
  lemma DestinationIsOwn(buffer: Buffer, other: Buffer, bytes: seq<byte>)
    requires 20 <= |bytes| <= BUFFER_SIZE
    ensures Destination(Refill(buffer, bytes)) == Destination(Refill(other, bytes))
            == IpToString(bytes[16], bytes[17], bytes[18], bytes[19])
  {
  }

  /** The packet for a session: sealed under the key of the session's client, or as it is. */
  function PacketFor(encrypted: bool, keys: KeyTable, session: SessionConfig, bytes: seq<byte>,
                     nonce: Nonce): Result<DataMessage>
  {
    if !encrypted then Success(DataMessage(session.topicInbound, Raws(bytes)))
    else
      match Encrypt(keys, Raws(bytes), session.clientId, nonce)
      case Failure(e) => Failure(e)
      case Success(packet) => Success(DataMessage(session.topicInbound, packet))
  }

  /** In plain mode both sides send the bytes as they are, on the topic of the session, and whoever receives them
      writes exactly these. */
  lemma PlainMode(keys: KeyTable, keys': KeyTable, session: SessionConfig, id: string, outbound: string,
                  bytes: seq<byte>, nonce: Nonce)
    ensures var m := PacketFor(false, keys, session, bytes, nonce);
            && m == Success(DataMessage(session.topicInbound, Raws(bytes)))
            && Arrive(false, keys', m.value) == Some(Raws(bytes))
    ensures var m := ClientPacket(false, keys, id, outbound, bytes, nonce);
            m == Success(DataMessage(outbound, Raws(bytes))) && Arrive(false, keys', m.value) == Some(Raws(bytes))
  {
  }

  /** What the callback writes to the device; None when it drops the message. */
  function Arrive(encrypted: bool, keys: KeyTable, message: DataMessage): Option<Payload> {
    if !encrypted then Some(message.payload)
    else
      var id := ExtractClientId(message.topic);
      if id == "" then None
      else
        match Decrypt(keys, message.payload, id)
        case Failure(_) => None
        case Success(plain) => Some(plain)
  }

  /** The callback object of the data client. */
  class TunCallback {
    const encryptionEnabled: bool
    const crypto: CryptoManager
    var device: seq<Payload>   // what was written to the TUN device

    constructor (crypto: CryptoManager, encryptionEnabled: bool)
      ensures this.crypto == crypto && this.encryptionEnabled == encryptionEnabled && device == []
    {
      this.crypto, this.encryptionEnabled, device := crypto, encryptionEnabled, [];
    }

    method MessageArrived(message: DataMessage)
      modifies this
      ensures var written := Arrive(encryptionEnabled, crypto.sessionMap, message);
              device == old(device) + if written.Some? then [written.value] else []
      ensures !encryptionEnabled ==> device == old(device) + [message.payload]
    {
      var payload := message.payload;
      if encryptionEnabled {
        var clientId := ExtractClientId(message.topic);
        if clientId == "" {
          return;
        }
        var decrypted := crypto.DecryptData(payload, clientId);
        if decrypted.Failure? {
          return;
        }
        payload := decrypted.value;
      }
      device := device + [payload];
    }
  }

  // ---------- the loops that read the TUN device ----------

  /** One return of read(): an error, or some bytes, with the nonce drawn if they are sealed. */
  datatype TunRead = ReadError | ReadBytes(bytes: seq<byte>, nonce: Nonce)

  predicate FitBuffer(inputs: seq<TunRead>) {
    forall i :: 0 <= i < |inputs| && inputs[i].ReadBytes? ==> |inputs[i].bytes| <= BUFFER_SIZE
  }

  /** The buffer after some reads. */
  function BufferAfter(inputs: seq<TunRead>): Buffer
    requires FitBuffer(inputs)
  {
    if inputs == [] then ZeroBuffer()
    else
      var before := BufferAfter(inputs[..|inputs| - 1]);
      var last := inputs[|inputs| - 1];
      if last.ReadError? then before else Refill(before, last.bytes)
  }

  /** What the server's reader publishes for one read: nothing without a session for the destination or, caught
      in the loop, without a key. */
  ghost function Route(encrypted: bool, active: Table, keys: KeyTable, buffer: Buffer, length: nat,
                       nonce: Nonce): seq<DataMessage>
    requires length <= BUFFER_SIZE
  {
    match FindByIp(active, Destination(buffer))
    case None => []
    case Some(session) =>
      match PacketFor(encrypted, keys, session, buffer[..length], nonce)
      case Failure(_) => []
      case Success(m) => [m]
  }

  ghost function RouteAll(encrypted: bool, active: Table, keys: KeyTable, inputs: seq<TunRead>): seq<DataMessage>
    requires FitBuffer(inputs)
  {
    if inputs == [] then []
    else
      var last := inputs[|inputs| - 1];
      RouteAll(encrypted, active, keys, inputs[..|inputs| - 1])
      + if last.ReadError? then []
        else Route(encrypted, active, keys, BufferAfter(inputs), |last.bytes|, last.nonce)
  }

  /** A read with a whole IP header. */
  predicate WholeHeader(r: TunRead) { r.ReadBytes? && 20 <= |r.bytes| <= 1500 }

  /** The messages for one read, told from its bytes alone: a session that holds the destination gets exactly these
      bytes on its inbound topic, as they are or sealed under its key. */
  ghost function RouteBytes(encrypted: bool, active: Table, keys: KeyTable, r: TunRead): seq<DataMessage>
    requires WholeHeader(r)
  {
    var session := FindByIp(active, IpToString(r.bytes[16], r.bytes[17], r.bytes[18], r.bytes[19]));
    if session.None? then []
    else if !encrypted then [DataMessage(session.value.topicInbound, Raws(r.bytes))]
    else if session.value.clientId !in keys then []
    else [DataMessage(session.value.topicInbound,
                      r.nonce + Seal(keys[session.value.clientId].tx, r.nonce, Raws(r.bytes)))]
  }

  /** Reads with a whole header are routed one by one, each by its own bytes, whatever was read before; a failed read
      publishes nothing. */
  lemma {:induction false} RoutedByOwnBytes(encrypted: bool, active: Table, keys: KeyTable, before: seq<TunRead>, r: TunRead)
    requires FitBuffer(before) && (r.ReadError? || WholeHeader(r))
    ensures FitBuffer(before + [r])
    ensures RouteAll(encrypted, active, keys, before + [r])
            == RouteAll(encrypted, active, keys, before)
               + if r.ReadError? then [] else RouteBytes(encrypted, active, keys, r)
    ensures RouteAll(encrypted, active, keys, []) == []
  {
    var inputs := before + [r];
    assert inputs[..|before|] == before;
    if !r.ReadError? {
      RefillKeeps(BufferAfter(before), r.bytes, 0);
      DestinationIsOwn(BufferAfter(before), BufferAfter(before), r.bytes);
    }
  }

  /** The server's reader, undisturbed by the command loop. */
  method ServerTunRead(encrypted: bool, active: SessionMap, crypto: CryptoManager, inputs: seq<TunRead>)
    returns (sent: seq<DataMessage>)
    requires FitBuffer(inputs)
    ensures sent == RouteAll(encrypted, active.sessions, crypto.sessionMap, inputs)
  {
    var buffer := new byte[BUFFER_SIZE](i => 0);
    assert buffer[..] == ZeroBuffer();
    sent := [];
    for i := 0 to |inputs|
      invariant buffer[..] == BufferAfter(inputs[..i])
      invariant sent == RouteAll(encrypted, active.sessions, crypto.sessionMap, inputs[..i])
    {
      ghost var was := buffer[..];
      assert inputs[..i + 1][..i] == inputs[..i];
      if inputs[i].ReadError? {
        continue;
      }
      var bytes := inputs[i].bytes;
      forall j | 0 <= j < |bytes| {
        buffer[j] := bytes[j];
      }
      assert buffer[..] == Refill(was, bytes);
      var destination := IpToString(buffer[16], buffer[17], buffer[18], buffer[19]);
      var session := active.GetSessionByIp(destination);
      if session.None? {
        continue;
      }
      var payload: Payload;
      if encrypted {
        var sealed := crypto.EncryptData(Raws(buffer[..|bytes|]), session.value.clientId, inputs[i].nonce);
        if sealed.Failure? {
          continue;
        }
        payload := sealed.value;
      } else {
        payload := Raws(buffer[..|bytes|]);
      }
      sent := sent + [DataMessage(session.value.topicInbound, payload)];
    }
    assert inputs[..|inputs|] == inputs;
  }

  /** What the client publishes for one read. A missing key is an exception nobody catches. */
  function ClientPacket(encrypted: bool, keys: KeyTable, id: string, outbound: string, bytes: seq<byte>,
                        nonce: Nonce): Result<DataMessage>
  {
    if !encrypted then Success(DataMessage(outbound, Raws(bytes)))
    else
      match Encrypt(keys, Raws(bytes), id, nonce)
      case Failure(e) => Failure(e)
      case Success(packet) => Success(DataMessage(outbound, packet))
  }

  function SendAll(encrypted: bool, keys: KeyTable, id: string, outbound: string, inputs: seq<TunRead>): seq<DataMessage>
    requires encrypted ==> id in keys
  {
    if inputs == [] then []
    else
      var last := inputs[|inputs| - 1];
      SendAll(encrypted, keys, id, outbound, inputs[..|inputs| - 1])
      + if last.ReadError? then [] else [ClientPacket(encrypted, keys, id, outbound, last.bytes, last.nonce).value]
  }

  /** The message for one read of the client. */
  function SentFor(encrypted: bool, keys: KeyTable, id: string, outbound: string, r: TunRead): seq<DataMessage>
    requires encrypted ==> id in keys
  {
    if r.ReadError? then []
    else if !encrypted then [DataMessage(outbound, Raws(r.bytes))]
    else [DataMessage(outbound, r.nonce + Seal(keys[id].tx, r.nonce, Raws(r.bytes)))]
  }

  /** The client sends one message for every read that succeeds, in their order. */
  lemma {:induction false} SentParts(encrypted: bool, keys: KeyTable, id: string, outbound: string,
                                     first: seq<TunRead>, rest: seq<TunRead>)
    requires encrypted ==> id in keys
    ensures SendAll(encrypted, keys, id, outbound, first + rest)
            == SendAll(encrypted, keys, id, outbound, first) + SendAll(encrypted, keys, id, outbound, rest)
    decreases |rest|
  {
    if rest == [] {
      assert first + rest == first;
    } else {
      var n := |rest| - 1;
      assert (first + rest)[..|first| + n] == first + rest[..n];
      SentParts(encrypted, keys, id, outbound, first, rest[..n]);
    }
  }

  lemma {:induction false} SentOne(encrypted: bool, keys: KeyTable, id: string, outbound: string, r: TunRead)
    requires encrypted ==> id in keys
    ensures SendAll(encrypted, keys, id, outbound, [r]) == SentFor(encrypted, keys, id, outbound, r)
  {
    assert [r][..0] == [];
  }

  /** The client's reader. It publishes every packet unless the key is missing at the first one. */
  method ClientTunRead(encrypted: bool, crypto: CryptoManager, id: string, outbound: string, inputs: seq<TunRead>)
    returns (sent: seq<DataMessage>, ok: bool)
    ensures ok <==> (encrypted ==> id in crypto.sessionMap) || forall i :: 0 <= i < |inputs| ==> inputs[i].ReadError?
    ensures (encrypted ==> id in crypto.sessionMap) ==> sent == SendAll(encrypted, crypto.sessionMap, id, outbound, inputs)
    ensures !ok ==> sent == []
  {
    sent, ok := [], true;
    for i := 0 to |inputs|
      invariant ok && ((encrypted ==> id in crypto.sessionMap) || forall j :: 0 <= j < i ==> inputs[j].ReadError?)
      invariant (encrypted ==> id in crypto.sessionMap) ==>
                  sent == SendAll(encrypted, crypto.sessionMap, id, outbound, inputs[..i])
      invariant !(encrypted ==> id in crypto.sessionMap) ==> sent == []
    {
      assert inputs[..i + 1][..i] == inputs[..i];
      if inputs[i].ReadError? {
        continue;
      }
      var payload := Raws(inputs[i].bytes);
      if encrypted {
        var packet := crypto.EncryptData(payload, id, inputs[i].nonce);
        if packet.Failure? {
          ok := false;
          return;
        }
        payload := packet.value;
      }
      sent := sent + [DataMessage(outbound, payload)];
    }
    assert inputs[..|inputs|] == inputs;
  }
}
