/** Fixed-size packet framing and the nonce discipline of an in-memory Noise session. */
module NoiseSession {
  import opened Wrappers
  import opened Utf8

  const MSG_LEN := 1000
  const TAG_LEN := 16
  const CIPHERTEXT_LEN := MSG_LEN + TAG_LEN
  const PACKET_LEN := CIPHERTEXT_LEN + 2

  // ------------------------------------------------------------------ framing

  function Zeros(n: nat): (z: seq<byte>)
    ensures |z| == n
  {
    seq(n, _ => 0)
  }

  /** `(len as u16).to_be_bytes()`. */
  function Prefix(len: nat): (b: seq<byte>)
    ensures |b| == 2
  {
    [len % 65536 / 256, len % 256]
  }

  function PrefixedLength(packet: seq<byte>): nat
    requires |packet| >= 2
  {
    packet[0] as int * 256 + packet[1] as int
  }

  /** The packet of a ciphertext, with whatever bytes follow it. */
  function Framed(ciphertext: seq<byte>, padding: seq<byte>): seq<byte> {
    Prefix(|ciphertext|) + ciphertext + padding
  }

  /** The packet as it is sent: padded with zeros to the fixed size. */
  function Packet(ciphertext: seq<byte>): (packet: seq<byte>)
    requires |ciphertext| <= CIPHERTEXT_LEN
    ensures |packet| == PACKET_LEN
  {
    Framed(ciphertext, Zeros(CIPHERTEXT_LEN - |ciphertext|))
  }

  function Unpack(packet: seq<byte>): (res: Result<seq<byte>>)
    ensures res.Ok? ==> |res.value| <= CIPHERTEXT_LEN
  {
    if |packet| < 2 || |packet| > PACKET_LEN then Err(InvalidData)
    else
      var len := PrefixedLength(packet);
      if len > CIPHERTEXT_LEN || len + 2 > |packet| then Err(InvalidData)
      else Ok(packet[2..len + 2])
  }

  /** A packet decodes to a ciphertext exactly when it is that ciphertext framed with some
      padding that fits: the padding's bytes and its length do not matter. */
  lemma UnpackExact(packet: seq<byte>, ciphertext: seq<byte>)
    ensures Unpack(packet) == Ok(ciphertext)
       <==> |packet| <= PACKET_LEN && exists padding :: packet == Framed(ciphertext, padding)
  {
    if Unpack(packet) == Ok(ciphertext) {
      var n := |ciphertext|;
      assert PrefixedLength(packet) == n;
      assert packet[..2] == Prefix(n);
      assert packet == Framed(ciphertext, packet[n + 2..]);
    }
    if |packet| <= PACKET_LEN && exists padding :: packet == Framed(ciphertext, padding) {
      var padding :| packet == Framed(ciphertext, padding);
      UnpackFramed(ciphertext, padding);
    }
  }

  lemma UnpackFramed(ciphertext: seq<byte>, padding: seq<byte>)
    requires |ciphertext| + |padding| <= CIPHERTEXT_LEN
    ensures Unpack(Framed(ciphertext, padding)) == Ok(ciphertext)
  {
    var packet := Framed(ciphertext, padding);
    assert packet[0] == Prefix(|ciphertext|)[0] && packet[1] == Prefix(|ciphertext|)[1];
    assert packet[2..|ciphertext| + 2] == ciphertext;
  }

  /** Fills the packet in place; every index is in range for every `len` of the buffer. */
  method EncodePacket(data: array<byte>, len: nat) returns (packet: array<byte>)
    requires data.Length == CIPHERTEXT_LEN && len <= CIPHERTEXT_LEN
    ensures fresh(packet) && packet[..] == Packet(data[..len])
  {
    packet := new byte[CIPHERTEXT_LEN + 2](_ => 0);
    packet[0], packet[1] := len % 65536 / 256, len % 256;
    forall i | 0 <= i < len {
      packet[2 + i] := data[i];
    }
    assert packet[..2] == Prefix(len);
    assert packet[2..len + 2] == data[..len];
    assert packet[len + 2..] == Zeros(CIPHERTEXT_LEN - len);
    assert packet[..] == packet[..2] + packet[2..len + 2] + packet[len + 2..];
  }

  /** Copies the framed bytes to the front of a zeroed buffer, for packets of any content. */
  method DecodePacket(packet: seq<byte>) returns (ok: bool, message: array<byte>, len: nat)
    ensures fresh(message) && message.Length == CIPHERTEXT_LEN && len <= CIPHERTEXT_LEN
    ensures ok <==> Unpack(packet).Ok?
    ensures ok ==> message[..] == Unpack(packet).value + Zeros(CIPHERTEXT_LEN - len) && len == |Unpack(packet).value|
  {
    message, len := new byte[CIPHERTEXT_LEN](_ => 0), 0;
    if |packet| < 2 || |packet| > CIPHERTEXT_LEN + 2 {
      return false, message, 0;
    }
    len := packet[0] as int * 256 + packet[1] as int;
    if len > CIPHERTEXT_LEN || len + 2 > |packet| {
      return false, message, 0;
    }
    forall i | 0 <= i < len {
      message[i] := packet[2 + i];
    }
    ok := true;
    assert message[..len] == packet[2..len + 2];
    assert message[len..] == Zeros(CIPHERTEXT_LEN - len);
    assert message[..] == message[..len] + message[len..];
  }

  // ------------------------------------------------------------------ the session

  /** One direction of the transport cipher, by nonce. */
  datatype Cipher = Cipher(enc: (nat, seq<byte>) -> seq<byte>, dec: (nat, seq<byte>) -> Option<seq<byte>>)

  /** Authenticated encryption as in section 5.1 of the Noise Protocol Framework: the ciphertext
      is one tag longer, decrypting undoes encrypting, and nothing else decrypts. */
  ghost predicate Lawful(c: Cipher) {
    && (forall n: nat, p: seq<byte> :: |c.enc(n, p)| == |p| + TAG_LEN && c.dec(n, c.enc(n, p)) == Some(p))
    && (forall n: nat, x: seq<byte> :: c.dec(n, x).Some? ==> c.enc(n, c.dec(n, x).value) == x)
  }

  /** The largest nonce and slot counter the Noise library lets a session reach. */
  datatype Limits = Limits(nonce: nat, counter: nat)

  /** One side. `acts` are the handshake messages mixed into its transcript hash so far. */
  datatype Side = Side(
    initiator: bool, acts: seq<seq<byte>>, transport: bool, linkId: Option<seq<byte>>,
    sendNonce: nat, recvNonce: nat, writeCounter: nat, readCounter: nat)

  function NewSide(initiator: bool, writeCounter: nat, readCounter: nat): Side {
    Side(initiator, [], false, None, 0, 0, writeCounter, readCounter)
  }

  const ACTS := 3  // messages of the XX pattern, written in turn, the initiator first

  predicate Writes(s: Side) { |s.acts| < ACTS && (s.initiator <==> |s.acts| % 2 == 0) }

  predicate Awaits(s: Side) { |s.acts| < ACTS && (s.initiator <==> |s.acts| % 2 == 1) }

  function WroteHandshake(s: Side, act: seq<byte>): (Side, Result<seq<byte>>)
    requires |act| <= CIPHERTEXT_LEN
  {
    if s.transport || !Writes(s) then (s, Err(Validation))
    else (s.(acts := s.acts + [act]), Ok(Packet(act)))
  }

  function ReadHandshake(s: Side, packet: seq<byte>, authentic: bool): (Side, Result<()>) {
    if s.transport then (s, Err(Validation))
    else match Unpack(packet)
         case Err(e) => (s, Err(e))
         case Ok(act) =>
           if !Awaits(s) || !authentic then (s, Err(InvalidData))
           else (s.(acts := s.acts + [act]), Ok(()))
  }

  function Transitioned(hash: seq<seq<byte>> -> seq<byte>, s: Side): (Side, Result<()>) {
    if s.transport || |s.acts| < ACTS then (s, Err(Validation))
    else (s.(transport := true, linkId := Some(hash(s.acts))), Ok(()))
  }

  /** `writable` is the Noise library's own verdict on the write. */
  function Encrypted(
    limits: Limits, c: Cipher, s: Side, plaintext: seq<byte>, writable: bool): (Side, Result<seq<byte>>)
    requires |c.enc(s.sendNonce, plaintext)| == |plaintext| + TAG_LEN
  {
    if !s.transport || |plaintext| > MSG_LEN || s.sendNonce >= limits.nonce || !writable then (s, Err(Validation))
    else if s.writeCounter >= limits.counter then (s.(sendNonce := s.sendNonce + 1), Err(Validation))
    else
      var s' := s.(sendNonce := s.sendNonce + 1, writeCounter := s.writeCounter + 1);
      (s', Ok(Packet(c.enc(s.sendNonce, plaintext))))
  }

  function Decrypted(limits: Limits, c: Cipher, s: Side, packet: seq<byte>): (Side, Result<seq<byte>>) {
    if !s.transport then (s, Err(Validation))
    else match Unpack(packet)
         case Err(e) => (s, Err(e))
         case Ok(ciphertext) =>
           if |ciphertext| < TAG_LEN || c.dec(s.recvNonce, ciphertext).None? then (s, Err(InvalidData))
           else if s.readCounter >= limits.counter then (s.(recvNonce := s.recvNonce + 1), Err(Validation))
           else
             var s' := s.(recvNonce := s.recvNonce + 1, readCounter := s.readCounter + 1);
             (s', Ok(c.dec(s.recvNonce, ciphertext).value))
  }

  class MemoryNoiseSession {
    const initiator: bool
    const limits: Limits
    const sending: Cipher
    const receiving: Cipher
    var acts: seq<seq<byte>>
    var transport: bool
    var linkId: Option<seq<byte>>
    var sendNonce: nat
    var recvNonce: nat
    var writeCounter: nat
    var readCounter: nat

    function State(): Side
      reads this
    {
      Side(initiator, acts, transport, linkId, sendNonce, recvNonce, writeCounter, readCounter)
    }

    constructor (initiator: bool, limits: Limits, sending: Cipher, receiving: Cipher)
      ensures State() == NewSide(initiator, 0, 0)
      ensures this.limits == limits && this.sending == sending && this.receiving == receiving
    {
      this.initiator, this.limits, this.sending, this.receiving := initiator, limits, sending, receiving;
      acts, transport, linkId := [], false, None;
      sendNonce, recvNonce, writeCounter, readCounter := 0, 0, 0, 0;
    }

    /** The library's transport write: the ciphertext under the current nonce, which stays. */
    method WriteAct(plaintext: seq<byte>, message: array<byte>) returns (len: nat)
      requires Lawful(sending) && |plaintext| <= MSG_LEN && message.Length == CIPHERTEXT_LEN
      modifies message
      ensures len <= CIPHERTEXT_LEN && message[..len] == sending.enc(sendNonce, plaintext)
    {
      var ciphertext := sending.enc(sendNonce, plaintext);
      len := |ciphertext|;
      forall i | 0 <= i < len {
        message[i] := ciphertext[i];
      }
    }

    /** The library's transport read: the nonce moves on only when the tag is right. */
    method ReadAct(message: array<byte>, payload: array<byte>, len: nat) returns (ok: bool)
      requires Lawful(receiving)
      requires message.Length == CIPHERTEXT_LEN && TAG_LEN <= len <= CIPHERTEXT_LEN && payload.Length == MSG_LEN
      modifies payload, this`recvNonce
      ensures message != payload ==> message[..] == old(message[..])
      ensures ok == receiving.dec(old(recvNonce), old(message[..len])).Some?
      ensures recvNonce == old(recvNonce) + if ok then 1 else 0
      ensures ok ==> payload[..len - TAG_LEN] == receiving.dec(old(recvNonce), old(message[..len])).value
    {
      var plaintext := receiving.dec(recvNonce, message[..len]);
      if plaintext.None? {
        return false;
      }
      assert |plaintext.value| == len - TAG_LEN;
      forall i | 0 <= i < len - TAG_LEN {
        payload[i] := plaintext.value[i];
      }
      recvNonce := recvNonce + 1;
      return true;
    }

    method WriteHandshakeMessage(act: seq<byte>) returns (res: Result<seq<byte>>)
      requires |act| <= CIPHERTEXT_LEN
      modifies this
      ensures (State(), res) == WroteHandshake(old(State()), act)
    {
      if transport || !Writes(State()) {
        return Err(Validation);
      }
      acts := acts + [act];
      var message := new byte[CIPHERTEXT_LEN](i => if 0 <= i < |act| then act[i] else 0);
      assert message[..|act|] == act;
      var packet := EncodePacket(message, |act|);
      return Ok(packet[..]);
    }

    method ReadHandshakeMessage(packet: seq<byte>, authentic: bool) returns (res: Result<()>)
      modifies this
      ensures (State(), res) == ReadHandshake(old(State()), packet, authentic)
    {
      if transport {
        return Err(Validation);
      }
      var ok, message, len := DecodePacket(packet);
      if !ok {
        return Err(InvalidData);
      }
      if !Awaits(State()) || !authentic {
        return Err(InvalidData);
      }
      assert message[..len] == Unpack(packet).value;
      acts := acts + [message[..len]];
      return Ok(());
    }

    method TransitionTransport(hash: seq<seq<byte>> -> seq<byte>) returns (res: Result<()>)
      modifies this
      ensures (State(), res) == Transitioned(hash, old(State()))
    {
      if transport || |acts| < ACTS {
        return Err(Validation);
      }
      transport := true;
      linkId := Some(hash(acts));
      return Ok(());
    }

    method Encrypt(plaintext: seq<byte>, writable: bool) returns (res: Result<seq<byte>>)
      requires Lawful(sending)
      modifies this
      ensures (State(), res) == Encrypted(limits, sending, old(State()), plaintext, writable)
    {
      if !transport {
        return Err(Validation);
      }
      if |plaintext| > MSG_LEN {
        return Err(Validation);
      }
      if sendNonce >= limits.nonce {
        return Err(Validation);
      }
      var message := new byte[CIPHERTEXT_LEN](_ => 0);
      if !writable {
        return Err(Validation);
      }
      var len := WriteAct(plaintext, message);
      sendNonce := sendNonce + 1;
      if writeCounter >= limits.counter {
        return Err(Validation);
      }
      writeCounter := writeCounter + 1;
      var packet := EncodePacket(message, len);
      return Ok(packet[..]);
    }

    method Decrypt(packet: seq<byte>) returns (res: Result<seq<byte>>)
      requires Lawful(receiving)
      modifies this
      ensures (State(), res) == Decrypted(limits, receiving, old(State()), packet)
    {
      if !transport {
        return Err(Validation);
      }
      var ok, message, len := DecodePacket(packet);
      if !ok {
        return Err(InvalidData);
      }
      if len < TAG_LEN {
        return Err(InvalidData);
      }
      assert message[..len] == Unpack(packet).value;
      var payload := new byte[MSG_LEN](_ => 0);
      var read := ReadAct(message, payload, len);
      if !read {
        return Err(InvalidData);
      }
      if readCounter >= limits.counter {
        return Err(Validation);
      }
      readCounter := readCounter + 1;
      return Ok(payload[..len - TAG_LEN]);
    }
  }

  // ----------------------------------------------------- two sides and a hostile network

  /** A packet that `encrypt` returned, with the nonce it was encrypted under. */
  datatype Sent = Sent(nonce: nat, plaintext: seq<byte>, packet: seq<byte>)

  /** A side, the packets it returned and the plaintexts it delivered, in order. */
  datatype Node = Node(side: Side, sent: seq<Sent>, got: seq<seq<byte>>)

  datatype World = World(left: Node, right: Node)

  datatype Act =
    | WriteHandshakeAct(act: seq<byte>)
    | ReadHandshakeAct(packet: seq<byte>, authentic: bool)
    | TransitionAct
    | EncryptAct(plaintext: seq<byte>, writable: bool)
    | DecryptAct(packet: seq<byte>)

  datatype Step = Step(onLeft: bool, act: Act)

  /** What every run is measured against: both directions of one key exchange. */
  datatype Setup = Setup(limits: Limits, hash: seq<seq<byte>> -> seq<byte>, toRight: Cipher, toLeft: Cipher)

  ghost predicate LawfulSetup(u: Setup) { Lawful(u.toRight) && Lawful(u.toLeft) }

  /** The ideal cipher: a ciphertext that passes under a nonce is one the peer released under
      that nonce. Nothing else is asked of the network: packets may be dropped, reordered,
      repeated, cut, padded or made up. */
  ghost predicate Unforged(c: Cipher, nonce: nat, packet: seq<byte>, sent: seq<Sent>) {
    Unpack(packet).Ok? && c.dec(nonce, Unpack(packet).value).Some? ==>
      exists i :: 0 <= i < |sent| && sent[i].nonce == nonce && Unpack(sent[i].packet) == Unpack(packet)
  }

  ghost predicate MayAct(receive: Cipher, node: Node, peer: Node, act: Act) {
    match act
    case WriteHandshakeAct(m) => |m| <= CIPHERTEXT_LEN
    case DecryptAct(packet) => Unforged(receive, node.side.recvNonce, packet, peer.sent)
    case _ => true
  }

  ghost function Acted(u: Setup, send: Cipher, receive: Cipher, node: Node, act: Act): Node
    requires Lawful(send)
    requires act.WriteHandshakeAct? ==> |act.act| <= CIPHERTEXT_LEN
  {
    match act
    case WriteHandshakeAct(m) => node.(side := WroteHandshake(node.side, m).0)
    case ReadHandshakeAct(packet, authentic) => node.(side := ReadHandshake(node.side, packet, authentic).0)
    case TransitionAct => node.(side := Transitioned(u.hash, node.side).0)
    case EncryptAct(plaintext, writable) =>
      var (side, res) := Encrypted(u.limits, send, node.side, plaintext, writable);
      Node(side, if res.Ok? then node.sent + [Sent(node.side.sendNonce, plaintext, res.value)] else node.sent, node.got)
    case DecryptAct(packet) =>
      var (side, res) := Decrypted(u.limits, receive, node.side, packet);
      Node(side, node.sent, if res.Ok? then node.got + [res.value] else node.got)
  }

  ghost predicate Enabled(u: Setup, w: World, step: Step) {
    if step.onLeft then MayAct(u.toLeft, w.left, w.right, step.act) else MayAct(u.toRight, w.right, w.left, step.act)
  }

  ghost function Next(u: Setup, w: World, step: Step): World
    requires LawfulSetup(u) && Enabled(u, w, step)
  {
    if step.onLeft then w.(left := Acted(u, u.toRight, u.toLeft, w.left, step.act))
    else w.(right := Acted(u, u.toLeft, u.toRight, w.right, step.act))
  }

  ghost predicate Reaches(u: Setup, w: World, steps: seq<Step>, w': World)
    requires LawfulSetup(u)
    decreases |steps|
  {
    if steps == [] then w == w'
    else Enabled(u, w, steps[0]) && Reaches(u, Next(u, w, steps[0]), steps[1..], w')
  }

  ghost predicate Fresh(w: World) {
    && w.left == Node(NewSide(true, w.left.side.writeCounter, w.left.side.readCounter), [], [])
    && w.right == Node(NewSide(false, w.right.side.writeCounter, w.right.side.readCounter), [], [])
  }

  /** The packet returned at place `i` was encrypted under nonce `i`; once the write counter is
      used up nonces are still consumed but nothing is returned any more. */
  ghost predicate SentInOrder(limits: Limits, c: Cipher, node: Node) {
    && (forall i :: 0 <= i < |node.sent| ==>
          var p := node.sent[i].plaintext;
          |p| <= MSG_LEN && node.sent[i].nonce == i && Unpack(node.sent[i].packet) == Ok(c.enc(i, p)))
    && |node.sent| <= node.side.sendNonce
    && (|node.sent| < node.side.sendNonce ==> node.side.writeCounter >= limits.counter)
  }

  ghost predicate GotInOrder(limits: Limits, node: Node, peer: Node) {
    && |node.got| <= node.side.recvNonce <= |peer.sent|
    && (|node.got| < node.side.recvNonce ==> node.side.readCounter >= limits.counter)
    && forall i :: 0 <= i < |node.got| ==> node.got[i] == peer.sent[i].plaintext
  }

  ghost predicate Gated(hash: seq<seq<byte>> -> seq<byte>, node: Node) {
    && |node.side.acts| <= ACTS
    && node.side.linkId == (if node.side.transport then Some(hash(node.side.acts)) else None)
    && (node.side.transport ==> |node.side.acts| == ACTS)
    && (!node.side.transport ==> node.side.sendNonce == node.side.recvNonce == 0)
  }

  ghost predicate Channel(u: Setup, c: Cipher, sender: Node, receiver: Node) {
    SentInOrder(u.limits, c, sender) && GotInOrder(u.limits, receiver, sender)
  }

  ghost predicate Inv(u: Setup, w: World) {
    && Channel(u, u.toRight, w.left, w.right) && Channel(u, u.toLeft, w.right, w.left)
    && Gated(u.hash, w.left) && Gated(u.hash, w.right)
  }

  lemma SendingStep(u: Setup, send: Cipher, receive: Cipher, node: Node, peer: Node, act: Act)
    requires Lawful(send) && Channel(u, send, node, peer)
    requires act.WriteHandshakeAct? ==> |act.act| <= CIPHERTEXT_LEN
    ensures Channel(u, send, Acted(u, send, receive, node, act), peer)
  {
    if act.EncryptAct? && Encrypted(u.limits, send, node.side, act.plaintext, act.writable).1.Ok? {
      var x := send.enc(node.side.sendNonce, act.plaintext);
      UnpackFramed(x, Zeros(CIPHERTEXT_LEN - |x|));
    }
  }

  /** A packet that authenticates is the next one sent. */
  lemma NextIsGenuine(u: Setup, receive: Cipher, node: Node, peer: Node, packet: seq<byte>)
    requires Lawful(receive) && Channel(u, receive, peer, node)
    requires Unforged(receive, node.side.recvNonce, packet, peer.sent)
    requires Unpack(packet).Ok? && receive.dec(node.side.recvNonce, Unpack(packet).value).Some?
    ensures var n := node.side.recvNonce;
      n < |peer.sent| && receive.dec(n, Unpack(packet).value) == Some(peer.sent[n].plaintext)
  {
    var n := node.side.recvNonce;
    var i :| 0 <= i < |peer.sent| && peer.sent[i].nonce == n && Unpack(peer.sent[i].packet) == Unpack(packet);
    assert receive.dec(n, receive.enc(n, peer.sent[n].plaintext)) == Some(peer.sent[n].plaintext);
  }

  lemma ReceivingStep(u: Setup, send: Cipher, receive: Cipher, node: Node, peer: Node, act: Act)
    requires Lawful(send) && Lawful(receive) && Channel(u, receive, peer, node) && MayAct(receive, node, peer, act)
    ensures Channel(u, receive, peer, Acted(u, send, receive, node, act))
  {
    if act.DecryptAct? && Decrypted(u.limits, receive, node.side, act.packet).0 != node.side {
      NextIsGenuine(u, receive, node, peer, act.packet);
    }
  }

  lemma GatedStep(u: Setup, send: Cipher, receive: Cipher, node: Node, act: Act)
    requires Lawful(send) && Gated(u.hash, node)
    requires act.WriteHandshakeAct? ==> |act.act| <= CIPHERTEXT_LEN
    ensures Gated(u.hash, Acted(u, send, receive, node, act))
  {
  }

  lemma StepKeepsInv(u: Setup, w: World, step: Step)
    requires LawfulSetup(u) && Inv(u, w) && Enabled(u, w, step)
    ensures Inv(u, Next(u, w, step))
  {
    if step.onLeft {
      SendingStep(u, u.toRight, u.toLeft, w.left, w.right, step.act);
      ReceivingStep(u, u.toRight, u.toLeft, w.left, w.right, step.act);
      GatedStep(u, u.toRight, u.toLeft, w.left, step.act);
    } else {
      SendingStep(u, u.toLeft, u.toRight, w.right, w.left, step.act);
      ReceivingStep(u, u.toLeft, u.toRight, w.right, w.left, step.act);
      GatedStep(u, u.toLeft, u.toRight, w.right, step.act);
    }
  }

  lemma {:induction false} RunKeepsInv(u: Setup, w: World, steps: seq<Step>, w': World)
    requires LawfulSetup(u) && Inv(u, w) && Reaches(u, w, steps, w')
    ensures Inv(u, w')
    decreases |steps|
  {
    if steps != [] {
      StepKeepsInv(u, w, steps[0]);
      RunKeepsInv(u, Next(u, w, steps[0]), steps[1..], w');
    }
  }

  // ---------------------------------------------------------------- whole-run results

  /** No side ever returns two packets under one nonce, error exits included. */
  lemma NoncesNeverRepeat(u: Setup, w: World, steps: seq<Step>, w': World, i: nat, j: nat)
    requires LawfulSetup(u) && Fresh(w) && Reaches(u, w, steps, w')
    ensures i < j < |w'.left.sent| ==> w'.left.sent[i].nonce < w'.left.sent[j].nonce < w'.left.side.sendNonce
    ensures i < j < |w'.right.sent| ==> w'.right.sent[i].nonce < w'.right.sent[j].nonce < w'.right.side.sendNonce
  {
    RunKeepsInv(u, w, steps, w');
  }

  function Plaintexts(sent: seq<Sent>): (ps: seq<seq<byte>>)
    ensures |ps| == |sent| && forall i :: 0 <= i < |sent| ==> ps[i] == sent[i].plaintext
  {
    seq(|sent|, i requires 0 <= i < |sent| => sent[i].plaintext)
  }

  /** Whatever the network does, each side has delivered a prefix of what the other sent. */
  lemma DeliveredIsPrefix(u: Setup, w: World, steps: seq<Step>, w': World)
    requires LawfulSetup(u) && Fresh(w) && Reaches(u, w, steps, w')
    ensures w'.right.got <= Plaintexts(w'.left.sent) && w'.left.got <= Plaintexts(w'.right.sent)
    ensures forall p :: p in w'.right.got || p in w'.left.got ==> |p| <= MSG_LEN
  {
    RunKeepsInv(u, w, steps, w');
  }

  /** A remark on the invariant: with a collision-free transcript hash, both link ids exist and agree exactly when both
      sides are in transport mode over the same handshake messages. */
  lemma LinkIdsConverge(u: Setup, w: World, steps: seq<Step>, w': World)
    requires LawfulSetup(u) && Fresh(w) && Reaches(u, w, steps, w')
    requires forall a, b :: u.hash(a) == u.hash(b) ==> a == b
    ensures w'.left.side.linkId.Some? && w'.left.side.linkId == w'.right.side.linkId
       <==> w'.left.side.transport && w'.right.side.transport && w'.left.side.acts == w'.right.side.acts
    ensures w'.left.side.linkId.Some? ==> |w'.left.side.acts| == ACTS
  {
    RunKeepsInv(u, w, steps, w');
  }

  // -------------------------------------------------------------- in-order delivery

  function DecryptAll(limits: Limits, c: Cipher, s: Side, packets: seq<seq<byte>>): (Side, seq<seq<byte>>)
    decreases |packets|
  {
    if packets == [] then (s, [])
    else
      var (s', res) := Decrypted(limits, c, s, packets[0]);
      var (s'', rest) := DecryptAll(limits, c, s', packets[1..]);
      (s'', if res.Ok? then [res.value] + rest else rest)
  }

  /** The peer's packets in order, starting at `nonce`, each with any padding that fits, and any
      number of packets in between that do not authenticate. */
  ghost predicate InOrder(c: Cipher, nonce: nat, packets: seq<seq<byte>>, plaintexts: seq<seq<byte>>)
    decreases |packets|
  {
    if packets == [] then plaintexts == []
    else
      || (&& plaintexts != []
          && Unpack(packets[0]) == Ok(c.enc(nonce, plaintexts[0]))
          && InOrder(c, nonce + 1, packets[1..], plaintexts[1..]))
      || (&& (Unpack(packets[0]).Ok? ==> c.dec(nonce, Unpack(packets[0]).value).None?)
          && InOrder(c, nonce, packets[1..], plaintexts))
  }

  /** Then exactly those plaintexts come out, one per genuine packet. */
  lemma {:induction false} InOrderDelivery(
    limits: Limits, c: Cipher, s: Side, packets: seq<seq<byte>>, plaintexts: seq<seq<byte>>)
    requires Lawful(c) && s.transport && InOrder(c, s.recvNonce, packets, plaintexts)
    requires s.readCounter + |plaintexts| <= limits.counter
    ensures DecryptAll(limits, c, s, packets).1 == plaintexts
    ensures DecryptAll(limits, c, s, packets).0
         == s.(recvNonce := s.recvNonce + |plaintexts|, readCounter := s.readCounter + |plaintexts|)
    decreases |packets|
  {
    if packets != [] {
      var (s', res) := Decrypted(limits, c, s, packets[0]);
      if res.Ok? {
        assert c.enc(s.recvNonce, res.value) == Unpack(packets[0]).value;
        assert c.dec(s.recvNonce, c.enc(s.recvNonce, plaintexts[0])) == Some(plaintexts[0]);
        InOrderDelivery(limits, c, s', packets[1..], plaintexts[1..]);
        assert plaintexts == [plaintexts[0]] + plaintexts[1..];
      } else {
        InOrderDelivery(limits, c, s', packets[1..], plaintexts);
      }
    }
  }
}
