/** Receiver markers: the wire form, and what makes one valid for a receiver. */
module ReceiverMarker {
  import opened Wrappers
  import opened Paths
  import Utf8

  const RECEIVER_MARKER_KIND := "paykit.receiver"
  const RECEIVER_MARKER_VERSION := 1

  datatype PublicKey = PublicKey(bytes: seq<Utf8.byte>)

  datatype Capabilities = Capabilities(
    privatePayments: bool, paymentRequests: bool, receipts: bool, outgoingPayments: bool)

  datatype Marker = Marker(receiverPath: string, capabilities: Capabilities, noiseKey: PublicKey)

  datatype Wire = Wire(
    version: nat, kind: string, receiverPath: string, capabilities: Capabilities, noiseKey: string)

  /** The JSON and z-base-32 libraries: rendering functions and their partial inverses. */
  datatype Codec = Codec(
    render: Wire -> string, parse: string -> Option<Wire>,
    z32: PublicKey -> string, fromZ32: string -> Option<PublicKey>)

  ghost predicate Lawful(codec: Codec) {
    && (forall w: Wire :: codec.parse(codec.render(w)) == Some(w))
    && codec.parse("").None?
    && (forall k: PublicKey :: codec.fromZ32(codec.z32(k)) == Some(k))
  }

  function ToWire(codec: Codec, m: Marker): Wire {
    Wire(RECEIVER_MARKER_VERSION, RECEIVER_MARKER_KIND, m.receiverPath, m.capabilities, codec.z32(m.noiseKey))
  }

  function FromWire(codec: Codec, wire: Wire): Result<Marker> {
    if wire.version != RECEIVER_MARKER_VERSION || wire.kind != RECEIVER_MARKER_KIND then Err(InvalidData)
    else match codec.fromZ32(wire.noiseKey)
         case None => Err(InvalidData)
         case Some(key) => Ok(Marker(wire.receiverPath, wire.capabilities, key))
  }

  function Serialize(codec: Codec, m: Marker): string { codec.render(ToWire(codec, m)) }

  function Parse(codec: Codec, raw: string, expected: string): Result<Marker> {
    match codec.parse(raw)
    case None => Err(InvalidData)
    case Some(wire) =>
      if !IsReceiverPath(wire.receiverPath) then Err(InvalidData)
      else match FromWire(codec, wire)
           case Err(e) => Err(e)
           case Ok(m) => if m.receiverPath != expected then Err(InvalidData) else Ok(m)
  }

  /** A published marker parses back for its own receiver path and for no other. */
  lemma MarkerRoundTrip(codec: Codec, m: Marker, expected: string)
    requires Lawful(codec) && IsReceiverPath(m.receiverPath)
    ensures Serialize(codec, m) != ""
    ensures Parse(codec, Serialize(codec, m), expected)
         == if expected == m.receiverPath then Ok(m) else Err(InvalidData)
  {
  }
}
