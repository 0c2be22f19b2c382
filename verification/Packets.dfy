/** Packets, the responses that carry them, and what it means to filter them against a set of
    blocked signatures. */
module Packets {
  import opened Prelude

  const SIGNATURE_BYTES := 64

  type Signature = s: Bytes | |s| == SIGNATURE_BYTES witness seq(SIGNATURE_BYTES, _ => 0)

  datatype Meta = Meta(
    size: nat, addr: string, port: nat,
    forwarded: bool, repair: bool, simpleVoteTx: bool, tracer: bool, fromStakedNode: bool)

  /** A packet as received. `payload` is absent when the buffer is shorter than the recorded size. */
  datatype Packet = Packet(payload: Option<Bytes>, discard: bool, meta: Meta)
  {
    /** The payload is not readable once the packet is marked for discarding. */
    function Data(): Option<Bytes> {
      if discard then None else payload
    }
  }

  type PacketBatches = seq<seq<Packet>>

  /** A packet on the wire towards the validator. */
  datatype ProtoPacket = ProtoPacket(data: Bytes, meta: Meta, discard: bool, senderStake: nat)

  datatype PacketsResponse = PacketsResponse(batch: Option<seq<ProtoPacket>>)
  datatype BundleUuid = BundleUuid(bundle: Option<seq<ProtoPacket>>, uuid: string)
  datatype BundlesResponse = BundlesResponse(bundles: seq<BundleUuid>)

  /** A transaction's first signature follows the one-byte signature count. */
  function FirstSignature(data: Bytes): (r: Option<Signature>)
    ensures r.Some? <==> |data| >= 65
    ensures r.Some? ==> |r.value| == 64 && forall i :: 0 <= i < 64 ==> r.value[i] == data[i + 1]
  {
    if |data| < 65 then None else Some(data[1..65])
  }

  predicate Blocks(blocked: set<Signature>, data: Bytes) {
    var signature := FirstSignature(data);
    signature.Some? && signature.value in blocked
  }

  function Mark(blocked: set<Signature>, p: Packet): Packet {
    p.(discard := p.discard || (p.payload.Some? && Blocks(blocked, p.payload.value)))
  }

  function MarkAll(blocked: set<Signature>, ps: seq<Packet>): seq<Packet> {
    seq(|ps|, i requires 0 <= i < |ps| => Mark(blocked, ps[i]))
  }

  function MarkBatches(blocked: set<Signature>, batches: PacketBatches): PacketBatches {
    seq(|batches|, i requires 0 <= i < |batches| => MarkAll(blocked, batches[i]))
  }

  predicate KeepsPacket(blocked: set<Signature>, p: ProtoPacket) {
    !Blocks(blocked, p.data)
  }

  predicate KeepsBundle(blocked: set<Signature>, b: BundleUuid) {
    b.bundle.Some? ==> forall p :: p in b.bundle.value ==> KeepsPacket(blocked, p)
  }

  function RetainPackets(blocked: set<Signature>, resp: PacketsResponse): PacketsResponse {
    if resp.batch.None? then resp
    else PacketsResponse(Some(Retain(p => KeepsPacket(blocked, p), resp.batch.value)))
  }

  function RetainBundles(blocked: set<Signature>, resp: BundlesResponse): BundlesResponse {
    BundlesResponse(Retain(b => KeepsBundle(blocked, b), resp.bundles))
  }

  /** Marking by one set and then another is marking by their union; taking both sets equal gives
      idempotence. */
  lemma MarkUnion(a: set<Signature>, b: set<Signature>, batches: PacketBatches)
    ensures MarkBatches(b, MarkBatches(a, batches)) == MarkBatches(a + b, batches)
    ensures MarkBatches(a, MarkBatches(a, batches)) == MarkBatches(a, batches)
    ensures MarkBatches({}, batches) == batches
  {
    forall i | 0 <= i < |batches|
      ensures MarkAll(b, MarkAll(a, batches[i])) == MarkAll(a + b, batches[i])
      ensures MarkAll(a, MarkAll(a, batches[i])) == MarkAll(a, batches[i])
      ensures MarkAll({}, batches[i]) == batches[i]
    {
    }
  }

  lemma RetainPacketsUnion(a: set<Signature>, b: set<Signature>, resp: PacketsResponse)
    ensures RetainPackets(b, RetainPackets(a, resp)) == RetainPackets(a + b, resp)
    ensures RetainPackets(a, RetainPackets(a, resp)) == RetainPackets(a, resp)
    ensures RetainPackets({}, resp) == resp
  {
    if resp.batch.Some? {
      RetainTwice(p => KeepsPacket(a, p), p => KeepsPacket(b, p), p => KeepsPacket(a + b, p), resp.batch.value);
      RetainTwice(p => KeepsPacket(a, p), p => KeepsPacket(a, p), p => KeepsPacket(a, p), resp.batch.value);
      RetainMembers(p => KeepsPacket({}, p), resp.batch.value);
    }
  }

  /** Bundles survive or fall whole, so filtering by a union is again filtering twice. */
  lemma RetainBundlesUnion(a: set<Signature>, b: set<Signature>, resp: BundlesResponse)
    ensures RetainBundles(b, RetainBundles(a, resp)) == RetainBundles(a + b, resp)
    ensures RetainBundles(a, RetainBundles(a, resp)) == RetainBundles(a, resp)
    ensures RetainBundles({}, resp) == resp
    ensures forall u :: u in RetainBundles(a, resp).bundles <==> u in resp.bundles && KeepsBundle(a, u)
  {
    RetainTwice(u => KeepsBundle(a, u), u => KeepsBundle(b, u), u => KeepsBundle(a + b, u), resp.bundles);
    RetainTwice(u => KeepsBundle(a, u), u => KeepsBundle(a, u), u => KeepsBundle(a, u), resp.bundles);
    RetainMembers(u => KeepsBundle(a, u), resp.bundles);
    RetainMembers(u => KeepsBundle({}, u), resp.bundles);
  }
}
