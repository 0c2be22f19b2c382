/** How the forwarder turns batches of received packets into messages of at most 64 packets. */
module Rebatching {
  import opened Prelude
  import opened Packets

  const VALIDATOR_PACKET_BATCH_SIZE: nat := 64

  type Chunk = seq<ProtoPacket>

  function ToProto(p: Packet): Option<ProtoPacket> {
    match p.Data()
    case None => None
    case Some(data) => Some(ProtoPacket(data, p.meta, p.discard, 0))
  }

  function Sends(p: Packet): Option<ProtoPacket> {
    if p.discard then None else ToProto(p)
  }

  /** What is sent for a list of packets: those not discarded and with a readable payload. */
  function Sendable(ps: seq<Packet>): seq<ProtoPacket> {
    Chosen(Sends, ps)
  }

  ghost predicate AllFull(chunks: seq<Chunk>) {
    forall i :: 0 <= i < |chunks| ==> |chunks[i]| == VALIDATOR_PACKET_BATCH_SIZE
  }

  /** `chunks` splits `packets` in order, every chunk full but the last, which is not empty. */
  ghost predicate Canonical(chunks: seq<Chunk>, packets: seq<ProtoPacket>) {
    && Flatten(chunks) == packets
    && (chunks != [] ==>
          && AllFull(chunks[..|chunks| - 1])
          && 1 <= |chunks[|chunks| - 1]| <= VALIDATOR_PACKET_BATCH_SIZE)
  }

  // ---------------------------------------------------------------- which packets, and what is sent of them

  /** A packet's place in the batches. */
  datatype Place = Place(batch: nat, index: nat)

  predicate Precedes(p: Place, q: Place) {
    p.batch < q.batch || (p.batch == q.batch && p.index < q.index)
  }

  /** There is a packet in this place, not discarded and with a payload. */
  ghost predicate Goes(batches: PacketBatches, p: Place) {
    && p.batch < |batches| && p.index < |batches[p.batch]|
    && !batches[p.batch][p.index].discard && batches[p.batch][p.index].payload.Some?
  }

  /** `at` lists the places of exactly these packets, in order. */
  ghost predicate Lists(at: seq<Place>, batches: PacketBatches) {
    && (forall k :: 0 <= k < |at| ==> Goes(batches, at[k]))
    && (forall j, k :: 0 <= j < k < |at| ==> Precedes(at[j], at[k]))
    && (forall p :: Goes(batches, p) ==> p in at)
  }

  /** What goes out for a packet: all of its payload and its meta data, not to be discarded. */
  ghost predicate SentAs(p: Packet, q: ProtoPacket) {
    p.payload == Some(q.data) && q.meta == p.meta && !q.discard && q.senderStake == 0
  }

  /** The chunks hold these packets 64 at a time, the last one what is left. */
  ghost predicate Chunked(chunks: seq<Chunk>, at: seq<Place>, batches: PacketBatches) {
    && Lists(at, batches) && |chunks| == (|at| + 63) / 64
    && (forall c :: 0 <= c < |chunks| ==> |chunks[c]| == if 64 * (c + 1) <= |at| then 64 else |at| - 64 * c)
    && (forall c, i :: 0 <= c < |chunks| && 0 <= i < |chunks[c]| ==>
          && 64 * c + i < |at|
          && var p := at[64 * c + i]; SentAs(batches[p.batch][p.index], chunks[c][i]))
  }

  lemma {:induction false} SendablePlaces(batches: PacketBatches) returns (at: seq<Place>)
    ensures Lists(at, batches) && |at| == |Sendable(Flatten(batches))|
    ensures forall k :: 0 <= k < |at| ==> SentAs(batches[at[k].batch][at[k].index], Sendable(Flatten(batches))[k])
  {
    at := [];
    if batches != [] {
      var n := |batches| - 1;
      var front, last := batches[..n], batches[n];
      at := SendablePlaces(front);
      var indices := ChosenIndices(Sends, last);
      ChosenConcat(Sends, Flatten(front), last);
      hide Flatten, Chosen;
      var places := seq(|indices|, k requires 0 <= k < |indices| => Place(n, indices[k]));
      PlacesSnoc(at, front, last, indices);
      at := at + places;
      assert batches == front + [last];
      assert Sendable(Flatten(batches)) == Sendable(Flatten(front)) + Sendable(last);
    }
  }

  lemma PlacesSnoc(at: seq<Place>, front: PacketBatches, last: seq<Packet>, indices: seq<nat>)
    requires Lists(at, front)
    requires forall k :: 0 <= k < |indices| ==> indices[k] < |last| && Sends(last[indices[k]]).Some?
    requires forall j, k :: 0 <= j < k < |indices| ==> indices[j] < indices[k]
    requires forall i :: 0 <= i < |last| && Sends(last[i]).Some? ==> i in indices
    ensures Lists(at + seq(|indices|, k requires 0 <= k < |indices| => Place(|front|, indices[k])), front + [last])
  {
    var batches := front + [last];
    var places := seq(|indices|, k requires 0 <= k < |indices| => Place(|front|, indices[k]));
    forall p | Goes(batches, p)
      ensures p in at + places
    {
      if p.batch < |front| {
        assert Goes(front, p);
      } else {
        assert p.index in indices;
        var k :| 0 <= k < |indices| && indices[k] == p.index;
        assert places[k] == p;
      }
    }
    forall k | 0 <= k < |at|
      ensures Goes(batches, at[k])
    {
      assert Goes(front, at[k]);
    }
  }

  lemma {:induction false} FlattenAt(chunks: seq<Chunk>, c: nat, i: nat)
    requires c < |chunks| && i < |chunks[c]| && AllFull(chunks[..|chunks| - 1])
    ensures 64 * c + i < |Flatten(chunks)| && Flatten(chunks)[64 * c + i] == chunks[c][i]
  {
    var n := |chunks| - 1;
    FullSize(chunks[..n]);
    if c < n {
      FlattenAt(chunks[..n], c, i);
    }
  }

  /** The canonical chunks, place by place. */
  lemma CanonicalIsChunked(chunks: seq<Chunk>, batches: PacketBatches) returns (at: seq<Place>)
    requires Canonical(chunks, Sendable(Flatten(batches)))
    ensures Chunked(chunks, at, batches)
  {
    at := SendablePlaces(batches);
    ChunkCount(chunks, Sendable(Flatten(batches)));
    if chunks != [] {
      FullSize(chunks[..|chunks| - 1]);
      FlattenSnoc(chunks[..|chunks| - 1], chunks[|chunks| - 1]);
      assert chunks == chunks[..|chunks| - 1] + [chunks[|chunks| - 1]];
    }
    forall c: nat, i: nat | c < |chunks| && i < |chunks[c]|
      ensures 64 * c + i < |at| && var p := at[64 * c + i]; SentAs(batches[p.batch][p.index], chunks[c][i])
    {
      FlattenAt(chunks, c, i);
    }
  }

  method Rebatch(batches: PacketBatches) returns (chunks: seq<Chunk>, ghost at: seq<Place>)
    ensures Canonical(chunks, Sendable(Flatten(batches)))
    ensures Chunked(chunks, at, batches)
  {
    hide Flatten, Chosen, Sends;
    chunks := [];
    var current := [];
    NothingPending();
    for b := 0 to |batches|
      invariant Pending(chunks, current, Flatten(batches[..b]))
    {
      var batch := batches[b];
      ghost var earlier := Flatten(batches[..b]);
      assert earlier + batch[..0] == earlier;
      for k := 0 to |batch|
        invariant Pending(chunks, current, earlier + batch[..k])
      {
        ghost var before := earlier + batch[..k];
        assert earlier + batch[..k + 1] == before + [batch[k]];
        SendableSnoc(before, batch[k]);
        if !batch[k].discard {
          var proto := ToProto(batch[k]);
          if proto.Some? {
            assert Flatten(chunks) + current + [proto.value] == Flatten(chunks) + (current + [proto.value]);
            current := current + [proto.value];
            if |current| == VALIDATOR_PACKET_BATCH_SIZE {
              FlattenSnoc(chunks, current);
              chunks, current := chunks + [current], [];
              assert Flatten(chunks) + [] == Flatten(chunks);
            }
          }
        }
      }
      assert batches[..b + 1] == batches[..b] + [batch];
      FlattenSnoc(batches[..b], batch);
      assert batch[..|batch|] == batch;
    }
    assert batches[..|batches|] == batches;
    if current != [] {
      FlattenSnoc(chunks, current);
      chunks := chunks + [current];
    }
    at := CanonicalIsChunked(chunks, batches);
  }

  lemma SendableSnoc(ps: seq<Packet>, p: Packet)
    ensures Sendable(ps + [p]) ==
            if !p.discard && ToProto(p).Some? then Sendable(ps) + [ToProto(p).value] else Sendable(ps)
  {
    ChosenSnoc(Sends, ps, p);
  }

  lemma NothingPending()
    ensures Pending([], [], Flatten([]))
  {
  }

  /** Full chunks so far, and fewer packets than a chunk pending. */
  ghost predicate Pending(chunks: seq<Chunk>, current: Chunk, packets: seq<Packet>) {
    AllFull(chunks) && |current| < VALIDATOR_PACKET_BATCH_SIZE && Flatten(chunks) + current == Sendable(packets)
  }

  lemma {:induction false} FullSize(chunks: seq<Chunk>)
    requires AllFull(chunks)
    ensures |Flatten(chunks)| == VALIDATOR_PACKET_BATCH_SIZE * |chunks|
  {
    if chunks != [] {
      FullSize(chunks[..|chunks| - 1]);
    }
  }

  /** The number of chunks is the number of packets over 64, rounded up. */
  lemma ChunkCount(chunks: seq<Chunk>, packets: seq<ProtoPacket>)
    requires Canonical(chunks, packets)
    ensures |chunks| == (|packets| + VALIDATOR_PACKET_BATCH_SIZE - 1) / VALIDATOR_PACKET_BATCH_SIZE
  {
    if chunks != [] {
      FullSize(chunks[..|chunks| - 1]);
    }
  }

  /** There is only one canonical split: the messages depend on nothing but the packets sent. */
  lemma CanonicalIsUnique(c1: seq<Chunk>, c2: seq<Chunk>, packets: seq<ProtoPacket>)
    requires Canonical(c1, packets) && Canonical(c2, packets)
    ensures c1 == c2
  {
    ChunkCount(c1, packets);
    ChunkCount(c2, packets);
    if c1 != [] {
      var n := |c1| - 1;
      FullSize(c1[..n]);
      FullSize(c2[..n]);
      assert Flatten(c1[..n]) == packets[..VALIDATOR_PACKET_BATCH_SIZE * n] == Flatten(c2[..n]);
      assert c1[n] == packets[VALIDATOR_PACKET_BATCH_SIZE * n..] == c2[n];
      FullIsUnique(c1[..n], c2[..n]);
      assert c1 == c1[..n] + [c1[n]] && c2 == c2[..n] + [c2[n]];
    }
  }

  lemma {:induction false} FullIsUnique(c1: seq<Chunk>, c2: seq<Chunk>)
    requires AllFull(c1) && AllFull(c2) && |c1| == |c2| && Flatten(c1) == Flatten(c2)
    ensures c1 == c2
  {
    if c1 != [] {
      var n := |c1| - 1;
      FullSize(c1[..n]);
      FullSize(c2[..n]);
      var all := Flatten(c1);
      assert all[..VALIDATOR_PACKET_BATCH_SIZE * n] == Flatten(c1[..n]) == Flatten(c2[..n]);
      assert all[VALIDATOR_PACKET_BATCH_SIZE * n..] == c1[n] == c2[n];
      FullIsUnique(c1[..n], c2[..n]);
    }
  }

  /** Marking and then skipping what is marked sends exactly what would be sent without the filter,
      less the packets the block-engine filter would not retain. */
  lemma MarkThenSkipIsRetain(blocked: set<Signature>, batches: PacketBatches)
    ensures Sendable(Flatten(MarkBatches(blocked, batches)))
            == Retain(p => KeepsPacket(blocked, p), Sendable(Flatten(batches)))
  {
    FlattenMarked(blocked, batches);
    SendableMarked(blocked, Flatten(batches));
  }

  lemma {:induction false} FlattenMarked(blocked: set<Signature>, batches: PacketBatches)
    ensures Flatten(MarkBatches(blocked, batches)) == MarkAll(blocked, Flatten(batches))
  {
    if batches != [] {
      var n := |batches| - 1;
      FlattenMarked(blocked, batches[..n]);
      assert MarkBatches(blocked, batches)[..n] == MarkBatches(blocked, batches[..n]);
    }
  }

  lemma {:induction false} SendableMarked(blocked: set<Signature>, ps: seq<Packet>)
    ensures Sendable(MarkAll(blocked, ps)) == Retain(p => KeepsPacket(blocked, p), Sendable(ps))
  {
    if ps != [] {
      var n := |ps| - 1;
      SendableMarked(blocked, ps[..n]);
      assert MarkAll(blocked, ps) == MarkAll(blocked, ps[..n]) + [Mark(blocked, ps[n])];
      ChosenSnoc(Sends, MarkAll(blocked, ps[..n]), Mark(blocked, ps[n]));
      if Sends(ps[n]).Some? {
        RetainSnoc(p => KeepsPacket(blocked, p), Sendable(ps[..n]), Sends(ps[n]).value);
      }
    }
  }
}
