/** The relayer's whole path: a batch is delayed, marked by the delay thread, cut into chunks by the
    forwarder, and offered to the subscribed validator. */
module RelayerPath {
  import opened Prelude
  import opened Packets
  import opened DelayJournals
  import opened Rebatching
  import Channels
  import DelayLines
  import FanOut

  /** What a subscriber's channel gains from the k-th batch are some of the canonical chunks, in order, of
      those of the batch's sendable packets that `keep` accepts, as if the thread had retained packets and
      not marked them. It accepts only what may pass at the sweep of the turn in which the batch left, and
      refuses only what may be blocked. */
  lemma ValidatorReceives(
    line: DelayLines.RelayerDelay, k: nat,
    before: map<FanOut.SenderId, Channels.Channel>, after: map<FanOut.SenderId, Channels.Channel>,
    subscribers: seq<FanOut.Subscriber>, chunks: seq<Chunk>, dropped: nat, failed: seq<FanOut.Pubkey>, j: nat)
    returns (n: nat, keep: ProtoPacket -> bool, at: seq<Place>)
    requires line.Valid() && k < |line.sent| && j < |subscribers|
    requires Canonical(chunks, Sendable(Flatten(line.sent[k])))
    requires FanOut.FannedOut(before, after, subscribers, chunks, dropped, failed)
    ensures DelayLines.LeftIn(line, k, n)
    ensures Chunked(chunks, at, line.sent[k])
    ensures Canonical(chunks, Retain(keep, Sendable(Flatten(line.journal.arrivals[k].item))))
    ensures var s := subscribers[j].sender;
            && s in before && s in after && |before[s].accepted| <= |after[s].accepted|
            && FanOut.Subsequence(after[s].accepted[|before[s].accepted|..], FanOut.Batches(chunks))
    ensures forall p :: p in Sendable(Flatten(line.journal.arrivals[k].item)) ==>
              var log, at := line.filters.log, line.journal.releases[k].filteredAt;
              var sweep := log.sweeps[line.journal.passes[n].sweeps - 1];
              if keep(p) then MayPass(p.data, log.insertions, at, sweep) else MayBlock(p.data, log.insertions, at, sweep)
  {
    n := DelayLines.BatchLeaves(line, k);
    at := CanonicalIsChunked(chunks, line.sent[k]);
    hide DelayLines.RelayerDelay.Valid, DelayLines.LeftIn, MayBlock, MayPass, MarkBatches, Canonical, Chunked, Flatten, Chosen;
    hide FanOut.Subsequence, FanOut.Growth;
    var blocked := line.journal.releases[k].blocked;
    keep := p => KeepsPacket(blocked, p);
    MarkThenSkipIsRetain(blocked, line.journal.arrivals[k].item);
    assert FanOut.Served(before[subscribers[j].sender], after[subscribers[j].sender], chunks);
    forall p | p in Sendable(Flatten(line.journal.arrivals[k].item))
      ensures var log, at := line.filters.log, line.journal.releases[k].filteredAt;
              var sweep := log.sweeps[line.journal.passes[n].sweeps - 1];
              if keep(p) then MayPass(p.data, log.insertions, at, sweep) else MayBlock(p.data, log.insertions, at, sweep)
    {
      DelayLines.JudgedInTurn(line, k, n, p.data);
    }
  }
}
