/** Bundles cross a stream as frames: a little-endian 32-bit length, then that many bytes. */
module BundleFraming {
  import opened Prelude

  const MAX_BUNDLE_FRAME: nat := 4 * 1024 * 1024
  const TWO_TO_32: nat := 0x1_0000_0000

  /** A length as written: truncated to 32 bits. */
  function ToLe32(n: nat): (r: Bytes)
    ensures |r| == 4
  {
    [n % 256, n / 256 % 256, n / 256 / 256 % 256, n / 256 / 256 / 256 % 256]
  }

  function FromLe32(b: Bytes): nat
    requires |b| == 4
  {
    var b0: int, b1: int, b2: int, b3: int := b[0], b[1], b[2], b[3];
    b0 + 256 * (b1 + 256 * (b2 + 256 * b3))
  }

  lemma Le32RoundTrip(n: nat)
    ensures FromLe32(ToLe32(n)) == n % TWO_TO_32
  {
    var a, b, c, d := n / 256, n / 256 / 256, n / 256 / 256 / 256, n / 256 / 256 / 256 / 256;
    assert n == d * TWO_TO_32 + FromLe32(ToLe32(n));
    assert n / TWO_TO_32 == d;
  }

  function Frame(payload: Bytes): Bytes {
    ToLe32(|payload|) + payload
  }

  function Stream(payloads: seq<Bytes>): Bytes {
    if payloads == [] then [] else Frame(payloads[0]) + Stream(payloads[1..])
  }

  lemma {:induction false} StreamSnoc(payloads: seq<Bytes>, p: Bytes)
    ensures Stream(payloads + [p]) == Stream(payloads) + Frame(p)
  {
    if payloads == [] {
      assert [p][1..] == [];
      assert Stream([p]) == Frame(p) + Stream([]);
    } else {
      StreamSnoc(payloads[1..], p);
      assert (payloads + [p])[1..] == payloads[1..] + [p];
    }
  }

  // ---------------------------------------------------------------- the bytes on the wire

  /** Where frame `i` starts. */
  function Offset(payloads: seq<Bytes>, i: nat): nat
    requires i <= |payloads|
  {
    if i == 0 then 0 else Offset(payloads, i - 1) + 4 + |payloads[i - 1]|
  }

  /** The four bytes at `o` are the length, least significant byte first and cut to 32 bits, and the
      payload follows. */
  ghost predicate FrameAtOffset(stream: Bytes, o: nat, payload: Bytes) {
    && o + 4 + |payload| <= |stream|
    && stream[o] == |payload| % 256
    && stream[o + 1] == |payload| / 256 % 256
    && stream[o + 2] == |payload| / 65_536 % 256
    && stream[o + 3] == |payload| / 16_777_216 % 256
    && stream[o + 4..o + 4 + |payload|] == payload
  }

  /** The stream is nothing but the frames of the payloads, one after the other. */
  ghost predicate LaidOut(stream: Bytes, payloads: seq<Bytes>) {
    && |stream| == Offset(payloads, |payloads|)
    && forall i :: 0 <= i < |payloads| ==> FrameAtOffset(stream, Offset(payloads, i), payloads[i])
  }

  lemma {:induction false} StreamIsLaidOut(payloads: seq<Bytes>)
    ensures LaidOut(Stream(payloads), payloads)
  {
    hide LaidOut, Frame, Stream;
    if payloads == [] {
      NothingLaidOut();
    } else {
      var n := |payloads| - 1;
      var front, p := payloads[..n], payloads[n];
      StreamIsLaidOut(front);
      StreamSnoc(front, p);
      assert payloads == front + [p];
      LaidOutSnoc(Stream(front), front, p);
    }
  }

  lemma NothingLaidOut()
    ensures LaidOut(Stream([]), [])
  {
  }

  lemma StreamLength(payloads: seq<Bytes>)
    ensures |Stream(payloads)| == Offset(payloads, |payloads|)
  {
    StreamIsLaidOut(payloads);
  }

  lemma LaidOutSnoc(stream: Bytes, payloads: seq<Bytes>, p: Bytes)
    requires LaidOut(stream, payloads)
    ensures LaidOut(stream + Frame(p), payloads + [p])
  {
    hide Frame, FrameAtOffset;
    var s, ps := stream + Frame(p), payloads + [p];
    forall i | 0 <= i <= |payloads|
      ensures Offset(ps, i) == Offset(payloads, i)
    {
      OffsetOfPrefix(payloads, [p], i);
    }
    FrameInMiddle(stream, p);
    forall i | 0 <= i < |payloads|
      ensures FrameAtOffset(s, Offset(ps, i), ps[i])
    {
      FrameStays(stream, Frame(p), Offset(payloads, i), payloads[i]);
    }
    assert |s| == Offset(ps, |ps|) by { FrameLength(p); }
  }

  lemma FrameLength(p: Bytes)
    ensures |Frame(p)| == 4 + |p|
  {
  }

  lemma FrameStays(stream: Bytes, more: Bytes, o: nat, p: Bytes)
    requires FrameAtOffset(stream, o, p)
    ensures FrameAtOffset(stream + more, o, p)
  {
    assert (stream + more)[o + 4..o + 4 + |p|] == stream[o + 4..o + 4 + |p|];
  }

  lemma FrameInMiddle(stream: Bytes, p: Bytes)
    ensures FrameAtOffset(stream + Frame(p), |stream|, p)
  {
    LengthBytes(|p|);
    hide ToLe32;
    var s, o, header := stream + Frame(p), |stream|, ToLe32(|p|);
    assert s == stream + header + p;
    assert s[o] == header[0] && s[o + 1] == header[1] && s[o + 2] == header[2] && s[o + 3] == header[3];
    assert s[o + 4..o + 4 + |p|] == p;
  }

  /** The bytes of a length as written, one by one. */
  lemma LengthBytes(n: nat)
    ensures ToLe32(n)[0] == n % 256 && ToLe32(n)[1] == n / 256 % 256
    ensures ToLe32(n)[2] == n / 65_536 % 256 && ToLe32(n)[3] == n / 16_777_216 % 256
  {
  }

  lemma {:induction false} OffsetOfPrefix(payloads: seq<Bytes>, more: seq<Bytes>, i: nat)
    requires i <= |payloads|
    ensures Offset(payloads + more, i) == Offset(payloads, i)
  {
    if i > 0 {
      OffsetOfPrefix(payloads, more, i - 1);
    }
  }

  /** Reading cannot go on at `o`: fewer than four bytes are left, or the length they give, least
      significant byte first, is over four mebibytes or more than what is left. */
  ghost predicate StuckAt(stream: Bytes, o: nat) {
    o <= |stream| &&
    (|stream| - o < 4 ||
     var len := stream[o] as int + 256 * stream[o + 1] as int + 65_536 * stream[o + 2] as int + 16_777_216 * stream[o + 3] as int;
     len > 4_194_304 || |stream| - o - 4 < len)
  }

  lemma StuckBehind(front: Bytes, rest: Bytes)
    ensures Stuck(rest) <==> StuckAt(front + rest, |front|)
  {
    var s, o := front + rest, |front|;
    if |rest| >= 4 {
      assert s[o] == rest[0] && s[o + 1] == rest[1] && s[o + 2] == rest[2] && s[o + 3] == rest[3];
      assert rest[..4][0] == rest[0] && rest[..4][1] == rest[1] && rest[..4][2] == rest[2] && rest[..4][3] == rest[3];
    }
  }

  /** The sender: encodes each response, skips what cannot be encoded, frames the rest. */
  method WriteBundles<Msg>(responses: seq<Msg>, encode: Msg -> Option<Bytes>) returns (stream: Bytes)
    ensures stream == Stream(Chosen(encode, responses)) && LaidOut(stream, Chosen(encode, responses))
  {
    stream := [];
    for i := 0 to |responses|
      invariant stream == Stream(Chosen(encode, responses[..i]))
    {
      ChosenSnoc(encode, responses[..i], responses[i]);
      assert responses[..i + 1] == responses[..i] + [responses[i]];
      match encode(responses[i])
      case None =>
      case Some(buffer) =>
        StreamSnoc(Chosen(encode, responses[..i]), buffer);
        stream := stream + ToLe32(|buffer|);
        stream := stream + buffer;
    }
    assert responses[..|responses|] == responses;
    StreamIsLaidOut(Chosen(encode, responses));
  }

  /** The reader cannot take another frame: the length or the payload is cut short, or the length is
      over the limit. */
  predicate Stuck(rest: Bytes) {
    |rest| < 4 || FromLe32(rest[..4]) > MAX_BUNDLE_FRAME || |rest| < 4 + FromLe32(rest[..4])
  }

  /** `frames` are exactly the complete frames at the front of the stream, before the first one that
      is oversized or cut short. */
  predicate Parses(stream: Bytes, frames: seq<Bytes>, rest: Bytes) {
    && stream == Stream(frames) + rest
    && (forall f :: f in frames ==> |f| <= MAX_BUNDLE_FRAME)
    && Stuck(rest)
  }

  /** The receiver. `shutdown(k)` is what it observes before reading frame k. A frame that does not
      decode is skipped. */
  method ReadBundleStream<Msg>(stream: Bytes, decode: Bytes -> Option<Msg>, shutdown: nat -> bool)
    returns (out: seq<Msg>, ghost frames: seq<Bytes>, ghost rest: Bytes)
    ensures stream == Stream(frames) + rest && (forall f :: f in frames ==> |f| <= MAX_BUNDLE_FRAME)
    ensures out == Chosen(decode, frames)
    ensures forall k :: 0 <= k < |frames| ==> !shutdown(k)
    ensures shutdown(|frames|) || Parses(stream, frames, rest)
    ensures Offset(frames, |frames|) <= |stream| && LaidOut(stream[..Offset(frames, |frames|)], frames)
    ensures shutdown(|frames|) || StuckAt(stream, Offset(frames, |frames|))
  {
    hide FromLe32, Frame, LaidOut, StuckAt;
    var pos, count := 0, 0;
    out, frames := [], [];
    while !shutdown(count)
      invariant pos <= |stream| && count == |frames|
      invariant stream[..pos] == Stream(frames) && (forall f :: f in frames ==> |f| <= MAX_BUNDLE_FRAME)
      invariant out == Chosen(decode, frames)
      invariant forall k :: 0 <= k < count ==> !shutdown(k)
      decreases |stream| - pos
    {
      rest := stream[pos..];
      assert stream == stream[..pos] + rest;
      StreamIsLaidOut(frames);
      StreamLength(frames);
      StuckBehind(stream[..pos], rest);
      if |stream| - pos < 4 {
        return;
      }
      var len := FromLe32(stream[pos..pos + 4]);
      assert rest[..4] == stream[pos..pos + 4];
      if len > MAX_BUNDLE_FRAME {
        return;
      }
      if |stream| - pos - 4 < len {
        return;
      }
      var buffer := stream[pos + 4..pos + 4 + len];
      FrameAt(stream, pos, buffer);
      StreamSnoc(frames, buffer);
      ChosenSnoc(decode, frames, buffer);
      var resp := decode(buffer);
      if resp.Some? {
        out := out + [resp.value];
      }
      frames := frames + [buffer];
      pos, count := pos + 4 + len, count + 1;
    }
    rest := stream[pos..];
    assert stream == stream[..pos] + rest;
    StreamIsLaidOut(frames);
    StreamLength(frames);
  }

  lemma FrameAt(stream: Bytes, pos: nat, buffer: Bytes)
    requires pos + 4 + |buffer| <= |stream| && |buffer| == FromLe32(stream[pos..pos + 4])
    requires buffer == stream[pos + 4..pos + 4 + |buffer|]
    ensures stream[..pos + 4 + |buffer|] == stream[..pos] + Frame(buffer)
  {
    var b := stream[pos..pos + 4];
    ToLe32OfFromLe32(b);
    assert stream[..pos + 4 + |buffer|] == stream[..pos] + b + buffer;
  }

  lemma ToLe32OfFromLe32(b: Bytes)
    requires |b| == 4
    ensures ToLe32(FromLe32(b)) == b
  {
    var b1: int, b2: int, b3: int := b[1], b[2], b[3];
    LowDigit(b[0], b1 + 256 * (b2 + 256 * b3));
    LowDigit(b[1], b2 + 256 * b3);
    LowDigit(b[2], b3);
  }

  lemma LowDigit(digit: Byte, high: nat)
    ensures (digit as int + 256 * high) % 256 == digit && (digit as int + 256 * high) / 256 == high
  {
  }

  /** A stream has only one reading. */
  lemma {:induction false} ParsesOneWay(s: Bytes, f1: seq<Bytes>, r1: Bytes, f2: seq<Bytes>, r2: Bytes)
    requires Parses(s, f1, r1) && Parses(s, f2, r2)
    ensures f1 == f2 && r1 == r2
    decreases |f1|
  {
    hide FromLe32;
    if f1 == [] || f2 == [] {
      assert f1 == [] ==> s == r1;
      assert f2 == [] ==> s == r2;
      if f1 != [] {
        StartsWithFrame(s, f1, r1);
      } else if f2 != [] {
        StartsWithFrame(s, f2, r2);
      }
    } else {
      StartsWithFrame(s, f1, r1);
      StartsWithFrame(s, f2, r2);
      ParsesOneWay(s[4 + |f1[0]|..], f1[1..], r1, f2[1..], r2);
      assert f1 == [f1[0]] + f1[1..] && f2 == [f2[0]] + f2[1..];
    }
  }

  lemma StartsWithFrame(s: Bytes, frames: seq<Bytes>, rest: Bytes)
    requires Parses(s, frames, rest) && frames != []
    ensures !Stuck(s) && FromLe32(s[..4]) == |frames[0]| && s[4..4 + |frames[0]|] == frames[0]
    ensures Parses(s[4 + |frames[0]|..], frames[1..], rest)
  {
    var p, tail := frames[0], Stream(frames[1..]) + rest;
    assert p in frames;
    assert s == Frame(p) + tail;
    hide FromLe32, ToLe32, Stream;
    FrameInFront(s, p, tail);
    assert forall f :: f in frames[1..] ==> f in frames;
  }

  lemma FrameInFront(s: Bytes, p: Bytes, tail: Bytes)
    requires s == Frame(p) + tail && |p| <= MAX_BUNDLE_FRAME
    ensures !Stuck(s) && FromLe32(s[..4]) == |p| && s[4..4 + |p|] == p && s[4 + |p|..] == tail
  {
    hide FromLe32, ToLe32;
    Le32RoundTrip(|p|);
    assert s[..4] == ToLe32(|p|);
    assert s[4..4 + |p|] == p;
    assert s[4 + |p|..] == tail;
  }

  /** What the sender writes is read back as the same payloads if, and only if, each is within the
      frame limit. */
  lemma RoundTripExactlyWithinLimit(payloads: seq<Bytes>, frames: seq<Bytes>, rest: Bytes)
    requires Parses(Stream(payloads), frames, rest)
    ensures frames == payloads <==> forall p :: p in payloads ==> |p| <= MAX_BUNDLE_FRAME
  {
    if forall p :: p in payloads ==> |p| <= MAX_BUNDLE_FRAME {
      assert Stream(payloads) == Stream(payloads) + [];
      assert Parses(Stream(payloads), payloads, []);
      ParsesOneWay(Stream(payloads), frames, rest, payloads, []);
    }
  }

  /** Frames within the limit at the front of a stream are read as they are, and reading goes on behind them. */
  lemma {:induction false} ReadsPast(payloads: seq<Bytes>, tail: Bytes, frames: seq<Bytes>, rest: Bytes)
    requires forall p :: p in payloads ==> |p| <= MAX_BUNDLE_FRAME
    requires Parses(Stream(payloads) + tail, frames, rest)
    ensures payloads <= frames && Parses(tail, frames[|payloads|..], rest)
    decreases |payloads|
  {
    hide FromLe32, ToLe32, Parses, Frame;
    if payloads == [] {
      assert Stream([]) + tail == tail;
      assert frames[0..] == frames;
    } else {
      var p, more := payloads[0], Stream(payloads[1..]) + tail;
      assert Stream(payloads) + tail == Frame(p) + more;
      ReadsOne(p, more, frames, rest);
      ReadsPast(payloads[1..], tail, frames[1..], rest);
      assert frames == [p] + frames[1..] && payloads == [p] + payloads[1..];
      assert frames[1..][|payloads| - 1..] == frames[|payloads|..];
    }
  }

  lemma ReadsOne(p: Bytes, more: Bytes, frames: seq<Bytes>, rest: Bytes)
    requires |p| <= MAX_BUNDLE_FRAME && Parses(Frame(p) + more, frames, rest)
    ensures frames != [] && frames[0] == p && Parses(more, frames[1..], rest)
  {
    hide FromLe32, Frame;
    var s := Frame(p) + more;
    FrameInFront(s, p, more);
    assert frames == [] ==> s == rest;
    StartsWithFrame(s, frames, rest);
  }

  /** The first payload over the limit is read by its length as written, which is cut to 32 bits. If that
      is over the limit too, the reading ends there: what precedes arrives, nothing after. Otherwise that
      many of its bytes are taken for a payload, and what follows them for more frames. */
  lemma FirstOversized(payloads: seq<Bytes>, i: nat, frames: seq<Bytes>, rest: Bytes)
    requires Parses(Stream(payloads), frames, rest)
    requires i < |payloads| && |payloads[i]| > MAX_BUNDLE_FRAME
    requires forall k :: 0 <= k < i ==> |payloads[k]| <= MAX_BUNDLE_FRAME
    ensures var written := |payloads[i]| % TWO_TO_32;
            if written > MAX_BUNDLE_FRAME then frames == payloads[..i]
            else && payloads[..i] + [payloads[i][..written]] <= frames
                 && Parses(payloads[i][written..] + Stream(payloads[i + 1..]), frames[i + 1..], rest)
  {
    hide FromLe32, ToLe32, Parses, Frame;
    var p, more, written := payloads[i], Stream(payloads[i + 1..]), |payloads[i]| % TWO_TO_32;
    StreamSplit(payloads, i);
    assert payloads[i..][1..] == payloads[i + 1..];
    assert Stream(payloads[i..]) == Frame(p) + more;
    ReadsPast(payloads[..i], Frame(p) + more, frames, rest);
    if written > MAX_BUNDLE_FRAME {
      StuckOnOversized(p, more);
      NothingRead(Frame(p) + more, frames[i..], rest);
      assert frames == frames[..i] + frames[i..];
    } else {
      Misread(p, more);
      assert Stream([p[..written]]) == Frame(p[..written]) by { StreamSnoc([], p[..written]); }
      ReadsPast([p[..written]], p[written..] + more, frames[i..], rest);
      assert frames[i..][1..] == frames[i + 1..];
    }
  }

  lemma NothingRead(s: Bytes, frames: seq<Bytes>, rest: Bytes)
    requires Stuck(s) && Parses(s, frames, rest)
    ensures frames == []
  {
    if frames != [] {
      StartsWithFrame(s, frames, rest);
    }
  }

  lemma StuckOnOversized(p: Bytes, more: Bytes)
    requires |p| % TWO_TO_32 > MAX_BUNDLE_FRAME
    ensures Stuck(Frame(p) + more)
  {
    hide FromLe32, ToLe32;
    Le32RoundTrip(|p|);
    assert (Frame(p) + more)[..4] == ToLe32(|p|);
  }

  lemma Misread(p: Bytes, more: Bytes)
    ensures |p| % TWO_TO_32 <= |p|
    ensures var n := |p| % TWO_TO_32; Frame(p) + more == Frame(p[..n]) + (p[n..] + more)
  {
    hide FromLe32, ToLe32;
    var n := |p| % TWO_TO_32;
    Le32RoundTrip(|p|);
    ToLe32OfFromLe32(ToLe32(|p|));
    assert p == p[..n] + p[n..];
  }

  lemma {:induction false} StreamSplit(payloads: seq<Bytes>, i: nat)
    requires i <= |payloads|
    ensures Stream(payloads) == Stream(payloads[..i]) + Stream(payloads[i..])
  {
    hide Frame;
    if i == 0 {
      assert payloads[..0] == [] && payloads[0..] == payloads;
    } else {
      StreamSplit(payloads[1..], i - 1);
      assert payloads[..i][1..] == payloads[1..][..i - 1] && payloads[i..] == payloads[1..][i - 1..];
    }
  }

  /** The whole path: responses that encode within the limit, to payloads that decode back, come out
      as they went in. */
  lemma ResponsesArrive<Msg>(responses: seq<Msg>, encode: Msg -> Option<Bytes>, decode: Bytes -> Option<Msg>,
                             frames: seq<Bytes>, rest: Bytes)
    requires forall m :: m in responses ==>
               encode(m).Some? && |encode(m).value| <= MAX_BUNDLE_FRAME && decode(encode(m).value) == Some(m)
    requires Parses(Stream(Chosen(encode, responses)), frames, rest)
    ensures Chosen(decode, frames) == responses
  {
    ChosenBack(responses, encode, decode);
    RoundTripExactlyWithinLimit(Chosen(encode, responses), frames, rest);
  }

  lemma {:induction false} ChosenBack<Msg>(responses: seq<Msg>, encode: Msg -> Option<Bytes>, decode: Bytes -> Option<Msg>)
    requires forall m :: m in responses ==>
               encode(m).Some? && |encode(m).value| <= MAX_BUNDLE_FRAME && decode(encode(m).value) == Some(m)
    ensures Chosen(decode, Chosen(encode, responses)) == responses
    ensures forall p :: p in Chosen(encode, responses) ==> |p| <= MAX_BUNDLE_FRAME
  {
    if responses != [] {
      var front, last := responses[..|responses| - 1], responses[|responses| - 1];
      ChosenBack(front, encode, decode);
      hide Chosen;
      assert responses == front + [last];
      ChosenSnoc(encode, front, last);
      ChosenSnoc(decode, Chosen(encode, front), encode(last).value);
    }
  }

  /** A frame that does not decode costs its own message and no other: any stream with such a frame in it is
      read as the same messages as the stream without it. */
  lemma BadFrameIsSkipped<Msg>(decode: Bytes -> Option<Msg>, stream: Bytes, before: seq<Bytes>, bad: Bytes,
                               later: seq<Bytes>, rest: Bytes, frames: seq<Bytes>, tail: Bytes)
    requires decode(bad).None? && Parses(stream, before + [bad] + later, rest) && Parses(stream, frames, tail)
    ensures Parses(Stream(before + later) + rest, before + later, rest)
    ensures Chosen(decode, frames) == Chosen(decode, before + later)
  {
    hide Stuck;
    ParsesOneWay(stream, frames, tail, before + [bad] + later, rest);
    ChosenSkips(decode, before, bad, later);
    forall f | f in before + later
      ensures |f| <= MAX_BUNDLE_FRAME
    {
      assert f in before + [bad] + later;
    }
  }

  lemma {:induction false} ChosenSkips<Msg>(decode: Bytes -> Option<Msg>, before: seq<Bytes>, bad: Bytes, later: seq<Bytes>)
    requires decode(bad).None?
    ensures Chosen(decode, before + [bad] + later) == Chosen(decode, before + later)
  {
    if later == [] {
      ChosenSnoc(decode, before, bad);
      assert before + [bad] + later == before + [bad] && before + later == before;
    } else {
      var front, last := later[..|later| - 1], later[|later| - 1];
      ChosenSkips(decode, before, bad, front);
      ChosenSnoc(decode, before + [bad] + front, last);
      ChosenSnoc(decode, before + front, last);
      assert before + [bad] + later == before + [bad] + front + [last];
      assert before + later == before + front + [last];
    }
  }
}
