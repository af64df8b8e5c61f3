/** What the frame reader makes of what the frame writer writes: a client
    writer's frames read by a server reader, or a server writer's frames read
    by a client reader, give back the bytes written. */
module RoundTrip {
  import opened Wire
  import opened Streams
  import opened FrameWriting
  import opened FrameReading

  /** The fixed two bytes of a header the writer produced: the base length
      comes back from byte 1, and the extended length is next in the source. */
  lemma FixedBytesRead(client: bool, n: nat, t: seq<bv8>)
    ensures var f := FullRead(StreamOf(HeaderBytes(client, n) + t), 2);
      && f.err == Ok
      && f.data[1] & 0x7F == BaseLength(n)
      && f.rest == StreamOf(LengthField(n) + t)
  {
    var h := HeaderBytes(client, n);
    var b := h + t;
    var b1: bv8 := if client then MaskBit else 0;
    FullReadStream(b, 2);
    assert b[..2][1] == b1 | BaseLength(n);
    assert b[2..] == LengthField(n) + t;
    ByteLowBits(b1, BaseLength(n));
  }

  /** Reading the extended length that follows a base length the writer
      chose recovers the payload length, for every length below 2^63. */
  lemma ExtendedLengthRead(n: nat, t: seq<bv8>)
    requires n < Two63
    ensures ExtendedLength(StreamOf(LengthField(n) + t), BaseLength(n) as int) == Sized(Ok, StreamOf(t), n)
  {
    var f := LengthField(n);
    LengthFieldValue(n);
    if n <= 125 {
      assert f + t == t;
    } else if n < 65536 {
      FullReadStream(f + t, 2);
      assert (f + t)[..2] == f && (f + t)[2..] == t;
    } else {
      Pow256Widths();
      FullReadStream(f + t, 8);
      assert (f + t)[..8] == f && (f + t)[8..] == t;
    }
  }

  /** Reading the fixed two bytes and the extended length of a header the
      writer produced recovers the payload length, for every length below 2^63. */
  lemma LengthRoundTrip(client: bool, n: nat, t: seq<bv8>)
    requires n < Two63
    ensures var f := FullRead(StreamOf(HeaderBytes(client, n) + t), 2);
      && f.err == Ok
      && ExtendedLength(f.rest, (f.data[1] & 0x7F) as int) == Sized(Ok, StreamOf(t), n)
  {
    FixedBytesRead(client, n, t);
    ExtendedLengthRead(n, t);
  }

  /** A header the writer produced, read in the matching role: the length
      comes back; in the server role the mask key that follows the header is
      taken and the phase reset, and in the client role key and phase stay. */
  lemma HeaderRoundTrip(client: bool, n: nat, t: seq<bv8>, key0: Key, off0: Phase)
    requires n < Two63
    requires client ==> |t| >= 4
    ensures var h := Begin(client, Reader(StreamOf(HeaderBytes(client, n) + t), 0, key0, off0));
      && h.err == Ok
      && (client ==> h.next == Reader(StreamOf(t[4..]), n, t[..4], 0))
      && (!client ==> h.next == Reader(StreamOf(t), n, key0, off0))
  {
    LengthRoundTrip(client, n, t);
    if client {
      FullReadStream(t, 4);
    }
  }

  /** A Read call at a frame boundary of a frame with a payload behaves as
      the same call made just after the header. */
  lemma DrainEntersFrame(server: bool, r: Reader, ks: seq<nat>)
    requires r.left == 0 && ks != []
    requires Begin(server, r).err == Ok && Begin(server, r).next.left != 0
    ensures Drain(server, r, ks) == Drain(server, Begin(server, r).next, ks)
  {
  }

  /** The payload bytes of a frame as the wire carries them. */
  function WirePayload(client: bool, key: Key, payload: seq<bv8>): seq<bv8>
  {
    if client then Mask(payload, key, 0) else payload
  }

  /** The key and phase a reader in the matching role holds inside a frame
      the writer produced. */
  function KeyAfter(client: bool, key: Key, key0: Key): Key
  {
    if client then key else key0
  }

  function PhaseAfter(client: bool, off0: Phase): Phase
  {
    if client then 0 else off0
  }

  /** The header of a frame the writer produced, read in the matching role,
      leaves the reader inside the frame with its wire payload ready. */
  lemma FrameHeaderRead(client: bool, key: Key, payload: seq<bv8>, rest: seq<bv8>, key0: Key, off0: Phase)
    requires |payload| < Two63
    ensures Begin(client, Reader(StreamOf(Frame(client, key, payload) + rest), 0, key0, off0))
      == Begun(Ok, InFrame(WirePayload(client, key, payload), rest, KeyAfter(client, key, key0), PhaseAfter(client, off0)))
  {
    var n := |payload|;
    var q := WirePayload(client, key, payload);
    var t := (if client then key + q else q) + rest;
    var r := Reader(StreamOf(Frame(client, key, payload) + rest), 0, key0, off0);
    assert r == Reader(StreamOf(HeaderBytes(client, n) + t), 0, key0, off0) by {
      FrameOnWire(client, key, payload, rest);
    }
    assert |q| == n;
    HeaderRoundTrip(client, n, t, key0, off0);
    var h := Begin(client, r);
    if client {
      KeyThenRest(key, q, rest);
      assert h.next == InFrame(q, rest, key, 0);
    } else {
      assert h.next == InFrame(q, rest, key0, off0);
    }
  }

  lemma KeyThenRest(key: Key, q: seq<bv8>, rest: seq<bv8>)
    ensures ((key + q) + rest)[..4] == key && ((key + q) + rest)[4..] == q + rest
  {
  }

  /** A frame followed by more bytes: the header, then the rest of the frame
      and what follows it. */
  lemma FrameOnWire(client: bool, key: Key, payload: seq<bv8>, rest: seq<bv8>)
    ensures var q := WirePayload(client, key, payload);
      && |q| == |payload|
      && Frame(client, key, payload) + rest
         == HeaderBytes(client, |payload|) + ((if client then key + q else q) + rest)
  {
  }

  /** One frame the writer produced, read in the matching role by any reads
      of positive sizes that add up to its payload, gives the payload back
      and leaves the reader at the next frame boundary. */
  lemma FrameRoundTrip(client: bool, key: Key, payload: seq<bv8>, rest: seq<bv8>,
                       key0: Key, off0: Phase, ks: seq<nat>)
    requires 0 < |payload| < Two63
    requires AllPositive(ks) && Sum(ks) == |payload|
    ensures Drain(client, Reader(StreamOf(Frame(client, key, payload) + rest), 0, key0, off0), ks)
      == Session(payload, Ok, Reader(StreamOf(rest), 0,
                                     if client then key else key0,
                                     if client then |payload| % 4 else off0))
  {
    var n := |payload|;
    var r := Reader(StreamOf(Frame(client, key, payload) + rest), 0, key0, off0);
    var q := WirePayload(client, key, payload);
    var key1 := KeyAfter(client, key, key0);
    var off1 := PhaseAfter(client, off0);
    FrameHeaderRead(client, key, payload, rest, key0, off0);
    assert ks != [];
    DrainEntersFrame(client, r, ks);
    DrainInsideFrame(client, q, rest, key1, off1, ks);
    assert q[..n] == q && q[n..] + rest == rest;
    assert Unmasked(client, q, key1, off1) == payload by {
      if client {
        MaskInvolution(payload, key, 0);
      }
    }
  }

  /** `read` decodes the frames of the given role and key as a frameReader in
      the matching role does: reads of positive sizes adding up to one frame's
      payload give the payload back and stop at the next frame boundary. */
  ghost predicate ReadsFrames(read: (Reader, nat) -> Step, client: bool, key: Key)
  {
    forall payload: seq<bv8>, rest: seq<bv8>, key0: Key, off0: Phase, ks: seq<nat>
      {:trigger Reads(read, Reader(StreamOf(Frame(client, key, payload) + rest), 0, key0, off0), ks)} ::
      0 < |payload| < Two63 && AllPositive(ks) && Sum(ks) == |payload| ==>
        Reads(read, Reader(StreamOf(Frame(client, key, payload) + rest), 0, key0, off0), ks)
          == Session(payload, Ok, Reader(StreamOf(rest), 0,
                                         if client then key else key0,
                                         if client then |payload| % 4 else off0))
  }

  lemma FrameReaderReadsFrames(client: bool, key: Key)
    ensures ReadsFrames(ReadCall(client), client, key)
  {
    forall payload: seq<bv8>, rest: seq<bv8>, key0: Key, off0: Phase, ks: seq<nat>
      | 0 < |payload| < Two63 && AllPositive(ks) && Sum(ks) == |payload|
      ensures Reads(ReadCall(client), Reader(StreamOf(Frame(client, key, payload) + rest), 0, key0, off0), ks)
          == Session(payload, Ok, Reader(StreamOf(rest), 0,
                                         if client then key else key0,
                                         if client then |payload| % 4 else off0))
    {
      FrameRoundTrip(client, key, payload, rest, key0, off0, ks);
    }
  }

  /** The read sizes a caller uses, one cut per frame: positive sizes that
      add up to that frame's payload. */
  predicate CutsFit(cuts: seq<seq<nat>>, chunks: seq<seq<bv8>>)
  {
    |cuts| == |chunks| && forall i :: 0 <= i < |cuts| ==> AllPositive(cuts[i]) && Sum(cuts[i]) == |chunks[i]|
  }

  /** The read sizes of all frames, one after another. */
  function Concat(cuts: seq<seq<nat>>): seq<nat>
  {
    if cuts == [] then [] else cuts[0] + Concat(cuts[1..])
  }

  /** Reading a stream of frames with one cut per frame: the first frame's
      payload, then what the reads for the other frames hand over. */
  lemma FirstFrameThenRest(read: (Reader, nat) -> Step, client: bool, key: Key, chunks: seq<seq<bv8>>,
                           cuts: seq<seq<nat>>, rest: seq<bv8>, key0: Key, off0: Phase)
    requires ReadsFrames(read, client, key)
    requires chunks != [] && 0 < |chunks[0]| < Two63 && CutsFit(cuts, chunks)
    ensures var c := chunks[0];
      var r := Reader(StreamOf(Frames(client, key, chunks) + rest), 0, key0, off0);
      var r1 := Reader(StreamOf(Frames(client, key, chunks[1..]) + rest), 0,
                       if client then key else key0, if client then |c| % 4 else off0);
      var d := Reads(read, r1, Concat(cuts[1..]));
      Reads(read, r, Concat(cuts)) == Session(c + d.out, d.err, d.next)
  {
    var c := chunks[0];
    var more := Frames(client, key, chunks[1..]) + rest;
    var r := Reader(StreamOf(Frames(client, key, chunks) + rest), 0, key0, off0);
    var r1 := Reader(StreamOf(more), 0, if client then key else key0, if client then |c| % 4 else off0);
    assert Reads(read, r, cuts[0]) == Session(c, Ok, r1) by {
      FramesCons(client, key, chunks, rest);
      assert AllPositive(cuts[0]) && Sum(cuts[0]) == |c|;
      assert Reads(read, Reader(StreamOf(Frame(client, key, c) + more), 0, key0, off0), cuts[0]) == Session(c, Ok, r1);
    }
    ReadsAppend(read, r, cuts[0], Concat(cuts[1..]));
  }

  lemma FramesCons(client: bool, key: Key, chunks: seq<seq<bv8>>, rest: seq<bv8>)
    requires chunks != []
    ensures Frames(client, key, chunks) + rest == Frame(client, key, chunks[0]) + (Frames(client, key, chunks[1..]) + rest)
  {
  }

  /** Frames read with one cut per frame by any `read` that decodes frames. */
  lemma {:induction false} ReadsStream(read: (Reader, nat) -> Step, client: bool, key: Key, chunks: seq<seq<bv8>>,
                                       cuts: seq<seq<nat>>, rest: seq<bv8>, key0: Key, off0: Phase)
    requires ReadsFrames(read, client, key)
    requires forall i :: 0 <= i < |chunks| ==> 0 < |chunks[i]| < Two63
    requires CutsFit(cuts, chunks)
    ensures var d := Reads(read, Reader(StreamOf(Frames(client, key, chunks) + rest), 0, key0, off0), Concat(cuts));
      d.out == Flatten(chunks) && d.err == Ok && d.next.script == StreamOf(rest) && d.next.left == 0
    decreases |chunks|
  {
    if chunks != [] {
      var c := chunks[0];
      FirstFrameThenRest(read, client, key, chunks, cuts, rest, key0, off0);
      assert CutsFit(cuts[1..], chunks[1..]) by {
        assert forall i :: 0 <= i < |cuts| - 1 ==> cuts[1..][i] == cuts[i + 1] && chunks[1..][i] == chunks[i + 1];
      }
      ReadsStream(read, client, key, chunks[1..], cuts[1..], rest, if client then key else key0, if client then |c| % 4 else off0);
    } else {
      assert Frames(client, key, chunks) + rest == rest;
    }
  }

  /** A stream of frames the writer produced, read in the matching role with
      any positive read sizes that add up to each frame's payload in turn,
      gives back all payloads in order and stops at the boundary after the
      last. */
  lemma StreamRoundTrip(client: bool, key: Key, chunks: seq<seq<bv8>>, cuts: seq<seq<nat>>,
                        rest: seq<bv8>, key0: Key, off0: Phase)
    requires forall i :: 0 <= i < |chunks| ==> 0 < |chunks[i]| < Two63
    requires CutsFit(cuts, chunks)
    ensures var d := Drain(client, Reader(StreamOf(Frames(client, key, chunks) + rest), 0, key0, off0), Concat(cuts));
      d.out == Flatten(chunks) && d.err == Ok && d.next.script == StreamOf(rest) && d.next.left == 0
  {
    FrameReaderReadsFrames(client, key);
    ReadsStream(ReadCall(client), client, key, chunks, cuts, rest, key0, off0);
  }

  /** Write then read: what a frameWriter in either role sends for b to a
      sink that accepts everything, read back by a frameReader in the
      matching role with any positive read sizes that add up to each frame's
      payload in turn, is b. */
  lemma WriteThenRead(client: bool, key: Key, b: seq<bv8>, sink: SinkState, cuts: seq<seq<nat>>, key0: Key, off0: Phase)
    requires Healthy(sink)
    requires CutsFit(cuts, Chunks(b))
    ensures var w := Pump(FrameEmitter(client, key), StreamOf(b), sink);
      && w.err == Ok && w.n == |b|
      && |sink.written| <= |w.sink.written|
      && var d := Drain(client, Reader(StreamOf(w.sink.written[|sink.written|..]), 0, key0, off0), Concat(cuts));
         d.out == b && d.err == Ok && d.next.left == 0 && d.next.script == []
  {
    FrameEmitterEmitsFrames(client, key);
    PumpBuffer(FrameEmitter(client, key), client, key, b, sink);
    var w := Pump(FrameEmitter(client, key), StreamOf(b), sink);
    var frames := Frames(client, key, Chunks(b));
    assert w.sink.written[|sink.written|..] == frames + [];
    StreamRoundTrip(client, key, Chunks(b), cuts, [], key0, off0);
  }
}
