/** The frame writer: cuts what it pulls from a source into frames of at most
    DefaultFrameSize payload bytes and writes them to its sink. */
module FrameWriting {
  import opened Wire
  import opened Streams

  /** The sink writes of one frame, stopping at the first that fails: the
      header, then in the client role the mask key, then the payload
      (masked in the client role). */
  function EmitFrame(client: bool, key: Key, payload: seq<bv8>, s: SinkState): (r: Sent)
    ensures r.err == Ok ==> r.after.written == s.written + Frame(client, key, payload)
    ensures Healthy(s) ==> r.err == Ok && Healthy(r.after)
  {
    var h := SinkWrite(s, HeaderBytes(client, |payload|));
    if h.err != Ok then h
    else if client then
      var m := SinkWrite(h.after, key);
      if m.err != Ok then m
      else SinkWrite(m.after, Mask(payload, key, 0))
    else SinkWrite(h.after, payload)
  }

  /** How one frame goes out: the payload and the sink's state in, the
      error and the sink's new state out. */
  type Emitter = (seq<bv8>, SinkState) -> Sent

  /** The frame emission of a frameWriter in the given role, as a function value. */
  function FrameEmitter(client: bool, key: Key): Emitter
  {
    (payload: seq<bv8>, s: SinkState) => EmitFrame(client, key, payload, s)
  }

  /** `emit` sends the frames of the given role and key: a success appends
      exactly the frame, and a sink that accepts everything keeps doing so. */
  ghost predicate EmitsFrames(emit: Emitter, client: bool, key: Key)
  {
    forall payload: seq<bv8>, s: SinkState {:trigger emit(payload, s)} ::
      && (emit(payload, s).err == Ok ==> emit(payload, s).after.written == s.written + Frame(client, key, payload))
      && (Healthy(s) ==> emit(payload, s).err == Ok && Healthy(emit(payload, s).after))
  }

  lemma FrameEmitterEmitsFrames(client: bool, key: Key)
    ensures EmitsFrames(FrameEmitter(client, key), client, key)
  {
    forall payload: seq<bv8>, s: SinkState
      ensures var e := FrameEmitter(client, key)(payload, s);
        && (e.err == Ok ==> e.after.written == s.written + Frame(client, key, payload))
        && (Healthy(s) ==> e.err == Ok && Healthy(e.after))
    {
      var e := EmitFrame(client, key, payload, s);
    }
  }

  /** How a ReadFrom call ends: the count it returns, its error, what is left
      of the source and the sink, and the payload of every frame it began. */
  datatype Run = Run(n: nat, err: Status, script: seq<Yield>, sink: SinkState, chunks: seq<seq<bv8>>)

  /** EOF from the source ends ReadFrom without an error. */
  function Settle(e: Status): Status
  {
    if e == EOF then Ok else e
  }

  /** The ReadFrom loop (frame.go:67-137) as a function of the source's
      answers and the sink's state, each frame going out through `emit`. */
  function Pump(emit: Emitter, script: seq<Yield>, sink: SinkState): Run
    decreases Size(script)
  {
    var t := Take(script, DefaultFrameSize);
    var nr := |t.got.data|;
    if nr > 0 then
      var e := emit(t.got.data, sink);
      if e.err != Ok then Run(nr, e.err, t.rest, e.after, [t.got.data])
      else if t.got.err != Ok then Run(nr, Settle(t.got.err), t.rest, e.after, [t.got.data])
      else
        TakeShrinks(script, DefaultFrameSize);
        Join(nr, [t.got.data], Pump(emit, t.rest, e.after))
    else if t.got.err != Ok then Run(0, Settle(t.got.err), t.rest, sink, [])
    else
      TakeShrinks(script, DefaultFrameSize);
      Pump(emit, t.rest, sink)
  }

  /** The run after one turn of the ReadFrom loop that pulled `c` with
      source status `er` and ended with sink status `ew`, the source at `s1`
      and the sink at `w1`: a sink error ends it, a source error ends it after
      the frame, and otherwise the loop goes on from there. */
  lemma PumpAfterTurn(emit: Emitter, script: seq<Yield>, sink: SinkState,
                      er: Status, ew: Status, s1: seq<Yield>, w1: SinkState)
    requires var t := Take(script, DefaultFrameSize);
      && er == t.got.err && s1 == t.rest
      && (t.got.data != [] ==> ew == emit(t.got.data, sink).err && w1 == emit(t.got.data, sink).after)
      && (t.got.data == [] ==> ew == Ok && w1 == sink)
    ensures var c := Take(script, DefaultFrameSize).got.data;
      var cs := if c == [] then [] else [c];
      var r := Pump(emit, script, sink);
      && (ew != Ok ==> r == Run(|c|, ew, s1, w1, cs))
      && (ew == Ok && er != Ok ==> r == Run(|c|, Settle(er), s1, w1, cs))
      && (ew == Ok && er == Ok ==> r == Join(|c|, cs, Pump(emit, s1, w1)))
  {
    var c := Take(script, DefaultFrameSize).got.data;
    if c == [] {
      assert Join(0, [], Pump(emit, s1, w1)) == Pump(emit, s1, w1);
    }
  }

  /** A run preceded by `n` bytes already counted in frames `done`. */
  function Join(n: nat, done: seq<seq<bv8>>, r: Run): Run
  {
    Run(n + r.n, r.err, r.script, r.sink, done + r.chunks)
  }

  /** Counting a run in two steps is counting it in one. */
  lemma JoinJoin(n1: nat, done1: seq<seq<bv8>>, n2: nat, done2: seq<seq<bv8>>, r: Run)
    ensures Join(n1, done1, Join(n2, done2, r)) == Join(n1 + n2, done1 + done2, r)
  {
    assert done1 + (done2 + r.chunks) == (done1 + done2) + r.chunks;
  }

  lemma {:induction false} FlattenAppend(a: seq<seq<bv8>>, b: seq<seq<bv8>>)
    ensures Flatten(a + b) == Flatten(a) + Flatten(b)
  {
    if a == [] {
      assert a + b == b;
    } else {
      assert (a + b)[0] == a[0];
      assert (a + b)[1..] == a[1..] + b;
      FlattenAppend(a[1..], b);
    }
  }

  /** Every frame carries between 1 and DefaultFrameSize payload bytes, the
      payloads are the source's bytes in source order with nothing skipped,
      and the count returned is the number of bytes pulled from the source. */
  lemma {:induction false} PumpChunking(emit: Emitter, script: seq<Yield>, sink: SinkState)
    ensures var r := Pump(emit, script, sink);
      && (forall i :: 0 <= i < |r.chunks| ==> 0 < |r.chunks[i]| <= DefaultFrameSize)
      && Flatten(r.chunks) + Data(r.script) == Data(script)
      && r.n == |Flatten(r.chunks)|
    decreases Size(script)
  {
    var t := Take(script, DefaultFrameSize);
    var nr := |t.got.data|;
    TakeData(script, DefaultFrameSize);
    if nr > 0 {
      var e := emit(t.got.data, sink);
      if e.err == Ok && t.got.err == Ok {
        TakeShrinks(script, DefaultFrameSize);
        PumpChunking(emit, t.rest, e.after);
        var r := Pump(emit, t.rest, e.after);
        assert Flatten([t.got.data] + r.chunks) == t.got.data + Flatten(r.chunks) by {
          FlattenAppend([t.got.data], r.chunks);
        }
      } else {
        assert Flatten([t.got.data]) == t.got.data;
      }
    } else if t.got.err == Ok {
      TakeShrinks(script, DefaultFrameSize);
      PumpChunking(emit, t.rest, sink);
    }
  }

  /** A run that ends without error has written exactly the frames of its
      chunks, in order. */
  lemma {:induction false} PumpSucceedsWithFrames(emit: Emitter, client: bool, key: Key, script: seq<Yield>, sink: SinkState)
    requires EmitsFrames(emit, client, key)
    ensures var r := Pump(emit, script, sink);
      r.err == Ok ==> r.sink.written == sink.written + Frames(client, key, r.chunks)
    decreases Size(script)
  {
    var t := Take(script, DefaultFrameSize);
    var c := t.got.data;
    var p := Pump(emit, script, sink);
    if c != [] {
      var e := emit(c, sink);
      if e.err == Ok {
        assert e.after.written == sink.written + Frame(client, key, c);
        if t.got.err == Ok {
          TakeShrinks(script, DefaultFrameSize);
          var r := Pump(emit, t.rest, e.after);
          assert p == Join(|c|, [c], r);
          PumpSucceedsWithFrames(emit, client, key, t.rest, e.after);
          assert p.chunks == [c] + r.chunks && p.sink.written == r.sink.written;
          FramesPrepend(client, key, c, r.chunks);
          AppendAssoc(sink.written, Frame(client, key, c), Frames(client, key, r.chunks));
        } else {
          assert p == Run(|c|, Settle(t.got.err), t.rest, e.after, [c]);
          FramesPrepend(client, key, c, []);
        }
      } else {
        assert p.err != Ok;
      }
    } else if t.got.err == Ok {
      TakeShrinks(script, DefaultFrameSize);
      assert p == Pump(emit, t.rest, sink);
      PumpSucceedsWithFrames(emit, client, key, t.rest, sink);
    } else {
      assert p == Run(0, Settle(t.got.err), t.rest, sink, []);
    }
  }

  /** On a sink that accepts everything every frame begun goes out, also when
      the run ends with a source error. */
  lemma {:induction false} PumpHealthyWithFrames(emit: Emitter, client: bool, key: Key, script: seq<Yield>, sink: SinkState)
    requires EmitsFrames(emit, client, key) && Healthy(sink)
    ensures var r := Pump(emit, script, sink);
      r.sink.written == sink.written + Frames(client, key, r.chunks)
    decreases Size(script)
  {
    var t := Take(script, DefaultFrameSize);
    var c := t.got.data;
    var p := Pump(emit, script, sink);
    if c != [] {
      var e := emit(c, sink);
      assert e.err == Ok && Healthy(e.after) && e.after.written == sink.written + Frame(client, key, c);
      if t.got.err == Ok {
        TakeShrinks(script, DefaultFrameSize);
        var r := Pump(emit, t.rest, e.after);
        assert p == Join(|c|, [c], r);
        PumpHealthyWithFrames(emit, client, key, t.rest, e.after);
        assert p.chunks == [c] + r.chunks && p.sink.written == r.sink.written;
        FramesPrepend(client, key, c, r.chunks);
        AppendAssoc(sink.written, Frame(client, key, c), Frames(client, key, r.chunks));
      } else {
        assert p == Run(|c|, Settle(t.got.err), t.rest, e.after, [c]);
        FramesPrepend(client, key, c, []);
      }
    } else if t.got.err == Ok {
      TakeShrinks(script, DefaultFrameSize);
      assert p == Pump(emit, t.rest, sink);
      PumpHealthyWithFrames(emit, client, key, t.rest, sink);
    } else {
      assert p == Run(0, Settle(t.got.err), t.rest, sink, []);
    }
  }

  lemma FramesPrepend(client: bool, key: Key, c: seq<bv8>, cs: seq<seq<bv8>>)
    ensures Frames(client, key, [c] + cs) == Frame(client, key, c) + Frames(client, key, cs)
  {
    assert ([c] + cs)[1..] == cs;
  }

  /** A run that ends without error, or any run on a sink that accepts
      everything (one ending with a source error included), has written
      exactly the frames of its chunks, in order. */
  lemma PumpWritesFrames(emit: Emitter, client: bool, key: Key, script: seq<Yield>, sink: SinkState)
    requires EmitsFrames(emit, client, key)
    ensures var r := Pump(emit, script, sink);
      r.err == Ok || Healthy(sink) ==> r.sink.written == sink.written + Frames(client, key, r.chunks)
  {
    PumpSucceedsWithFrames(emit, client, key, script, sink);
    if Healthy(sink) {
      PumpHealthyWithFrames(emit, client, key, script, sink);
    }
  }

  /** With a sink that accepts everything the run ends with the source's
      first error (nil for EOF), and the sink still accepts everything. */
  lemma {:induction false} PumpOnHealthySink(emit: Emitter, client: bool, key: Key, script: seq<Yield>, sink: SinkState)
    requires EmitsFrames(emit, client, key) && Healthy(sink)
    ensures var r := Pump(emit, script, sink);
      r.err == Settle(Terminal(script)) && Healthy(r.sink)
    decreases Size(script)
  {
    var t := Take(script, DefaultFrameSize);
    TakeTerminal(script, DefaultFrameSize);
    if t.got.data != [] {
      var e := emit(t.got.data, sink);
      assert e.err == Ok && Healthy(e.after);
      if t.got.err == Ok {
        TakeShrinks(script, DefaultFrameSize);
        PumpOnHealthySink(emit, client, key, t.rest, e.after);
      }
    } else if t.got.err == Ok {
      TakeShrinks(script, DefaultFrameSize);
      PumpOnHealthySink(emit, client, key, t.rest, sink);
    }
  }

  /** The first sink write of a frame that fails ends the frame there, with
      the sink's error: nothing of the frame is written when the header write
      fails; the header alone when the next write fails (the mask key in the
      client role, the payload in the server role); the header and the mask
      key when the client's payload write fails. */
  lemma EmitFrameFaults(client: bool, key: Key, payload: seq<bv8>, s: SinkState)
    ensures var r := EmitFrame(client, key, payload, s);
      var h := HeaderBytes(client, |payload|);
      && (|s.faults| > 0 && s.faults[0] != Ok ==>
            r == Sent(s.faults[0], SinkState(s.faults[1..], s.written)))
      && (|s.faults| > 1 && s.faults[0] == Ok && s.faults[1] != Ok ==>
            r == Sent(s.faults[1], SinkState(s.faults[2..], s.written + h)))
      && (client && |s.faults| > 2 && s.faults[0] == Ok && s.faults[1] == Ok && s.faults[2] != Ok ==>
            r == Sent(s.faults[2], SinkState(s.faults[3..], s.written + h + key)))
  {
    var h := HeaderBytes(client, |payload|);
    if |s.faults| > 1 && s.faults[0] == Ok {
      assert SinkWrite(s, h).after == SinkState(s.faults[1..], s.written + h);
      assert s.faults[1..][0] == s.faults[1] && s.faults[1..][1..] == s.faults[2..];
      if client && |s.faults| > 2 && s.faults[1] == Ok {
        assert s.faults[2..][0] == s.faults[2] && s.faults[2..][1..] == s.faults[3..];
      }
    }
  }

  /** A sink error stops the loop at once, whichever of a frame's writes it
      hits: the error is returned, the chunk is still counted, nothing more is
      pulled from the source, and the sink keeps what it had accepted of the
      frame. */
  lemma PumpStopsOnSinkFault(client: bool, key: Key, script: seq<Yield>, sink: SinkState)
    requires Take(script, DefaultFrameSize).got.data != []
    ensures var t := Take(script, DefaultFrameSize);
      var c := t.got.data;
      var h := HeaderBytes(client, |c|);
      var r := Pump(FrameEmitter(client, key), script, sink);
      var f := sink.faults;
      && (|f| > 0 && f[0] != Ok ==>
            r == Run(|c|, f[0], t.rest, SinkState(f[1..], sink.written), [c]))
      && (|f| > 1 && f[0] == Ok && f[1] != Ok ==>
            r == Run(|c|, f[1], t.rest, SinkState(f[2..], sink.written + h), [c]))
      && (client && |f| > 2 && f[0] == Ok && f[1] == Ok && f[2] != Ok ==>
            r == Run(|c|, f[2], t.rest, SinkState(f[3..], sink.written + h + key), [c]))
  {
    var t := Take(script, DefaultFrameSize);
    EmitFrameFaults(client, key, t.got.data, sink);
  }

  /** Reference chunking of `b`: pieces of DefaultFrameSize bytes, the last
      holding the remainder. */
  function Chunks(b: seq<bv8>): (cs: seq<seq<bv8>>)
    ensures Flatten(cs) == b
    ensures |cs| == (|b| + DefaultFrameSize - 1) / DefaultFrameSize
    ensures forall i :: 0 <= i < |cs| ==> 0 < |cs[i]| <= DefaultFrameSize
    ensures forall i :: 0 <= i < |cs| - 1 ==> |cs[i]| == DefaultFrameSize
    decreases |b|
  {
    if b == [] then []
    else if |b| <= DefaultFrameSize then [b]
    else [b[..DefaultFrameSize]] + Chunks(b[DefaultFrameSize..])
  }

  /** Write(b) to a sink that accepts everything: b goes out as the frames of
      Chunks(b), the count is |b| and the call succeeds. */
  lemma {:induction false} PumpBuffer(emit: Emitter, client: bool, key: Key, b: seq<bv8>, sink: SinkState)
    requires EmitsFrames(emit, client, key) && Healthy(sink)
    ensures var r := Pump(emit, StreamOf(b), sink);
      && r.n == |b| && r.err == Ok && r.script == [] && r.chunks == Chunks(b)
      && Healthy(r.sink) && r.sink.written == sink.written + Frames(client, key, Chunks(b))
    decreases |b|
  {
    if b != [] {
      TakeStream(b, DefaultFrameSize);
      PumpWritesFrames(emit, client, key, StreamOf(b), sink);
      PumpOnHealthySink(emit, client, key, StreamOf(b), sink);
      var t := Take(StreamOf(b), DefaultFrameSize);
      var e := emit(t.got.data, sink);
      if |b| > DefaultFrameSize {
        PumpBuffer(emit, client, key, b[DefaultFrameSize..], e.after);
      }
    }
  }

  /** frameWriter (frame.go:44-49). The embedded io.Writer is `w`; `buf`
      holds a header at its front and a payload chunk from MaxHeaderSize on. */
  class FrameWriter {
    const w: Sink
    const buf: array<bv8>
    const client: bool
    const maskKey: Key

    ghost predicate Valid()
    {
      buf.Length == MaxHeaderSize + DefaultFrameSize
    }

    /** FrameWriter(w, client) (frame.go:52-60); `seed` is the value
        rand.Uint32 returned, laid out little-endian as the mask key. */
    constructor (w: Sink, client: bool, seed: nat)
      requires seed < 0x1_0000_0000
      ensures Valid() && fresh(buf)
      ensures this.w == w && this.client == client
      ensures maskKey == [(seed % 256) as bv8, (seed / 0x100 % 256) as bv8,
                          (seed / 0x1_0000 % 256) as bv8, (seed / 0x100_0000 % 256) as bv8]
    {
      this.w := w;
      buf := new bv8[MaxHeaderSize + DefaultFrameSize];
      this.client := client;
      maskKey := [(seed % 256) as bv8, (seed / 0x100 % 256) as bv8,
                  (seed / 0x1_0000 % 256) as bv8, (seed / 0x100_0000 % 256) as bv8];
    }

    /** Builds the header for a payload of `nr` bytes at the front of buf
        (frame.go:76-95) and returns its length 2 + lengthFieldLen. */
    method PutHeader(nr: nat) returns (hlen: nat)
      requires Valid()
      modifies buf
      ensures hlen == 2 + LengthFieldLen(nr) && hlen <= MaxHeaderSize
      ensures buf[..hlen] == HeaderBytes(client, nr)
      ensures buf[MaxHeaderSize..] == old(buf[MaxHeaderSize..])
    {
      buf[0] := OpCodeBinary;
      buf[1] := 0;
      if client {
        buf[0] := buf[0] | FinalBit;
        buf[1] := MaskBit;
      }
      ghost var b0, b1 := buf[0], buf[1];
      assert b0 == if client then OpCodeBinary | FinalBit else OpCodeBinary;
      assert b1 == if client then MaskBit else 0;
      var lengthFieldLen := PutLength(nr);
      hlen := 2 + lengthFieldLen;
      assert buf[..hlen] == [b0, b1 | BaseLength(nr)] + LengthField(nr) by {
        assert buf[..hlen] == [buf[0], buf[1]] + buf[2..hlen];
      }
    }

    /** The length switch of frame.go:84-95: or the base length into byte 1
        and store the extended length after it. */
    method PutLength(nr: nat) returns (lengthFieldLen: nat)
      requires Valid()
      modifies buf
      ensures lengthFieldLen == LengthFieldLen(nr)
      ensures buf[0] == old(buf[0]) && buf[1] == old(buf[1]) | BaseLength(nr)
      ensures buf[2..2 + lengthFieldLen] == LengthField(nr)
      ensures buf[MaxHeaderSize..] == old(buf[MaxHeaderSize..])
    {
      lengthFieldLen := 0;
      if nr <= 125 {
        buf[1] := buf[1] | ByteOf(nr);
      } else if nr < 65536 {
        buf[1] := buf[1] | 126;
        lengthFieldLen := 2;
        ghost var mid := buf[..];
        Overwrite(buf, 2, BigEndian(nr, 2));
        OverwrittenTail(buf[..], mid, 2, BigEndian(nr, 2), MaxHeaderSize);
      } else {
        buf[1] := buf[1] | 127;
        lengthFieldLen := 8;
        ghost var mid := buf[..];
        Overwrite(buf, 2, BigEndian(nr, 8));
        OverwrittenTail(buf[..], mid, 2, BigEndian(nr, 8), MaxHeaderSize);
      }
    }

    /** XOR-masks the first `nr` payload bytes of buf in place (frame.go:115-117). */
    method MaskPayload(nr: nat)
      requires Valid() && nr <= DefaultFrameSize
      modifies buf
      ensures buf[MaxHeaderSize..MaxHeaderSize + nr] == Mask(old(buf[MaxHeaderSize..MaxHeaderSize + nr]), maskKey, 0)
      ensures buf[..MaxHeaderSize] == old(buf[..MaxHeaderSize])
      ensures buf[MaxHeaderSize + nr..] == old(buf[MaxHeaderSize + nr..])
    {
      ghost var pre := buf[..];
      var i := 0;
      while i < nr
        invariant 0 <= i <= nr
        invariant forall k :: MaxHeaderSize <= k < MaxHeaderSize + i ==> buf[k] == pre[k] ^ maskKey[(k - MaxHeaderSize) % 4]
        invariant forall k :: MaxHeaderSize + i <= k < buf.Length ==> buf[k] == pre[k]
        invariant buf[..MaxHeaderSize] == pre[..MaxHeaderSize]
      {
        buf[MaxHeaderSize + i] := buf[MaxHeaderSize + i] ^ maskKey[i % 4];
        i := i + 1;
      }
      MaskPointwise(buf[MaxHeaderSize..MaxHeaderSize + nr], pre[MaxHeaderSize..MaxHeaderSize + nr], maskKey, 0);
    }

    /** The sink writes for the payload of `nr` bytes now in buf
        (frame.go:76-124): header, mask key and masking in the client role,
        payload; it stops at the first write that fails. */
    method Emit(nr: nat) returns (ew: Status)
      requires Valid() && nr <= DefaultFrameSize
      modifies buf, w
      ensures var e := EmitFrame(client, maskKey, old(buf[MaxHeaderSize..MaxHeaderSize + nr]), old(w.State()));
        ew == e.err && w.State() == e.after
    {
      ghost var payload := buf[MaxHeaderSize..MaxHeaderSize + nr];
      ghost var sink0 := w.State();
      var hlen := PutHeader(nr);
      assert buf[MaxHeaderSize..MaxHeaderSize + nr] == payload;
      ew := w.Write(buf[..hlen]);
      if ew != Ok {
        return;
      }
      if client {
        ew := w.Write(maskKey);
        if ew != Ok {
          return;
        }
        MaskPayload(nr);
      }
      ew := w.Write(buf[MaxHeaderSize..MaxHeaderSize + nr]);
    }

    /** One turn of the ReadFrom loop up to its EOF check (frame.go:69-125):
        pull a chunk into buf and, if it is not empty, emit its frame. */
    method Turn(r: ByteSource) returns (nr: nat, er: Status, ew: Status)
      requires Valid()
      modifies buf, w, r
      ensures var t := Take(old(r.script), DefaultFrameSize);
        var e := FrameEmitter(client, maskKey)(t.got.data, old(w.State()));
        && nr == |t.got.data| && er == t.got.err && r.script == t.rest
        && (nr > 0 ==> ew == e.err && w.State() == e.after)
        && (nr == 0 ==> ew == Ok && w.State() == old(w.State()))
    {
      ghost var t := Take(r.script, DefaultFrameSize);
      nr, er := r.Read(buf, MaxHeaderSize, buf.Length);
      assert buf[MaxHeaderSize..MaxHeaderSize + nr] == t.got.data;
      ew := Ok;
      if nr > 0 {
        ghost var w0 := w.State();
        ew := Emit(nr);
        assert EmitFrame(client, maskKey, t.got.data, w0) == FrameEmitter(client, maskKey)(t.got.data, w0);
      }
    }

    /** ReadFrom(r) (frame.go:67-137). */
    method ReadFrom(r: ByteSource) returns (n: nat, err: Status)
      requires Valid()
      modifies buf, w, r
      ensures var run := Pump(FrameEmitter(client, maskKey), old(r.script), old(w.State()));
        n == run.n && err == run.err && r.script == run.script && w.State() == run.sink
    {
      n, err := 0, Ok;
      ghost var emit := FrameEmitter(client, maskKey);
      ghost var done: seq<seq<bv8>> := [];
      ghost var target := Pump(emit, r.script, w.State());
      while true
        invariant target == Join(n, done, Pump(emit, r.script, w.State()))
        invariant err == Ok
        decreases Size(r.script)
      {
        ghost var s0, w0 := r.script, w.State();
        ghost var t := Take(s0, DefaultFrameSize);
        if s0 != [] {
          TakeShrinks(s0, DefaultFrameSize);
        }
        var nr, er, ew := Turn(r);
        PumpAfterTurn(emit, s0, w0, er, ew, r.script, w.State());
        n := n + nr;
        if ew != Ok {
          err := ew;
          break;
        }
        if er != Ok {
          if er != EOF {
            err := er;
          }
          break;
        }
        ghost var cs := if nr == 0 then [] else [t.got.data];
        JoinJoin(n - nr, done, nr, cs, Pump(emit, r.script, w.State()));
        done := done + cs;
      }
    }

    /** Write(b) (frame.go:62-65): ReadFrom over bytes.NewBuffer(b). */
    method Write(b: seq<bv8>) returns (n: nat, err: Status)
      requires Valid()
      modifies buf, w
      ensures var run := Pump(FrameEmitter(client, maskKey), StreamOf(b), old(w.State()));
        n == run.n && err == run.err && w.State() == run.sink
    {
      var r := new ByteSource(StreamOf(b));
      n, err := ReadFrom(r);
    }
  }
}
