/** The frame reader: hands the payloads of consecutive frames to its caller
    as one stream, parsing a header whenever the current frame is used up. */
module FrameReading {
  import opened Wire
  import opened Streams

  /** Position of the next payload byte within the mask key. */
  type Phase = o: nat | o < 4

  /** int64(u) for a 64-bit unsigned u: values from 2^63 on wrap to negatives. */
  function Int64(u: nat): int
  {
    if u < Two63 then u else u - Two64
  }

  /** What a frameReader carries from one Read call to the next
      (frame.go:139-146): what its source still has, the payload bytes left
      in the current frame, the mask key and the mask phase. */
  datatype Reader = Reader(script: seq<Yield>, left: int, key: Key, offset: Phase)

  /** The reader after its header phase, and the error that ended it. */
  datatype Begun = Begun(err: Status, next: Reader)

  /** Header phase of Read (frame.go:154-189): the two fixed bytes, the
      extended length when the base length is 126 or 127, and in the server
      role the mask key. A failed read of the two fixed bytes changes nothing
      but the source. */
  function Begin(server: bool, r: Reader): Begun
  {
    var f := FullRead(r.script, 2);
    if f.err != Ok then Begun(f.err, r.(script := f.rest))
    else
      var x := ExtendedLength(f.rest, (f.data[1] & 0x7F) as int);
      if x.err != Ok then Begun(x.err, r.(script := x.script, left := x.left))
      else ReadMaskKey(server, r.(script := x.script, left := x.left))
  }

  /** The payload length once the base length is known, and what is left of
      the source. */
  datatype Sized = Sized(err: Status, script: seq<Yield>, left: int)

  /** frame.go:165-180: base lengths 126 and 127 announce a 16-bit and a
      64-bit big-endian length, the latter taken as a signed int64. `left`
      takes the base length before the extension is read, so a failed
      extension read leaves it at 126 or 127. */
  function ExtendedLength(script: seq<Yield>, base: int): (x: Sized)
    ensures base != 126 && base != 127 ==> x == Sized(Ok, script, base)
    ensures (base == 126 || base == 127) && x.err != Ok ==> x.left == base
  {
    if base == 126 then
      var e := FullRead(script, 2);
      if e.err != Ok then Sized(e.err, e.rest, 126) else Sized(Ok, e.rest, BigEndianValue(e.data))
    else if base == 127 then
      var e := FullRead(script, 8);
      if e.err != Ok then Sized(e.err, e.rest, 127) else Sized(Ok, e.rest, Int64(BigEndianValue(e.data)))
    else Sized(Ok, script, base)
  }

  /** frame.go:182-188: the mask key is read into the key array in place, so
      a short read leaves the bytes that did come at its front; the phase is
      reset only once the whole key has come. */
  function ReadMaskKey(server: bool, r: Reader): Begun
  {
    if !server then Begun(Ok, r)
    else
      var x := FullRead(r.script, 4);
      var key: Key := x.data + r.key[|x.data|..];
      if x.err != Ok then Begun(x.err, r.(script := x.rest, key := key))
      else Begun(Ok, r.(script := x.rest, key := key, offset := 0))
  }

  /** What a Read call returns and leaves behind: the count, the error, the
      bytes now at the front of the caller's buffer, and the new reader. */
  datatype Step = Step(m: nat, err: Status, fill: seq<bv8>, next: Reader)

  /** Payload phase of Read (frame.go:191-209) with a buffer of k bytes. A
      read that reports an error returns 0 and leaves `left` and the phase
      alone, though the bytes it brought are in the caller's buffer and gone
      from the source. */
  function Payload(server: bool, r: Reader, k: nat): Step
  {
    if r.left < 0 then Step(0, SlicePanic, [], r)
    else
      var readLen := if k > r.left then r.left else k;
      var t := Take(r.script, readLen);
      var m := |t.got.data|;
      if t.got.err != Ok then Step(0, t.got.err, t.got.data, r.(script := t.rest))
      else if server then
        Step(m, Ok, Mask(t.got.data, r.key, r.offset), r.(script := t.rest, left := r.left - m, offset := (m + r.offset) % 4))
      else Step(m, Ok, t.got.data, r.(script := t.rest, left := r.left - m))
  }

  /** Read(b) with len(b) == k (frame.go:153-210). */
  function ReaderStep(server: bool, r: Reader, k: nat): Step
  {
    if r.left == 0 then
      var h := Begin(server, r);
      if h.err != Ok then Step(0, h.err, [], h.next)
      else Payload(server, h.next, k)
    else Payload(server, r, k)
  }

  /** What the payload phase promises: it hands over at most the buffer's
      size and at most what is left of the frame; `left` drops by exactly the
      count; an error comes with a count of 0; the key never changes; in the
      server role the phase advances by the count, and in the client role it
      never moves. */
  lemma PayloadContract(server: bool, r: Reader, k: nat)
    ensures var st := Payload(server, r, k);
      && st.m <= k && |st.fill| <= k && st.next.key == r.key
      && (st.err == Ok ==> |st.fill| == st.m && st.next.left >= 0)
      && (st.err != Ok ==> st.m == 0 && st.next.left == r.left && st.next.offset == r.offset)
      && (r.left >= 0 ==> st.m <= r.left && st.next.left == r.left - st.m)
      && (r.left < 0 ==> st.err == SlicePanic)
      && (st.err == Ok && server ==> st.next.offset == (r.offset + st.m) % 4)
      && (!server ==> st.next.offset == r.offset)
  {
  }

  /** A payload read that succeeds, spelled out. */
  lemma PayloadRead(server: bool, r: Reader, k: nat)
    requires r.left >= 0
    ensures var t := Take(r.script, if k > r.left then r.left else k);
      var m := |t.got.data|;
      t.got.err == Ok ==>
        Payload(server, r, k)
          == Step(m, Ok, Unmasked(server, t.got.data, r.key, r.offset),
                  Reader(t.rest, r.left - m, r.key, Advance(server, r.offset, m)))
  {
  }

  /** What a Read call promises, whether or not it begins a frame: at a
      frame boundary the bounds hold against the `left` the header set. */
  lemma ReaderStepContract(server: bool, r: Reader, k: nat)
    ensures var st := ReaderStep(server, r, k);
      && st.m <= k && |st.fill| <= k
      && (st.err == Ok ==> |st.fill| == st.m && st.next.left >= 0)
      && (st.err != Ok ==> st.m == 0)
      && (r.left != 0 ==> st.next.key == r.key)
      && (r.left > 0 ==> st.m <= r.left && st.next.left == r.left - st.m)
      && (r.left > 0 && st.err == Ok && server ==> st.next.offset == (r.offset + st.m) % 4)
      && (r.left == 0 && st.err == Ok ==>
            var h := Begin(server, r).next;
            && Begin(server, r).err == Ok && st.m <= h.left && st.next.left == h.left - st.m
            && st.next.key == h.key && (server ==> st.next.offset == (h.offset + st.m) % 4))
  {
    if r.left == 0 {
      var h := Begin(server, r);
      if h.err == Ok {
        PayloadContract(server, h.next, k);
      }
    } else {
      PayloadContract(server, r, k);
    }
  }

  /** The bytes a Read call hands over, given the raw payload bytes it took. */
  function Unmasked(server: bool, raw: seq<bv8>, key: Key, offset: nat): seq<bv8>
  {
    if server then Mask(raw, key, offset) else raw
  }

  /** The phase after n more payload bytes. */
  function Advance(server: bool, offset: Phase, n: nat): Phase
  {
    if server then (offset + n) % 4 else offset
  }

  /** Inside a frame a Read takes only payload bytes from the source: what it
      hands over, unmasked back, is exactly what the source lost. */
  lemma ReadInsideFrame(server: bool, r: Reader, k: nat)
    requires r.left > 0
    ensures var st := ReaderStep(server, r, k);
      st.err == Ok ==> Data(r.script) == Unmasked(server, st.fill, r.key, r.offset) + Data(st.next.script)
  {
    var readLen := if k > r.left then r.left else k;
    var t := Take(r.script, readLen);
    TakeData(r.script, readLen);
    if server {
      MaskInvolution(t.got.data, r.key, r.offset);
    }
  }

  /** How a caller's sequence of Read calls ends. */
  datatype Session = Session(out: seq<bv8>, err: Status, next: Reader)

  /** A caller that calls `read` once per size in `ks`, with a buffer of that
      size, collecting what it is handed and stopping at the first error. */
  function Reads(read: (Reader, nat) -> Step, r: Reader, ks: seq<nat>): Session
    decreases |ks|
  {
    if ks == [] then Session([], Ok, r)
    else
      var st := read(r, ks[0]);
      if st.err != Ok then Session([], st.err, st.next)
      else
        var s := Reads(read, st.next, ks[1..]);
        Session(st.fill + s.out, s.err, s.next)
  }

  /** The Read method of a frameReader in the given role, as a function value. */
  function ReadCall(server: bool): (Reader, nat) -> Step
  {
    (r: Reader, k: nat) => ReaderStep(server, r, k)
  }

  /** A caller reading a frameReader with buffers of sizes ks. */
  function Drain(server: bool, r: Reader, ks: seq<nat>): Session
  {
    Reads(ReadCall(server), r, ks)
  }

  /** Reads of sizes ks1 then ks2 are reads of sizes ks1 and then, from where
      they left the reader, reads of sizes ks2. */
  lemma {:induction false} ReadsAppend(read: (Reader, nat) -> Step, r: Reader, ks1: seq<nat>, ks2: seq<nat>)
    ensures var d1 := Reads(read, r, ks1);
      d1.err == Ok ==>
        var d2 := Reads(read, d1.next, ks2);
        Reads(read, r, ks1 + ks2) == Session(d1.out + d2.out, d2.err, d2.next)
    decreases |ks1|
  {
    if ks1 == [] {
      assert ks1 + ks2 == ks2;
    } else {
      var st := read(r, ks1[0]);
      assert (ks1 + ks2)[0] == ks1[0];
      assert (ks1 + ks2)[1..] == ks1[1..] + ks2;
      if st.err == Ok {
        ReadsAppend(read, st.next, ks1[1..], ks2);
      }
    }
  }

  /** The reader inside a frame whose remaining payload `q` the source has
      ready in one answer, followed by `rest`: every Read is answered in full. */
  function InFrame(q: seq<bv8>, rest: seq<bv8>, key: Key, offset: Phase): Reader
  {
    Reader(StreamOf(q + rest), |q|, key, offset)
  }

  /** `read` behaves inside a frame as a frameReader in the given role does:
      a read of 0 < k <= |q| bytes hands over q's first k bytes unmasked and
      moves the phase on by k. */
  ghost predicate StepsInFrame(read: (Reader, nat) -> Step, server: bool, rest: seq<bv8>, key: Key)
  {
    forall q: seq<bv8>, offset: Phase, k: nat {:trigger read(InFrame(q, rest, key, offset), k)} ::
      0 < k <= |q| ==>
        read(InFrame(q, rest, key, offset), k)
          == Step(k, Ok, Unmasked(server, q[..k], key, offset), InFrame(q[k..], rest, key, Advance(server, offset, k)))
  }

  /** One read of k bytes inside a frame whose remaining payload the source
      has ready. */
  lemma ReadInStream(server: bool, q: seq<bv8>, rest: seq<bv8>, key: Key, offset: Phase, k: nat)
    requires 0 < k <= |q|
    ensures ReaderStep(server, InFrame(q, rest, key, offset), k)
      == Step(k, Ok, Unmasked(server, q[..k], key, offset), InFrame(q[k..], rest, key, Advance(server, offset, k)))
  {
    TakeStream(q + rest, k);
    assert (q + rest)[..k] == q[..k];
    assert (q + rest)[k..] == q[k..] + rest;
  }

  lemma FrameReaderStepsInFrame(server: bool, rest: seq<bv8>, key: Key)
    ensures StepsInFrame(ReadCall(server), server, rest, key)
  {
    forall q: seq<bv8>, offset: Phase, k: nat | 0 < k <= |q|
      ensures ReadCall(server)(InFrame(q, rest, key, offset), k)
        == Step(k, Ok, Unmasked(server, q[..k], key, offset), InFrame(q[k..], rest, key, Advance(server, offset, k)))
    {
      ReadInStream(server, q, rest, key, offset, k);
    }
  }

  /** Unmasking a payload piece by piece, each piece from the phase where the
      previous one stopped, is unmasking it in one go. */
  lemma UnmaskedSplit(server: bool, a: seq<bv8>, b: seq<bv8>, key: Key, offset: Phase)
    ensures Unmasked(server, a + b, key, offset)
      == Unmasked(server, a, key, offset) + Unmasked(server, b, key, Advance(server, offset, |a|))
  {
    if server {
      MaskSplit(a, b, key, offset);
    }
  }

  lemma AdvanceTwice(server: bool, offset: Phase, k: nat, n: nat)
    ensures Advance(server, Advance(server, offset, k), n) == Advance(server, offset, k + n)
  {
    if server {
      PhaseShift(n, k, offset);
    }
  }

  predicate AllPositive(ks: seq<nat>)
  {
    forall i :: 0 <= i < |ks| ==> ks[i] > 0
  }

  /** Reads of positive sizes adding up to at most |p|, inside a frame whose
      remaining payload p the source has ready, by any step that behaves
      inside a frame as a frameReader does. */
  lemma {:induction false} ReadsInsideFrame(read: (Reader, nat) -> Step, server: bool, p: seq<bv8>, rest: seq<bv8>,
                                            key: Key, offset: Phase, ks: seq<nat>)
    requires StepsInFrame(read, server, rest, key)
    requires AllPositive(ks) && Sum(ks) <= |p|
    ensures var n := Sum(ks);
      Reads(read, InFrame(p, rest, key, offset), ks)
        == Session(Unmasked(server, p[..n], key, offset), Ok, InFrame(p[n..], rest, key, Advance(server, offset, n)))
    decreases |ks|
  {
    if ks == [] {
      assert p[0..] == p;
      assert Unmasked(server, p[..0], key, offset) == [];
    } else {
      var k := ks[0];
      var n := Sum(ks);
      var tail := ks[1..];
      var n' := Sum(tail);
      assert n == k + n';
      assert AllPositive(tail) by {
        assert forall i :: 0 <= i < |tail| ==> tail[i] == ks[i + 1];
      }
      var offset' := Advance(server, offset, k);
      ReadsInsideFrame(read, server, p[k..], rest, key, offset', tail);
      assert p[k..][..n'] == p[k..n];
      assert p[k..][n'..] == p[n..];
      assert p[..n] == p[..k] + p[k..n];
      UnmaskedSplit(server, p[..k], p[k..n], key, offset);
      AdvanceTwice(server, offset, k, n');
    }
  }

  /** Phase persistence: inside one frame whose remaining payload `p` the
      source has ready, reads of any positive sizes adding up to at most |p|
      hand over p's first bytes unmasked exactly as one read would, and leave
      the phase advanced by the number of bytes taken, modulo 4. */
  lemma DrainInsideFrame(server: bool, p: seq<bv8>, rest: seq<bv8>, key: Key, offset: Phase, ks: seq<nat>)
    requires AllPositive(ks) && Sum(ks) <= |p|
    ensures var n := Sum(ks);
      Drain(server, InFrame(p, rest, key, offset), ks)
        == Session(Unmasked(server, p[..n], key, offset), Ok, InFrame(p[n..], rest, key, Advance(server, offset, n)))
  {
    FrameReaderStepsInFrame(server, rest, key);
    ReadsInsideFrame(ReadCall(server), server, p, rest, key, offset, ks);
  }

  /** Partial-read equivalence: any two ways of cutting the same amount of a
      frame's payload into reads hand over the same bytes and leave the same
      reader behind. */
  lemma ReadSizesDoNotMatter(server: bool, p: seq<bv8>, rest: seq<bv8>, key: Key, offset: Phase, ks1: seq<nat>, ks2: seq<nat>)
    requires AllPositive(ks1) && AllPositive(ks2)
    requires Sum(ks1) == Sum(ks2) <= |p|
    ensures Drain(server, InFrame(p, rest, key, offset), ks1) == Drain(server, InFrame(p, rest, key, offset), ks2)
  {
    DrainInsideFrame(server, p, rest, key, offset, ks1);
    DrainInsideFrame(server, p, rest, key, offset, ks2);
  }

  /** One Read call inside a frame, from any source: what it hands over,
      unmasked back, is what the source lost; `left` drops by the count; the
      key stays; the phase moves on by the count. */
  lemma ReadCallInFrame(server: bool, r: Reader, k: nat)
    requires r.left > 0
    ensures var st := ReadCall(server)(r, k);
      st.err == Ok ==>
        && Data(r.script) == Unmasked(server, st.fill, r.key, r.offset) + Data(st.next.script)
        && |st.fill| == st.m <= k && st.next.left == r.left - st.m
        && st.next.key == r.key && st.next.offset == Advance(server, r.offset, st.m)
  {
    ReadInsideFrame(server, r, k);
    PayloadContract(server, r, k);
  }

  /** Reads inside a frame from a source that may answer with short counts:
      reads of positive sizes adding up to at most what is left of the frame,
      when they all succeed, hand over bytes that, unmasked back, are exactly
      what the source lost; `left` drops by the total, the key stays, and the
      phase moves on by the total. */
  lemma {:induction false} DrainFromAnySource(server: bool, r: Reader, ks: seq<nat>)
    requires AllPositive(ks) && Sum(ks) <= r.left
    ensures var d := Drain(server, r, ks);
      d.err == Ok ==>
        && Data(r.script) == Unmasked(server, d.out, r.key, r.offset) + Data(d.next.script)
        && |d.out| <= Sum(ks) && d.next.left == r.left - |d.out|
        && d.next.key == r.key && d.next.offset == Advance(server, r.offset, |d.out|)
    decreases |ks|
  {
    if ks != [] {
      var k := ks[0];
      var tail := ks[1..];
      assert AllPositive(tail) by {
        assert forall i :: 0 <= i < |tail| ==> tail[i] == ks[i + 1];
      }
      var st := ReadCall(server)(r, k);
      ReadCallInFrame(server, r, k);
      if st.err == Ok {
        var r1 := st.next;
        DrainFromAnySource(server, r1, tail);
        var d1 := Drain(server, r1, tail);
        assert Drain(server, r, ks) == Session(st.fill + d1.out, d1.err, d1.next);
        if d1.err == Ok {
          UnmaskedSplit(server, st.fill, d1.out, r.key, r.offset);
          AdvanceTwice(server, r.offset, st.m, |d1.out|);
          AppendAssoc(Unmasked(server, st.fill, r.key, r.offset),
                      Unmasked(server, d1.out, r.key, r1.offset), Data(d1.next.script));
        }
      }
    }
  }

  /** The same inside a frame whose remaining payload `q` the source will
      deliver, in whatever pieces, followed by `rest`: the reads hand over a
      prefix of q unmasked with the carried phase, and the source keeps the
      rest of q and what follows it. */
  lemma DrainFrameFromAnySource(server: bool, r: Reader, q: seq<bv8>, rest: seq<bv8>, ks: seq<nat>)
    requires r.left == |q| && Data(r.script) == q + rest
    requires AllPositive(ks) && Sum(ks) <= |q|
    ensures var d := Drain(server, r, ks);
      var n := |d.out|;
      d.err == Ok ==>
        && n <= |q|
        && d.out == Unmasked(server, q[..n], r.key, r.offset)
        && Data(d.next.script) == q[n..] + rest
        && d.next == Reader(d.next.script, |q| - n, r.key, Advance(server, r.offset, n))
  {
    DrainFromAnySource(server, r, ks);
    var d := Drain(server, r, ks);
    var n := |d.out|;
    if d.err == Ok {
      var raw := Unmasked(server, d.out, r.key, r.offset);
      assert |raw| == n;
      assert raw == q[..n] && Data(d.next.script) == q[n..] + rest by {
        assert q + rest == raw + Data(d.next.script);
        assert (q + rest)[..n] == q[..n] && (q + rest)[n..] == q[n..] + rest;
      }
      if server {
        MaskInvolution(d.out, r.key, r.offset);
      }
    }
  }

  /** A 64-bit length from 2^63 on turns negative as an int64, and the
      payload phase then slices the caller's buffer with a negative bound:
      the Read call panics instead of reporting an error. */
  lemma HugeLengthPanics(server: bool, b0: bv8, b1: bv8, v: nat, t: seq<bv8>, key0: Key, off0: Phase, k: nat)
    requires b1 & 0x7F == 127 && Two63 <= v < Two64
    requires server ==> |t| >= 4
    ensures var st := ReaderStep(server, Reader(StreamOf([b0, b1] + BigEndian(v, 8) + t), 0, key0, off0), k);
      st.m == 0 && st.err == SlicePanic && st.next.left < 0
  {
    var bytes := [b0, b1] + BigEndian(v, 8) + t;
    FullReadStream(bytes, 2);
    assert bytes[..2] == [b0, b1];
    FullReadStream(bytes[2..], 8);
    assert bytes[2..][..8] == BigEndian(v, 8) && bytes[2..][8..] == t;
    Pow256Widths();
    BigEndianRoundTrip(v, 8);
    if server {
      FullReadStream(t, 4);
    }
  }

  /** frameReader (frame.go:139-146). The embedded io.Reader is `src`;
      `buf` and `maskKey` are the struct's fixed-size byte arrays. */
  class FrameReader {
    const src: ByteSource
    const buf: array<bv8>
    var left: int
    const server: bool
    const maskKey: array<bv8>
    var maskOffset: nat

    ghost predicate Valid()
      reads this
    {
      buf.Length == 8 && maskKey.Length == 4 && buf != maskKey && maskOffset < 4
    }

    /** The fields a Read call depends on and changes. */
    function State(): Reader
      requires Valid()
      reads this, src, maskKey
    {
      Reader(src.script, left, maskKey[..], maskOffset)
    }

    /** FrameReader(r, client) (frame.go:149-151): every other field starts at
        its zero value. */
    constructor (r: ByteSource, client: bool)
      ensures Valid() && fresh(buf) && fresh(maskKey)
      ensures src == r && server == !client
      ensures State() == Reader(r.script, 0, [0, 0, 0, 0], 0)
    {
      src := r;
      buf := new bv8[8](_ => 0);
      left := 0;
      server := !client;
      maskKey := new bv8[4](_ => 0);
      maskOffset := 0;
    }

    /** Header phase of Read (frame.go:154-189); the caller has checked left == 0. */
    method ReadHeader() returns (err: Status)
      requires Valid() && left == 0
      modifies this`left, this`maskOffset, buf, maskKey, src
      ensures Valid()
      ensures var h := Begin(server, old(State())); err == h.err && State() == h.next
    {
      var n, e := src.ReadFull(buf, 0, 2);
      if e != Ok {
        return e;
      }
      assert buf[..2] == buf[0..2];
      left := (buf[1] & 0x7F) as int;
      e := ReadLength();
      if e != Ok {
        return e;
      }
      err := ReadKey();
    }

    /** frame.go:165-180, with the base length in `left`. */
    method ReadLength() returns (err: Status)
      requires Valid()
      modifies this`left, buf, src
      ensures var x := ExtendedLength(old(src.script), old(left));
        err == x.err && src.script == x.script && left == x.left
    {
      if left == 126 {
        var n, e := src.ReadFull(buf, 0, 2);
        if e != Ok {
          return e;
        }
        assert buf[..2] == buf[0..2];
        left := BigEndianValue(buf[..2]);
      } else if left == 127 {
        var n, e := src.ReadFull(buf, 0, 8);
        if e != Ok {
          return e;
        }
        assert buf[..8] == buf[0..8];
        left := Int64(BigEndianValue(buf[..8]));
      }
      err := Ok;
    }

    /** frame.go:182-188: in the server role, io.ReadFull into the key array. */
    method ReadKey() returns (err: Status)
      requires Valid()
      modifies this`maskOffset, maskKey, src
      ensures Valid()
      ensures var h := ReadMaskKey(server, old(State())); err == h.err && State() == h.next
    {
      if server {
        ghost var key := maskKey[..];
        ghost var script := src.script;
        var n, e := src.ReadFull(maskKey, 0, 4);
        ghost var f := FullRead(script, 4);
        assert maskKey[..] == f.data + key[|f.data|..] by {
          assert maskKey[0..|f.data|] == f.data;
          assert forall i :: |f.data| <= i < 4 ==> maskKey[..][i] == key[i];
        }
        if e != Ok {
          return e;
        }
        maskOffset := 0;
      }
      err := Ok;
    }

    /** XORs the first `got` bytes of b with the mask key from the current
        phase on, in place (frame.go:201-206). */
    method Unmask(b: array<bv8>, got: nat)
      requires Valid() && b != maskKey && got <= b.Length
      modifies b
      ensures b[..] == Mask(old(b[..got]), maskKey[..], maskOffset) + old(b[got..])
    {
      ghost var raw := b[..];
      ghost var want := Mask(raw, maskKey[..], maskOffset);
      var i := 0;
      while i < got
        invariant 0 <= i <= got
        invariant forall j :: 0 <= j < i ==> b[j] == want[j]
        invariant forall j :: i <= j < b.Length ==> b[j] == raw[j]
      {
        MaskAt(raw, maskKey[..], maskOffset, i);
        b[i] := b[i] ^ maskKey[(i + maskOffset) % 4];
        i := i + 1;
      }
      assert b[..got] == want[..got];
      assert raw == raw[..got] + raw[got..];
      MaskSplit(raw[..got], raw[got..], maskKey[..], maskOffset);
      assert b[..] == b[..got] + b[got..];
    }

    /** Read(b) (frame.go:153-210). */
    method Read(b: array<bv8>) returns (m: nat, err: Status)
      requires Valid() && b != buf && b != maskKey
      modifies this`left, this`maskOffset, buf, maskKey, b, src
      ensures Valid()
      ensures var st := ReaderStep(server, old(State()), b.Length);
        && m == st.m && err == st.err && State() == st.next
        && b[..] == st.fill + old(b[..])[|st.fill|..]
    {
      if left == 0 {
        var e := ReadHeader();
        if e != Ok {
          return 0, e;
        }
      }
      m, err := ReadPayload(b);
    }

    /** Payload phase of Read (frame.go:191-209). */
    method ReadPayload(b: array<bv8>) returns (m: nat, err: Status)
      requires Valid() && b != buf && b != maskKey
      modifies this`left, this`maskOffset, b, src
      ensures Valid()
      ensures var st := Payload(server, old(State()), b.Length);
        && m == st.m && err == st.err && State() == st.next
        && b[..] == st.fill + old(b[..])[|st.fill|..]
    {
      var readLen := b.Length;
      if readLen > left {
        readLen := left;
      }
      if readLen < 0 {
        return 0, SlicePanic;   // b[:readLen] with readLen < 0
      }

      ghost var pre := b[..];
      ghost var r0 := State();
      ghost var t := Take(r0.script, readLen);
      var got, e := src.Read(b, 0, readLen);
      if e != Ok {
        assert b[..] == b[..got] + pre[got..];
        return 0, e;
      }
      assert got == |t.got.data| && b[..] == t.got.data + pre[got..];
      PayloadRead(server, r0, b.Length);

      if server {
        Unmask(b, got);
        maskOffset := (got + maskOffset) % 4;
      }

      left := left - got;
      m, err := got, Ok;
    }
  }
}
