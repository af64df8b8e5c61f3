/** Stand-ins for the byte source and byte sink the codec talks to: an
    io.Reader whose answers are given in advance, io.ReadFull over it, and an
    io.Writer that records what it accepts and fails when told to. */
module Streams {

  /** A Go error value: Ok stands for nil. SlicePanic stands for the run-time
      panic of slicing with a negative bound, which the reader can hit. */
  datatype Status = Ok | EOF | UnexpectedEOF | Fault(code: nat) | SlicePanic

  /** One answer of the source's Read: the bytes it hands over and the error
      it reports with them (an io.Reader may do both at once). */
  datatype Yield = Yield(data: seq<bv8>, err: Status)

  /** All bytes the script will ever hand over, in order. */
  function Data(script: seq<Yield>): seq<bv8>
  {
    if script == [] then [] else script[0].data + Data(script[1..])
  }

  /** A termination measure: bytes still to come plus answers still to come. */
  function Size(script: seq<Yield>): nat
  {
    if script == [] then 0 else |script[0].data| + 1 + Size(script[1..])
  }

  lemma AppendAssoc(a: seq<bv8>, b: seq<bv8>, c: seq<bv8>)
    ensures a + b + c == a + (b + c)
  {
  }

  /** The first error the script reports; a finished script reports EOF. */
  function Terminal(script: seq<Yield>): Status
  {
    if script == [] then EOF
    else if script[0].err != Ok then script[0].err
    else Terminal(script[1..])
  }

  /** A source that answers every Read of positive size in full, as far as
      `b` goes, and then reports EOF: bytes.NewBuffer(b) for reads of positive
      size. (A read of size 0 at the end answers EOF here, where
      bytes.Buffer answers 0 and nil.) A connection that returns short counts
      is a general script, not a StreamOf. */
  function StreamOf(b: seq<bv8>): seq<Yield>
  {
    if b == [] then [] else [Yield(b, Ok)]
  }

  datatype Taken = Taken(got: Yield, rest: seq<Yield>)

  /** One Read call with a buffer of `k` bytes. The next answer is handed over
      whole if it fits; otherwise its first `k` bytes are, and the remainder
      (with the answer's error) is kept for the next call. */
  function Take(script: seq<Yield>, k: nat): (t: Taken)
    ensures |t.got.data| <= k
    ensures script == [] ==> t == Taken(Yield([], EOF), [])
    ensures t.got.err == Ok && |t.got.data| < k ==> |t.rest| < |script|
  {
    if script == [] then Taken(Yield([], EOF), [])
    else if |script[0].data| <= k then Taken(script[0], script[1..])
    else Taken(Yield(script[0].data[..k], Ok), [Yield(script[0].data[k..], script[0].err)] + script[1..])
  }

  /** A Read call loses no byte and invents none: what it hands over and what
      the source keeps make up what the source had. */
  lemma TakeData(script: seq<Yield>, k: nat)
    ensures var t := Take(script, k); t.got.data + Data(t.rest) == Data(script)
  {
    if script != [] && |script[0].data| > k {
      var d := script[0].data;
      var rest := Take(script, k).rest;
      assert rest[1..] == script[1..];
      assert d[..k] + d[k..] == d;
    }
  }

  /** A Read call with a non-empty buffer uses up part of a non-empty script. */
  lemma TakeShrinks(script: seq<Yield>, k: nat)
    requires k > 0 && script != []
    ensures Size(Take(script, k).rest) < Size(script)
  {
    if |script[0].data| > k {
      var rest := Take(script, k).rest;
      assert rest[1..] == script[1..];
    }
  }

  /** A Read call reports the source's first error, or leaves it to come. */
  lemma TakeTerminal(script: seq<Yield>, k: nat)
    ensures var t := Take(script, k);
      && (t.got.err == Ok ==> Terminal(t.rest) == Terminal(script))
      && (t.got.err != Ok ==> t.got.err == Terminal(script))
  {
    if script != [] && |script[0].data| > k {
      var rest := Take(script, k).rest;
      assert rest[1..] == script[1..];
    }
  }

  datatype Filled = Filled(data: seq<bv8>, err: Status, rest: seq<Yield>)

  /** The loop of io.ReadAtLeast: ask for the bytes still missing until they
      have all come or an answer carries an error. */
  function Fill(script: seq<Yield>, need: nat): (f: Filled)
    ensures |f.data| <= need
    ensures f.err == Ok ==> |f.data| == need
    decreases |script|, need
  {
    if need == 0 then Filled([], Ok, script)
    else
      var t := Take(script, need);
      if t.got.err != Ok || |t.got.data| == need then Filled(t.got.data, t.got.err, t.rest)
      else
        var f := Fill(t.rest, need - |t.got.data|);
        Filled(t.got.data + f.data, f.err, f.rest)
  }

  /** io.ReadFull with a buffer of `k` bytes: nil exactly when all `k` bytes
      came; otherwise EOF when none came, UnexpectedEOF when some came before
      EOF, and the source's own error else. */
  function FullRead(script: seq<Yield>, k: nat): (f: Filled)
    ensures |f.data| <= k
    ensures f.err == Ok <==> |f.data| == k
    ensures f.err == EOF ==> f.data == []
  {
    var f := Fill(script, k);
    if |f.data| == k then Filled(f.data, Ok, f.rest)
    else if |f.data| > 0 && f.err == EOF then Filled(f.data, UnexpectedEOF, f.rest)
    else f
  }

  lemma {:induction false} FillData(script: seq<Yield>, need: nat)
    ensures var f := Fill(script, need); f.data + Data(f.rest) == Data(script)
    decreases |script|, need
  {
    if need > 0 {
      var t := Take(script, need);
      TakeData(script, need);
      if t.got.err == Ok && |t.got.data| != need {
        FillData(t.rest, need - |t.got.data|);
      }
    }
  }

  /** io.ReadFull loses no byte and invents none. */
  lemma FullReadData(script: seq<Yield>, k: nat)
    ensures var f := FullRead(script, k); f.data + Data(f.rest) == Data(script)
  {
    FillData(script, k);
  }

  lemma {:induction false} TakeStream(b: seq<bv8>, k: nat)
    requires b != []
    ensures var n := if k < |b| then k else |b|;
      Take(StreamOf(b), k) == Taken(Yield(b[..n], Ok), StreamOf(b[n..]))
  {
  }

  /** Reading k bytes from a source that has at least k bytes ready. */
  lemma {:induction false} FullReadStream(b: seq<bv8>, k: nat)
    requires k <= |b|
    ensures FullRead(StreamOf(b), k) == Filled(b[..k], Ok, StreamOf(b[k..]))
  {
    if k > 0 {
      TakeStream(b, k);
    } else {
      assert b[0..] == b;
    }
  }

  /** `now` is `was` with `d` stored from index `lo` on (what `copy` does). */
  ghost predicate Overwritten(now: seq<bv8>, was: seq<bv8>, lo: nat, d: seq<bv8>)
  {
    && |now| == |was|
    && lo + |d| <= |now|
    && now[lo..lo + |d|] == d
    && (forall i :: 0 <= i < |was| && !(lo <= i < lo + |d|) ==> now[i] == was[i])
  }

  /** What lies past the stored bytes is as it was. */
  lemma OverwrittenTail(now: seq<bv8>, was: seq<bv8>, lo: nat, d: seq<bv8>, from: nat)
    requires Overwritten(now, was, lo, d) && lo + |d| <= from <= |now|
    ensures now[from..] == was[from..]
  {
    assert forall i :: 0 <= i < |now| - from ==> now[from..][i] == now[from + i] && was[from..][i] == was[from + i];
  }

  method Overwrite(a: array<bv8>, lo: nat, d: seq<bv8>)
    requires lo + |d| <= a.Length
    modifies a
    ensures Overwritten(a[..], old(a[..]), lo, d)
  {
    forall i | 0 <= i < |d| {
      a[lo + i] := d[i];
    }
    assert forall i :: 0 <= i < |d| ==> a[lo..lo + |d|][i] == d[i];
  }

  /** The byte source (an io.Reader) as the answers it will give. */
  class ByteSource {
    var script: seq<Yield>

    constructor (script: seq<Yield>)
      ensures this.script == script
    {
      this.script := script;
    }

    /** r.Read(p[lo:hi]) */
    method Read(p: array<bv8>, lo: nat, hi: nat) returns (n: nat, err: Status)
      requires lo <= hi <= p.Length
      modifies this, p
      ensures var t := Take(old(script), hi - lo);
        && n == |t.got.data| && err == t.got.err && script == t.rest
        && Overwritten(p[..], old(p[..]), lo, t.got.data)
    {
      var t := Take(script, hi - lo);
      Overwrite(p, lo, t.got.data);
      script := t.rest;
      n, err := |t.got.data|, t.got.err;
    }

    /** io.ReadFull(r, p[lo:hi]) */
    method ReadFull(p: array<bv8>, lo: nat, hi: nat) returns (n: nat, err: Status)
      requires lo <= hi <= p.Length
      modifies this, p
      ensures var f := FullRead(old(script), hi - lo);
        && n == |f.data| && err == f.err && script == f.rest
        && Overwritten(p[..], old(p[..]), lo, f.data)
    {
      var f := FullRead(script, hi - lo);
      Overwrite(p, lo, f.data);
      script := f.rest;
      n, err := |f.data|, f.err;
    }
  }

  /** What the sink has accepted, and how its upcoming Write calls end
      (a call past the end of `faults` succeeds). */
  datatype SinkState = SinkState(faults: seq<Status>, written: seq<bv8>)

  datatype Sent = Sent(err: Status, after: SinkState)

  /** A sink that will accept every write. */
  ghost predicate Healthy(s: SinkState)
  {
    forall i :: 0 <= i < |s.faults| ==> s.faults[i] == Ok
  }

  /** One Write call: accepted whole, or refused with an error and nothing kept. */
  function SinkWrite(s: SinkState, p: seq<bv8>): (r: Sent)
    ensures r.err == Ok ==> r.after.written == s.written + p
    ensures r.err != Ok ==> r.after.written == s.written
    ensures Healthy(s) ==> r.err == Ok && Healthy(r.after)
  {
    if s.faults == [] then Sent(Ok, SinkState([], s.written + p))
    else if s.faults[0] == Ok then Sent(Ok, SinkState(s.faults[1..], s.written + p))
    else Sent(s.faults[0], SinkState(s.faults[1..], s.written))
  }

  /** The byte sink (an io.Writer). */
  class Sink {
    var faults: seq<Status>
    var written: seq<bv8>

    function State(): SinkState
      reads this
    {
      SinkState(faults, written)
    }

    constructor (faults: seq<Status>)
      ensures State() == SinkState(faults, [])
    {
      this.faults := faults;
      written := [];
    }

    method Write(p: seq<bv8>) returns (err: Status)
      modifies this
      ensures var r := SinkWrite(old(State()), p); err == r.err && State() == r.after
    {
      var r := SinkWrite(State(), p);
      faults, written := r.after.faults, r.after.written;
      err := r.err;
    }
  }
}
