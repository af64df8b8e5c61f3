/** The layout of one binary frame as this codec writes and reads it
    (section 5.2 of RFC 6455: base header, extended payload length,
    masking key; section 5.3: client-to-server masking). */
module Wire {

  /** Largest payload the writer puts in one frame. */
  const DefaultFrameSize: nat := 4096
  /** Fixed header + longest length extension + mask key. */
  const MaxHeaderSize: nat := 2 + 8 + 4

  // byte 0
  const FinalBit: bv8 := 0x80
  const OpCodeBinary: bv8 := 2

  // byte 1
  const MaskBit: bv8 := 0x80

  /** 2^64: the number of values of a 64-bit length field. */
  const Two64: nat := 0x1_0000_0000_0000_0000
  /** 2^63: the first 64-bit length that no longer fits a signed 64-bit integer. */
  const Two63: nat := 0x8000_0000_0000_0000

  /** A masking key: exactly four bytes (section 5.3 of RFC 6455). */
  type Key = k: seq<bv8> | |k| == 4 witness [0, 0, 0, 0]

  function Pow256(width: nat): (p: nat)
    ensures p > 0
  {
    if width == 0 then 1 else 256 * Pow256(width - 1)
  }

  /** The low `width` bytes of `v`, most significant first (what PutUint16 and
      PutUint64 store); higher bytes of `v` are dropped, as by the uint16/uint64 cast. */
  function BigEndian(v: nat, width: nat): (s: seq<bv8>)
    ensures |s| == width
  {
    if width == 0 then [] else BigEndian(v / 256, width - 1) + [ByteOf(v % 256)]
  }

  /** The unsigned number that bytes `s` spell, most significant first
      (what binary.BigEndian.Uint16 and Uint64 return). */
  function BigEndianValue(s: seq<bv8>): (v: nat)
    ensures v < Pow256(|s|)
  {
    if s == [] then 0
    else
      var hi := BigEndianValue(s[..|s| - 1]);
      assert hi * 256 <= (Pow256(|s| - 1) - 1) * 256;
      hi * 256 + s[|s| - 1] as int
  }

  lemma {:induction false} BigEndianRoundTrip(v: nat, width: nat)
    requires v < Pow256(width)
    ensures BigEndianValue(BigEndian(v, width)) == v
  {
    if width > 0 {
      var s := BigEndian(v, width);
      var q, b := v / 256, v % 256;
      var hi := BigEndian(q, width - 1);
      assert s[..|s| - 1] == hi && s[|s| - 1] as int == b;
      assert q < Pow256(width - 1) by {
        DivBelow(v, Pow256(width - 1));
      }
      BigEndianRoundTrip(q, width - 1);
      assert v == q * 256 + b;
    }
  }

  /** byte(b) for a value that fits a byte, built up one increment at a time. */
  function ByteOf(b: nat): (x: bv8)
    requires b < 256
    ensures x as int == b
  {
    if b == 0 then 0 else ByteOf(b - 1) + 1
  }

  lemma DivBelow(v: nat, p: nat)
    requires v < 256 * p
    ensures v / 256 < p
  {
    var q := v / 256;
    assert v == 256 * q + v % 256;
  }

  lemma Pow256Widths()
    ensures Pow256(2) == 65536 && Pow256(8) == Two64
  {
  }

  /** Number of extended-length bytes that follow byte 1 for a payload of n bytes. */
  function LengthFieldLen(n: nat): nat
  {
    if n <= 125 then 0 else if n < 65536 then 2 else 8
  }

  /** The 7-bit length in byte 1: the length itself up to 125, else the
      marker of a 16-bit (126) or 64-bit (127) extended length. */
  function BaseLength(n: nat): bv8
  {
    if n <= 125 then ByteOf(n) else if n < 65536 then 126 else 127
  }

  /** The extended length that follows byte 1, big-endian. */
  function LengthField(n: nat): (f: seq<bv8>)
    ensures |f| == LengthFieldLen(n)
  {
    if n <= 125 then [] else if n < 65536 then BigEndian(n, 2) else BigEndian(n, 8)
  }

  /** The header the writer emits before a payload of `n` bytes (frame.go:76-95):
      byte 0 is the binary opcode, plus FIN in the client role; byte 1 is MASK in
      the client role or'ed with the base length; then the extended length. */
  function HeaderBytes(client: bool, n: nat): (h: seq<bv8>)
    ensures |h| == 2 + LengthFieldLen(n)
  {
    var b0 := if client then OpCodeBinary | FinalBit else OpCodeBinary;
    var b1 := if client then MaskBit else 0;
    [b0, b1 | BaseLength(n)] + LengthField(n)
  }

  /** Flags of the header and its length class. */
  lemma HeaderLayout(client: bool, n: nat)
    ensures var h := HeaderBytes(client, n);
      && |h| == 2 + LengthFieldLen(n)
      && h[0] & 0x0F == OpCodeBinary
      && h[0] & 0x70 == 0
      && ((h[0] & FinalBit) != 0 <==> client)
      && ((h[1] & MaskBit) != 0 <==> client)
      && (n <= 125 ==> (h[1] & 0x7F) as int == n && |h| == 2)
      && (126 <= n < 65536 ==> h[1] & 0x7F == 126 && |h| == 4 && BigEndianValue(h[2..]) == n)
      && (65536 <= n < Two64 ==> h[1] & 0x7F == 127 && |h| == 10 && BigEndianValue(h[2..]) == n)
  {
    var h := HeaderBytes(client, n);
    var b1: bv8 := if client then MaskBit else 0;
    assert h[0] == (if client then OpCodeBinary | FinalBit else OpCodeBinary);
    assert h[1] == b1 | BaseLength(n) && h[2..] == LengthField(n);
    HeaderFirstByte(client);
    ByteLowBits(b1, BaseLength(n));
    LengthFieldValue(n);
  }

  /** Byte 0: FIN exactly in the client role, no reserved bit, binary opcode. */
  lemma HeaderFirstByte(client: bool)
    ensures var b0 := if client then OpCodeBinary | FinalBit else OpCodeBinary;
      && b0 & 0x0F == OpCodeBinary
      && b0 & 0x70 == 0
      && ((b0 & FinalBit) != 0 <==> client)
  {
  }

  /** The extended length spells n back whenever n fits its field. */
  lemma LengthFieldValue(n: nat)
    ensures 126 <= n < Two64 ==> BigEndianValue(LengthField(n)) == n
  {
    Pow256Widths();
    if 126 <= n < 65536 {
      BigEndianRoundTrip(n, 2);
    } else if 65536 <= n < Two64 {
      BigEndianRoundTrip(n, 8);
    }
  }

  lemma ByteLowBits(flag: bv8, x: bv8)
    requires flag == 0 || flag == MaskBit
    requires x as int <= 127
    ensures ((flag | x) & 0x7F) == x
    ensures ((flag | x) & MaskBit != 0) <==> flag == MaskBit
  {
  }

  /** Payload byte i of `p` XOR'ed with mask-key byte (i + offset) mod 4
      (frame.go:116 with offset 0, frame.go:203 with the reader's running offset). */
  function Mask(p: seq<bv8>, key: Key, offset: nat): (r: seq<bv8>)
    ensures |r| == |p|
  {
    if p == [] then [] else [p[0] ^ key[offset % 4]] + Mask(p[1..], key, offset + 1)
  }

  lemma {:induction false} MaskAt(p: seq<bv8>, key: Key, offset: nat, i: nat)
    requires i < |p|
    ensures Mask(p, key, offset)[i] == p[i] ^ key[(i + offset) % 4]
  {
    if i > 0 {
      MaskAt(p[1..], key, offset + 1, i - 1);
    }
  }

  /** A sequence that agrees with the masked payload byte by byte is it. */
  lemma MaskPointwise(r: seq<bv8>, p: seq<bv8>, key: Key, offset: nat)
    requires |r| == |p|
    requires forall j :: 0 <= j < |p| ==> r[j] == p[j] ^ key[(j + offset) % 4]
    ensures r == Mask(p, key, offset)
  {
    forall j | 0 <= j < |p| ensures r[j] == Mask(p, key, offset)[j] {
      MaskAt(p, key, offset, j);
    }
  }

  /** Masking twice with the same key and phase gives the payload back. */
  lemma MaskInvolution(p: seq<bv8>, key: Key, offset: nat)
    ensures Mask(Mask(p, key, offset), key, offset) == p
  {
    var m := Mask(p, key, offset);
    forall i | 0 <= i < |p| ensures Mask(m, key, offset)[i] == p[i] {
      MaskAt(m, key, offset, i);
      MaskAt(p, key, offset, i);
      XorTwice(p[i], key[(i + offset) % 4]);
    }
  }

  lemma XorTwice(a: bv8, k: bv8)
    ensures (a ^ k) ^ k == a
  {
  }

  /** Masking a payload piece by piece, each piece starting at the phase where
      the previous one stopped, is masking it in one go. */
  lemma MaskSplit(a: seq<bv8>, b: seq<bv8>, key: Key, offset: nat)
    ensures Mask(a + b, key, offset) == Mask(a, key, offset) + Mask(b, key, (offset + |a|) % 4)
  {
    var whole := Mask(a + b, key, offset);
    var parts := Mask(a, key, offset) + Mask(b, key, (offset + |a|) % 4);
    forall i | 0 <= i < |a + b| ensures whole[i] == parts[i] {
      MaskAt(a + b, key, offset, i);
      if i >= |a| {
        var j := i - |a|;
        MaskAt(b, key, (offset + |a|) % 4, j);
        PhaseShift(j, |a|, offset);
        assert (a + b)[i] == b[j];
      } else {
        MaskAt(a, key, offset, i);
      }
    }
  }

  lemma PhaseShift(j: nat, len: nat, offset: nat)
    ensures (j + len + offset) % 4 == (j + (offset + len) % 4) % 4
  {
    var q := (offset + len) / 4;
    assert offset + len == 4 * q + (offset + len) % 4;
    assert j + len + offset == 4 * q + (j + (offset + len) % 4);
  }

  /** One frame on the wire: header, then (client role) mask key and masked
      payload, or (server role) the payload as it is. */
  function Frame(client: bool, key: Key, payload: seq<bv8>): seq<bv8>
  {
    HeaderBytes(client, |payload|) + (if client then key + Mask(payload, key, 0) else payload)
  }

  /** Frames for the chunks, in order. */
  function Frames(client: bool, key: Key, chunks: seq<seq<bv8>>): seq<bv8>
  {
    if chunks == [] then [] else Frame(client, key, chunks[0]) + Frames(client, key, chunks[1..])
  }

  function Flatten(chunks: seq<seq<bv8>>): seq<bv8>
  {
    if chunks == [] then [] else chunks[0] + Flatten(chunks[1..])
  }

  function Sum(ks: seq<nat>): nat
  {
    if ks == [] then 0 else ks[0] + Sum(ks[1..])
  }
}
