/** The sixteen-bit one's complement checksum (section 1 of RFC 1071), the IPv4 header and the TCP
    segment built around it: summing a finished header or segment again gives zero. */
module Checksum {
  import Words

  type Byte = b: nat | b < 256
  type Word16 = w: nat | w < 0x1_0000
  type Word32 = w: nat | w < 0x1_0000_0000

  /** A big-endian sixteen-bit word. */
  function Pair(hi: nat, lo: nat): nat { hi * 256 + lo }

  /** Big-endian sixteen-bit words added up; an odd last byte is the high half of a word. */
  function Sum(b: seq<Byte>): nat {
    if |b| == 0 then 0
    else if |b| == 1 then Pair(b[0], 0)
    else Pair(b[0], b[1]) + Sum(b[2..])
  }

  /** `while (sum >> 16) sum = (sum & 0xFFFF) + (sum >> 16)` */
  function Fold(sum: nat): (r: Word16)
    decreases sum
  {
    if sum < 0x1_0000 then sum else Fold(sum % 0x1_0000 + sum / 0x1_0000)
  }

  function Complement(x: Word16): Word16 { 0xFFFF - x }

  /** The value the receiver computes over everything, the checksum field included. */
  function Resum(extra: nat, b: seq<Byte>): Word16 { Complement(Fold(extra + Sum(b))) }

  // ----- folding -----

  /** Folding keeps the value modulo 65535, and gives zero only for zero. */
  lemma {:induction false} FoldKeeps(sum: nat)
    ensures Fold(sum) % 0xFFFF == sum % 0xFFFF
    ensures Fold(sum) == 0 <==> sum == 0
    decreases sum
  {
    if sum >= 0x1_0000 {
      var q, r := sum / 0x1_0000, sum % 0x1_0000;
      FoldKeeps(r + q);
      assert sum == (r + q) + 0xFFFF * q;
      Words.ModUnique(sum, 0xFFFF, q + (r + q) / 0xFFFF, (r + q) % 0xFFFF);
    }
  }

  /** A sum and the complement of its folding fold to all ones. */
  lemma FoldComplement(sum: nat)
    ensures Fold(sum + Complement(Fold(sum))) == 0xFFFF
  {
    var f := Fold(sum);
    var total := sum + Complement(f);
    FoldKeeps(sum);
    FoldKeeps(total);
    var q := sum / 0xFFFF;
    var p := f / 0xFFFF;
    assert sum == 0xFFFF * q + sum % 0xFFFF && f == 0xFFFF * p + f % 0xFFFF;
    Words.ModUnique(total, 0xFFFF, q + 1 - p, 0);
    assert Fold(total) == 0 || Fold(total) == 0xFFFF by { MultipleOfMax(Fold(total)); }
  }

  lemma MultipleOfMax(x: Word16)
    requires x % 0xFFFF == 0
    ensures x == 0 || x == 0xFFFF
  {
  }

  // ----- the checksum field -----

  lemma {:induction false} SumUpdate(b: seq<Byte>, at: nat, hi: Byte, lo: Byte)
    requires at % 2 == 0 && at + 1 < |b|
    ensures Sum(b[at := hi][at + 1 := lo]) == Sum(b) - Pair(b[at], b[at + 1]) + Pair(hi, lo)
    decreases at
  {
    var c := b[at := hi][at + 1 := lo];
    if at == 0 {
      assert c[2..] == b[2..];
    } else {
      assert c[2..] == b[2..][at - 2 := hi][at - 1 := lo];
      SumUpdate(b[2..], at - 2, hi, lo);
    }
  }

  /** `b` with the checksum of `extra` and `b` written at `at`. */
  function Sealed(extra: nat, b: seq<Byte>, at: nat): (r: seq<Byte>)
    requires at + 1 < |b|
    ensures |r| == |b|
  {
    var c := Complement(Fold(extra + Sum(b)));
    b[at := c / 256][at + 1 := c % 256]
  }

  /** Whatever is covered, of odd length or even, summing it again after the checksum has been put
      into its zero field gives zero. */
  lemma SealedSumsToZero(extra: nat, b: seq<Byte>, at: nat)
    requires at % 2 == 0 && at + 1 < |b| && b[at] == 0 && b[at + 1] == 0
    ensures Resum(extra, Sealed(extra, b, at)) == 0
  {
    var c := Complement(Fold(extra + Sum(b)));
    SumUpdate(b, at, c / 256, c % 256);
    FoldComplement(extra + Sum(b));
  }

  lemma SumStep(b: seq<Byte>)
    ensures |b| == 0 ==> Sum(b) == 0
    ensures |b| == 1 ==> Sum(b) == Pair(b[0], 0)
    ensures |b| >= 2 ==> Sum(b) == Pair(b[0], b[1]) + Sum(b[2..])
  {
  }

  /** The loops over the bytes and over the carries, from the accumulator's start value; the 32-bit
      accumulator does not overflow for any packet shorter than 65536 bytes. */
  method ChecksumFrom(start: nat, data: array<Byte>, len: nat) returns (csum: Word16)
    requires len <= data.Length && len < 0x1_0000 && start <= 5 * 0xFFFF
    ensures csum == Resum(start, data[..len])
  {
    hide Sum, Fold;
    var sum: nat := start;
    var i := 0;
    ghost var b := data[..len];
    assert b[0..] == b;
    while i + 1 < len
      invariant 0 <= i <= len && i % 2 == 0
      invariant sum + Sum(b[i..]) == start + Sum(b) && sum <= start + 0xFFFF * (i / 2)
    {
      SumStep(b[i..]);
      assert b[i..][2..] == b[i + 2..] && b[i..][0] == data[i] && b[i..][1] == data[i + 1];
      sum := sum + Pair(data[i], data[i + 1]);
      i := i + 2;
    }
    SumStep(b[i..]);
    if len % 2 == 1 {
      assert b[i..] == [data[len - 1]];
      sum := sum + Pair(data[len - 1], 0);
    } else {
      assert b[i..] == [];
    }
    assert sum == start + Sum(b) < 0x1_0000_0000;
    while sum >= 0x1_0000
      invariant Fold(sum) == Fold(start + Sum(b))
      decreases sum
    {
      FoldStep(sum);
      sum := sum % 0x1_0000 + sum / 0x1_0000;
    }
    FoldStep(sum);
    csum := Complement(sum);
  }

  lemma FoldStep(sum: nat)
    ensures Fold(sum) == if sum < 0x1_0000 then sum else Fold(sum % 0x1_0000 + sum / 0x1_0000)
  {
  }

  method InetChecksum(data: array<Byte>, len: nat) returns (csum: Word16)
    requires len <= data.Length && len < 0x1_0000
    ensures csum == Resum(0, data[..len])
  {
    csum := ChecksumFrom(0, data, len);
  }

  method TcpChecksum(src: Word32, dst: Word32, data: array<Byte>, len: nat) returns (csum: Word16)
    requires len <= data.Length && len <= 0xFFF9
    ensures csum == Resum(Pseudo(src, dst, len), data[..len])
  {
    csum := ChecksumFrom(Pseudo(src, dst, len), data, len);
  }

  // ----- the headers -----

  function Bytes16(w: nat): (b: seq<Byte>)
    ensures |b| == 2
  {
    [w / 256 % 256, w % 256]
  }

  function Bytes32(w: nat): (b: seq<Byte>)
    ensures |b| == 4
  {
    [w / 0x100_0000 % 256, w / 0x1_0000 % 256, w / 256 % 256, w % 256]
  }

  /** The IPv4 header of `ip_send`, checksum still zero. */
  function IpHeader(total: Word16, proto: Byte, src: Word32, dst: Word32): (h: seq<Byte>)
    ensures |h| == 20
  {
    [0x45, 0] + Bytes16(total) + [0, 1, 0x40, 0, 64, proto, 0, 0] + Bytes32(src) + Bytes32(dst)
  }

  lemma IpHeaderSumsToZero(total: Word16, proto: Byte, src: Word32, dst: Word32)
    ensures Resum(0, Sealed(0, IpHeader(total, proto, src, dst), 10)) == 0
  {
    var h := IpHeader(total, proto, src, dst);
    assert h[10] == 0 && h[11] == 0;
    SealedSumsToZero(0, h, 10);
  }

  /** The fields at their places in section 3.1 of RFC 791, in the header as it is sent. */
  lemma IpFields(total: Word16, proto: Byte, src: Word32, dst: Word32)
    ensures var h := Sealed(0, IpHeader(total, proto, src, dst), 10);
            |h| == 20 && h[0] == 0x45 && h[1] == 0 && Read16(h, 2) == total && Read16(h, 4) == 1 &&
            Read16(h, 6) == 0x4000 && h[8] == 64 && h[9] == proto && Read32(h, 12) == src && Read32(h, 16) == dst
  {
    var l := IpHeader(total, proto, src, dst);
    var h := Sealed(0, l, 10);
    assert forall k :: 0 <= k < 20 && k != 10 && k != 11 ==> h[k] == l[k];
    assert h[2..4] == Bytes16(total) && h[12..16] == Bytes32(src) && h[16..20] == Bytes32(dst);
    ReadBytes16(total, h, 2);
    ReadBytes32(src, h, 12);
    ReadBytes32(dst, h, 16);
  }

  const FIN: nat := 1
  const SYN: nat := 2
  const PSH: nat := 8
  const ACK: nat := 16

  /** The fields of a segment that travel. */
  datatype Segment = Segment(srcPort: Word16, dstPort: Word16, seqNo: Word32, ackNo: Word32, flags: Byte,
                             window: Word16, data: seq<Byte>)

  function Header(s: Segment): (b: seq<Byte>)
    ensures |b| == 20
  {
    Bytes16(s.srcPort) + Bytes16(s.dstPort) + Bytes32(s.seqNo) + Bytes32(s.ackNo) + [0x50, s.flags]
    + Bytes16(s.window) + [0, 0, 0, 0]
  }

  /** A segment's bytes with the checksum field zero. */
  function Layout(s: Segment): (b: seq<Byte>)
    ensures |b| == 20 + |s.data|
  {
    Header(s) + s.data
  }

  /** The pseudo-header's contribution: addresses, protocol, length. */
  function Pseudo(src: Word32, dst: Word32, length: nat): nat {
    src / 0x1_0000 + src % 0x1_0000 + dst / 0x1_0000 + dst % 0x1_0000 + 6 + length
  }

  /** It is the sum of the twelve bytes of section 3.1 of RFC 793: both addresses, zero, protocol 6, length. */
  lemma PseudoSum(src: Word32, dst: Word32, length: Word16)
    ensures Pseudo(src, dst, length) == Sum(Bytes32(src) + Bytes32(dst) + [0, 6] + Bytes16(length))
  {
    hide Sum, Bytes32, Bytes16;
    var a, b, c := Bytes32(src), Bytes32(dst), Bytes16(length);
    WordSum(src, b + ([0, 6] + c));
    WordSum(dst, [0, 6] + c);
    SumFront(0, 6, c);
    HalfSum(length);
    assert a + b + [0, 6] + c == a + (b + ([0, 6] + c));
  }

  lemma HalfSum(w: Word16)
    ensures Sum(Bytes16(w)) == w
  {
    var b := Bytes16(w);
    SumNothing();
    SumFront(b[0], b[1], []);
    assert [b[0], b[1]] + [] == b;
  }

  lemma SumNothing()
    ensures Sum([]) == 0
  {
  }

  lemma SumFront(a: Byte, b: Byte, rest: seq<Byte>)
    ensures Sum([a, b] + rest) == Pair(a, b) + Sum(rest)
  {
    assert ([a, b] + rest)[2..] == rest;
  }

  /** A 32-bit number counts with its halves. */
  lemma WordSum(w: Word32, rest: seq<Byte>)
    ensures Sum(Bytes32(w) + rest) == w / 0x1_0000 + w % 0x1_0000 + Sum(rest)
  {
    hide Sum;
    var b := Bytes32(w);
    assert b + rest == [b[0], b[1]] + ([b[2], b[3]] + rest);
    SumFront(b[0], b[1], [b[2], b[3]] + rest);
    SumFront(b[2], b[3], rest);
    SplitWord(w);
    Halves(w, Pair(b[0], b[1]), Pair(b[2], b[3]));
  }

  lemma Halves(w: Word32, hi: Word16, lo: Word16)
    requires hi * 0x1_0000 + lo == w
    ensures w / 0x1_0000 == hi && w % 0x1_0000 == lo
  {
  }

  function Build(s: Segment, src: Word32, dst: Word32): (b: seq<Byte>)
    ensures |b| == 20 + |s.data|
  {
    Sealed(Pseudo(src, dst, 20 + |s.data|), Layout(s), 16)
  }

  /** Summing a built segment with its pseudo-header gives zero. */
  lemma SegmentSumsToZero(s: Segment, src: Word32, dst: Word32)
    ensures Resum(Pseudo(src, dst, 20 + |s.data|), Build(s, src, dst)) == 0
  {
    var b := Layout(s);
    assert b[16] == 0 && b[17] == 0;
    SealedSumsToZero(Pseudo(src, dst, |b|), b, 16);
  }

  function Read16(b: seq<Byte>, at: nat): Word16
    requires at + 1 < |b|
  {
    Pair(b[at], b[at + 1])
  }

  function Read32(b: seq<Byte>, at: nat): Word32
    requires at + 3 < |b|
  {
    Pair(Pair(b[at], b[at + 1]), 0) * 256 + Pair(b[at + 2], b[at + 3])
  }

  /** What the receiver picks out of the bytes of a segment; a data offset beyond the end means no data. */
  function Parse(b: seq<Byte>): Segment
    requires |b| >= 20
  {
    var off := b[12] / 16 * 4;
    Segment(Read16(b, 0), Read16(b, 2), Read32(b, 4), Read32(b, 8), b[13], Read16(b, 14),
            if off <= |b| then b[off..] else [])
  }

  lemma SplitWord(w: Word32)
    ensures Pair(Pair(w / 0x100_0000 % 256, w / 0x1_0000 % 256), 0) * 256 + Pair(w / 256 % 256, w % 256) == w
  {
    var a, b, c := w / 256, w / 0x1_0000, w / 0x100_0000;
    assert w == 256 * a + w % 256;
    assert a / 256 == b && b / 256 == c;
    assert a == 256 * b + a % 256 && b == 256 * c + b % 256 && c % 256 == c;
  }

  lemma ReadBytes32(w: Word32, b: seq<Byte>, at: nat)
    requires at + 3 < |b| && b[at..at + 4] == Bytes32(w)
    ensures Read32(b, at) == w
  {
    var c := Bytes32(w);
    assert b[at..at + 4][0] == c[0] && b[at..at + 4][1] == c[1] && b[at..at + 4][2] == c[2] && b[at..at + 4][3] == c[3];
    SplitWord(w);
  }

  lemma ReadBytes16(w: Word16, b: seq<Byte>, at: nat)
    requires at + 1 < |b| && b[at..at + 2] == Bytes16(w)
    ensures Read16(b, at) == w
  {
    var c := Bytes16(w);
    assert b[at] == c[0] && b[at + 1] == c[1];
  }

  /** The receiver reads the segment that was built. */
  lemma ParseBuild(s: Segment, src: Word32, dst: Word32)
    ensures Parse(Build(s, src, dst)) == s
  {
    var b, l := Build(s, src, dst), Layout(s);
    assert forall k :: 0 <= k < |b| && k != 16 && k != 17 ==> b[k] == l[k];
    assert b[0..2] == Bytes16(s.srcPort) && b[2..4] == Bytes16(s.dstPort) && b[4..8] == Bytes32(s.seqNo);
    assert b[8..12] == Bytes32(s.ackNo) && b[14..16] == Bytes16(s.window) && b[12] == 0x50 && b[13] == s.flags;
    assert b[20..] == s.data;
    ReadBytes16(s.srcPort, b, 0);
    ReadBytes16(s.dstPort, b, 2);
    ReadBytes32(s.seqNo, b, 4);
    ReadBytes32(s.ackNo, b, 8);
    ReadBytes16(s.window, b, 14);
  }

  // ----- building in place -----

  method Put16(out: array<Byte>, at: nat, w: Word16)
    requires at + 2 <= out.Length
    modifies out
    ensures out[..at + 2] == old(out[..at]) + Bytes16(w)
    ensures forall k :: at + 2 <= k < out.Length ==> out[k] == old(out[k])
  {
    var b := Bytes16(w);
    out[at], out[at + 1] := b[0], b[1];
  }

  method Put32(out: array<Byte>, at: nat, w: Word32)
    requires at + 4 <= out.Length
    modifies out
    ensures out[..at + 4] == old(out[..at]) + Bytes32(w)
    ensures forall k :: at + 4 <= k < out.Length ==> out[k] == old(out[k])
  {
    var b := Bytes32(w);
    out[at], out[at + 1], out[at + 2], out[at + 3] := b[0], b[1], b[2], b[3];
  }

  method Put2(out: array<Byte>, at: nat, x: Byte, y: Byte)
    requires at + 2 <= out.Length
    modifies out
    ensures out[..at + 2] == old(out[..at]) + [x, y]
    ensures forall k :: at + 2 <= k < out.Length ==> out[k] == old(out[k])
  {
    out[at], out[at + 1] := x, y;
  }

  method WriteHeader(s: Segment, out: array<Byte>)
    requires out.Length >= 20
    modifies out
    ensures out[..20] == Header(s) && out[20..] == old(out[20..])
  {
    hide Bytes16, Bytes32;
    assert out[..0] == [];
    Put16(out, 0, s.srcPort);
    Put16(out, 2, s.dstPort);
    Put32(out, 4, s.seqNo);
    Put32(out, 8, s.ackNo);
    Put2(out, 12, 0x50, s.flags);
    Put16(out, 14, s.window);
    ghost var front := out[..16];
    Put2(out, 16, 0, 0);
    Put2(out, 18, 0, 0);
    assert out[..20] == front + [0, 0, 0, 0];
  }

  method CopyInto(out: array<Byte>, at: nat, data: seq<Byte>)
    requires at + |data| <= out.Length
    modifies out
    ensures out[..at] == old(out[..at]) && out[at..at + |data|] == data && out[at + |data|..] == old(out[at + |data|..])
  {
    var i := 0;
    while i < |data|
      invariant 0 <= i <= |data| && out[at..at + i] == data[..i]
      invariant out[..at] == old(out[..at]) && out[at + |data|..] == old(out[at + |data|..])
    {
      out[at + i] := data[i];
      i := i + 1;
    }
  }

  /** Header, data, then the checksum over both in the two bytes left zero. */
  method BuildSegment(s: Segment, src: Word32, dst: Word32, out: array<Byte>) returns (total: int)
    requires out.Length <= 0xFFF9
    modifies out
    ensures out.Length < 20 + |s.data| ==> total == -1 && out[..] == old(out[..])
    ensures out.Length >= 20 + |s.data| ==>
              total == 20 + |s.data| && out[..total] == Build(s, src, dst) && out[total..] == old(out[total..])
  {
    hide Sum, Fold, Header, Complement;
    total := 20 + |s.data|;
    if total > out.Length { return -1; }
    ghost var tail := out[total..];
    WriteHeader(s, out);
    assert out[total..] == out[20..][|s.data|..];
    CopyInto(out, 20, s.data);
    assert out[total..] == tail;
    ghost var l := Layout(s);
    assert out[..total] == l by { assert out[..20] == Header(s); }
    var csum := TcpChecksum(src, dst, out, total);
    out[16], out[17] := csum / 256, csum % 256;
  }
}
