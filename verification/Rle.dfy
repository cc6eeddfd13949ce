/** The run-length codec for vertex data: runs of three to 255 equal bytes become
    `0 count value`, shorter ones are written byte by byte as `1 value`. */
module Rle {

  type Byte = b: nat | b < 256

  datatype Outcome<T> = Ok(value: T) | OutOfRange | InvalidArgument | Unsupported

  datatype Mode = Plain | Quantized16 | Other

  // ----- the format -----

  /** Length of the run at the front, at most `limit`. */
  function RunOf(x: seq<Byte>, limit: nat): (n: nat)
    requires x != [] && limit >= 1
    ensures 1 <= n <= limit && n <= |x|
    ensures forall k :: 0 <= k < n ==> x[k] == x[0]
    ensures n == limit || n == |x| || x[n] != x[0]
    decreases limit
  {
    if limit == 1 || |x| == 1 || x[1] != x[0] then 1
    else
      assert forall k :: 0 <= k < |x| - 1 ==> x[1..][k] == x[k + 1];
      1 + RunOf(x[1..], limit - 1)
  }

  function Literals(x: seq<Byte>): (y: seq<Byte>)
    ensures |y| == 2 * |x|
  {
    if x == [] then [] else [1, x[0]] + Literals(x[1..])
  }

  function Piece(x: seq<Byte>): (y: seq<Byte>)
    requires x != []
    ensures 2 <= |y| <= 2 * RunOf(x, 255)
  {
    var run := RunOf(x, 255);
    if run >= 3 then [0, run, x[0]] else Literals(x[..run])
  }

  function Encode(x: seq<Byte>): (y: seq<Byte>)
    ensures |y| <= 2 * |x|
  {
    if x == [] then [] else Piece(x) + Encode(x[RunOf(x, 255)..])
  }

  /** What the capacity check adds up. */
  function SizeEstimate(x: seq<Byte>): nat {
    if x == [] then 0
    else
      var run := RunOf(x, 255);
      (if run >= 3 then 3 else run + 1) + SizeEstimate(x[run..])
  }

  /** The number of runs of exactly two bytes. */
  function Pairs(x: seq<Byte>): nat {
    if x == [] then 0
    else (if RunOf(x, 255) == 2 then 1 else 0) + Pairs(x[RunOf(x, 255)..])
  }

  /** The estimate is one short for every run of two, so it equals what is written exactly when
      there is none. */
  lemma {:induction false} EstimateExact(x: seq<Byte>)
    ensures |Encode(x)| == SizeEstimate(x) + Pairs(x)
    ensures SizeEstimate(x) == |Encode(x)| <==> Pairs(x) == 0
    decreases |x|
  {
    if x != [] { EstimateExact(x[RunOf(x, 255)..]); }
  }

  /** Decoding `y` until `n` bytes are out; `out` has been written so far. */
  function Decode(y: seq<Byte>, out: seq<Byte>, n: nat, capacity: nat): Outcome<seq<Byte>>
    requires |out| <= capacity && |out| <= n
    decreases |y|
  {
    if y == [] || |out| >= n then (if |out| != n then InvalidArgument else Ok(out))
    else if y[0] == 0 then
      if |y| < 3 then InvalidArgument
      else if y[1] > capacity - |out| || y[1] > n - |out| then OutOfRange
      else Decode(y[3..], out + Repeat(y[2], y[1]), n, capacity)
    else if y[0] == 1 then
      if |y| < 2 || |out| >= capacity then OutOfRange else Decode(y[2..], out + [y[1]], n, capacity)
    else InvalidArgument
  }

  function Repeat(b: Byte, n: nat): (s: seq<Byte>)
    ensures |s| == n && forall k :: 0 <= k < n ==> s[k] == b
  {
    seq(n, _ => b)
  }

  // ----- round trip -----

  /** One tag of the decoder. */
  lemma DecodeStep(y: seq<Byte>, out: seq<Byte>, n: nat, capacity: nat)
    requires |out| <= capacity && |out| <= n
    ensures y == [] || |out| >= n ==> Decode(y, out, n, capacity) == if |out| != n then InvalidArgument else Ok(out)
    ensures y != [] && |out| < n && y[0] == 0 ==>
              Decode(y, out, n, capacity) == (
                if |y| < 3 then InvalidArgument
                else if y[1] > capacity - |out| || y[1] > n - |out| then OutOfRange
                else Decode(y[3..], out + Repeat(y[2], y[1]), n, capacity))
    ensures y != [] && |out| < n && y[0] == 1 ==>
              Decode(y, out, n, capacity) == (
                if |y| < 2 || |out| >= capacity then OutOfRange else Decode(y[2..], out + [y[1]], n, capacity))
    ensures y != [] && |out| < n && y[0] > 1 ==> Decode(y, out, n, capacity) == InvalidArgument
  {
  }

  lemma {:induction false} DecodeLiterals(x: seq<Byte>, rest: seq<Byte>, out: seq<Byte>, n: nat, capacity: nat)
    requires |out| + |x| <= n <= capacity
    ensures Decode(Literals(x) + rest, out, n, capacity) == Decode(rest, out + x, n, capacity)
    decreases |x|
  {
    hide Decode;
    if x == [] {
      assert Literals(x) + rest == rest && out + x == out;
    } else {
      var y := Literals(x) + rest;
      DecodeStep(y, out, n, capacity);
      assert y == [1, x[0]] + (Literals(x[1..]) + rest);
      assert y[2..] == Literals(x[1..]) + rest;
      DecodeLiterals(x[1..], rest, out + [x[0]], n, capacity);
      assert out + [x[0]] + x[1..] == out + x;
    }
  }

  lemma DecodePiece(x: seq<Byte>, rest: seq<Byte>, out: seq<Byte>, n: nat, capacity: nat)
    requires x != [] && |out| + RunOf(x, 255) <= n <= capacity
    ensures Decode(Piece(x) + rest, out, n, capacity) == Decode(rest, out + x[..RunOf(x, 255)], n, capacity)
  {
    var run := RunOf(x, 255);
    if run >= 3 {
      var y := Piece(x) + rest;
      assert y[3..] == rest && y[0] == 0 && y[1] == run && y[2] == x[0];
      assert Repeat(x[0], run) == x[..run];
    } else {
      DecodeLiterals(x[..run], rest, out, n, capacity);
    }
  }

  lemma EncodeStep(x: seq<Byte>)
    ensures x == [] ==> Encode(x) == []
    ensures x != [] ==> Encode(x) == Piece(x) + Encode(x[RunOf(x, 255)..])
  {
  }

  lemma DecodeDone(rest: seq<Byte>, out: seq<Byte>, capacity: nat)
    requires |out| <= capacity
    ensures Decode(rest, out, |out|, capacity) == Ok(out)
  {
  }

  /** Decoding what was encoded gives the bytes back, whatever follows the code. */
  lemma {:induction false} RoundTrip(x: seq<Byte>, rest: seq<Byte>, out: seq<Byte>, capacity: nat)
    requires |out| + |x| <= capacity
    ensures Decode(Encode(x) + rest, out, |out| + |x|, capacity) == Ok(out + x)
    decreases |x|
  {
    hide *;
    var n := |out| + |x|;
    EncodeStep(x);
    if x == [] {
      assert out + x == out && [] + rest == rest;
      DecodeDone(rest, out, capacity);
    } else {
      var run := RunOf(x, 255);
      var tail := Encode(x[run..]) + rest;
      assert Encode(x) + rest == Piece(x) + tail;
      DecodePiece(x, tail, out, n, capacity);
      assert |out + x[..run]| + |x[run..]| == n;
      RoundTrip(x[run..], rest, out + x[..run], capacity);
      assert out + x[..run] + x[run..] == out + x;
    }
  }

  /** Compressing and then decompressing gives the bytes back. */
  lemma DecodeEncode(x: seq<Byte>, capacity: nat)
    requires |x| <= capacity
    ensures Decode(Encode(x), [], |x|, capacity) == Ok(x)
  {
    hide Decode, Encode;
    RoundTrip(x, [], [], capacity);
    assert Encode(x) + [] == Encode(x) && [] + x == x;
  }

  // ----- the loops -----

  method FindRun(src: array<Byte>, i: nat) returns (run: nat)
    requires i < src.Length
    ensures run == RunOf(src[i..], 255)
  {
    run := 1;
    ghost var x := src[i..];
    while i + run < src.Length && run < 255 && src[i + run] == src[i]
      invariant 1 <= run <= 255 && i + run <= src.Length
      invariant forall k :: 0 <= k < run ==> x[k] == x[0]
    {
      assert x[run] == src[i + run];
      run := run + 1;
    }
    assert i + run < src.Length ==> x[run] == src[i + run];
    RunUnique(x, 255, run);
  }

  lemma {:induction false} RunUnique(x: seq<Byte>, limit: nat, n: nat)
    requires x != [] && 1 <= n <= limit && n <= |x|
    requires forall k :: 0 <= k < n ==> x[k] == x[0]
    requires n == limit || n == |x| || x[n] != x[0]
    ensures RunOf(x, limit) == n
    decreases limit
  {
    if limit > 1 && |x| > 1 && x[1] == x[0] {
      if n == 1 { assert false; }
      RunUnique(x[1..], limit - 1, n - 1);
    }
  }

  /** The capacity check's own pass over the input. */
  method EstimateSize(src: array<Byte>) returns (size: nat)
    ensures size == SizeEstimate(src[..])
  {
    hide RunOf, Encode, SizeEstimate;
    SizeStep([]);
    var i := 0;
    size := 0;
    assert src[0..] == src[..];
    while i < src.Length
      invariant 0 <= i <= src.Length && size + SizeEstimate(src[i..]) == SizeEstimate(src[..])
    {
      var run := FindRun(src, i);
      assert src[i..][run..] == src[i + run..];
      SizeStep(src[i..]);
      size := size + if run >= 3 then 3 else run + 1;
      i := i + run;
    }
    assert src[i..] == [];
  }

  lemma SizeStep(x: seq<Byte>)
    ensures x == [] ==> SizeEstimate(x) == 0
    ensures x != [] ==>
              var run := RunOf(x, 255);
              SizeEstimate(x) == (if run >= 3 then 3 else run + 1) + SizeEstimate(x[run..])
  {
  }

  /** Whether every byte of the code lands inside a buffer that passes the capacity check. */
  predicate Roomy(x: seq<Byte>, capacity: nat) { capacity < SizeEstimate(x) || |Encode(x)| <= capacity }

  /** The check is safe for every capacity exactly when no run has length two; twice the input is
      always room enough. */
  lemma CheckSafe(x: seq<Byte>)
    ensures (forall capacity :: Roomy(x, capacity)) <==> Pairs(x) == 0
    ensures forall capacity :: capacity >= 2 * |x| ==> Roomy(x, capacity) && capacity >= SizeEstimate(x)
  {
    EstimateExact(x);
    if Pairs(x) > 0 { assert !Roomy(x, SizeEstimate(x)); }
  }

  /** Compression in place.  The buffer is the first `capacity` bytes of `dst`; what follows is the memory
      behind it, and is written to exactly when the capacity check let too much through. */
  method Compress(src: array<Byte>, mode: Mode, dst: array<Byte>, capacity: nat) returns (r: Outcome<nat>)
    requires src != dst && capacity <= dst.Length
    requires mode == Quantized16 && SizeEstimate(src[..]) <= capacity ==> |Encode(src[..])| <= dst.Length
    modifies dst
    ensures mode == Other ==> r == Unsupported
    ensures mode == Plain ==> r == if capacity < src.Length then OutOfRange else Ok(src.Length)
    ensures mode == Plain && r.Ok? ==> dst[..src.Length] == old(src[..])
    ensures mode == Quantized16 ==>
              r == if capacity < SizeEstimate(old(src[..])) then OutOfRange else Ok(|Encode(old(src[..]))|)
    ensures mode == Quantized16 && r.Ok? ==> dst[..r.value] == Encode(old(src[..]))
    ensures mode == Quantized16 && r.Ok? ==> (r.value <= capacity <==> Roomy(old(src[..]), capacity))
    ensures r.Ok? ==> dst[r.value..] == old(dst[r.value..])
    ensures !r.Ok? ==> dst[..] == old(dst[..])
  {
    if mode == Plain {
      if capacity < src.Length { return OutOfRange; }
      Copy(src, dst, src.Length);
      return Ok(src.Length);
    }
    if mode == Other { return Unsupported; }
    var size := EstimateSize(src);
    if capacity < size { return OutOfRange; }
    var written := WriteRuns(src, dst);
    r := Ok(written);
  }

  method Copy(src: array<Byte>, dst: array<Byte>, n: nat)
    requires src != dst && n <= src.Length && n <= dst.Length
    modifies dst
    ensures dst[..n] == src[..n] && dst[n..] == old(dst[n..])
  {
    var i := 0;
    while i < n
      invariant 0 <= i <= n && dst[..i] == src[..i]
      invariant forall k :: i <= k < dst.Length ==> dst[k] == old(dst[k])
    {
      dst[i] := src[i];
      i := i + 1;
    }
  }

  method WriteRuns(src: array<Byte>, dst: array<Byte>) returns (written: nat)
    requires src != dst && |Encode(src[..])| <= dst.Length
    modifies dst
    ensures written <= dst.Length && dst[..written] == Encode(old(src[..]))
    ensures dst[written..] == old(dst[written..])
  {
    hide RunOf, Encode;
    var i := 0;
    written := 0;
    EncodeStep([]);
    assert src[0..] == src[..] && dst[..0] == [];
    while i < src.Length
      invariant 0 <= i <= src.Length && written <= dst.Length
      invariant dst[..written] + Encode(src[i..]) == Encode(old(src[..]))
      invariant forall k :: written <= k < dst.Length ==> dst[k] == old(dst[k])
    {
      var run := FindRun(src, i);
      ghost var head := dst[..written];
      ghost var x := src[i..];
      assert x[run..] == src[i + run..];
      EncodeStep(x);
      assert Encode(old(src[..])) == head + Piece(x) + Encode(x[run..]);
      if run >= 3 {
        dst[written], dst[written + 1], dst[written + 2] := 0, run, src[i];
        written := written + 3;
        assert dst[..written] == head + [0, run, x[0]];
      } else {
        written := WriteLiterals(src, i, run, dst, written);
      }
      assert dst[..written] == head + Piece(x);
      i := i + run;
    }
    assert src[i..] == [];
  }

  method WriteLiterals(src: array<Byte>, i: nat, run: nat, dst: array<Byte>, at: nat) returns (written: nat)
    requires src != dst && i + run <= src.Length && at + 2 * run <= dst.Length
    modifies dst
    ensures written == at + 2 * run && dst[..written] == old(dst[..at]) + Literals(src[i..][..run])
    ensures forall k :: written <= k < dst.Length ==> dst[k] == old(dst[k])
  {
    var j := 0;
    written := at;
    ghost var x := src[i..][..run];
    assert x[0..] == x;
    while j < run
      invariant 0 <= j <= run && written == at + 2 * j
      invariant dst[..written] + Literals(x[j..]) == old(dst[..at]) + Literals(x)
      invariant forall k :: written <= k < dst.Length ==> dst[k] == old(dst[k])
    {
      ghost var sofar := dst[..written];
      dst[written], dst[written + 1] := 1, src[i + j];
      written := written + 2;
      assert dst[..written] == sofar + [1, x[j]];
      assert x[j..][1..] == x[j + 1..];
      j := j + 1;
    }
    assert x[run..] == [];
  }

  /** The bytes a call asks for, or its error. */
  function Decompressed(y: seq<Byte>, mode: Mode, n: nat, capacity: nat): Outcome<seq<Byte>> {
    match mode
    case Plain => if capacity < n || |y| < n then OutOfRange else Ok(y[..n])
    case Quantized16 => Decode(y, [], n, capacity)
    case Other => Unsupported
  }

  /** Decompression in place, in every mode; nothing behind the bytes asked for is written. */
  method Decompress(src: array<Byte>, mode: Mode, dst: array<Byte>, n: nat) returns (r: Outcome<nat>)
    requires src != dst
    modifies dst
    ensures match Decompressed(old(src[..]), mode, n, dst.Length) {
              case Ok(out) => r == Ok(n) && n <= dst.Length && dst[..n] == out && dst[n..] == old(dst[n..])
              case OutOfRange => r == OutOfRange
              case InvalidArgument => r == InvalidArgument
              case Unsupported => r == Unsupported
            }
  {
    if mode == Plain {
      if dst.Length < n || src.Length < n { return OutOfRange; }
      Copy(src, dst, n);
      return Ok(n);
    }
    if mode == Other { return Unsupported; }
    r := DecodeRuns(src, dst, n);
  }

  /** Compressed and decompressed again, in either mode: the bytes come back. */
  lemma ModesUndo(x: seq<Byte>, mode: Mode, capacity: nat)
    requires mode != Other && |x| <= capacity
    ensures Decompressed(if mode == Plain then x else Encode(x), mode, |x|, capacity) == Ok(x)
  {
    if mode == Plain { assert x[..|x|] == x; } else { DecodeEncode(x, capacity); }
  }

  /** The tags one after the other, with the checks in the order the source makes them. */
  method DecodeRuns(src: array<Byte>, dst: array<Byte>, n: nat) returns (r: Outcome<nat>)
    requires src != dst
    modifies dst
    ensures match Decode(old(src[..]), [], n, dst.Length) {
              case Ok(out) => r == Ok(n) && n <= dst.Length && dst[..n] == out && dst[n..] == old(dst[n..])
              case OutOfRange => r == OutOfRange
              case InvalidArgument => r == InvalidArgument
              case Unsupported => r == Unsupported
            }
  {
    hide Decode;
    var i, out := 0, 0;
    assert src[0..] == src[..] && dst[..0] == [];
    while i < src.Length && out < n
      invariant 0 <= i <= src.Length && 0 <= out <= n && out <= dst.Length
      invariant Decode(src[i..], dst[..out], n, dst.Length) == Decode(old(src[..]), [], n, dst.Length)
      invariant forall k :: out <= k < dst.Length ==> dst[k] == old(dst[k])
    {
      ghost var y, sofar := src[i..], dst[..out];
      DecodeStep(y, sofar, n, dst.Length);
      var tag := src[i];
      assert y[0] == tag;
      i := i + 1;
      if tag == 0 {
        if i + 1 >= src.Length { return InvalidArgument; }
        var count, value := src[i], src[i + 1];
        assert y[1] == count && y[2] == value && y[3..] == src[i + 2..];
        i := i + 2;
        if count > dst.Length - out || count > n - out { return OutOfRange; }
        Fill(dst, out, count, value);
        assert dst[..out + count] == sofar + Repeat(value, count);
        out := out + count;
      } else if tag == 1 {
        if i >= src.Length || out >= dst.Length { return OutOfRange; }
        assert y[1] == src[i] && y[2..] == src[i + 1..];
        dst[out] := src[i];
        assert dst[..out + 1] == sofar + [src[i]];
        out := out + 1;
        i := i + 1;
      } else {
        return InvalidArgument;
      }
    }
    DecodeStep(src[i..], dst[..out], n, dst.Length);
    if out != n { return InvalidArgument; }
    return Ok(n);
  }

  method Fill(dst: array<Byte>, at: nat, count: nat, value: Byte)
    requires at + count <= dst.Length
    modifies dst
    ensures forall k :: 0 <= k < dst.Length ==> dst[k] == if at <= k < at + count then value else old(dst[k])
  {
    var j := 0;
    while j < count
      invariant 0 <= j <= count
      invariant forall k :: 0 <= k < dst.Length ==> dst[k] == if at <= k < at + j then value else old(dst[k])
    {
      dst[at + j] := value;
      j := j + 1;
    }
  }
}
