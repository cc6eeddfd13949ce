/** The image file between assembler and debugger: each instruction word as four bytes, high byte first. */
module ImageFile {

  type Byte = b: nat | b < 256
  type InsnWord = w: nat | w < 0x1_0000_0000

  /** Words of the debugger's memory. */
  const MEM_SIZE: nat := 65536

  function FourBytes(w: InsnWord): (s: seq<Byte>)
    ensures |s| == 4
  {
    [w / 0x100_0000, w / 0x1_0000 % 256, w / 0x100 % 256, w % 256]
  }

  function Written(ws: seq<InsnWord>): seq<Byte> {
    if ws == [] then [] else Written(ws[..|ws| - 1]) + FourBytes(ws[|ws| - 1])
  }

  function Joined(s: seq<Byte>): (w: InsnWord)
    requires |s| == 4
  {
    var a, b, c, d: nat := s[0], s[1], s[2], s[3];
    a * 0x100_0000 + b * 0x1_0000 + c * 0x100 + d
  }

  /** Whole words, until the file or the memory ends. */
  function Read(s: seq<Byte>, room: nat): seq<InsnWord> {
    if |s| < 4 || room == 0 then [] else [Joined(s[..4])] + Read(s[4..], room - 1)
  }

  lemma BytesJoin(w: InsnWord)
    ensures Joined(FourBytes(w)) == w
  {
    assert w == w / 256 * 256 + w % 256;
    assert w / 256 == w / 0x1_0000 * 256 + w / 256 % 256;
    assert w / 0x1_0000 == w / 0x100_0000 * 256 + w / 0x1_0000 % 256;
  }

  lemma {:induction false} WrittenFirst(w: InsnWord, ws: seq<InsnWord>)
    ensures Written([w] + ws) == FourBytes(w) + Written(ws)
    decreases |ws|
  {
    if ws == [] {
      assert [w] + ws == [w] && [w][..0] == [];
    } else {
      var all := [w] + ws;
      assert all[..|all| - 1] == [w] + ws[..|ws| - 1] && all[|all| - 1] == ws[|ws| - 1];
      WrittenFirst(w, ws[..|ws| - 1]);
    }
  }

  /** A stray tail of fewer than four bytes is ignored, and so is what does not fit into memory. */
  lemma {:induction false} ReadWritten(ws: seq<InsnWord>, tail: seq<Byte>, room: nat)
    requires |tail| < 4
    ensures Read(Written(ws) + tail, room) == if |ws| <= room then ws else ws[..room]
    decreases |ws|
  {
    if ws == [] {
      assert Written(ws) + tail == tail;
    } else {
      WrittenFirst(ws[0], ws[1..]);
      assert [ws[0]] + ws[1..] == ws;
      var s := Written(ws) + tail;
      assert s == FourBytes(ws[0]) + (Written(ws[1..]) + tail);
      assert s[..4] == FourBytes(ws[0]) && s[4..] == Written(ws[1..]) + tail;
      BytesJoin(ws[0]);
      if room > 0 { ReadWritten(ws[1..], tail, room - 1); }
    }
  }

  /** `write_bin`. */
  method WriteBin(ws: seq<InsnWord>) returns (file: seq<Byte>)
    ensures file == Written(ws)
  {
    file := [];
    for i := 0 to |ws|
      invariant file == Written(ws[..i])
    {
      assert ws[..i + 1][..i] == ws[..i];
      file := file + FourBytes(ws[i]);
    }
    assert ws[..|ws|] == ws;
  }

  /** `load_bin`: words from address 0 up; the rest of memory stays as it was. */
  method LoadBin(file: seq<Byte>, mem: array<nat>) returns (n: nat)
    requires mem.Length == MEM_SIZE
    modifies mem
    ensures n == |Read(file, MEM_SIZE)| <= MEM_SIZE && mem[..n] == Read(file, MEM_SIZE) && mem[n..] == old(mem[n..])
  {
    hide Read;
    n := 0;
    var rest := file;
    while n < MEM_SIZE && |rest| >= 4
      invariant n <= MEM_SIZE
      invariant Read(file, MEM_SIZE) == mem[..n] + Read(rest, MEM_SIZE - n)
      invariant forall k :: n <= k < MEM_SIZE ==> mem[k] == old(mem[k])
      decreases |rest|
    {
      ReadStep(rest, MEM_SIZE - n);
      ghost var before := mem[..n];
      mem[n] := Joined(rest[..4]);
      assert mem[..n + 1] == before + [Joined(rest[..4])];
      rest := rest[4..];
      n := n + 1;
    }
    ReadStep(rest, MEM_SIZE - n);
    assert mem[..n] + [] == mem[..n];
  }

  lemma ReadStep(s: seq<Byte>, room: nat)
    ensures Read(s, room) == if |s| < 4 || room == 0 then [] else [Joined(s[..4])] + Read(s[4..], room - 1)
  {
  }
}
