/** The debugger's listing, and reading it back.

    For every instruction word, the text the debugger prints is assembled again, character by character:
    the word comes back exactly when the debugger knows its opcode, the fields its text leaves out are
    zero, and it is not an access to an I/O port other than 0. */
module Disassembly {
  import opened Machine
  import opened Words
  import opened AsmText

  // ----- fields -----

  type InsnWord = w: nat | w < 0x1_0000_0000

  datatype Fields = Fields(op: nat, fd: nat, fa: nat, fb: nat, raw: nat)

  function Split(w: InsnWord): (f: Fields)
    ensures f.op < 64 && f.fd < 32 && f.fa < 32 && f.fb < 32 && f.raw < 2048
  {
    Fields(w / 0x400_0000, w / 0x20_0000 % 32, w / 0x1_0000 % 32, w / 0x800 % 32, w % 2048)
  }

  /** Fields and words correspond one to one. */
  lemma PackExact(f: Fields, w: InsnWord)
    requires f.op < 64 && f.fd < 32 && f.fa < 32 && f.fb < 32 && f.raw < 2048
    ensures Pack(f.op, f.fd, f.fa, f.fb, f.raw) == w <==> f == Split(w)
  {
    ModSmall(f.raw, 2048);
    if Pack(f.op, f.fd, f.fa, f.fb, f.raw) == w { PackedSplits(f, w); }
    if f == Split(w) { SplitPacks(w); }
  }

  lemma PackedSplits(f: Fields, w: InsnWord)
    requires f.op < 64 && f.fd < 32 && f.fa < 32 && f.fb < 32 && f.raw < 2048
    requires w == f.op * 0x400_0000 + f.fd * 0x20_0000 + f.fa * 0x1_0000 + f.fb * 0x800 + f.raw
    ensures f == Split(w)
  {
    Machine.Fields(f.op, f.fd, f.fa, f.fb, f.raw);
  }

  lemma SplitPacks(w: InsnWord)
    ensures var f := Split(w);
            w == f.op * 0x400_0000 + f.fd * 0x20_0000 + f.fa * 0x1_0000 + f.fb * 0x800 + f.raw
  {
    var a, b, c := w / 0x800, w / 0x1_0000, w / 0x20_0000;
    assert w == a * 0x800 + w % 0x800;
    assert a / 32 == b && a == b * 32 + a % 32;
    assert b / 32 == c && b == c * 32 + b % 32;
    assert c / 32 == w / 0x400_0000 && c == c / 32 * 32 + c % 32;
  }

  // ----- printed pieces -----

  function Digit10(d: nat): (c: char)
    requires d < 10
    ensures Digit(c) && DigitOf(c) == d
  {
    '0' + d as char
  }

  function Digits(n: nat): (s: string)
    ensures s != "" && forall i :: 0 <= i < |s| ==> Digit(s[i])
  {
    if n < 10 then [Digit10(n)] else Digits(n / 10) + [Digit10(n % 10)]
  }

  function Decimal(v: int): string { if v < 0 then "-" + Digits(-v) else Digits(v) }

  function HexDigit(d: nat): (c: char)
    requires d < 16
    ensures Digit(c) || Letter(c)
  {
    if d < 10 then '0' + d as char else 'A' + (d - 10) as char
  }

  /** At least `width` hexadecimal digits. */
  function Hex(n: nat, width: nat): (s: string)
    ensures forall i :: 0 <= i < |s| ==> Digit(s[i]) || Letter(s[i])
    decreases n + width
  {
    if n == 0 && width == 0 then "" else Hex(n / 16, if width == 0 then 0 else width - 1) + [HexDigit(n % 16)]
  }

  function RegName(r: nat): string
    requires r < 32
  {
    if r < 10 then ['R', Digit10(r)] else ['R', Digit10(r / 10), Digit10(r % 10)]
  }

  // ----- the listing -----

  /** The mnemonic and form of the opcodes the debugger decodes. */
  function Known(op: nat): Option<(string, Form)> {
    match op
    case 0x00 => Some(("NOP", Alone))
    case 0x01 => Some(("ADD", Three))
    case 0x02 => Some(("SUB", Three))
    case 0x03 => Some(("AND", Three))
    case 0x04 => Some(("OR", Three))
    case 0x05 => Some(("XOR", Three))
    case 0x06 => Some(("SHL", TwoAndValue))
    case 0x07 => Some(("SHR", TwoAndValue))
    case 0x08 => Some(("LOAD", TwoAndValue))
    case 0x09 => Some(("STORE", TwoAndValue))
    case 0x0A => Some(("LI", LoadValue))
    case 0x0B => Some(("JMP", Jump))
    case 0x0C => Some(("JZ", JumpOn))
    case 0x0D => Some(("JNZ", JumpOn))
    case 0x0E => Some(("CALL", CallTo))
    case 0x0F => Some(("RET", Alone))
    case 0x10 => Some(("OUT", OneAndValue))
    case 0x11 => Some(("IN", OneAndValue))
    case 0x1A => Some(("MUL", Three))
    case 0x1B => Some(("DIV", Three))
    case 0x1C => Some(("ELOAD", TwoAndValue))
    case 0x1D => Some(("ESTORE", TwoAndValue))
    case 0x1E => Some(("RFLAGS", One))
    case 0x3F => Some(("HALT", Alone))
    case _ => None
  }

  /** Mnemonics are padded to five columns where the debugger pads them. */
  function Padding(op: nat): nat
    requires Known(op).Some?
  {
    var n := |Known(op).value.0|;
    if n >= 4 then 1 else 5 - n
  }

  function Target(at: nat, imm: int): nat { (at + 1 + imm) % 0x1_0000_0000 }

  /** What follows the mnemonic. */
  function Arguments(f: Fields, form: Form, at: nat): string
    requires f.fd < 32 && f.fa < 32 && f.fb < 32 && f.raw < 2048
  {
    var imm := SignExtend11(f.raw);
    match form
    case Alone => ""
    case Three => RegName(f.fd) + ", " + (RegName(f.fa) + ", " + RegName(f.fb))
    case TwoAndValue => RegName(f.fd) + ", " + (RegName(f.fa) + ", " + Decimal(imm))
    case LoadValue => RegName(f.fd) + ", " + (Decimal(imm) + ("  (0x" + Hex(Wrap(imm), 16) + ")"))
    case Jump => Decimal(imm) + ("  -> kelime 0x" + Hex(Target(at, imm), 8))
    case JumpOn => RegName(f.fd) + ", " + (Decimal(imm) + ("  -> kelime 0x" + Hex(Target(at, imm), 8)))
    case CallTo => Decimal(imm) + ("  -> kelime 0x" + Hex(Target(at, imm), 8))
    case One => RegName(f.fd)
    case OneAndValue => RegName(f.fd) + ", " + ("port[" + Decimal(f.raw % 256) + "]")
  }

  /** The debugger's text for a word at an address. */
  function Disassemble(w: InsnWord, at: nat): string {
    var f := Split(w);
    match Known(f.op)
    case Some(k) => if k.1.Alone? then k.0 else k.0 + Spaces(Padding(f.op)) + Arguments(f, k.1, at)
    case None => "??? (opcode=0x" + Hex(f.op, 2) + " raw=0x" + Hex(w, 8) + ")"
  }

  // ----- what is read back -----

  /** The fields the text shows. */
  function Shown(f: Fields, form: Form): Fields {
    match form
    case Alone => Fields(f.op, 0, 0, 0, 0)
    case Three => f.(raw := 0)
    case TwoAndValue => f.(fb := 0)
    case LoadValue => f.(fa := 0, fb := 0)
    case Jump => Fields(f.op, 0, 0, 0, f.raw)
    case JumpOn => f.(fa := 0, fb := 0)
    case CallTo => Fields(f.op, 0, 0, 0, f.raw)
    case One => Fields(f.op, f.fd, 0, 0, 0)
    case OneAndValue => Fields(f.op, f.fd, 0, 0, 0)
  }

  /** A known opcode, nothing in the fields the text leaves out. */
  predicate Canonical(w: InsnWord) {
    var f := Split(w);
    match Known(f.op)
    case None => false
    case Some(k) =>
      (f.fd == 0 || k.1 !in {Alone, Jump, CallTo}) && (f.fa == 0 || k.1 in {Three, TwoAndValue}) &&
      (f.fb == 0 || k.1 == Three) && (f.raw == 0 || k.1 in {TwoAndValue, LoadValue, Jump, JumpOn, CallTo})
  }

  lemma RegBack(r: nat)
    requires r < 32
    ensures ParseReg(RegName(r)) == Some(r) && Solid(RegName(r)) && 2 <= |RegName(r)| <= 3
  {
    var s := RegName(r);
    assert |s| <= 7;
    assert Upper(s) == s;
  }

  lemma {:induction false} DigitsBack(n: nat)
    ensures Fold(Digits(n), 10, 0) == Some(n)
    ensures n > 0 ==> Digits(n)[0] != '0'
    decreases n
  {
    if n < 10 {
      var s := [Digit10(n)];
      assert s[1..] == "" && s[0] == Digit10(n);
      assert Fold("", 10, n) == Some(n);
    } else {
      DigitsBack(n / 10);
      FoldAppend(Digits(n / 10), Digit10(n % 10), 0);
    }
  }

  lemma {:induction false} FoldAppend(s: string, c: char, acc: nat)
    requires Digit(c)
    ensures Fold(s + [c], 10, acc)
         == match Fold(s, 10, acc) case None => None case Some(v) => Some(v * 10 + DigitOf(c))
    decreases |s|
  {
    if s == "" {
      assert s + [c] == [c] && [c][1..] == "";
    } else {
      assert (s + [c])[1..] == s[1..] + [c] && (s + [c])[0] == s[0];
      var d := DigitValue(s[0]);
      if d.Some? && d.value < 10 { FoldAppend(s[1..], c, acc * 10 + d.value); }
    }
  }

  lemma {:induction false} DigitsShort(n: nat, k: nat)
    requires n / 10 < Power10(k)
    ensures |Digits(n)| <= k + 1
    decreases k
  {
    if n >= 10 {
      assert k >= 1;
      DigitsShort(n / 10, k - 1);
    }
  }

  function Power10(k: nat): nat { if k == 0 then 1 else 10 * Power10(k - 1) }

  lemma DigitsLength(n: nat)
    requires n < 10000
    ensures |Digits(n)| <= 4
  {
    DigitsShort(n, 3);
  }

  lemma DecimalBack(v: int)
    requires -10000 < v < 10000
    ensures ParseNumber(Decimal(v)) == Some(v) && Solid(Decimal(v)) && 1 <= |Decimal(v)| <= 5
  {
    hide Fold;
    var n: nat := if v < 0 then -v else v;
    DigitsBack(n);
    DigitsLength(n);
    var p := Digits(n);
    assert v < 0 ==> Decimal(v)[0] == '-' && Decimal(v)[1..] == p;
    assert n == 0 ==> |p| == 1;
    assert |p| >= 2 ==> p[1] != 'x' && p[1] != 'X' && p[1] != 'b' && p[1] != 'B';
  }

  // ----- one piece after another -----

  lemma {:induction false} BlanksGone(n: nat, s: string)
    ensures SkipBlanks(Spaces(n) + s) == SkipBlanks(s)
    decreases n
  {
    if n == 0 {
      assert Spaces(0) + s == s;
    } else {
      assert (Spaces(n) + s)[1..] == Spaces(n - 1) + s;
      BlanksGone(n - 1, s);
    }
  }

  predicate Starts(s: string) { s != "" && !Blank(s[0]) && s[0] != ',' }

  /** A piece, a comma and a blank. */
  lemma CommaNext(tok: string, rest: string)
    requires Solid(tok) && 1 <= |tok| <= MAX_TOKEN && Starts(rest)
    ensures NextToken(tok + ", " + rest) == Some((tok, " " + rest)) && NextToken(" " + rest) == NextToken(rest)
  {
    assert tok + ", " + rest == tok + (", " + rest);
    var r := ", " + rest;
    assert r[1..] == " " + rest && SkipBlanks(r) == r;
    TokenIs(tok, r);
    assert (" " + rest)[1..] == rest;
  }

  lemma LastNext(tok: string)
    requires Solid(tok) && 1 <= |tok| <= MAX_TOKEN
    ensures NextToken(tok) == Some((tok, ""))
  {
    assert tok + "" == tok;
    TokenIs(tok, "");
  }

  lemma RegComma(r: nat, rest: string)
    requires r < 32 && Starts(rest)
    ensures Register(RegName(r) + ", " + rest) == Some((r, " " + rest))
    ensures Register(" " + rest) == Register(rest) && NextToken(" " + rest) == NextToken(rest)
    ensures Starts(RegName(r) + ", " + rest) && Starts(RegName(r))
  {
    RegBack(r);
    CommaNext(RegName(r), rest);
    assert (RegName(r) + ", " + rest)[0] == 'R';
  }

  lemma RegLast(r: nat)
    requires r < 32
    ensures Register(RegName(r)) == Some((r, "")) && Starts(RegName(r))
  {
    RegBack(r);
    LastNext(RegName(r));
  }

  lemma ValueNext(v: int, rest: string)
    requires -10000 < v < 10000 && (rest == "" || Stops(rest[0]))
    ensures NextToken(Decimal(v) + rest) == Some((Decimal(v), AfterToken(rest))) && ParseNumber(Decimal(v)) == Some(v)
    ensures Starts(Decimal(v) + rest) && Starts(Decimal(v))
  {
    hide NextToken, AfterToken, ParseNumber;
    DecimalBack(v);
    TokenIs(Decimal(v), rest);
    assert (Decimal(v) + rest)[0] == Decimal(v)[0];
    assert !Stops(Decimal(v)[0]);
  }

  lemma PortNext(v: int)
    requires -10000 < v < 10000
    ensures var s := "port[" + Decimal(v) + "]";
            Starts(s) && NextToken(s) == Some((s, "")) && ParseNumber(s) == None && !Internal(s)
  {
    DecimalBack(v);
    var s := "port[" + Decimal(v) + "]";
    assert s[0] == 'p';
    LastNext(s);
  }

  // ----- the operands come back -----

  lemma ImmBack(raw: nat)
    requires raw < 2048
    ensures -1024 <= SignExtend11(raw) <= 1023 && SignExtend11(raw) % 2048 == raw
  {
  }

  function Word32(f: Fields): Parsed { Word(Pack(f.op, f.fd, f.fa, f.fb, f.raw)) }

  lemma OperandsBack(f: Fields, form: Form, at: nat, now: nat)
    requires f.fd < 32 && f.fa < 32 && f.fb < 32 && f.raw < 2048
    ensures Operands(f.op, form, Arguments(f, form, at), now) == Word32(Shown(f, form))
    ensures !form.Alone? ==> Starts(Arguments(f, form, at))
  {
    hide RegName, Decimal, ParseNumber, ParseReg, NextToken, AfterToken, Hex, Register, Digits;
    ImmBack(f.raw);
    ModSmall(f.raw, 2048);
    match form
    case Alone =>
    case Three => ThreeBack(f, at, now);
    case TwoAndValue => TwoBack(f, at, now);
    case LoadValue => LoadBack(f, at, now);
    case Jump => JumpBack(f, at, now);
    case CallTo => JumpBack(f, at, now);
    case JumpOn => JumpOnBack(f, at, now);
    case One => RegLast(f.fd);
    case OneAndValue =>
      PortNext(f.raw % 256);
      RegComma(f.fd, "port[" + Decimal(f.raw % 256) + "]");
      assert Arguments(f, form, at) == RegName(f.fd) + ", " + ("port[" + Decimal(f.raw % 256) + "]");
  }

  lemma ThreeBack(f: Fields, at: nat, now: nat)
    requires f.fd < 32 && f.fa < 32 && f.fb < 32 && f.raw < 2048
    ensures Operands(f.op, Three, Arguments(f, Three, at), now) == Word32(Shown(f, Three))
    ensures Starts(Arguments(f, Three, at))
  {
    hide RegName, Decimal, ParseNumber, ParseReg, NextToken, AfterToken, Hex, Register;
    var c := RegName(f.fb);
    RegLast(f.fb);
    RegComma(f.fa, c);
    RegComma(f.fd, RegName(f.fa) + ", " + c);
    assert Arguments(f, Three, at) == RegName(f.fd) + ", " + (RegName(f.fa) + ", " + c);
  }

  lemma TwoBack(f: Fields, at: nat, now: nat)
    requires f.fd < 32 && f.fa < 32 && f.raw < 2048 && f.fb < 32
    ensures Operands(f.op, TwoAndValue, Arguments(f, TwoAndValue, at), now) == Word32(Shown(f, TwoAndValue))
    ensures Starts(Arguments(f, TwoAndValue, at))
  {
    hide RegName, Decimal, ParseNumber, ParseReg, NextToken, AfterToken, Hex, Register;
    var imm := SignExtend11(f.raw);
    var c := Decimal(imm);
    ImmBack(f.raw);
    ModSmall(f.raw, 2048);
    ValueNext(imm, "");
    assert c + "" == c;
    RegComma(f.fa, c);
    RegComma(f.fd, RegName(f.fa) + ", " + c);
    assert Arguments(f, TwoAndValue, at) == RegName(f.fd) + ", " + (RegName(f.fa) + ", " + c);
  }

  lemma LoadBack(f: Fields, at: nat, now: nat)
    requires f.fd < 32 && f.raw < 2048 && f.fa < 32 && f.fb < 32
    ensures Operands(f.op, LoadValue, Arguments(f, LoadValue, at), now) == Word32(Shown(f, LoadValue))
    ensures Starts(Arguments(f, LoadValue, at))
  {
    hide RegName, Decimal, ParseNumber, ParseReg, NextToken, AfterToken, Hex, Register;
    var imm := SignExtend11(f.raw);
    var tail := "  (0x" + Hex(Wrap(imm), 16) + ")";
    ImmBack(f.raw);
    ModSmall(f.raw, 2048);
    ValueNext(imm, tail);
    RegComma(f.fd, Decimal(imm) + tail);
    assert Arguments(f, LoadValue, at) == RegName(f.fd) + ", " + (Decimal(imm) + tail);
  }

  lemma JumpBack(f: Fields, at: nat, now: nat)
    requires f.raw < 2048 && f.fd < 32 && f.fa < 32 && f.fb < 32
    ensures Operands(f.op, Jump, Arguments(f, Jump, at), now) == Word32(Shown(f, Jump))
    ensures Operands(f.op, CallTo, Arguments(f, CallTo, at), now) == Word32(Shown(f, CallTo))
    ensures Starts(Arguments(f, Jump, at)) && Starts(Arguments(f, CallTo, at))
  {
    hide RegName, Decimal, ParseNumber, ParseReg, NextToken, AfterToken, Hex, Register;
    var imm := SignExtend11(f.raw);
    ImmBack(f.raw);
    ModSmall(f.raw, 2048);
    ValueNext(imm, "  -> kelime 0x" + Hex(Target(at, imm), 8));
  }

  lemma JumpOnBack(f: Fields, at: nat, now: nat)
    requires f.fd < 32 && f.raw < 2048 && f.fa < 32 && f.fb < 32
    ensures Operands(f.op, JumpOn, Arguments(f, JumpOn, at), now) == Word32(Shown(f, JumpOn))
    ensures Starts(Arguments(f, JumpOn, at))
  {
    hide RegName, Decimal, ParseNumber, ParseReg, NextToken, AfterToken, Hex, Register;
    var imm := SignExtend11(f.raw);
    var tail := "  -> kelime 0x" + Hex(Target(at, imm), 8);
    ImmBack(f.raw);
    ModSmall(f.raw, 2048);
    ValueNext(imm, tail);
    RegComma(f.fd, Decimal(imm) + tail);
    assert Arguments(f, JumpOn, at) == RegName(f.fd) + ", " + (Decimal(imm) + tail);
  }

  // ----- the mnemonic comes back -----

  predicate Capitals(s: string) { s != "" && forall i :: 0 <= i < |s| ==> 'A' <= s[i] <= 'Z' }

  predicate MnemonicBack(op: nat) {
    Known(op).Some? ==>
      var k := Known(op).value;
      Capitals(k.0) && 2 <= |k.0| <= 6 && Lookup(k.0) == Some((op, k.1))
  }

  lemma KnownBack(op: nat)
    requires op < 64
    ensures MnemonicBack(op)
  {
    hide MnemonicBack, Known, Lookup;
    if op < 5 { Below5(op); } else if op < 9 { Below9(op); } else if op < 13 { Below13(op); } else
    if op < 15 { Below15(op); } else if op < 17 { Below17(op); } else if op < 27 { Below27(op); } else
    if op < 29 { Below29(op); } else { Below64(op); }
  }

  lemma Below5(op: nat)
    requires op < 5
    ensures MnemonicBack(op)
  {
  }

  lemma Below9(op: nat)
    requires 5 <= op < 9
    ensures MnemonicBack(op)
  {
  }

  lemma Below13(op: nat)
    requires 9 <= op < 13
    ensures MnemonicBack(op)
  {
  }

  lemma Below15(op: nat)
    requires 13 <= op < 15
    ensures MnemonicBack(op)
  {
  }

  lemma Below17(op: nat)
    requires 15 <= op < 17
    ensures MnemonicBack(op)
  {
  }

  lemma Below27(op: nat)
    requires 17 <= op < 27
    ensures MnemonicBack(op)
  {
  }

  lemma Below29(op: nat)
    requires 27 <= op < 29
    ensures MnemonicBack(op)
  {
  }

  lemma Below64(op: nat)
    requires 29 <= op < 64
    ensures MnemonicBack(op)
  {
  }

  lemma CapitalsPlain(s: string)
    requires Capitals(s)
    ensures Upper(s) == s && Solid(s) && Starts(s)
  {
  }

  lemma {:induction false} NameStops(m: string, rest: string)
    requires (forall i :: 0 <= i < |m| ==> Letter(m[i])) && (rest == "" || rest[0] == ' ')
    ensures NameLength(m + rest) == |m|
    decreases |m|
  {
    if m == "" {
      assert m + rest == rest;
    } else {
      assert (m + rest)[1..] == m[1..] + rest && (m + rest)[0] == m[0];
      NameStops(m[1..], rest);
    }
  }

  /** A line of one mnemonic and what follows it. */
  lemma InstructionBack(op: nat, n: nat, args: string, at: nat)
    requires op < 64 && Known(op).Some? && n >= 1 && Starts(args)
    ensures var k := Known(op).value;
            Instruction(k.0 + Spaces(n) + args, at) == Operands(op, k.1, args, at) &&
            Instruction(k.0, at) == Operands(op, k.1, "", at)
  {
    hide Known, Lookup, NextToken, Operands, Upper, Capitals;
    KnownBack(op);
    var m := Known(op).value.0;
    CapitalsPlain(m);
    var rest := Spaces(n) + args;
    assert m + Spaces(n) + args == m + rest && rest[0] == ' ';
    TokenIs(m, rest);
    BlanksGone(n, args);
    LastNext(m);
  }

  // ----- a whole line -----

  /** No comment, no end of line. */
  predicate Plain(s: string) { forall i :: 0 <= i < |s| ==> s[i] !in {';', '\n', '\r'} }

  lemma {:induction false} PlainLength(s: string)
    requires Plain(s)
    ensures LineLength(s) == |s|
    decreases |s|
  {
    if s != "" { PlainLength(s[1..]); }
  }

  /** Such a line is taken as it is. */
  lemma TrimNothing(s: string)
    requires Plain(s) && 1 <= |s| <= MAX_LINE && !Blank(s[0]) && !Blank(s[|s| - 1])
    ensures SkipBlanks(TrimLine(s)) == s
  {
    PlainLength(s);
    assert s[..|s|] == s;
  }

  lemma {:induction false} HexLength(n: nat, width: nat)
    requires n < Power16(width)
    ensures |Hex(n, width)| == width
    decreases width
  {
    if width > 0 { HexLength(n / 16, width - 1); }
  }

  function Power16(k: nat): nat { if k == 0 then 1 else 16 * Power16(k - 1) }

  lemma HexShort(op: nat, t: nat, v: Word)
    requires op < 64 && t < 0x1_0000_0000
    ensures |Hex(op, 2)| == 2 && |Hex(t, 8)| == 8 && |Hex(v, 16)| == 16
  {
    assert Power16(4) == 0x1_0000;
    assert Power16(8) == 0x1_0000_0000 by { assert Power16(8) == 16 * (16 * (16 * (16 * Power16(4)))); }
    assert Power16(12) == 0x1_0000_0000_0000 by { assert Power16(12) == 16 * (16 * (16 * (16 * Power16(8)))); }
    assert Power16(16) == TWO_TO_64 by { assert Power16(16) == 16 * (16 * (16 * (16 * Power16(12)))); }
    HexLength(op, 2);
    HexLength(t, 8);
    HexLength(v, 16);
  }

  /** What a printed piece may be made of. */
  predicate Neat(s: string, most: nat) { Plain(s) && 1 <= |s| <= most && !Blank(s[|s| - 1]) }

  lemma NeatJoin(a: string, b: string, m: nat, n: nat)
    requires Plain(a) && |a| <= m && Neat(b, n)
    ensures Neat(a + b, m + n)
  {
  }

  lemma PiecesNeat(f: Fields, at: nat)
    requires f.fd < 32 && f.fa < 32 && f.fb < 32 && f.raw < 2048
    ensures Neat(RegName(f.fd), 3) && Neat(RegName(f.fa), 3) && Neat(RegName(f.fb), 3)
    ensures Neat(Decimal(SignExtend11(f.raw)), 5) && Neat(Decimal(f.raw % 256), 5)
  {
    hide Decimal, RegName, ParseReg, ParseNumber;
    RegBack(f.fd);
    RegBack(f.fa);
    RegBack(f.fb);
    DecimalBack(SignExtend11(f.raw));
    DecimalBack(f.raw % 256);
    NumberNeat(SignExtend11(f.raw));
    NumberNeat(f.raw % 256);
    NameNeat(f.fd);
    NameNeat(f.fa);
    NameNeat(f.fb);
  }

  lemma NumberNeat(v: int)
    ensures Plain(Decimal(v)) && Decimal(v) != "" && !Blank(Decimal(v)[|Decimal(v)| - 1])
  {
  }

  lemma NameNeat(r: nat)
    requires r < 32
    ensures Plain(RegName(r)) && RegName(r) != "" && !Blank(RegName(r)[|RegName(r)| - 1])
  {
  }

  lemma TailsNeat(at: nat, imm: int)
    ensures Neat("  (0x" + Hex(Wrap(imm), 16) + ")", 22) && Neat("  -> kelime 0x" + Hex(Target(at, imm), 8), 22)
  {
    HexShort(0, Target(at, imm), Wrap(imm));
    var a, b := Hex(Wrap(imm), 16), Hex(Target(at, imm), 8);
    assert Plain("  (0x" + a + ")") && Plain("  -> kelime 0x" + b);
  }

  lemma ArgumentsNeat(f: Fields, form: Form, at: nat)
    requires f.fd < 32 && f.fa < 32 && f.fb < 32 && f.raw < 2048 && !form.Alone?
    ensures Neat(Arguments(f, form, at), 40)
  {
    hide RegName, Decimal, Hex, Target, Neat, Plain;
    var imm := SignExtend11(f.raw);
    PiecesNeat(f, at);
    TailsNeat(at, imm);
    ListNeat(RegName(f.fa), RegName(f.fb), 3);
    ListNeat(RegName(f.fa), Decimal(imm), 5);
    PlainPart(Decimal(imm), 5);
    NeatJoin(Decimal(imm), "  (0x" + Hex(Wrap(imm), 16) + ")", 5, 22);
    NeatJoin(Decimal(imm), "  -> kelime 0x" + Hex(Target(at, imm), 8), 5, 22);
    PortNeat(Decimal(f.raw % 256));
    match form
    case Three => ListNeat(RegName(f.fd), RegName(f.fa) + ", " + RegName(f.fb), 27);
    case TwoAndValue => ListNeat(RegName(f.fd), RegName(f.fa) + ", " + Decimal(imm), 27);
    case LoadValue => ListNeat(RegName(f.fd), Decimal(imm) + ("  (0x" + Hex(Wrap(imm), 16) + ")"), 27);
    case JumpOn => ListNeat(RegName(f.fd), Decimal(imm) + ("  -> kelime 0x" + Hex(Target(at, imm), 8)), 27);
    case OneAndValue => ListNeat(RegName(f.fd), "port[" + Decimal(f.raw % 256) + "]", 27);
    case Jump => NeatWider(Arguments(f, form, at), 27, 40);
    case CallTo => NeatWider(Arguments(f, form, at), 27, 40);
    case One => NeatWider(Arguments(f, form, at), 3, 40);
  }

  lemma PlainPart(s: string, n: nat)
    requires Neat(s, n)
    ensures Plain(s) && |s| <= n
  {
  }

  lemma NeatWider(s: string, m: nat, n: nat)
    requires Neat(s, m) && m <= n
    ensures Neat(s, n)
  {
  }

  lemma ListNeat(a: string, b: string, n: nat)
    requires Neat(a, 3) && Neat(b, n) && n <= 27
    ensures Neat(a + ", " + b, 40) && Neat(a + ", " + b, n + 5)
  {
  }

  lemma PortNeat(d: string)
    requires Neat(d, 5)
    ensures Neat("port[" + d + "]", 27)
  {
  }

  /** What the debugger prints is assembled to the fields it shows; words it does not know are errors. */
  lemma ReadBack(w: InsnWord, at: nat, now: nat)
    ensures var f := Split(w);
            AssembleLine(Disassemble(w, at), now)
            == match Known(f.op) case None => Error case Some(k) => Word32(Shown(f, k.1))
  {
    hide Known, Lookup, Arguments, Shown, Instruction, TrimLine, SkipBlanks, NameLength, Operands, Hex;
    var f := Split(w);
    match Known(f.op)
    case None => UnknownBack(f.op, w, now);
    case Some(k) =>
      KnownBack(f.op);
      CapitalsPlain(k.0);
      OperandsBack(f, k.1, at, now);
      if k.1.Alone? {
        InstructionBack(f.op, 1, "R", now);
        LineBack(k.0, "", now);
        assert Arguments(f, Alone, at) == "" by { AloneNothing(f, at); }
        assert k.0 + "" == k.0;
      } else {
        var args, n := Arguments(f, k.1, at), Padding(f.op);
        ArgumentsNeat(f, k.1, at);
        PaddingPlain(n);
        InstructionBack(f.op, n, args, now);
        LineBack(k.0, Spaces(n) + args, now);
        assert k.0 + (Spaces(n) + args) == k.0 + Spaces(n) + args;
      }
  }

  lemma AloneNothing(f: Fields, at: nat)
    requires f.fd < 32 && f.fa < 32 && f.fb < 32 && f.raw < 2048
    ensures Arguments(f, Alone, at) == ""
  {
  }

  lemma PaddingPlain(n: nat)
    requires 1 <= n <= 3
    ensures Spaces(n)[0] == ' ' && |Spaces(n)| == n && Plain(Spaces(n))
  {
    assert Spaces(1) == " " && Spaces(2) == "  " && Spaces(3) == "   ";
  }

  /** Neither label nor comment. */
  lemma LineBack(m: string, rest: string, now: nat)
    requires Capitals(m) && |m| <= 6 && (rest == "" || (rest[0] == ' ' && Neat(rest, 43)))
    ensures AssembleLine(m + rest, now) == Instruction(m + rest, now)
  {
    hide Instruction, TrimLine, SkipBlanks, NameLength;
    NameStops(m, rest);
    TrimNothing(m + rest);
  }

  lemma UnknownBack(op: nat, w: InsnWord, now: nat)
    requires op < 64
    ensures AssembleLine("??? (opcode=0x" + Hex(op, 2) + " raw=0x" + Hex(w, 8) + ")", now) == Error
  {
    hide TrimLine, SkipBlanks, Hex, NextToken;
    HexShort(op, w, 0);
    var rest := " (opcode=0x" + Hex(op, 2) + " raw=0x" + Hex(w, 8) + ")";
    var s := "???" + rest;
    assert s == "??? (opcode=0x" + Hex(op, 2) + " raw=0x" + Hex(w, 8) + ")";
    assert Plain(s);
    TrimNothing(s);
    assert NameLength(s) == 0;
    TokenIs("???", rest);
    assert Upper("???") == "???";
    NoSuchName("???");
  }

  lemma NoSuchName(m: string)
    requires m != "" && m[0] == '?'
    ensures Lookup(m).None? && !Other(m)
  {
  }

  /** The listing of a word assembles to that word exactly when the word is canonical. */
  lemma ReadBackExact(w: InsnWord, at: nat, now: nat)
    ensures AssembleLine(Disassemble(w, at), now) == Word(w) <==> Canonical(w)
  {
    hide AssembleLine, Disassemble, Known;
    ReadBack(w, at, now);
    var f := Split(w);
    match Known(f.op)
    case None =>
    case Some(k) => PackExact(Shown(f, k.1), w);
  }
}
