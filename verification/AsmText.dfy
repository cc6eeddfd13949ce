/** One line of assembly text, from characters to an instruction word: what the assembler does with a
    line of a source that defines no labels.

    A label operand is then an external symbol and counts as address 0, unless it looks like one of the
    C compiler's.  Lines that give more or fewer than one word are only recognised. */
module AsmText {
  import opened Machine
  import opened Words

  // ----- characters -----

  predicate Blank(c: char) { c == ' ' || c == '\t' }

  predicate Digit(c: char) { '0' <= c <= '9' }

  predicate Letter(c: char) { 'a' <= c <= 'z' || 'A' <= c <= 'Z' }

  /** Where a token stops. */
  predicate Stops(c: char) { Blank(c) || c == ',' || c == ';' }

  function SkipBlanks(s: string): (r: string)
    ensures |r| <= |s| && (r != "" ==> !Blank(r[0]))
  {
    if s != "" && Blank(s[0]) then SkipBlanks(s[1..]) else s
  }

  /** Characters before the first that stops a token. */
  function TokenLength(s: string): (n: nat)
    ensures n <= |s| && (n < |s| ==> Stops(s[n]))
  {
    if s == "" || Stops(s[0]) then 0 else 1 + TokenLength(s[1..])
  }

  const MAX_TOKEN: nat := 63
  const MAX_LINE: nat := 255

  function Shorten(s: string): string { if |s| <= MAX_TOKEN then s else s[..MAX_TOKEN] }

  lemma ShortenNext(a: string, c: char)
    ensures Shorten(a + [c]) == if |Shorten(a)| < MAX_TOKEN then Shorten(a) + [c] else Shorten(a)
  {
    if |a| >= MAX_TOKEN { assert (a + [c])[..MAX_TOKEN] == a[..MAX_TOKEN]; }
  }

  lemma NothingShort()
    ensures Shorten("") == ""
  {
  }

  /** Behind a token: blanks, and one comma. */
  function AfterToken(s: string): string {
    var q := SkipBlanks(s);
    if q != "" && q[0] == ',' then q[1..] else q
  }

  /** The next token and what follows it; None at the end or at a stray comma. */
  function NextToken(s: string): Option<(string, string)> {
    var p := SkipBlanks(s);
    var n := TokenLength(p);
    if n == 0 then None else Some((Shorten(p[..n]), AfterToken(p[n..])))
  }

  /** The scan as the assembler writes it: three loops over one position. */
  method ScanToken(s: string) returns (r: Option<(string, string)>)
    ensures r == NextToken(s)
  {
    hide SkipBlanks, TokenLength, Shorten;
    var from := ScanBlanks(s, 0);
    assert s[0..] == s;
    var i, out := ScanSolid(s, from);
    assert s[from..][i - from..] == s[i..];
    var end := ScanBlanks(s, i);
    if end < |s| && s[end] == ',' { r := Some((out, s[end + 1..])); } else { r := Some((out, s[end..])); }
    if i == from { r := None; }
  }

  method ScanBlanks(s: string, from: nat) returns (i: nat)
    requires from <= |s|
    ensures from <= i <= |s| && SkipBlanks(s[from..]) == s[i..]
  {
    i := from;
    while i < |s| && Blank(s[i])
      invariant from <= i <= |s| && SkipBlanks(s[from..]) == SkipBlanks(s[i..])
    {
      assert s[i..][1..] == s[i + 1..];
      i := i + 1;
    }
  }

  method ScanSolid(s: string, from: nat) returns (i: nat, out: string)
    requires from <= |s|
    ensures from <= i <= |s| && TokenLength(s[from..]) == i - from && out == Shorten(s[from..][..i - from])
  {
    hide Shorten;
    i, out := from, "";
    NothingShort();
    assert s[from..from] == "";
    while i < |s| && !Stops(s[i])
      invariant from <= i <= |s| && TokenLength(s[from..]) == (i - from) + TokenLength(s[i..])
      invariant out == Shorten(s[from..i])
    {
      assert s[i..][1..] == s[i + 1..] && s[from..i + 1] == s[from..i] + [s[i]];
      ShortenNext(s[from..i], s[i]);
      if |out| < MAX_TOKEN { out := out + [s[i]]; }
      i := i + 1;
    }
    assert s[from..][..i - from] == s[from..i];
  }

  /** Up to a comment or the end of the line. */
  function LineLength(s: string): (n: nat)
    ensures n <= |s|
  {
    if s == "" || s[0] in {';', '\n', '\r'} then 0 else 1 + LineLength(s[1..])
  }

  function DropBlanks(s: string): string {
    if s != "" && Blank(s[|s| - 1]) then DropBlanks(s[..|s| - 1]) else s
  }

  /** The part of a line the assembler looks at. */
  function TrimLine(s: string): string {
    var line := if |s| <= MAX_LINE then s else s[..MAX_LINE];
    DropBlanks(line[..LineLength(line)])
  }

  function NameLength(s: string): (n: nat)
    ensures n <= |s|
  {
    if s != "" && (Letter(s[0]) || Digit(s[0]) || s[0] == '_') then 1 + NameLength(s[1..]) else 0
  }

  function Upper(s: string): (r: string)
    ensures |r| == |s|
  {
    seq(|s|, i requires 0 <= i < |s| => if 'a' <= s[i] <= 'z' then s[i] - 32 as char else s[i])
  }

  // ----- registers and numbers -----

  function DigitOf(c: char): (d: nat)
    requires Digit(c)
    ensures d <= 9
  {
    (c - '0') as nat
  }

  /** `R0` to `R31`, in either case, without leading zeros. */
  function ParseReg(s: string): (r: Option<nat>)
    ensures r.Some? ==> r.value < 32
  {
    var b := Upper(if |s| <= 7 then s else s[..7]);
    if b == "" || b[0] != 'R' then None
    else if |b| == 2 && Digit(b[1]) then Some(DigitOf(b[1]))
    else if |b| == 3 && '1' <= b[1] <= '3' && Digit(b[2]) && DigitOf(b[1]) * 10 + DigitOf(b[2]) <= 31
    then Some(DigitOf(b[1]) * 10 + DigitOf(b[2]))
    else None
  }

  function DigitValue(c: char): Option<nat> {
    if Digit(c) then Some(DigitOf(c))
    else if 'a' <= c <= 'f' then Some((c - 'a') as nat + 10)
    else if 'A' <= c <= 'F' then Some((c - 'A') as nat + 10)
    else None
  }

  /** Digits of a base, most significant first, joined to what was read before. */
  function Fold(s: string, base: nat, acc: nat): Option<nat> {
    if s == "" then Some(acc)
    else
      var d := DigitValue(s[0]);
      if d.None? || d.value >= base then None else Fold(s[1..], base, acc * base + d.value)
  }

  /** A number: sign, and decimal, hexadecimal or binary digits. */
  function ParseNumber(s: string): Option<int> {
    var p := if s != "" && (s[0] == '-' || s[0] == '+') then s[1..] else s;
    var prefix := |p| >= 2 && p[0] == '0';
    var base := if prefix && (p[1] == 'x' || p[1] == 'X') then 16
                else if prefix && (p[1] == 'b' || p[1] == 'B') then 2 else 10;
    var digits := if base == 10 then p else p[2..];
    if digits == "" then None
    else
      match Fold(digits, base, 0)
      case None => None
      case Some(v) => Some(if s[0] == '-' then 0 - (v as int) else v)
  }

  /** The decimal loop. */
  method ReadDecimal(s: string) returns (r: Option<nat>)
    ensures r == if s == "" then None else Fold(s, 10, 0)
  {
    if s == "" { return None; }
    var i, v: nat := 0, 0;
    while i < |s| && Digit(s[i])
      invariant 0 <= i <= |s|
      invariant Fold(s, 10, 0) == Fold(s[i..], 10, v)
    {
      assert s[i..][0] == s[i] && s[i..][1..] == s[i + 1..];
      v := v * 10 + DigitOf(s[i]);
      i := i + 1;
    }
    r := if i == |s| then Some(v) else None;
  }

  /** `_L` and a number: a label of the C compiler. */
  predicate Internal(s: string) {
    |s| >= 3 && s[0] == '_' && s[1] == 'L' && forall i :: 2 <= i < |s| ==> Digit(s[i])
  }

  // ----- words -----

  /** The operands a mnemonic takes. */
  datatype Form =
    | Alone | Three | TwoAndValue | LoadValue | Jump | JumpOn | CallTo | One | OneAndValue

  /** The instructions that are one word each; shared with the debugger. */
  function Lookup(m: string): Option<(nat, Form)> {
    if m == "NOP" then Some((0x00, Alone))
    else if m == "ADD" then Some((0x01, Three))
    else if m == "SUB" then Some((0x02, Three))
    else if m == "AND" then Some((0x03, Three))
    else if m == "OR" then Some((0x04, Three))
    else if m == "XOR" then Some((0x05, Three))
    else if m == "SHL" then Some((0x06, TwoAndValue))
    else if m == "SHR" then Some((0x07, TwoAndValue))
    else if m == "LOAD" then Some((0x08, TwoAndValue))
    else if m == "STORE" then Some((0x09, TwoAndValue))
    else if m == "LI" then Some((0x0A, LoadValue))
    else if m == "JMP" then Some((0x0B, Jump))
    else if m == "JZ" then Some((0x0C, JumpOn))
    else if m == "JNZ" then Some((0x0D, JumpOn))
    else if m == "CALL" then Some((0x0E, CallTo))
    else if m == "RET" then Some((0x0F, Alone))
    else if m == "OUT" then Some((0x10, OneAndValue))
    else if m == "IN" then Some((0x11, OneAndValue))
    else if m == "MUL" then Some((0x1A, Three))
    else if m == "DIV" then Some((0x1B, Three))
    else if m == "ELOAD" then Some((0x1C, TwoAndValue))
    else if m == "ESTORE" then Some((0x1D, TwoAndValue))
    else if m == "RFLAGS" then Some((0x1E, One))
    else if m == "HALT" then Some((0x3F, Alone))
    else None
  }

  /** Everything else that may stand first on a line. */
  predicate Other(m: string) {
    m == ".TEXT" || m == ".DATA" || m == ".RODATA" || m == ".BSS" || m == ".WORD" || m == ".ZERO" || m == "DIVU"
    || m == "REM" || m == "REMU" || m == "LOADB" || m == "STOREB" || m == "ECALL" || m == "ERET" || m == "CSRW"
    || m == "CSRR" || m == "RAND" || m == "WFI" || m == "FENCE" || m == "FENCE.I" || m == "FENCE.RW"
    || m == "AESE" || m == "HASH" || m == "LUI" || m == "JALR" || m == "CMPEQ" || m == "CMPNE" || m == "CMPLT"
    || m == "CMPLE" || m == "CMPLTU" || m == "CMPLEU" || m == "BSET" || m == "BCLR" || m == "BTEST"
    || m == "MOV" || m == "CLR" || m == "NOT" || m == "NEG" || m == "INC" || m == "DEC" || m == "MOVI"
    || m == "PUSH" || m == "POP" || m == "CALL.R" || m == "RET.L" || m == "BGT" || m == "BLT" || m == "BGE"
    || m == "BLE" || m == "BEQ" || m == "BNE"
  }

  /** What a line comes to.  `Elsewhere` is a line that does not stand for exactly one of the words above. */
  datatype Parsed = Nothing | Error | Elsewhere | Word(w: nat)

  function Pack(op: nat, fd: nat, fa: nat, fb: nat, imm: int): nat {
    op * 0x400_0000 + fd * 0x20_0000 + fa * 0x1_0000 + fb * 0x800 + imm % 2048
  }

  function Register(s: string): Option<(nat, string)> {
    match NextToken(s)
    case None => None
    case Some(t) => match ParseReg(t.0) case None => None case Some(r) => Some((r, t.1))
  }

  /** A number, or a label nobody defines: address 0, from the next word if it is a branch. */
  function Value(s: string, branchFrom: Option<nat>): Option<int> {
    match NextToken(s)
    case None => None
    case Some(t) =>
      match ParseNumber(t.0)
      case Some(v) => Some(v)
      case None =>
        if Internal(t.0) then None else Some(match branchFrom case None => 0 case Some(a) => 0 - (a + 1))
  }

  function Made(op: nat, fd: nat, fa: nat, v: Option<int>): Parsed {
    match v case None => Error case Some(n) => Word(Pack(op, fd, fa, 0, n))
  }

  function Operands(op: nat, form: Form, s: string, at: nat): Parsed {
    match form
    case Alone => Word(Pack(op, 0, 0, 0, 0))
    case Jump => Jumped(op, 0, s)
    case CallTo => Made(op, 0, 0, Value(s, Some(at)))
    case _ =>
      match Register(s)
      case None => Error
      case Some(d) => WithFirst(op, form, d.0, d.1)
  }

  /** After the first register. */
  function WithFirst(op: nat, form: Form, fd: nat, s: string): Parsed {
    match form
    case One => Word(Pack(op, fd, 0, 0, 0))
    case OneAndValue => Made(op, fd, 0, Value(s, None))
    case JumpOn => Jumped(op, fd, s)
    case LoadValue =>
      (match NextToken(s)
       case None => Error
       case Some(t) =>
         match ParseNumber(t.0)
         case Some(v) => if -1024 <= v <= 1023 then Word(Pack(op, fd, 0, 0, v)) else Elsewhere
         case None => if Internal(t.0) then Error else Elsewhere)
    case _ =>
      match Register(s)
      case None => Error
      case Some(a) =>
        if form == TwoAndValue then Made(op, fd, a.0, Value(a.1, None))
        else
          match Register(a.1)
          case None => Error
          case Some(b) => Word(Pack(op, fd, a.0, b.0, 0))
  }

  /** A jump by a number is one word, to a label several. */
  function Jumped(op: nat, fd: nat, s: string): Parsed {
    match NextToken(s)
    case None => Error
    case Some(t) =>
      match ParseNumber(t.0)
      case Some(v) => Word(Pack(op, fd, 0, 0, v))
      case None => if Internal(t.0) then Error else Elsewhere
  }

  /** A line at word address `at`. */
  function AssembleLine(raw: string, at: nat): Parsed {
    var p := SkipBlanks(TrimLine(raw));
    var n := NameLength(p);
    if n < |p| && p[n] == ':' then
      if n > MAX_TOKEN then Error else Instruction(SkipBlanks(p[n + 1..]), at)
    else Instruction(p, at)
  }

  function Instruction(p: string, at: nat): Parsed {
    match NextToken(p)
    case None => Nothing
    case Some(t) =>
      match Lookup(Upper(t.0))
      case Some(e) => Operands(e.0, e.1, t.1, at)
      case None => if Other(Upper(t.0)) then Elsewhere else Error
  }

  // ----- scanning what was printed -----

  /** Nothing in it ends a token. */
  predicate Solid(s: string) { forall i :: 0 <= i < |s| ==> !Stops(s[i]) }

  lemma {:induction false} SolidLength(tok: string, rest: string)
    requires Solid(tok) && (rest == "" || Stops(rest[0]))
    ensures TokenLength(tok + rest) == |tok|
    decreases |tok|
  {
    if tok != "" {
      assert (tok + rest)[1..] == tok[1..] + rest && (tok + rest)[0] == tok[0];
      SolidLength(tok[1..], rest);
    } else {
      assert tok + rest == rest;
    }
  }

  /** A solid piece up to something that stops it is the next token. */
  lemma TokenIs(tok: string, rest: string)
    requires Solid(tok) && 1 <= |tok| <= MAX_TOKEN && (rest == "" || Stops(rest[0]))
    ensures NextToken(tok + rest) == Some((tok, AfterToken(rest)))
  {
    hide AfterToken;
    var s := tok + rest;
    assert s[0] == tok[0];
    assert SkipBlanks(s) == s;
    SolidLength(tok, rest);
    assert s[..|tok|] == tok && s[|tok|..] == rest;
  }

  function Spaces(n: nat): string { if n == 0 then "" else " " + Spaces(n - 1) }
}
