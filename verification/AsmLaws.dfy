/** What the assembler's words look like, letter by letter: registers, numbers in three bases, labels and
    mnemonics in either case. */
module AsmLaws {
  import opened Machine
  import opened AsmText
  import opened Disassembly

  const CAPITALS: string := "ABCDEFGHIJKLMNOPQRSTUVWXYZ"
  const SMALL: string := "abcdefghijklmnopqrstuvwxyz"
  const HEX_CAPITALS: string := "0123456789ABCDEF"
  const HEX_SMALL: string := "0123456789abcdef"

  // ----- names -----

  /** Small letters become capitals, and nothing else changes. */
  lemma UpperExact(s: string, i: nat, k: nat)
    requires i < |s| && k < 26
    ensures s[i] == SMALL[k] ==> Upper(s)[i] == CAPITALS[k]
    ensures s[i] !in SMALL ==> Upper(s)[i] == s[i]
  {
    if s[i] == SMALL[k] { SmallLetter(k); }
    if s[i] !in SMALL { NotSmall(s[i]); }
  }

  lemma SmallLetter(k: nat)
    requires k < 26
    ensures SMALL[k] == 'a' + k as char && CAPITALS[k] == 'A' + k as char
  {
  }

  lemma NotSmall(c: char)
    requires c !in SMALL
    ensures !('a' <= c <= 'z')
  {
    if 'a' <= c <= 'z' { SmallLetter((c - 'a') as nat); }
  }

  lemma NotCapital(c: char)
    requires c !in CAPITALS
    ensures !('A' <= c <= 'Z')
  {
    if 'A' <= c <= 'Z' { SmallLetter((c - 'A') as nat); }
  }

  lemma InSmall(c: char)
    requires c in SMALL
    ensures 'a' <= c <= 'z'
  {
  }

  lemma InCapitals(c: char)
    requires c in CAPITALS
    ensures 'A' <= c <= 'Z'
  {
  }

  lemma TenDigits(c: char)
    ensures Digit(c) || c == '_' <==> c in "0123456789_"
  {
    if Digit(c) { assert "0123456789_"[(c - '0') as nat] == c; }
  }

  /** A register is `R` or `r` and its number without leading zeros, and nothing else is. */
  lemma RegExact(s: string, r: nat)
    requires r < 32
    ensures ParseReg(s) == Some(r) <==> s == RegName(r) || s == "r" + RegName(r)[1..]
  {
    hide Upper;
    var n := RegName(r);
    var b := Upper(if |s| <= 7 then s else s[..7]);
    forall i | 0 <= i < |b| ensures b[i] == Raised(s[i]) { UpperAt(if |s| <= 7 then s else s[..7], i); }
    if s == n || s == "r" + n[1..] { assert b == n; }
    if ParseReg(s) == Some(r) {
      assert |s| == |b| == |n|;
      assert s[0] == 'R' || s[0] == 'r';
      assert s[1..] == n[1..];
      assert s == [s[0]] + s[1..];
    }
  }

  function Raised(c: char): char { if 'a' <= c <= 'z' then c - 32 as char else c }

  lemma UpperAt(s: string, i: nat)
    requires i < |s|
    ensures Upper(s)[i] == Raised(s[i])
  {
  }

  /** A label's name is letters, digits and underscores, up to the first other character. */
  lemma {:induction false} NameRead(name: string, rest: string)
    requires forall i :: 0 <= i < |name| ==> name[i] in SMALL || name[i] in CAPITALS || name[i] in "0123456789_"
    requires rest != "" ==> rest[0] !in SMALL && rest[0] !in CAPITALS && rest[0] !in "0123456789_"
    ensures NameLength(name + rest) == |name|
  {
    if name == "" {
      assert name + rest == rest;
      if rest != "" { NameChar(rest[0]); }
    } else {
      NameChar(name[0]);
      assert (name + rest)[1..] == name[1..] + rest;
      NameRead(name[1..], rest);
    }
  }

  lemma NameChar(c: char)
    ensures Letter(c) || Digit(c) || c == '_' <==> c in SMALL || c in CAPITALS || c in "0123456789_"
  {
    TenDigits(c);
    if c in SMALL { InSmall(c); } else { NotSmall(c); }
    if c in CAPITALS { InCapitals(c); } else { NotCapital(c); }
  }

  /** A label of the C compiler is `_L` and at least one digit. */
  lemma InternalExact(s: string)
    ensures Internal(s) <==> |s| >= 3 && s[..2] == "_L" && forall i :: 2 <= i < |s| ==> s[i] in "0123456789"
  {
    if |s| >= 2 { assert s[..2][0] == s[0] && s[..2][1] == s[1]; }
    if |s| >= 2 && s[0] == '_' && s[1] == 'L' { assert s[..2] == "_L"; }
    forall i | 2 <= i < |s| ensures Digit(s[i]) <==> s[i] in "0123456789" {
      if Digit(s[i]) { assert "0123456789"[(s[i] - '0') as nat] == s[i]; }
    }
  }

  // ----- numbers -----

  /** `c` is the digit `d` of a base up to sixteen. */
  predicate Stands(c: char, d: nat) { d < 16 && (c == HEX_CAPITALS[d] || c == HEX_SMALL[d]) }

  lemma DigitExact(c: char, d: nat)
    ensures DigitValue(c) == Some(d) <==> Stands(c, d)
  {
    if Digit(c) { assert HEX_SMALL[(c - '0') as nat] == c; }
    if 'a' <= c <= 'f' { assert HEX_SMALL[(c - 'a') as nat + 10] == c; }
    if 'A' <= c <= 'F' { assert HEX_CAPITALS[(c - 'A') as nat + 10] == c; }
  }

  /** Most significant digit first. */
  function Weight(ds: seq<nat>, base: nat): nat {
    if ds == [] then 0 else Weight(ds[..|ds| - 1], base) * base + ds[|ds| - 1]
  }

  predicate Spells(s: string, ds: seq<nat>, base: nat) {
    |s| == |ds| && forall i :: 0 <= i < |s| ==> ds[i] < base && Stands(s[i], ds[i])
  }

  lemma {:induction false} FoldLast(s: string, c: char, base: nat, acc: nat)
    ensures Fold(s + [c], base, acc)
         == match Fold(s, base, acc)
            case None => None
            case Some(v) =>
              var d := DigitValue(c);
              if d.None? || d.value >= base then None else Some(v * base + d.value)
    decreases |s|
  {
    if s == "" {
      assert s + [c] == [c] && [c][1..] == "";
    } else {
      assert (s + [c])[1..] == s[1..] + [c];
      var d := DigitValue(s[0]);
      if d.Some? && d.value < base { FoldLast(s[1..], c, base, acc * base + d.value); }
    }
  }

  lemma {:induction false} FoldWeight(s: string, ds: seq<nat>, base: nat)
    requires Spells(s, ds, base)
    ensures Fold(s, base, 0) == Some(Weight(ds, base))
    decreases |s|
  {
    if s != "" {
      var n := |s| - 1;
      assert s == s[..n] + [s[n]];
      FoldWeight(s[..n], ds[..n], base);
      FoldLast(s[..n], s[n], base, 0);
      DigitExact(s[n], ds[n]);
    }
  }

  /** A character that is no digit of the base makes it no number. */
  lemma {:induction false} FoldRefuses(s: string, i: nat, base: nat, acc: nat)
    requires i < |s| && base <= 16 && forall d :: 0 <= d < base ==> !Stands(s[i], d)
    ensures Fold(s, base, acc) == None
    decreases i
  {
    var v := DigitValue(s[0]);
    if i == 0 {
      if v.Some? { DigitExact(s[0], v.value); }
    } else if v.Some? && v.value < base {
      assert s[1..][i - 1] == s[i];
      FoldRefuses(s[1..], i - 1, base, acc * base + v.value);
    }
  }

  /** Decimal digits are a number in base ten, with or without a sign. */
  lemma DecimalExact(s: string, ds: seq<nat>)
    requires s != "" && Spells(s, ds, 10)
    ensures ParseNumber(s) == ParseNumber("+" + s) == Some(Weight(ds, 10))
    ensures ParseNumber("-" + s) == Some(-(Weight(ds, 10) as int))
  {
    hide Fold, Weight, Spells;
    FoldWeight(s, ds, 10);
    PlainDigits(s, ds);
    assert ("+" + s)[1..] == s && ("-" + s)[1..] == s;
  }

  /** Behind `0x` or `0X` digits are a number in base sixteen, behind `0b` or `0B` one in base two. */
  lemma PrefixExact(x: char, s: string, ds: seq<nat>)
    requires s != "" && x in "xXbB" && Spells(s, ds, if x == 'x' || x == 'X' then 16 else 2)
    ensures var w := Weight(ds, if x == 'x' || x == 'X' then 16 else 2);
            ParseNumber(['0', x] + s) == ParseNumber(['+', '0', x] + s) == Some(w) &&
            ParseNumber(['-', '0', x] + s) == Some(-(w as int))
  {
    hide Fold, Weight, Spells;
    FoldWeight(s, ds, if x == 'x' || x == 'X' then 16 else 2);
    var p := ['0', x] + s;
    assert p[2..] == s && (['+', '0', x] + s)[1..] == p && (['-', '0', x] + s)[1..] == p;
  }

  lemma PlainDigits(s: string, ds: seq<nat>)
    requires Spells(s, ds, 10)
    ensures forall i :: 0 <= i < |s| ==> Digit(s[i])
  {
    forall i | 0 <= i < |s| ensures Digit(s[i]) { assert Stands(s[i], ds[i]) && ds[i] < 10; }
  }

  // ----- operands -----

  /** A label nobody defines counts as address 0, so that a branch of the line at `at` lands there; one of the
      C compiler's is an error. */
  lemma UndefinedOperand(s: string, name: string, rest: string, at: nat)
    requires NextToken(s) == Some((name, rest)) && ParseNumber(name) == None
    ensures Internal(name) <==> Value(s, Some(at)) == None
    ensures Internal(name) <==> Value(s, None) == None
    ensures !Internal(name) ==> Value(s, None) == Some(0) && at + 1 + Value(s, Some(at)).value == 0
  {
    hide NextToken, ParseNumber, Internal;
  }

  /** `LI` is one word exactly for a number of eleven bits; a jump is one exactly for a number. */
  lemma OneWordLoads(op: nat, fd: nat, s: string)
    ensures WithFirst(op, LoadValue, fd, s).Word?
       <==> NextToken(s).Some? && ParseNumber(NextToken(s).value.0).Some? &&
            -1024 <= ParseNumber(NextToken(s).value.0).value <= 1023
    ensures Jumped(op, fd, s).Word? <==> NextToken(s).Some? && ParseNumber(NextToken(s).value.0).Some?
    ensures NextToken(s).Some? && ParseNumber(NextToken(s).value.0).None? ==>
              (WithFirst(op, LoadValue, fd, s) == Error <==> Internal(NextToken(s).value.0)) &&
              (Jumped(op, fd, s) == Error <==> Internal(NextToken(s).value.0))
  {
    hide NextToken, ParseNumber, Internal;
  }
}
