# Oxalyn-64 in Dafny

A model of the Oxalyn-64 tower and proofs about it: the 64-bit word machine, its two-pass assembler, the
WebAssembly translator and the one-pass C compiler above it, the debugger's listing, and, beside the tower,
the software GPU's tile rasterizer and vertex codec and the kernel's TCP layer, checksums, drawing loops,
GUI budget, allocator, pipes and queues, and directory tree.

`dafny verify dfyconfig.toml` checks all of it.

## The machine and its assembler

`Machine` decodes and executes instruction words; `Assembly` gives the same machine in terms of assembly
lines, label jumps included; `Expansion` proves that the words of every line do what the line means, so any
run of lines that does not overwrite its own program is a run of the processor (`RunRefines`). `Assembler`
is the two passes: an error-free source puts each line's words at the address pass one gave its labels
(`AssembledCodeIn`), and it says exactly when a source is error-free (`AssembledExact`). `AsmText` and
`Disassembly` work on characters: the debugger's text for a word is assembled back, and comes back equal
exactly for the words the text shows completely. `AsmLaws` says what registers, numbers
and labels look like, letter by letter. `ImageFile` is the byte format between the two tools.

## The WebAssembly translator

`Wasm` is the meaning of structured code after sections 4.3 and 4.4 of the WebAssembly Core Specification, with
fuel for loops, and its validation: behind `return`, `br`, `br_table` and `unreachable` the operand types are
`Dead`, and code there is not checked; a body may end that way, and branches may drop operands. `Translator` is
the single pass over the flat instruction stream; `Leaves`, `Shifts`, `ShiftValues` and `Translation` are the
simulation; `Function` adds entry, parameters and exit and carries the result down to the assembled words: every
run (`Function.CallOnProcessor`), the result of every run that ends in `return` (`Function.ReturnDelivers`), and
runs without end (`Function.NeverStops`). `FreshLabels` and `Accepted` show that the assembler takes what the
translator prints, and `Limits` says exactly which bodies it prints. `Exactness` says for each instruction the
simulation leaves out when its emitted code is right. `MemoryBytes` is the byte loops of loads and stores.

Two readings of a label jump matter: on its own, and after assembly, where it also writes R27 and R28. The
function theorem is about the assembled words; the shift loops are right only on the first reading.

## The C compiler

`CSyntax` and `CStatements` are trees and the recursive descent as functions; `CCode` and `CStatements` generate
lines; `CMeaning` and `CStatements` evaluate. `CCompiler` is the compiler as it is written, one pass over the
tokens with registers, labels, scope and output in fields: every method, from `ParsePrimary` to `ParseUnit`,
does what parsing the tree first and generating its code afterwards does, failures included. `CUses` computes
from the tree which registers its code writes; `CExpressions`, `CStatementRuns` and `CFunctions` prove that the
code computes what the tree means, down to the assembled words (`CFunctions.CallOnProcessor`,
`CFunctions.NeverStops`). `COperands` treats the trees for which it does not. In that meaning a variable is a
word of the frame; `CNames` gives the meaning by name, with scopes and unassigned variables, and
`CNamedCalls.CallByName` carries it down to the processor. `CPrecedence` and `CStatementText` tie the parser to
the text: which operator takes its operands first, and statements as they are written. `CAccepted` and `CUnits`
are about whole sources and the assembler.

## Graphics

`Tiles` runs worker threads over disjoint tiles in any interleaving, a pixel update being a read step and a
write step, with any number of threads that fail to start. What a triangle does to a pixel, coverage, depth
test, shading and blending, is a parameter; only that it depends on the triangle, the coordinates and the
pixel's old colour and depth is used. `DrawList` collects the triangles, `Rle` is the vertex codec.
`Drawing` is the kernel's lines, circles and discs, and `GuiGuard` what they are charged.

## Kernel

`Tcp` is the connection table and a world of two hosts and a network that drops, repeats and reorders
segments. `Checksum` is the one's-complement sum and the two headers. `Heap` is the first-fit allocator,
`Ipc` the pipes and message queues: the rings, moved by the same step functions the tables' methods are
specified by, answer any sequence of calls like bounded queues. `Vfs` is the directory tree and its paths.

## Findings

Each is proved for all inputs, with the exact condition under which the code does what it should.

- Shift loops after assembly (`Shifts.AssembledShiftExact`): the jumps of the loop overwrite R27, which holds
  the value being shifted. The result is the low byte of the address of the loop's end label, so a shift is
  right exactly when its result happens to be that byte.
- `i64.const` (`Exactness.ConstantExact`): MOVI zero-extends, so a constant is loaded exactly when it is at
  least -1024 or needs eight bytes; `i32.const` (`Exactness.I32ConstExact`) exactly when it is not negative or
  below -2^23.
- i32 arithmetic is not wrapped: `i32.add` is right exactly without carry, `i32.sub` exactly without borrow,
  `i32.mul` exactly when the product fits, signed comparisons exactly when the sign bits agree, `i32.div_s` and
  `i32.rem_s` on the cases listed at `Exactness.I32DivSExact` and `Exactness.I32RemSExact`, `i32.extend8_s` and
  `i32.extend16_s` exactly when the narrow sign bit is clear.
- `i64.rem_s` traps on -2^63 by -1 instead of giving 0 (`Exactness.RemSignedExact`), and `i64.shr_s` looks at
  bit 31: it is right exactly when bits 31 and 63 agree or the count is a multiple of 64
  (`ShiftValues.ShrS64Exact`).
- A translated function that reaches its end, or branches there, does not move its result to R7. R7 is also the
  register of the fourth operand: it comes back with the last value that was a fourth operand, or as at entry
  if there was none, and the result is right exactly when it equals that (`Function.FallThroughResult`).
- `return` sets the translator's operand count to 0, and the end of a block does not set it back. After a block
  that ends in `return` the count is 0, right exactly when the block was entered with no operands
  (`Function.ReturnBlockCount`). What is pushed at a wrong count overwrites an operand: the operands are then in
  place exactly when the registers happen to hold the same values (`Function.PushExact`). The `else` arm and the
  code behind an `if` whose arm ends in `return` start from count 0 too (`Function.ReturnArmCount`). Bodies
  where control can arrive behind such a frame with operands are outside `Wasm.Close`.
- The translator counts operands behind `return`, `br` and `unreachable` as before them, from 0 behind `return`:
  valid code such as `return` and then `drop` is refused (`Limits.DropRefused`). A validated body is translated
  exactly when there are at most 16 parameters, never more than 20 operands, no frame inside 256 others, and
  code that control does not reach finds counted what it takes (`Limits.TranslatedExact`).
- Declared locals start as zero exactly when the words of the frame are zero (`Function.ClearedExact`).
- A store through WebAssembly memory address `a` writes processor word `a / 8`: linear memory has no base, and
  the program lies from word 0 on. `MemoryBytes.StoreRun` therefore asks that the bytes lie above the program.
- `%` in the C compiler leaves its value in a register the allocator counts as free. A tree's code meets its
  operands intact exactly when `CUses.Intact` holds of the tree (`COperands.IntactExact`). For any operator over
  two subtrees, what the code computes instead is stated exactly (`COperands.NodeRuns`): the left operand is
  whatever its register holds after the right one was computed. `x % y op e` is always hit, whatever `op` and
  `e` (`COperands.RemainderLost`); `!(x % y)` and `z op x % y` are not (`COperands.RemainderKept`). When the
  quotient register is the right operand's, `x - q * q` comes out (`COperands.ClashRuns`).
- `&&` and `||` evaluate both operands: right exactly when a right operand that C leaves out is evaluated without
  a fault and without an effect (`CMeaning.BothEvaluated`).
- A literal outside 11 bits in the last temporary changes the temporary below it unless that already ends in
  the same byte (`CExpressions.WideAtTop`).
- Parameters of a C function stay in the symbol table after it: a name is known at the start of a function
  exactly when it is a parameter of that function or of an earlier one (`CUnits.ParamsLinger`). Such a use reads
  a word of the new frame.
- A fifth parameter is not passed: it starts as whatever lies in its word of the frame
  (`CNamedCalls.FifthParameter`). `CNamedCalls.CallByName` therefore says nothing of runs that read one before
  assigning it.
- A C function's frame holds 32 words of locals without counting them; `CFunctions.Entered` asks for no more.
- `grav_rle_size` counts three bytes for a run of two, the writer emits four: the estimate is exact, and the
  capacity check safe for every capacity, exactly when no maximal run has length two (`Rle.EstimateExact`,
  `Rle.CheckSafe`). `Rle.Compress` stays within its capacity exactly when the encoding fits; else the excess is
  written behind the buffer. Twice the input always suffices.
- `tcp_send` sends everything exactly up to 1464 bytes and nothing above (`Tcp.SendExact`); a FIN is taken
  whatever its sequence number, and closes the stream for later data (`Tcp.FinAnywhere`).
- Nothing is sent twice. A segment larger than the room left in the receiver's buffer is taken in part, the rest
  never comes again, and no later segment is in place: from then on the receiver gets no byte
  (`Tcp.OverrunIsFinal`). Chunks that fit get through, all of them (`Tcp.Completes`).
- The end that closes first gives its slot back exactly when the first acknowledgement it gets carries the peer's
  FIN. The peer sends an acknowledgement without one first; after that the slot waits for packets that are no
  longer looked at (`Tcp.FirstToClose`, `Tcp.Teardown`).
- `mq_recv` returns 0 both when nothing waits and when it took an empty message (`Ipc.ZeroReply`).
- The GUI guard's charge for a circle covers the pixel writes exactly from radius 7 on (`GuiGuard.CircleCharge`).
- `kmalloc` gives up the rest of a block whose size is at most twice the request; `Heap.RunValid` accounts for it.
- `vfs_rmdir` accepts an empty root, and that is the only call that breaks the tree (`Vfs.StepLive`). A relative
  path under a directory whose own path has 126 characters loses its slash (`Vfs.NoRoomForSlash`).
- The debugger prints `OUT` and `IN` as `port[n]`, which the assembler takes for an undefined symbol, address 0:
  such a word comes back exactly when the port is 0 (`Disassembly.ReadBackExact`).

## Model

| member | source | states |
|---|---|---|
| Machine.DecodeEncode | asm.c:436-441 | decoding an encoded instruction gives back its fields; the immediate survives exactly when it fits 11 signed bits |
| Assembly.FindMoviBytes | asm.c:239-251 | the width found holds the number in two's complement, and no smaller width does |
| Assembly.MoviKeeps | asm.c:239-295 | a non-negative number is its own low bytes; a negative one needing fewer than eight bytes turns positive |
| Assembly.ExpandSize | asm.c:455-1237 | the words a line emits are as many as pass one counted |
| Expansion.MoviRun | asm.c:258-295 | running the words of MOVI leaves the value modulo 256^bytes in the register and only the scratch register changed besides |
| Expansion.JumpLands | asm.c:752-845 | JMP, JZ and JNZ to a label arrive at the label or just past the expansion |
| Expansion.BranchLands | asm.c:1143-1217 | the compare-and-branch lines arrive at the label exactly when the signed comparison holds |
| Expansion.RunRefines | dbg.c:282-407 | every run of lines that spares the program is a run of the processor over the words, ending in the same registers and memory; the longer the run of lines, the longer the run of words |
| Expansion.ReturnLands | dbg.c:282-407 | a return jump continues at the address in the register |
| Assembler.TwoPass.Assemble | asm.c:1247-1263 | the two passes with their tables and buffers compute `Assembled` |
| Assembler.ErrorFreeTable | asm.c:110-136 | in an error-free source every label has one line, and its table entry is that line's address |
| Assembler.ImageLayout | asm.c:455-1237 | after each line the words emitted are as many as the address counter says, and each line's words start at its address |
| Assembler.AssembledExact | asm.c:455-1237 | a source is error-free exactly when no label is defined twice, every label that must be known is, and the words fit |
| Assembler.AssembledCodeIn | asm.c:1440-1471 | loading the image of an error-free source puts every line's expansion at its address with every label resolved |
| Assembler.DataInImage | asm.c:572-618 | in an error-free source a data line's words at its address are the number's low 32 bits, the address of the line that defines the label, or zeros |
| AsmText.ScanToken | asm.c:331-345 | the character loops of the token scanner find the next token and what follows its comma |
| AsmText.ReadDecimal | asm.c:386-393 | the digit loop reads the number its digits stand for |
| AsmLaws.RegExact | asm.c:401-422 | a register is `R` or `r` and its number without leading zeros, nothing else |
| AsmLaws.DecimalExact | asm.c:357-397 | decimal digits are their number, with or without a sign |
| AsmLaws.PrefixExact | asm.c:357-397 | behind `0x` digits are a number in base sixteen, behind `0b` in base two |
| AsmLaws.FoldRefuses | asm.c:357-397 | one character that is no digit of the base makes it no number |
| AsmLaws.UpperExact | asm.c:347-353 | small letters become capitals and nothing else changes |
| AsmLaws.NameRead | asm.c:486-500 | a label's name is letters, digits and underscores up to the first other character |
| AsmLaws.InternalExact | asm.c:99-108 | a label of the C compiler is `_L` and digits |
| AsmLaws.UndefinedOperand | asm.c:164-185 | an undefined label counts as address 0, so a branch lands there; one of the C compiler's is an error |
| AsmLaws.OneWordLoads | asm.c:716-775 | `LI` is one word exactly for a number of eleven bits, a jump exactly for a number |
| Disassembly.PackExact | asm.c:436-441 | fields and instruction words correspond one to one |
| Disassembly.RegBack | asm.c:401-422 | each of the 32 printed register names is read back as that register |
| Disassembly.DecimalBack | asm.c:357-397 | a printed number is one token and is read back as that number |
| Disassembly.OperandsBack | dbg.c:163-258 | the printed operands of every form are read back as the fields they show |
| Disassembly.ReadBack | dbg.c:163-258 | the debugger's line for any word assembles to the fields it shows; an unknown opcode's line is an error |
| Disassembly.ReadBackExact | dbg.c:163-258 | the line assembles to the same word exactly when the opcode is known, the fields left out are zero and the port is 0 |
| ImageFile.WriteBin | asm.c:1450-1471 | the file is each word's four bytes, high byte first |
| ImageFile.LoadBin | dbg.c:606-626 | memory holds the file's whole words from 0 on and is otherwise unchanged |
| ImageFile.ReadWritten | dbg.c:606-626 | reading what was written gives the words back, cut at the memory's end |
| Wasm.EndsInReturn | compiler/translator.c:1776-1787 | code that leaves its result last may end with `return`, whatever operands lie below |
| Translator.EmitAppend | compiler/translator.c:1686-2527 | translating a concatenation is translating its parts one after the other |
| Translator.TranslateFunction | compiler/translator.c:1686-2527 | the opcode loop prints entry, body and exit of `Translated`, or fails where it does |
| Limits.SeqTaken | compiler/translator.c:1686-2527 | any code, validated or not, is translated exactly when there is room for operands and frames and every instruction finds counted what it takes |
| Limits.TranslatedExact | compiler/translator.c:1686-2527 | a validated body is translated exactly when it has at most 16 parameters, at most 20 operands before every instruction and no frame inside 256 others, and its unreached code is fed |
| Limits.DropRefused | compiler/translator.c:1776-1794 | `return` followed by `drop` is valid and refused |
| Leaves.LeafSimulated | compiler/translator.c:1769-2116 | the code of every supported unstructured instruction carries the represented stack and locals to what the instruction means, traps and branches included |
| Leaves.NarrowRun | compiler/translator.c:1260-1286 | the narrow sign extension leaves all 64 bits of the extended value |
| Leaves.SelectLeaf | compiler/translator.c:1796-1817 | select keeps the operand its condition names |
| Leaves.TableRun | compiler/translator.c:2465-2506 | the comparison chain of br_table reaches the entry the selector names, else the default |
| Translation.SeqState | compiler/translator.c:1686-2527 | translating validated code keeps the register depth equal to the operand count wherever control can arrive |
| Translation.DeadState | compiler/translator.c:1686-2527 | over code behind return or br the translator's operand count is the one `DeadSeq` gives |
| Translation.SimulateSeq | compiler/translator.c:2360-2527 | the lines emitted for a sequence carry out every run of it: the same stack, locals, branch target, return value or trap |
| Translation.SimulateLoop | compiler/translator.c:2360-2381 | a loop's lines carry out every number of iterations |
| Translation.SimulateIfElse | compiler/translator.c:2382-2438 | the lines of if and else carry out the arm the condition names |
| Exactness.BinFaithful | compiler/translator.c:1916-1958 | the instructions the simulation admits compute the specification's operator for all operands |
| Exactness.RelFaithful | compiler/translator.c:2015-2064 | likewise for comparisons |
| Exactness.ConstantExact | compiler/translator.c:1905-1915 | i64.const loads its number exactly when it is at least -1024 or needs eight bytes |
| Exactness.I32ConstExact | compiler/translator.c:1894-1904 | i32.const loads its number exactly when it is not negative or below -2^23 |
| Exactness.I32AddExact | compiler/translator.c:1916-1927 | i32.add is right exactly when the sum fits in 32 bits |
| Exactness.I32SubExact | compiler/translator.c:1916-1927 | i32.sub is right exactly when the difference is not negative |
| Exactness.I32MulExact | compiler/translator.c:1916-1927 | i32.mul is right exactly when the product fits in 32 bits |
| Exactness.I32DivSExact | compiler/translator.c:1928-1931 | exactly which operands i32.div_s divides right |
| Exactness.I32RemSExact | compiler/translator.c:1937-1941 | exactly which operands i32.rem_s divides right |
| Exactness.I32SignedCompareExact | compiler/translator.c:2015-2064 | signed i32 comparisons are right exactly when the sign bits agree |
| Exactness.RemSignedExact | compiler/translator.c:1937-1941 | i64.rem_s is right except for -2^63 by -1, where the machine traps |
| Exactness.I32NarrowExact | compiler/translator.c:2103-2112 | i32.extend8_s and extend16_s are right exactly when the narrow sign bit is clear |
| ShiftValues.LoopFaithful | compiler/translator.c:1196-1258 | the value the shift loop computes is shl, shr_u, rotl, rotr at both widths and shr_s at width 32, for every value and count |
| ShiftValues.ShrS64Exact | compiler/translator.c:1223-1223 | i64.shr_s is right exactly when bits 31 and 63 agree or the count is a multiple of 64 |
| Shifts.RunLoop | compiler/translator.c:1196-1258 | the emitted loop ends after as many turns as its counter says, with that many steps applied to the value |
| Shifts.ShiftLeaf | compiler/translator.c:1196-1258 | with jumps that spare R27 the emitted code of a shift computes the shift |
| Shifts.AssembledShiftExact | compiler/translator.c:1196-1258 | after assembly the code leaves the low byte of its end label's address, so it is right exactly when the result is that byte |
| Function.ClearedExact | compiler/translator.c:1720-1748 | locals start as the specification says exactly when the frame's words for them are zero |
| Function.CallSimulated | compiler/translator.c:1686-2527 | a call of a translated function, ending in `return` or not, carries out every run of its body and gives back the caller's frame; a body still running after n loop rounds has taken at least n steps |
| Function.CallOnProcessor | compiler/translator.c:1686-2527 | the same for the assembled words run by the processor from the entry address |
| Function.ReturnDelivers | compiler/translator.c:1776-1787 | whenever the body ends in `return`, its last operand is in R7 when the processor comes back |
| Function.NeverStops | compiler/translator.c:2360-2381 | a body that no number of loop rounds ends keeps the processor running after every number of steps |
| Function.FallThroughResult | compiler/translator.c:2423-2438 | a body that reaches its end comes back with the last fourth operand, or R7 at entry, in R7, so the answer is right exactly when it equals that |
| Function.ReturnBlockCount | compiler/translator.c:1776-1787 | after a block ending in `return` the operand count is 0, right exactly when the block was entered with none |
| Function.ReturnArmCount | compiler/translator.c:2382-2422 | behind an `if` arm ending in `return`, and in its `else` arm, the operand count starts from 0, right exactly when the condition was the only operand |
| Function.PushExact | compiler/translator.c:1905-1915 | a constant pushed at any count leaves the operands in place exactly when the count is right or the registers hold the same values |
| FreshLabels.TranslatedDistinct | compiler/translator.c:2360-2438 | a translated function defines no label twice |
| Accepted.TranslatedAccepted | compiler/translator.c:1686-2527 | within its limits on labels and words the assembler accepts a translated function |
| MemoryBytes.PokeAt | simulator/sim.c:937-968 | a byte store changes one byte of memory |
| MemoryBytes.StoredAt | compiler/translator.c:1317-1333 | a store of up to eight bytes puts each byte at its address and changes no other byte |
| MemoryBytes.LoadStored | compiler/translator.c:1288-1333 | loading what was stored gives the value modulo 256^width |
| MemoryBytes.LoadAfterStore | compiler/translator.c:1288-1333 | and sign-extended by the signed forms |
| MemoryBytes.EmitLoadBytes | compiler/translator.c:1288-1315 | the printing loop emits the load sequence |
| MemoryBytes.EmitStoreBytes | compiler/translator.c:1317-1333 | the printing loop emits the store sequence |
| MemoryBytes.LoadRun | compiler/translator.c:2117-2156 | the code of a load leaves the number at base plus offset, extended as asked, and touches only scratch registers |
| MemoryBytes.StoreRun | compiler/translator.c:2157-2182 | the code of a store puts the value's low bytes at base plus offset and changes nothing else |
| CSyntax.RoundTrip | compiler/cc.c:2314-2590 | printing any tree of the grammar and parsing it gives the tree back, for every level and continuation |
| CSyntax.ExprReads | compiler/cc.c:2556-2590 | what the parser returns is a tree of the grammar, and the tokens it read are that tree's |
| CPrecedence.Precedence | compiler/cc.c:2419-2513 | which of two operators takes the operand between them, for all 256 pairs: `* / %`, then `+ -`, then the comparisons, then `&`, `^`, bitwise or, `&&`, logical or, the left one among equals |
| CPrecedence.Conditional | compiler/cc.c:2515-2554 | a condition reaches back over all operators, what stands behind `:` is a whole expression, and conditionals nest to the right |
| CPrecedence.Assignment | compiler/cc.c:2556-2590 | assignments come last, nest to the right, and are exactly the eight tokens `= += -= *= /= &= ^=` and the one for bitwise or |
| CStatementText.StmtBack | compiler/cc.c:2708-2885 | writing a statement and parsing it gives the statement back and leaves what followed |
| CStatementText.StmtReads | compiler/cc.c:2708-2885 | what the parser returns is a statement that can be written, whose tokens are those read, with every `else` at its nearest `if` |
| CCompiler.Compiler.ParsePrimary | compiler/cc.c:1968-2168 | one pass over literals, names and parentheses is parsing, then generating |
| CCompiler.Compiler.ParsePostfix | compiler/cc.c:2171-2312 | likewise for the postfix loop |
| CCompiler.Compiler.ParseUnary | compiler/cc.c:2314-2409 | likewise for prefix operators |
| CCompiler.Compiler.ParseLevel | compiler/cc.c:2411-2513 | likewise for every precedence level |
| CCompiler.Compiler.ParseCond | compiler/cc.c:2515-2554 | likewise for the conditional |
| CCompiler.Compiler.ParseExpr | compiler/cc.c:2556-2590 | likewise for assignments and whole expressions: tokens left, register, labels, pending address, lines and failures are those of parsing first and generating afterwards |
| CCompiler.Compiler.ParseItems | compiler/cc.c:2720-2763 | likewise for declarations |
| CCompiler.Compiler.ParseStmt | compiler/cc.c:2708-2885 | likewise for every statement: tokens left, scope, labels, lines and failures |
| CCompiler.Compiler.ParseFor | compiler/cc.c:2812-2848 | likewise for the for statement, whose names are forgotten afterwards |
| CCompiler.Compiler.ParseFunction | compiler/cc.c:2888-3041 | likewise for a prototype or a function; its parameters stay visible |
| CCompiler.Compiler.ParseUnit | compiler/cc.c:3261-3315 | likewise for a whole source of functions |
| CMeaning.BothEvaluated | compiler/cc.c:2479-2503 | both operands of `&&` and its dual are evaluated, which is right exactly when a right operand that C leaves out has no fault and no effect |
| CUses.GenUses | compiler/cc.c:345-351 | the registers, temporaries and address an expression ends with, from the tree alone |
| CUses.HitsExact | compiler/cc.c:1968-2590 | the emitted code writes a temporary register exactly when the tree says so |
| COperands.IntactExact | compiler/cc.c:2411-2443 | every operator of a tree meets its operands intact exactly when the tree is `Intact` |
| COperands.NodeRuns | compiler/cc.c:2411-2513 | for all 16 operators and any subtrees, the code applies the operator to what the left register then holds, and the result is right exactly when that makes no difference |
| COperands.RemainderLost | compiler/cc.c:2419-2443 | a remainder on the left of any operator is never intact |
| COperands.RemainderKept | compiler/cc.c:2419-2443 | a remainder under a unary operator, on the right, or in a condition is intact |
| COperands.QuotientClash | compiler/cc.c:2427-2441 | a remainder by a negated remainder uses its divisor's register for the quotient |
| COperands.ClashRuns | compiler/cc.c:2427-2441 | then the quotient's square is subtracted |
| CExpressions.WideAtTop | asm.c:258-295 | a wide literal in R27 leaves R26 alone exactly when R26 is the literal's low byte |
| CExpressions.ExprRuns | compiler/cc.c:1968-2590 | the code of an intact tree computes its value and its effects on the variables, keeps every lower temporary, and faults exactly on an undefined division |
| CStatementRuns.StmtRuns | compiler/cc.c:2708-2885 | the code of a statement carries out every run of it: fall through, break, continue, return with value, fault or no end |
| CStatementRuns.LoopRuns | compiler/cc.c:2799-2811 | a while loop's code carries out every number of rounds |
| CStatementRuns.TurnRuns | compiler/cc.c:2812-2848 | likewise for the for loop with its step and its continue target |
| CFunctions.FunctionDistinct | compiler/cc.c:2888-3041 | a compiled function defines no label twice and only its own |
| CFunctions.CallRuns | compiler/cc.c:2888-3041 | a call of a compiled function computes the variables and the return value its body means and restores the caller's registers |
| CFunctions.CallOnProcessor | compiler/cc.c:2888-3041 | the same for the assembled words run by the processor, with a bound for runs that have not ended |
| CFunctions.NeverStops | compiler/cc.c:2799-2848 | a body that no number of loop rounds ends keeps the processor running after every number of steps |
| CNames.MeantSame | compiler/cc.c:1968-2590 | an expression does to the words of the frame what it does to the variables by name |
| CNames.StmtSame | compiler/cc.c:2708-2885 | so does a statement: blocks and `for` end their variables' lives, the newest of a name is the visible one, and no two share a word |
| CNamedCalls.CallByName | compiler/cc.c:2888-3041 | the assembled words of a function return what its body means by name for the arguments in R1 to R4 |
| CNamedCalls.FifthParameter | compiler/cc.c:3018-3020 | the first four parameters start as the arguments, any other as what lies in the frame |
| CAccepted.FunctionAccepted | compiler/cc.c:2888-3041 | within its limits the assembler accepts a compiled function |
| CUnits.UnitPlaces | compiler/cc.c:3261-3315 | each function of a source is compiled as if alone and lies at its own line; names left over stand for words of every frame |
| CUnits.ParamsLinger | compiler/cc.c:2986-3040 | a name is known where a function starts exactly when it is a parameter of that function or an earlier one |
| CUnits.UnitAccepted | compiler/cc.c:3261-3315 | within its limits the assembler accepts a source exactly when its functions have different names |
| Tiles.OneTile | gravityon/gravityon.c:1100-1122 | every pixel lies in exactly one tile |
| Tiles.PixelAfter | gravityon/gravityon.c:1015-1085 | after any list of updates a pixel shows the triangles that touched it, in order |
| Tiles.RasterizeTriangle | gravityon/gravityon.c:980-1085 | the row and column loops paint the clipped bounds in place |
| Tiles.RasterizeTileRange | gravityon/gravityon.c:1100-1122 | the loop over a worker's tiles paints its share |
| Tiles.RasterizeLeftover | gravityon/gravityon.c:1176-1183 | the loop after the join paints the shares that had no worker |
| Tiles.RasterizeAlone | gravityon/gravityon.c:1143-1148 | the single-threaded loop leaves the serial picture in the image |
| Tiles.AloneIsSerial | gravityon/gravityon.c:1143-1148 | tile after tile in one thread gives the serial picture |
| Tiles.StepAgrees | gravityon/gravityon.c:1124-1128 | one read or write step of any worker keeps every pixel at what its own worker has done |
| Tiles.EnoughTurns | gravityon/gravityon.c:1124-1128 | a worker ends after two turns per pixel of its share, whatever the others do |
| Tiles.TiledIsSerial | gravityon/gravityon.c:1130-1183 | once all workers have ended, in whatever interleaving, drawing the leftover shares completes the serial picture |
| Tiles.FairIsSerial | gravityon/gravityon.c:1130-1183 | every schedule with enough turns does |
| Tiles.DrawnIsSerial | gravityon/gravityon.c:1130-1183 | the whole draw, for any thread count, failed allocation, number of started threads and fair schedule, shows the serial picture |
| Tiles.DrawnPixel | gravityon/gravityon.c:1130-1183 | a pixel of the draw shows the triangles whose bounds contain it, shaded one over the other in the order of the list |
| Tiles.Sizes | gravityon/gravityon.c:1135-1142 | tiles are 32 wide by default and never under 8; there are no more workers than tiles or threads |
| DrawList.NeverOverflows | gravityon/gravityon.c:1248-1338 | the triangles collected never exceed the list's capacity |
| DrawList.StripNumber | gravityon/gravityon.c:1262-1292 | a strip's window counts back to the last restart or the start |
| DrawList.CollectShown | gravityon/gravityon.c:1262-1292 | what the loop collects is what the windows give: every second one of a strip turned round, those with a restart nothing |
| DrawList.Execute | gravityon/gravityon.c:1248-1338 | the index loop stores or draws exactly the triangles of the windows, in order |
| Rle.EstimateExact | gravityon/gravityon.c:2121-2131 | the encoded length exceeds the estimate by the number of maximal runs of length two |
| Rle.CheckSafe | gravityon/gravityon.c:2132-2169 | the capacity check is safe for all capacities exactly when there is no such run; twice the input is always enough |
| Rle.RoundTrip | gravityon/gravityon.c:2121-2206 | decoding an encoded sequence, whatever follows it, gives the sequence back |
| Rle.DecodeEncode | gravityon/gravityon.c:2121-2206 | decompressing what compress wrote gives every byte sequence back |
| Rle.EstimateSize | gravityon/gravityon.c:2121-2131 | the size loop |
| Rle.Compress | gravityon/gravityon.c:2132-2169 | all modes, errors and capacities: what is written, how much, what stays untouched, and when it stays within the capacity |
| Rle.Decompress | gravityon/gravityon.c:2170-2206 | every mode and every outcome on every input: the bytes asked for, or the error, and nothing written behind them |
| Rle.ModesUndo | gravityon/gravityon.c:2121-2206 | in either mode what was compressed comes back |
| Rle.DecodeRuns | gravityon/gravityon.c:2180-2206 | the tag loop decodes in place, or gives the error the decoder specification gives |
| Checksum.FoldKeeps | kernel/network.c:42-51 | folding keeps the sum modulo 65535 and gives 0 only for 0 |
| Checksum.SealedSumsToZero | kernel/network.c:42-51 | storing the checksum at an even zero field makes the sum of the whole 0, for odd lengths too |
| Checksum.IpHeaderSumsToZero | kernel/network.c:206-241 | every IPv4 header built re-sums to 0 |
| Checksum.IpFields | kernel/network.c:206-241 | the header holds length, identification, flags, time to live, protocol and both addresses at their places |
| Checksum.PseudoSum | kernel/tcp.c:43-63 | the pseudo-header's contribution is the sum of its twelve bytes |
| Checksum.SegmentSumsToZero | kernel/tcp.c:43-113 | every TCP segment built re-sums to 0 with its pseudo-header |
| Checksum.ParseBuild | kernel/tcp.c:66-113 | reading a built segment gives its fields and data back |
| Checksum.ChecksumFrom | kernel/network.c:42-51 | the summing and folding loops |
| Checksum.InetChecksum | kernel/network.c:42-51 | the checksum of a header |
| Checksum.TcpChecksum | kernel/tcp.c:43-63 | the checksum of a segment, pseudo-header included |
| Checksum.BuildSegment | kernel/tcp.c:66-113 | the bytes written in place, or -1 and nothing written when there is no room |
| Tcp.SendExact | kernel/tcp.c:195-215 | tcp_send sends all bytes exactly when there are at most 1464, else none |
| Tcp.FinAnywhere | kernel/tcp.c:322-356 | a FIN with any sequence number closes the stream, and later data is not taken |
| Tcp.TakesNext | kernel/tcp.c:322-346 | an established connection takes the segment at the next expected byte as far as there is room, and acknowledges what it took; out of place nothing changes |
| Tcp.HandledExact | kernel/tcp.c:284-382 | which packets a connection in which state takes for its own |
| Tcp.FinAnswered | kernel/tcp.c:347-357 | a FIN counts as one byte and is answered by an acknowledgement and a FIN |
| Tcp.FirstToClose | kernel/tcp.c:360-381 | the first to close gives its slot back exactly when the first acknowledgement carries a FIN, else no packet is for it any more |
| Tcp.Handshake | kernel/tcp.c:137-320 | the SYN delivered to the listener and its answer delivered back join both ends |
| Tcp.StreamArrives | kernel/tcp.c:195-346 | between joined ends any stream in chunks that fit the buffer arrives, in either direction |
| Tcp.Completes | kernel/tcp.c:137-346 | from connect and listen on, some run brings any such stream across |
| Tcp.Teardown | kernel/tcp.c:233-382 | FIN, answering FIN and last acknowledgement, delivered in turn, give both slots back |
| Tcp.OverrunIsFinal | kernel/tcp.c:331-344 | after a segment that did not fit, no run brings the receiver another byte |
| Tcp.StepSound | kernel/tcp.c:250-383 | every send, delivery, read and close on either host keeps the stream invariant, whatever was lost, repeated or reordered |
| Tcp.StreamIsPrefix | kernel/tcp.c:137-383 | in every run, what one host has read followed by what it buffers is a prefix of what the other sent, and its next expected number says how long |
| Tcp.TcpLayer.Connect | kernel/tcp.c:137-167 | the first free slot becomes a connection attempt |
| Tcp.TcpLayer.Listen | kernel/tcp.c:169-182 | the first free slot listens |
| Tcp.TcpLayer.Send | kernel/tcp.c:195-215 | the chunk loop sends in order and advances the send number by what it sent |
| Tcp.TcpLayer.Recv | kernel/tcp.c:217-231 | the oldest buffered bytes are handed over and removed |
| Tcp.TcpLayer.Close | kernel/tcp.c:233-248 | closing by state |
| Tcp.TcpLayer.Poll | kernel/tcp.c:250-383 | one packet is handled by the first connection it matches, all others stay as they were |
| Drawing.LineShape | kernel/gpu.c:109-128 | every point of a line: the major axis moves each step, the ends are the endpoints, and no point is more than half a pixel off |
| Drawing.DrawLine | kernel/gpu.c:109-128 | the loop ends and paints exactly those points that are on the screen |
| Drawing.DecisionSteps | kernel/gpu.c:141-162 | the circle's decision value is kept by both kinds of step |
| Drawing.DrawCircle | kernel/gpu.c:141-162 | the loop paints exactly the eight mirrors of the octant on the screen |
| Drawing.CircleClose | kernel/gpu.c:141-162 | every plotted point misses the circle by at most its larger coordinate in squared distance |
| Drawing.OctantShort | kernel/gpu.c:141-162 | from radius 2 on the loop runs at most `r` times |
| Drawing.HalfWidth | kernel/gpu.c:165-180 | the width search finds the last column in the disc |
| Drawing.FillCircle | kernel/gpu.c:165-180 | exactly the integer points of the disc on the screen are painted |
| Drawing.DrawRect | kernel/gpu.c:131-138 | exactly the points of the rectangle on the screen are painted |
| Drawing.RectanglePoints | kernel/gpu.c:131-138 | which points a rectangle covers |
| Drawing.RectangleSize | kernel/gpu.c:131-138 | how many they are |
| GuiGuard.LineCharge | kernel/gui_guard.c:53-62 | a line is charged exactly the points the line loop plots |
| GuiGuard.CircleCharge | kernel/gui_guard.c:36-82 | a circle's charge covers its plots exactly from radius 7 on |
| GuiGuard.AreaCharge | kernel/gui_guard.c:36-82 | a clear, a pixel and a filled rectangle are charged exactly the points they write |
| GuiGuard.Drawable | kernel/gui_guard.c:36-82 | which requests are drawn at all |
| GuiGuard.AdmittedExact | kernel/gui_guard.c:112-146 | a request is admitted exactly when it is drawable and the faults, operations and pixels allow it, and what it costs |
| GuiGuard.BudgetHolds | kernel/gui_guard.c:98-146 | over any requests the counters stay within their limits, and the pixels admitted are the pixels charged |
| GuiGuard.RefusalCost | kernel/gui_guard.c:98-146 | a refused request costs one fault and nothing else |
| GuiGuard.Process.Admit | kernel/gui_guard.c:112-128 | the account after a request, and the verdict |
| GuiGuard.Process.AdmitPixels | kernel/gui_guard.c:130-146 | the account after a pixel charge, and the verdict |
| Heap.MallocValid | kernel/memory.c:26-56 | an allocation keeps the table ordered, disjoint, inside the heap and without adjacent free blocks; sizes and what was given up add to the same total |
| Heap.FreeValid | kernel/memory.c:58-87 | so does freeing any address, and the total stays |
| Heap.Disjoint | kernel/memory.c:17-87 | blocks do not overlap |
| Heap.FreeUndoesSplit | kernel/memory.c:26-87 | freeing right after a splitting allocation restores the table |
| Heap.MallocHands | kernel/memory.c:26-56 | an allocation succeeds exactly when the table has an entry left and a free block is large enough, and hands out the lowest: of the size asked for, overlapping no other |
| Heap.FreeTakes | kernel/memory.c:58-87 | a release takes the block at the address out of use and no other |
| Heap.RunValid | kernel/memory.c:17-87 | every run of allocations and frees keeps the table valid, and sizes plus what was given up stay the heap's size |
| Heap.RunHeld | kernel/memory.c:17-87 | over every run the blocks in use are those handed out and not given back |
| Heap.Allocator.Kmalloc | kernel/memory.c:26-56 | the search and the shifting of blocks in place |
| Heap.Allocator.Kfree | kernel/memory.c:58-87 | the search, the release and the merging loop in place |
| Ipc.StepIsQueue | kernel/ipc.c:34-116 | one call on the rings, whatever its descriptor, answers and changes them like a table of bounded byte queues |
| Ipc.PipesAreQueues | kernel/ipc.c:34-116 | so does any sequence of creates, writes, reads, queries and closes |
| Ipc.FirstInFirstOut | kernel/ipc.c:34-116 | over any calls from any table, what was read from an open pipe since its creation, followed by what its ring holds, is what was accepted on it; at most 255 bytes wait |
| Ipc.PipesFromBoot | kernel/ipc.c:22-116 | from the start, what an open pipe has handed out is a prefix of what it has accepted |
| Ipc.PipesApart | kernel/ipc.c:34-116 | after any calls a pipe is as if only the calls that name it had been made |
| Ipc.DescriptorsName | kernel/ipc.c:34-54 | descriptors and pipe ends correspond one to one |
| Ipc.PipeTable.Create | kernel/ipc.c:34-54 | the first free pipe, empty, and its two descriptors; the table steps as `PipeStep` says |
| Ipc.PipeTable.Write | kernel/ipc.c:56-76 | as many bytes as fit are appended; other pipes are untouched |
| Ipc.PipeTable.Read | kernel/ipc.c:78-96 | the oldest bytes are taken; other pipes are untouched |
| Ipc.PipeTable.Available | kernel/ipc.c:107-116 | the number of bytes held |
| Ipc.PipeTable.Close | kernel/ipc.c:98-105 | either descriptor frees the pipe, others stay |
| Ipc.QueueTable.Create | kernel/ipc.c:122-137 | the first free queue, empty |
| Ipc.QueueTable.Send | kernel/ipc.c:150-171 | a message is appended to its queue of at most 16, other queues are untouched |
| Ipc.QueueTable.Recv | kernel/ipc.c:173-186 | the oldest message is taken |
| Ipc.QueueTable.Count | kernel/ipc.c:188-193 | the number of waiting messages |
| Ipc.QueueTable.Destroy | kernel/ipc.c:195-200 | the queue is freed, others stay |
| Ipc.StepIsMail | kernel/ipc.c:122-200 | one call on the message rings answers and changes them like a table of queues of at most 16 messages |
| Ipc.QueuesAreQueues | kernel/ipc.c:122-200 | so does any sequence of calls |
| Ipc.MessagesInOrder | kernel/ipc.c:122-200 | over any calls from any table, what was received from a live queue since its creation, followed by what waits, is what was sent, long messages cut; head, tail and count agree |
| Ipc.MailFromBoot | kernel/ipc.c:22-200 | from the start, what was received is a prefix of what was sent, and the count is the difference |
| Ipc.QueuesApart | kernel/ipc.c:122-200 | after any calls a queue is as if only the calls that name it had been made |
| Ipc.ZeroReply | kernel/ipc.c:173-186 | a receive returns 0 exactly when nothing waits or the oldest message is empty, and in the latter case the message is gone |
| Vfs.StepLive | kernel/vfs.c:148-217 | mkdir, rmdir and chdir keep the tree with a live current directory exactly when the call does not remove the root |
| Vfs.RunLive | kernel/vfs.c:148-217 | so does every run of them that never removes the root |
| Vfs.ResolvePath | kernel/vfs.c:29-93 | resolving a directory's printed path finds that directory |
| Vfs.RunResolves | kernel/vfs.c:29-217 | so it does after every such run from the booted tree |
| Vfs.RelativeWalk | kernel/vfs.c:121-138 | resolving a relative path is walking it from the current directory |
| Vfs.DotDot | kernel/vfs.c:65-93 | `..` leads to the directory whose names are all but the last, the root's to the root |
| Vfs.InAndOut | kernel/vfs.c:65-93 | walking a name and `..` returns |
| Vfs.ChdirGoes | kernel/vfs.c:207-217 | a change of directory goes where the path leads, or fails and does nothing; the new directory's path leads to it |
| Vfs.ThereAndBack | kernel/vfs.c:207-217 | `cd name` and `cd ..` end where they began |
| Vfs.WalkJoin | kernel/vfs.c:65-93 | walking a joined path is walking its parts |
| Vfs.NoRoomForSlash | kernel/vfs.c:121-138 | a relative path is joined with a slash exactly when the current path is shorter than 126 |
| Vfs.MkdirFound | kernel/vfs.c:148-187 | a made directory is found at its path, and every path that resolved still does |
| Vfs.RmdirUndoesMkdir | kernel/vfs.c:148-205 | removing it again restores what every path resolves to |
| Vfs.Vfs.NodePathOf | kernel/vfs.c:29-51 | the climbing and printing loops write the path |
| Vfs.Vfs.ResolvePath | kernel/vfs.c:65-93 | the segment loop resolves a path |
| Vfs.Vfs.MakeDirectory | kernel/vfs.c:148-187 | the tree after mkdir, and its result |
| Vfs.Vfs.RemoveDirectory | kernel/vfs.c:189-205 | the tree after rmdir, and its result |
| Vfs.Vfs.ChangeDirectory | kernel/vfs.c:207-217 | the current directory after chdir, and its result |

## Left out

- Function.CallOnProcessor: i32 instructions whose emitted code is wrong for some operands, i64.rem_s, i64.shr_s and the shifts after assembly are not in the validated fragment; `Exactness`, `ShiftValues` and `Shifts` give their exact conditions instead
- Function.CallOnProcessor: WebAssembly calls, globals, memory instructions inside bodies and typed blocks are not in the fragment; a frame behind which control can arrive ends with the operand count it was entered with (see the finding on `return`)
- MemoryBytes.LoadRun: like MemoryBytes.StoreRun, stated for the emitted lines in any program, not inside a simulated body; offsets of 2^63 and more, the bounds trap, memory.copy and the MMIO ports are not modelled
- Translator.TranslateFunction: takes decoded instructions; bytes, LEB128 numbers, sections and the module walk are not modelled, nor more than 1022 local words
- CFunctions.CallOnProcessor: the C fragment has `int` scalars, expressions, declarations, if, while, for, break, continue and return; calls, pointers, arrays, structs, casts, sizeof, switch, goto, shifts, globals and the preprocessor are not modelled
- CFunctions.CallOnProcessor: asks that every expression of the body is assignable and intact (`CUses.Tidy`), that no more than 32 words of locals are declared, and that the frame lies above the program
- CCompiler.Compiler.ParseUnit: starts from tokens; the lexer, the symbol table's 4096 entries, function names as symbols, `(void)` parameter lists and the two stub lines before `main` are not modelled
- Assembler.AssembledExact: label names are data; the aliases of `asm.c:138-162` (`printf` for `kprintf` and the like) are not resolved, and a C function named like an internal label is excluded
- Assembler.TwoPass.Assemble: capacity checks inside the mnemonics are merged into one per line
- AsmText: only the one-word forms the debugger prints are assembled from text; numbers are unbounded, the 32-bit overflow of the digit loop is not modelled
- Machine: flags, privilege, traps with a handler, I/O, EEPROM and the watch points are not modelled; an undefined opcode or an undefined division stops the run
- Tiles.DrawnIsSerial: floating-point coverage, interpolation and blending are a parameter; 32-bit overflow of tile counts is not modelled
- Rle.Compress: where the capacity check lets the writer run past the buffer, the memory behind it is taken to exist
- Tcp.StreamIsPrefix: streams shorter than 2^32 bytes and one incarnation of the connection; device send failures, padding of short Ethernet frames and the polling of the device are not modelled
- Tcp.TcpLayer.Poll: parsing of the packet is in `Checksum`, the network card is not modelled
- GuiGuard.Process.Admit: the validity of user buffers and the log are not modelled
- Heap.Allocator.Kmalloc: block pointers are offsets; the memory they point to is not modelled
- Ipc.QueueTable.Send: queue names and `mq_open` are not modelled
- Vfs.RunLive: names shorter than 32 characters and paths shorter than 128, beyond which `kstrncpy` leaves them without an end mark; the buffer writes of `kstrncpy`, owners, times, files and persistence are not modelled
- Scheduler, signals, wifi, USB, sound, window manager, shell, DNS and HTTP are not part of this model
