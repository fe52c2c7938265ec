# Synacor virtual machine, modelled in Dafny

This project models the core of a TypeScript virtual machine for the Synacor
challenge. The machine has 15-bit words, eight registers, an unbounded stack and
at least 32768 memory cells. Each instruction is one opcode word followed by its
operands. An operand token below 32768 is a literal, 32768..32775 names register
0..7, and anything higher is invalid.

The model covers five source files:

- `src/runtime.ts` (class `Runtime`). `VmRuntime.Runtime` is a Dafny class with
  array fields for memory and registers. Its constructor zeroes them and copies
  the program, and `Stdout` buffers output up to each newline. `VmState.Machine`
  is the same state as a value. The functions that specify the class are over
  that value: `LoadImage`, `Initial`, `Emit`.
- `src/opcodes.ts`. The 22-entry table is a datatype plus `Index`, `Lookup`,
  `Mnemonic` and `Size`. The arithmetic the entries describe is `AddMod`,
  `MultMod`, `Remainder`, `Equal`, `Greater`, `BitwiseAnd`, `BitwiseOr` and
  `Not15`. The bitwise operations are defined one bit at a time in module `Bits`.
- `src/interpreter.ts`. The function `Semantics.Step` is one pass of the loop.
  It fetches and checks the instruction, renders the trace line, and executes.
  `Semantics.Run` is the `while (running)` loop around it. `Interpreter.Interpret`
  runs the loop in place on a `Runtime`, and its postcondition says it ends in
  the state `Run` describes.
- `src/parse.ts`. `Parse.Decode` is the decoder over a byte sequence, returning
  words or an error. `Parse.Parse` is the decode loop, proved equal to it.
  `Encode` is the partner: decoding and encoding are inverse.
- `src/prettyprinter.ts`. Module `Disassembler` holds `FormatValue`,
  `FormatInstruction` and `PrettyPrint`. The loops are methods proved against
  the functions `InstructionLine` and `Listing`.

The behaviour of each instruction comes from the description comments in
`src/opcodes.ts`. The table in that file has no code of its own. Module
`Programs` holds the test programs of `tests/interpreter.test.ts` and their
memory layouts. Module `Scenarios` proves what running each of them does.

Where the description and the code differ, the model follows the code:

- Memory has `max(32768, |tokens|)` cells. The constructor fills 32768 cells, and
  then the copy loop grows the array when the image is longer.
- The runtime keeps the loaded `program` apart from `memory`. No instruction
  changes it.
- The stdin reader at `src/runtime.ts:29-31` only throws. `in` therefore reads
  from a finite sequence of characters supplied at construction. An empty
  sequence is the error `InputExhausted`. The line-refill buffer is not modelled.

## Model

| member | source | states |
|---|---|---|
| Bits.AndBits | src/opcodes.ts:80-85 | bit i of `And(a, b)` is set exactly when bit i is set in both a and b |
| Bits.OrBits | src/opcodes.ts:86-91 | bit i of `Or(a, b)` is set exactly when bit i is set in a or in b |
| Bits.OrBelow | src/opcodes.ts:86-91 | the or of two k-bit numbers is a k-bit number |
| Bits.ComplementBits | src/opcodes.ts:92-97 | the k-bit complement sets exactly the bits below k that x does not set |
| Bits.ComplementValue | src/opcodes.ts:92-97 | on a k-bit x, the k-bit complement equals 2^k - 1 - x |
| Opcodes.Index | src/opcodes.ts:7-140 | every opcode has an index below 22, and the table holds that opcode at that index |
| Opcodes.Lookup | src/interpreter.ts:11-14 | a word has a table entry exactly when it is below 22, and the entry is the opcode whose index is that word |
| Opcodes.LookupIndex | src/opcodes.ts:7-140 | looking up an opcode's index gives back that opcode; a found entry is the table's entry at that index |
| Opcodes.Size | src/opcodes.ts:7-140 | an instruction's size is 1 plus its operand count, between 1 and 4 |
| Opcodes.Mnemonic | src/opcodes.ts:7-140 | every entry's mnemonic is a lower-case word of 2 to 4 letters, so it holds no space |
| Opcodes.TableMnemonics | tests/opcodes.test.ts:4-27 | the table has 22 entries, with mnemonics halt, set, push, ..., in, noop at indices 0..21 |
| Opcodes.AddMod | src/opcodes.ts:62-67 | the stored value is below 32768 and congruent to b + c modulo 32768 |
| Opcodes.MultMod | src/opcodes.ts:68-73 | the stored value is below 32768 and congruent to b * c modulo 32768 |
| Opcodes.Remainder | src/opcodes.ts:74-79 | the remainder is below the divisor and at most the dividend, differs from the dividend by a multiple of the divisor, and equals the dividend when the dividend is smaller |
| Opcodes.Equal | src/opcodes.ts:32-37 | the result is 0 or 1, and 1 exactly when b == c |
| Opcodes.Greater | src/opcodes.ts:38-43 | the result is 0 or 1, and 1 exactly when b > c |
| Opcodes.BitwiseAnd | src/opcodes.ts:80-85 | the and is at most either operand, so the and of a word with anything is a word |
| Opcodes.BitwiseOr | src/opcodes.ts:86-91 | the or of two words is a word |
| Opcodes.Not15 | src/opcodes.ts:92-97 | the result is a word, and for a word b it is 32767 - b |
| Opcodes.NotInvolutive | src/opcodes.ts:92-97 | applying `not` twice to a word gives it back |
| Opcodes.NotFlipsLowBits | src/opcodes.ts:92-97 | `not` sets exactly the bits below 15 that b does not set |
| VmState.LoadImage | src/runtime.ts:38-45 | memory has 32768 cells, or the program's length if longer; cell i holds program word i, or 0 past the program |
| VmState.Initial | src/runtime.ts:20-46 | a fresh runtime has pc 0, is running, and has an empty stack, an empty output buffer, no lines written and all 8 registers 0 |
| VmState.Emit | src/runtime.ts:48-61 | no output is lost or reordered; exactly one writer call is made, exactly when the data ends with a newline, and the buffer is then empty |
| VmState.EmitEachWithoutNewline | src/runtime.ts:51-53 | characters other than newline only accumulate in the buffer |
| VmState.EmitEachLine | src/runtime.ts:51-61 | a line's characters followed by a newline make exactly one writer call, with the buffered text and the line, newline removed |
| VmState.FooBarLines | tests/interpreter.test.ts:103-122 | emitting F, O, O, newline, B, A, R, newline makes two writer calls, "FOO" then "BAR", and leaves the buffer empty |
| VmRuntime.Runtime.constructor | src/runtime.ts:20-46 | the new runtime's state is `Initial(tokens)`: registers and memory zeroed, then the program copied in; `program` keeps the tokens |
| VmRuntime.Runtime.Stdout | src/runtime.ts:51-61 | data not ending in a newline is only appended; data ending in one makes a single writer call with the buffer minus the newline, then empties the buffer |
| Parse.Word | src/parse.ts:9-12 | the token is below 65536, with the lower byte as its low 8 bits and the higher byte above them |
| Parse.DecodeFrom | src/parse.ts:8-16 | decoding from a byte offset yields one token per remaining byte pair, each below 32776; a failure names a word at or above 32776 at a byte offset in range |
| Parse.Decode | src/parse.ts:3-19 | the length error is reported exactly for an odd-length image; a decoded image has half as many tokens as bytes, each below 32776 |
| Parse.DecodeFromFacts | src/parse.ts:8-18 | decoding from an offset succeeds exactly when every word from there is below 32776; it then yields each word in order, and otherwise names the first invalid one |
| Parse.DecodeCorrect | src/parse.ts:3-34 | an image decodes exactly when its length is even and every word is valid; the result is its little-endian words in order; an odd length is rejected outright |
| Parse.DecodeReportsFirstInvalid | src/parse.ts:29-34 | a rejected even-length image reports the first word at or above 32776, with its byte offset |
| Parse.Encode | src/parse.ts:9-12 | each word becomes two bytes |
| Parse.DecodeEncode | src/parse.ts:8-16 | writing valid words low byte first, then decoding, gives the words back |
| Parse.EncodeDecode | src/parse.ts:8-16 | a decoded image's words are all valid, and encoding them gives back the image |
| Parse.Parse | src/parse.ts:3-19 | the decode loop returns exactly `Decode(bytes)`: no partial result on error, and the odd-length check comes before any word |
| Disassembler.Decimal | src/prettyprinter.ts:34-35 | the numeral is non-empty and all digits, has one digit exactly for n < 10, and starts with 0 only for 0 |
| Disassembler.DecimalRoundTrip | src/prettyprinter.ts:34-35 | reading the decimal numeral of n back gives n |
| Disassembler.FormatValue | src/prettyprinter.ts:33-41 | a token renders exactly when it is below 32776, and otherwise the error names it; the rendering starts with `r` exactly for the register tokens 32768..32775 |
| Disassembler.FormatValueRoundTrip | src/prettyprinter.ts:33-41 | a token renders exactly when below 32776; a literal renders as its decimal, a register as `r` and one digit; the rendering reads back as the token |
| Disassembler.TokenText | src/prettyprinter.ts:26-27 | an operand renders exactly when the position holds a token below 32776 |
| Disassembler.FormatArgs | src/prettyprinter.ts:24-28 | n operands render exactly when each does; the result has n entries, entry j being operand j's rendering |
| Disassembler.InstructionLine | src/prettyprinter.ts:21-31 | a line renders exactly when each of its size - 1 operands is present and below 32776 |
| Disassembler.InstructionLineShape | src/prettyprinter.ts:21-31 | a rendered line is the address, a space, the mnemonic and a space, then exactly size - 1 operand renderings joined by single spaces |
| Disassembler.FormatInstruction | src/prettyprinter.ts:21-31 | the operand loop produces exactly `InstructionLine(pc, tokens)`, including the error of the first operand that cannot render |
| Disassembler.StartsIncrease | src/prettyprinter.ts:6-17 | the listing walk's instruction addresses lie in range and strictly increase, so the walk ends |
| Disassembler.ListingAt | src/prettyprinter.ts:12-16 | at an opcode word, the listing is that instruction's line followed by the listing from pc + size, or stops with its error |
| Disassembler.ListingLines | src/prettyprinter.ts:3-19 | line i of the listing is the rendering of the walk's i-th instruction address, and there are no more lines than addresses |
| Disassembler.Listing | src/prettyprinter.ts:3-19 | the listing from pc has at most one line per token from pc on |
| Disassembler.ListingComplete | src/prettyprinter.ts:6-17 | a listing without error has a line for every instruction address of the walk; a listing that stops with error e stops at the first address whose instruction fails to render, and it fails with e |
| Disassembler.PrettyPrint | src/prettyprinter.ts:3-19 | the walk prints exactly `Listing(tokens, 0)`: words with no table entry are skipped one at a time, and known instructions advance by their size |
| Semantics.AddressingBands | src/prettyprinter.ts:33-41 | a value operand resolves exactly when it renders; a literal is itself; a destination resolves exactly when it renders as `r<i>`, and then names the register a value operand with that token reads |
| Semantics.ResolveValue | tests/interpreter.test.ts:27-43 | a value operand resolves exactly when below 32776, else the error names it; a literal is itself, token 32768 + i is register i's content, and over word-valued registers the value is a word |
| Semantics.ResolveTarget | tests/interpreter.test.ts:27-43 | a destination resolves exactly for 32768..32775, to the register index below 8 that the token is 32768 above; otherwise the error names the token |
| Semantics.Compute | src/opcodes.ts:32-91 | only `mod` by zero fails, with `DivisionByZero`; `eq` and `gt` store 1 exactly when their comparison holds, else 0; `add` and `mult` store a word; `mod` stores a remainder below c that differs from b by a multiple of c; two words give a word |
| Semantics.ExecRegister | src/opcodes.ts:14-133 | `set`, `pop`, `not`, `rmem`, `in` change only the destination register and pc, which moves past the instruction; `pop` also changes the stack and `in` the input, and nothing else changes |
| Semantics.ExecBinary | src/opcodes.ts:32-91 | the binary instructions change only the destination register and move pc by 4 |
| Semantics.ExecControl | src/opcodes.ts:44-121 | the jumps, `call` and `ret` change only pc, the stack and `running`; only `ret` may clear `running`, and only `call` and `ret` touch the stack |
| Semantics.ExecOther | src/opcodes.ts:8-139 | `halt`, `push`, `wmem`, `out`, `noop` never touch registers or input and move pc past themselves; only `halt` stops, `push` alone changes the stack, `wmem` alone memory and `out` alone the output |
| Semantics.Exec | src/opcodes.ts:7-140 | a completed instruction keeps 8 registers and the memory size; only control instructions set pc other than past themselves, only register-writing ones change registers, only `wmem` changes memory, only `out` output and only `in` input |
| Semantics.Fetch | src/interpreter.ts:7-18 | the fetch succeeds exactly when pc is in memory, its word has an entry and the entry has semantics; otherwise it reports the first failing check, in that order |
| Semantics.Step | src/interpreter.ts:7-24 | a completed pass leaves a well-formed machine with the same memory size; with tracing off it prints nothing |
| Semantics.LoopBody | src/interpreter.ts:6-25 | the loop body is defined on every well-formed machine and keeps it well formed |
| Semantics.Loop | src/interpreter.ts:5-26 | the loop keeps the machine well formed, and it reports halted exactly when the machine stopped running |
| Semantics.LoopUnfold | src/interpreter.ts:6-25 | a running loop with fuel makes one pass and either stops with that pass's error or continues from its result |
| Semantics.Run | src/interpreter.ts:5-26 | a run keeps the machine well formed, and it reports halted exactly when the final machine is not running |
| Semantics.RunPass | src/interpreter.ts:6-25 | a running machine with fuel makes one `Step`, then runs on from its result, or stops at the state before it with its error |
| Semantics.ExecReadsOperands | src/interpreter.ts:20-24 | an instruction that executes has all of its operand words present and renderable |
| Semantics.StepTraceTransparent | src/interpreter.ts:20-24 | a traced pass stops exactly when the untraced one does, and otherwise reaches the same machine |
| Semantics.LoopSameEffect | src/interpreter.ts:6-25 | two loop bodies with the same effect on every machine run to the same final machine and fail together |
| Semantics.TraceTransparent | src/interpreter.ts:20-22 | tracing only prints: a traced run ends in the same state as an untraced one and fails exactly when it does |
| Semantics.UntracedPrintsNothing | src/interpreter.ts:20-22 | a run with tracing off prints no trace line |
| Semantics.LoopMoreFuel | src/interpreter.ts:6 | once the loop has stopped on its own, more fuel gives the same result |
| Semantics.HaltStep | src/opcodes.ts:8-13 | a fetched `halt` completes, clearing `running` and moving past itself, and prints at most its own trace line |
| Semantics.HaltStops | src/interpreter.ts:6 | after `halt` the loop ends, halted, and no further instruction executes |
| Semantics.FetchFailureStops | src/interpreter.ts:7-18 | an out-of-bounds pc, an unknown opcode or an unimplemented one stops the run with that error, state unchanged and nothing printed |
| Semantics.EmptyStack | src/opcodes.ts:116-121 | with an empty stack, `ret` halts and changes nothing else, while `pop` is an error, `StackUnderflow` when its destination is valid |
| Semantics.PushThenPop | src/opcodes.ts:20-31 | `push a` then `pop r` leaves the stack as it was and a's value in register r |
| Semantics.CallThenRet | src/opcodes.ts:110-121 | `call a` pushes pc + 2 and jumps to a; a following `ret` resumes at pc + 2 with the stack restored |
| Semantics.ConditionalJumps | src/opcodes.ts:50-61 | `jt` jumps exactly when a is nonzero and `jf` exactly when a is zero; otherwise each falls through to pc + 3, and nothing but pc changes |
| Semantics.WmemWritesOneCell | src/opcodes.ts:104-109 | `wmem a b` writes b's value into cell a, and changes no other cell, no register and not the stack |
| Semantics.RmemReadsCell | src/opcodes.ts:98-103 | `rmem a b` puts memory cell b into register a and leaves memory unchanged |
| Semantics.SetEffect | src/opcodes.ts:14-19 | `set a b` completes exactly when both operands resolve, and then only register a, now b's value, and pc change |
| Semantics.BinaryEffect | src/opcodes.ts:32-91 | a binary instruction completes exactly when its operands resolve and it computes a value; it then stores that value in register a and moves pc by 4, and nothing else; `add` and `mult` store a word; `DivisionByZero` arises exactly for `mod` with c == 0 |
| Semantics.NotEffect | src/opcodes.ts:92-97 | `not a b` completes exactly when both operands resolve, storing the 15-bit inverse of b, a word, in register a |
| Semantics.InEffect | src/opcodes.ts:128-133 | `in a` completes exactly when a is a register and input remains; it stores the next input code unit in a and consumes it; no input left is `InputExhausted` |
| Semantics.NoopEffect | src/opcodes.ts:134-139 | `noop` only moves pc past itself |
| Semantics.JmpEffect | src/opcodes.ts:44-49 | `jmp a` completes exactly when a resolves, and only sets pc to a's value |
| Semantics.OutEffect | src/opcodes.ts:122-127 | `out a` completes exactly when a resolves; it emits a's value as one code unit and changes nothing else but pc |
| Semantics.PushEffect | src/opcodes.ts:20-25 | `push a` completes exactly when a resolves, and puts a's value on top of the stack |
| Semantics.PopEffect | src/opcodes.ts:26-31 | `pop a` completes exactly when a is a register and the stack is not empty; it moves the top of the stack into a |
| Semantics.RetEffect | src/opcodes.ts:116-121 | `ret` on a non-empty stack pops the top address and jumps to it, changing nothing else |
| Interpreter.ValueAt | tests/interpreter.test.ts:27-43 | reading a value operand from the runtime gives `Value` of its state |
| Interpreter.TargetAt | tests/interpreter.test.ts:27-43 | reading a destination operand gives `Target` of the state, a register index below 8 |
| Interpreter.FetchAt | src/interpreter.ts:7-18 | the fetch checks on the runtime give `Fetch` of its state |
| Interpreter.ExecuteSet | src/opcodes.ts:14-19 | `set` leaves the runtime in the state `Exec` gives, or reports its error and changes nothing |
| Interpreter.ExecutePop | src/opcodes.ts:26-31 | `pop`, in place, as `Exec` describes it |
| Interpreter.ExecuteNot | src/opcodes.ts:92-97 | `not`, in place, as `Exec` describes it |
| Interpreter.ExecuteRmem | src/opcodes.ts:98-103 | `rmem`, in place, as `Exec` describes it |
| Interpreter.ExecuteIn | src/opcodes.ts:128-133 | `in`, in place, as `Exec` describes it |
| Interpreter.ExecuteBinary | src/opcodes.ts:32-91 | `eq`, `gt`, `add`, `mult`, `mod`, `and`, `or`, in place, as `Exec` describes them |
| Interpreter.ExecuteJmp | src/opcodes.ts:44-49 | `jmp`, in place, as `Exec` describes it |
| Interpreter.ExecuteJt | src/opcodes.ts:50-55 | `jt`, in place, as `Exec` describes it |
| Interpreter.ExecuteJf | src/opcodes.ts:56-61 | `jf`, in place, as `Exec` describes it |
| Interpreter.ExecuteCall | src/opcodes.ts:110-115 | `call`, in place, as `Exec` describes it |
| Interpreter.ExecuteRet | src/opcodes.ts:116-121 | `ret`, in place, as `Exec` describes it |
| Interpreter.ExecuteHalt | src/opcodes.ts:8-13 | `halt`, in place, as `Exec` describes it |
| Interpreter.ExecutePush | src/opcodes.ts:20-25 | `push`, in place, as `Exec` describes it |
| Interpreter.ExecuteWmem | src/opcodes.ts:104-109 | `wmem`, in place, as `Exec` describes it |
| Interpreter.ExecuteOut | src/opcodes.ts:122-127 | `out`, in place, as `Exec` describes it, with the character sent through `Stdout` |
| Interpreter.ExecuteNoop | src/opcodes.ts:134-139 | `noop`, in place, as `Exec` describes it |
| Interpreter.Execute | src/interpreter.ts:24 | dispatching any opcode leaves the runtime in the state `Exec` gives, or reports the error and changes nothing; the program is never touched |
| Interpreter.Pass | src/interpreter.ts:7-24 | one pass on the runtime does what `Step` says: the new state and its lines, or its error with the state untouched |
| Interpreter.Advance | src/interpreter.ts:6-25 | a run from the state before a pass is that pass's lines followed by a run from the state after it |
| Interpreter.Interpret | src/interpreter.ts:5-26 | the loop ends in the final state of `Run`, with its status and trace lines, and leaves the program unchanged |
| Programs.SetThenHaltLayout | tests/interpreter.test.ts:46-65 | the `set r<i> 10; halt` program lays out `set` at 0 and `halt` at 3 |
| Programs.JumpLayout | tests/interpreter.test.ts:66-78 | the jump program has `jmp 6` at 0 and `set r0 20; halt` at 6 |
| Programs.LiteralJumpLayout | tests/interpreter.test.ts:137-153 | the literal-condition program has the branch at 0, the fall-through code at 3 and the target code at 7 |
| Programs.RegisterJumpLayout | tests/interpreter.test.ts:155-171 | the register-condition program has `set r0 <literal>` at 0 and the branch on r0 at 3, targeting 10 |
| Programs.OutsCodeLaidOut | tests/interpreter.test.ts:103-115 | wherever a run of `out` literals and a `halt` is loaded, each `out` is followed by its character and the `halt` ends the run |
| Programs.FooBarLayout | tests/interpreter.test.ts:103-115 | the output test program is an `out` of each of F, O, O, newline, B, A, R, newline, then `halt` |
| Scenarios.SetThenHaltAt | tests/interpreter.test.ts:46-55 | `set r<i> v; halt` at pc halts after two instructions, with register i = v and pc past the `halt` |
| Scenarios.SetThenHalt | tests/interpreter.test.ts:46-65 | `set r<i> 10; halt` halts with register i = 10 and every other register 0 |
| Scenarios.JumpThenSetAt | tests/interpreter.test.ts:66-78 | `jmp a` with `set r<i> v; halt` at a halts with register i = v |
| Scenarios.JumpSkips | tests/interpreter.test.ts:66-78 | the jump program halts with register 0 = 20 |
| Scenarios.ConditionalTaken | tests/interpreter.test.ts:79-102 | a `jt`/`jf` that jumps continues the run at its target |
| Scenarios.ConditionalFallThrough | tests/interpreter.test.ts:79-102 | a `jt`/`jf` that does not jump continues the run at pc + 3 |
| Scenarios.BranchAt | tests/interpreter.test.ts:137-153 | a branch with a readable condition halts with register 0 at 20 exactly when it jumps, else 10 |
| Scenarios.ConditionalJumpLiteral | tests/interpreter.test.ts:137-153 | with a literal condition, `jt` ends with r0 = 20 exactly when the literal is nonzero and `jf` exactly when it is zero, else r0 = 10 |
| Scenarios.RegisterJumpFrom | tests/interpreter.test.ts:155-171 | `set r0 <literal>` before a branch on r0 makes the branch decide on the literal |
| Scenarios.ConditionalJumpRegister | tests/interpreter.test.ts:155-171 | with the condition in r0, `jt`/`jf` jump exactly as on the literal it holds |
| Scenarios.RunOuts | tests/interpreter.test.ts:103-122 | a run of `out` literals then `halt` halts with the buffer and lines as emitting the characters one by one leaves them |
| Scenarios.FooBarProgram | tests/interpreter.test.ts:103-122 | the output test program halts with exactly two lines written, "FOO" then "BAR", and an empty buffer |

## Left out

- `src/main.ts` is not part of this model. It holds the command line, `process.argv`, `process.exit` and console output.
- File reading in `src/parse.ts` is left out. `Decode` works on an in-memory byte sequence. Each `process.exit(1)` is a `ParseError` result, and the console message is left out.
- Console sinks are left out. `console.info` in `prettyPrint` becomes the returned lines. `console.log` of trace lines becomes the `traced` sequence. The line writer's calls are recorded in the ghost field `written`.
- The `async`/`await` of `interpret` is left out. So is the line-oriented stdin source: `in` takes the next character from a finite sequence given at construction.
- `Semantics.Run`, `Interpreter.Interpret`: the loop runs at most `fuel` passes and reports `OutOfFuel` when they run out. A program that never halts is therefore not modelled as running forever.
- `opcode.impl` does not exist in `src/opcodes.ts`, and `src/interpreter.ts:16,24` relies on it. The semantics come from the table's description comments. The `impl == undefined` check is the parameter `implemented`, the set of opcodes that have semantics.
- `src/interpreter.ts:21` passes three arguments to `formatInstruction`, which is defined with two and is not exported. The model uses the two-argument rendering. A trace line that cannot render stops the run with `TraceFailed`.
- `Array<number>(2^15)` at `src/runtime.ts:24` creates 13 cells (`^` is exclusive or). The zeroing loop grows the array to 32768 anyway, so the model has no separate effect for it.
- Operation orders inside one instruction are not modelled as observable: every operand is resolved before anything is written, so a failing instruction leaves the state unchanged.
- The source has no code for these cases, and the description comments do not cover them: a missing operand word, `mod` by zero, an `rmem`/`wmem` address outside memory, an invalid destination token, and reading from exhausted input. The model makes each of them an error.
- Dafny's `%` agrees with JavaScript's on the non-negative operands used here, so `add`, `mult`, `mod` and `out` need no sign handling.
- Strings are sequences of UTF-16 code units. `out` emits its value modulo 65536, as `String.fromCharCode` does. No other encoding is modelled.
- The tests construct `new Runtime()` with no tokens and pass the program as `interpret`'s second argument. The scenarios instead load each test's program into a fresh runtime and run it untraced, which is what the tests evidently mean.
- Semantics.Exec: its own contract states what each instruction leaves unchanged, not the value it computes. That is stated by one lemma per instruction: `SetEffect`, `PopEffect` (with `EmptyStack`), `NotEffect`, `RmemReadsCell`, `InEffect`, `BinaryEffect`, `JmpEffect`, `ConditionalJumps`, `CallThenRet`, `RetEffect` (with `EmptyStack`), `HaltStep`, `PushEffect`, `WmemWritesOneCell`, `OutEffect` and `NoopEffect`.
