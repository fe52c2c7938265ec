/**
 * The programs of the interpreter's test suite and what each lays out in
 * memory: which instruction sits at which address.
 */
module Programs {
  import opened Wrappers
  import opened Opcodes
  import opened VmState
  import opened Semantics

  /** The operand tokens naming registers 0 and 7. */
  const R0: nat := RegisterBase
  const R7: nat := RegisterBase + 7

  /** `set r<i> v`, with a valid register and a literal value, is laid out in mem at pc. */
  predicate SetAt(mem: seq<nat>, pc: nat, i: nat, v: nat) {
    i < RegisterCount && v < RegisterBase &&
    pc + 2 < |mem| && mem[pc] == Index(Set) && mem[pc + 1] == RegisterBase + i && mem[pc + 2] == v
  }

  /** `halt` is laid out in mem at pc. */
  predicate HaltAt(mem: seq<nat>, pc: nat) {
    pc < |mem| && mem[pc] == Index(Halt)
  }

  /** The register test program is `set r<i> 10` at 0 and `halt` at 3. */
  lemma SetThenHaltLayout(i: nat)
    requires i < RegisterCount
    ensures var mem := LoadImage([Index(Set), RegisterBase + i, 10, Index(Halt)]);
      SetAt(mem, 0, i, 10) && HaltAt(mem, 3)
  {
    var prog := [Index(Set), RegisterBase + i, 10, Index(Halt)];
    var mem := LoadImage(prog);
    assert mem[0] == prog[0] && mem[1] == prog[1] && mem[2] == prog[2] && mem[3] == prog[3];
  }

  /** The program for the unconditional jump test: `jmp 6` over `set r0 10; halt` to `set r0 20; halt`. */
  const JumpProgram: seq<nat> := [Index(Jmp), 6, Index(Set), R0, 10, Index(Halt), Index(Set), R0, 20, Index(Halt)]

  /** The jump test program is `jmp 6` at 0 and `set r0 20; halt` at 6. */
  lemma JumpLayout()
    ensures var mem := LoadImage(JumpProgram);
      1 < |mem| && mem[0] == Index(Jmp) && mem[1] == 6 && SetAt(mem, 6, 0, 20) && HaltAt(mem, 9)
  {
    var mem := LoadImage(JumpProgram);
    assert mem[0] == JumpProgram[0] && mem[1] == JumpProgram[1];
    assert mem[6] == JumpProgram[6] && mem[7] == JumpProgram[7] && mem[8] == JumpProgram[8] && mem[9] == JumpProgram[9];
  }

  /** The machine's pc holds `jt a b` or `jf a b` whose operands both read. */
  predicate ConditionalAt(m: Machine, op: Opcode) {
    WellFormed(m) && (op == Jt || op == Jf) && m.pc < |m.mem| && m.mem[m.pc] == Index(op) &&
    Value(m, 1).Ok? && Value(m, 2).Ok?
  }

  /** Whether `jt` (op = Jt) or `jf` (op = Jf) jumps on condition value a. */
  predicate Jumps(op: Opcode, a: nat) {
    if op == Jt then a != 0 else a == 0
  }

  /**
   * `jt`/`jf` on cond to target is laid out at pc, with `set r0 10; halt`
   * just after it and `set r0 20; halt` at the target.
   */
  predicate BranchLayout(mem: seq<nat>, pc: nat, op: Opcode, cond: nat, target: nat) {
    pc + 2 < |mem| && mem[pc] == Index(op) && mem[pc + 1] == cond && mem[pc + 2] == target &&
    SetAt(mem, pc + 3, 0, 10) && HaltAt(mem, pc + 3 + 3) && SetAt(mem, target, 0, 20) && HaltAt(mem, target + 3)
  }

  /** The program for the literal-condition jump test. */
  function LiteralJumpProgram(op: Opcode, literal: nat): seq<nat> {
    [Index(op), literal, 7, Index(Set), R0, 10, Index(Halt), Index(Set), R0, 20, Index(Halt)]
  }

  /** The literal-condition jump test program is a branch on the literal to 7. */
  lemma LiteralJumpLayout(op: Opcode, literal: nat)
    ensures BranchLayout(LoadImage(LiteralJumpProgram(op, literal)), 0, op, literal, 7)
  {
    var p := LiteralJumpProgram(op, literal);
    var mem := LoadImage(p);
    assert mem[0] == p[0] && mem[1] == p[1] && mem[2] == p[2];
    assert mem[3] == p[3] && mem[4] == p[4] && mem[5] == p[5] && mem[6] == p[6];
    assert mem[7] == p[7] && mem[8] == p[8] && mem[9] == p[9] && mem[10] == p[10];
  }

  /** The program for the register-condition jump test. */
  function RegisterJumpProgram(op: Opcode, literal: nat): seq<nat> {
    [Index(Set), R0, literal, Index(op), R0, 10, Index(Set), R0, 10, Index(Halt), Index(Set), R0, 20, Index(Halt)]
  }

  /** The register-condition jump test program sets register 0, then branches on it to 10. */
  lemma RegisterJumpLayout(op: Opcode, literal: nat)
    requires literal < RegisterBase
    ensures var mem := LoadImage(RegisterJumpProgram(op, literal));
      SetAt(mem, 0, 0, literal) && BranchLayout(mem, 3, op, R0, 10)
  {
    var p := RegisterJumpProgram(op, literal);
    var mem := LoadImage(p);
    assert mem[0] == p[0] && mem[1] == p[1] && mem[2] == p[2];
    assert mem[3] == p[3] && mem[4] == p[4] && mem[5] == p[5];
    assert mem[6] == p[6] && mem[7] == p[7] && mem[8] == p[8] && mem[9] == p[9];
    assert mem[10] == p[10] && mem[11] == p[11] && mem[12] == p[12] && mem[13] == p[13];
  }

  /** From pc: one `out c` per code unit, in order, then `halt`. */
  predicate OutsThenHalt(mem: seq<nat>, pc: nat, units: seq<CodeUnit>)
    decreases |units|
  {
    if units == [] then HaltAt(mem, pc)
    else
      units[0] < RegisterBase && pc + 1 < |mem| && mem[pc] == Index(Out) && mem[pc + 1] == units[0] &&
      OutsThenHalt(mem, pc + 2, units[1..])
  }

  /** The code that prints each unit with its own `out`, then halts. */
  function OutsCode(units: seq<CodeUnit>): (code: seq<nat>)
    ensures |code| == 2 * |units| + 1
    decreases |units|
  {
    if units == [] then [Index(Halt)] else [Index(Out), units[0]] + OutsCode(units[1..])
  }

  /** Wherever OutsCode is loaded, the `out` run it encodes is laid out. */
  lemma {:induction false} OutsCodeLaidOut(mem: seq<nat>, pc: nat, units: seq<CodeUnit>)
    requires forall i :: 0 <= i < |units| ==> units[i] < RegisterBase
    requires pc + 2 * |units| + 1 <= |mem| && mem[pc..pc + 2 * |units| + 1] == OutsCode(units)
    ensures OutsThenHalt(mem, pc, units)
    decreases |units|
  {
    var code := OutsCode(units);
    assert mem[pc] == code[0];
    if units != [] {
      var rest := units[1..];
      assert code == [Index(Out), units[0]] + OutsCode(rest);
      assert mem[pc + 1] == code[1];
      assert mem[pc + 2..pc + 2 + 2 * |rest| + 1] == code[2..] == OutsCode(rest);
      OutsCodeLaidOut(mem, pc + 2, rest);
    }
  }

  /** The characters F, O, O, newline, B, A, R, newline, each printed by its own `out`. */
  const FooBar: seq<CodeUnit> := [70, 79, 79, 10, 66, 65, 82, 10]

  /** The output test program: `out` of each character of FooBar, then `halt`. */
  const FooBarCode: seq<nat> := [Index(Out), 70, Index(Out), 79, Index(Out), 79, Index(Out), 10,
                                 Index(Out), 66, Index(Out), 65, Index(Out), 82, Index(Out), 10, Index(Halt)]

  /** The output test program is the code OutsCode gives for FooBar. */
  lemma FooBarIsOutsCode()
    ensures FooBarCode == OutsCode(FooBar)
  {
    assert OutsCode(FooBar[8..]) == [Index(Halt)];
    assert OutsCode(FooBar[6..]) == [Index(Out), 82, Index(Out), 10, Index(Halt)];
    assert OutsCode(FooBar[4..]) == [Index(Out), 66, Index(Out), 65] + OutsCode(FooBar[6..]);
    assert OutsCode(FooBar[2..]) == [Index(Out), 79, Index(Out), 10] + OutsCode(FooBar[4..]);
  }

  /** The output test program is the `out` run of FooBar, from address 0. */
  lemma FooBarLayout()
    ensures OutsThenHalt(LoadImage(FooBarCode), 0, FooBar)
  {
    var mem := LoadImage(FooBarCode);
    FooBarIsOutsCode();
    assert mem[0..17] == mem[..|FooBarCode|];
    OutsCodeLaidOut(mem, 0, FooBar);
  }
}
