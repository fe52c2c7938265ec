/**
 * Whole programs run from a fresh runtime with every instruction
 * implemented: the register, jump and output programs the interpreter is
 * expected to handle.
 */
module Scenarios {
  import opened Wrappers
  import opened Opcodes
  import opened VmState
  import opened Semantics
  import opened Programs

  /** A program with no input, run from a fresh runtime with every instruction implemented. */
  function RunProgram(program: seq<nat>, fuel: nat): RunResult {
    Run(Initial(program, []), AllOpcodes, false, fuel)
  }

  /** Prepending no lines changes nothing. */
  lemma NothingPrepended(r: RunResult)
    ensures PrependLines([], r) == r
  {
    assert [] + r.traced == r.traced;
  }

  /** An untraced run that executes one instruction continues from its result. */
  lemma RunStep(m: Machine, op: Opcode, next: Machine, fuel: nat)
    requires WellFormed(m) && m.running && Fetch(m, AllOpcodes) == Ok(op) && Exec(m, op) == Ok(next)
    ensures Run(m, AllOpcodes, false, fuel + 1) == Run(next, AllOpcodes, false, fuel)
  {
    assert Step(m, AllOpcodes, false) == Next(next, []);
    RunPass(m, AllOpcodes, false, fuel + 1);
    NothingPrepended(Run(next, AllOpcodes, false, fuel));
  }

  /** `set r<i> v` at pc is fetched and writes v into register i. */
  lemma SetExec(m: Machine, i: nat, v: nat)
    requires WellFormed(m) && SetAt(m.mem, m.pc, i, v)
    ensures Fetch(m, AllOpcodes) == Ok(Set)
    ensures Exec(m, Set) == Ok(m.(regs := m.regs[i := v], pc := m.pc + 3))
  {
    assert Order[1] == Set;
    assert Target(m, 1) == Ok(i) && Value(m, 2) == Ok(v);
    assert ExecRegister(m, Set) == Ok(Store(m, Set, i, v));
  }

  /** `halt` at pc is fetched and stops the machine just past itself. */
  lemma HaltExec(m: Machine)
    requires WellFormed(m) && HaltAt(m.mem, m.pc)
    ensures Fetch(m, AllOpcodes) == Ok(Halt)
    ensures Exec(m, Halt) == Ok(m.(running := false, pc := m.pc + 1))
  {
    assert Order[0] == Halt;
  }

  /** From a machine whose pc holds `set r<i> v`, the run continues with register i = v, past the instruction. */
  lemma SetStep(m: Machine, i: nat, v: nat, fuel: nat)
    requires WellFormed(m) && m.running && SetAt(m.mem, m.pc, i, v)
    ensures Run(m, AllOpcodes, false, fuel + 1) ==
      Run(m.(regs := m.regs[i := v], pc := m.pc + 3), AllOpcodes, false, fuel)
  {
    SetExec(m, i, v);
    RunStep(m, Set, m.(regs := m.regs[i := v], pc := m.pc + 3), fuel);
  }

  /** From a machine whose pc holds `halt`, the run halts there, just past it. */
  lemma HaltRun(m: Machine)
    requires WellFormed(m) && m.running && HaltAt(m.mem, m.pc)
    ensures Run(m, AllOpcodes, false, 1) == RunResult(m.(running := false, pc := m.pc + 1), Halted, [])
  {
    HaltExec(m);
    var next := m.(running := false, pc := m.pc + 1);
    assert Run(next, AllOpcodes, false, 0) == RunResult(next, Halted, []);
    RunStep(m, Halt, next, 0);
  }

  /** From a machine whose pc holds `set r<i> v; halt`: two instructions, and it halts with register i = v. */
  lemma SetThenHaltAt(m: Machine, i: nat, v: nat)
    requires WellFormed(m) && m.running && SetAt(m.mem, m.pc, i, v) && HaltAt(m.mem, m.pc + 3)
    ensures Run(m, AllOpcodes, false, 2) ==
      RunResult(m.(regs := m.regs[i := v], pc := m.pc + 4, running := false), Halted, [])
  {
    var m1 := m.(regs := m.regs[i := v], pc := m.pc + 3);
    assert WellFormed(m1) && m1.running && HaltAt(m1.mem, m1.pc);
    assert m1.(running := false, pc := m1.pc + 1) == m.(regs := m.regs[i := v], pc := m.pc + 4, running := false);
    SetStep(m, i, v, 1);
    HaltRun(m1);
  }

  /** `set r<i> 10; halt` halts with register i holding 10 and the others 0. */
  lemma SetThenHalt(i: nat)
    requires i < RegisterCount
    ensures var r := RunProgram([Index(Set), RegisterBase + i, 10, Index(Halt)], 2);
      r.status == Halted && r.final.regs[i] == 10 &&
      forall j :: 0 <= j < RegisterCount && j != i ==> r.final.regs[j] == 0
  {
    var prog := [Index(Set), RegisterBase + i, 10, Index(Halt)];
    var m0 := Initial(prog, []);
    SetThenHaltLayout(i);
    assert m0.mem == LoadImage(prog) && m0.pc == 0;
    var final := m0.(regs := m0.regs[i := 10], pc := m0.pc + 4, running := false);
    assert final.regs[i] == 10 && forall j :: 0 <= j < RegisterCount && j != i ==> final.regs[j] == 0;
    SetThenHaltAt(m0, i, 10);
  }

  /** A jump at pc is fetched as itself. */
  lemma JumpFetch(m: Machine, op: Opcode)
    requires (op == Jmp || op == Jt || op == Jf) && m.pc < |m.mem| && m.mem[m.pc] == Index(op)
    ensures Fetch(m, AllOpcodes) == Ok(op)
  {
    assert Order[6] == Jmp && Order[7] == Jt && Order[8] == Jf;
  }

  /** From a machine whose pc holds `jmp a`, the run continues at a. */
  lemma JmpStep(m: Machine, fuel: nat)
    requires WellFormed(m) && m.running && m.pc < |m.mem| && m.mem[m.pc] == Index(Jmp) && Value(m, 1).Ok?
    ensures Run(m, AllOpcodes, false, fuel + 1) == Run(m.(pc := Value(m, 1).value), AllOpcodes, false, fuel)
  {
    JumpFetch(m, Jmp);
    RunStep(m, Jmp, m.(pc := Value(m, 1).value), fuel);
  }

  /** From a machine whose pc holds `jmp a` with `set r<i> v; halt` at a: it halts with register i = v. */
  lemma JumpThenSetAt(m: Machine, target: nat, i: nat, v: nat)
    requires WellFormed(m) && m.running && target < RegisterBase
    requires m.pc + 1 < |m.mem| && m.mem[m.pc] == Index(Jmp) && m.mem[m.pc + 1] == target
    requires SetAt(m.mem, target, i, v) && HaltAt(m.mem, target + 3)
    ensures Run(m, AllOpcodes, false, 3) ==
      RunResult(m.(regs := m.regs[i := v], pc := target + 4, running := false), Halted, [])
  {
    var m1 := m.(pc := target);
    assert Value(m, 1) == Ok(target);
    assert WellFormed(m1) && m1.running && SetAt(m1.mem, m1.pc, i, v) && HaltAt(m1.mem, m1.pc + 3);
    assert m1.(regs := m1.regs[i := v], pc := m1.pc + 4, running := false) ==
      m.(regs := m.regs[i := v], pc := target + 4, running := false);
    JmpStep(m, 2);
    SetThenHaltAt(m1, i, v);
  }

  /** `jmp 6` skips `set r0 10; halt` and runs `set r0 20; halt`. */
  lemma JumpSkips()
    ensures var r := RunProgram(JumpProgram, 3);
      r.status == Halted && r.final.regs[0] == 20
  {
    var m0 := Initial(JumpProgram, []);
    JumpLayout();
    assert m0.mem == LoadImage(JumpProgram) && m0.pc == 0;
    assert m0.(regs := m0.regs[0 := 20], pc := 10, running := false).regs[0] == 20;
    JumpThenSetAt(m0, 6, 0, 20);
  }

  /** From a machine whose pc holds `jt a b` or `jf a b` that jumps, the run continues at b. */
  lemma ConditionalTaken(m: Machine, op: Opcode, fuel: nat)
    requires ConditionalAt(m, op) && m.running && Jumps(op, Value(m, 1).value)
    ensures Run(m, AllOpcodes, false, fuel + 1) == Run(m.(pc := Value(m, 2).value), AllOpcodes, false, fuel)
  {
    JumpFetch(m, op);
    ConditionalJumps(m);
    RunStep(m, op, m.(pc := Value(m, 2).value), fuel);
  }

  /** From a machine whose pc holds `jt a b` or `jf a b` that does not jump, the run continues past it. */
  lemma ConditionalFallThrough(m: Machine, op: Opcode, fuel: nat)
    requires ConditionalAt(m, op) && m.running && !Jumps(op, Value(m, 1).value)
    ensures Run(m, AllOpcodes, false, fuel + 1) == Run(m.(pc := m.pc + 3), AllOpcodes, false, fuel)
  {
    JumpFetch(m, op);
    ConditionalJumps(m);
    RunStep(m, op, m.(pc := m.pc + 3), fuel);
  }

  /** A branch laid out as above that jumps: it halts with register 0 at 20. */
  lemma BranchTaken(m: Machine, op: Opcode, cond: nat, target: nat)
    requires WellFormed(m) && m.running && (op == Jt || op == Jf) && target < RegisterBase
    requires BranchLayout(m.mem, m.pc, op, cond, target) && Value(m, 1).Ok? && Jumps(op, Value(m, 1).value)
    ensures Run(m, AllOpcodes, false, 3) ==
      RunResult(m.(regs := m.regs[0 := 20], pc := target + 4, running := false), Halted, [])
  {
    var m1 := m.(pc := target);
    assert Value(m, 2) == Ok(target);
    assert ConditionalAt(m, op);
    assert WellFormed(m1) && m1.running && SetAt(m1.mem, m1.pc, 0, 20) && HaltAt(m1.mem, m1.pc + 3);
    assert m1.(regs := m1.regs[0 := 20], pc := m1.pc + 4, running := false) ==
      m.(regs := m.regs[0 := 20], pc := target + 4, running := false);
    ConditionalTaken(m, op, 2);
    SetThenHaltAt(m1, 0, 20);
  }

  /** A branch laid out as above that falls through: it halts with register 0 at 10. */
  lemma BranchNotTaken(m: Machine, op: Opcode, cond: nat, target: nat)
    requires WellFormed(m) && m.running && (op == Jt || op == Jf) && target < RegisterBase
    requires BranchLayout(m.mem, m.pc, op, cond, target) && Value(m, 1).Ok? && !Jumps(op, Value(m, 1).value)
    ensures Run(m, AllOpcodes, false, 3) ==
      RunResult(m.(regs := m.regs[0 := 10], pc := m.pc + 7, running := false), Halted, [])
  {
    var m1 := m.(pc := m.pc + 3);
    assert Value(m, 2) == Ok(target);
    assert ConditionalAt(m, op);
    assert WellFormed(m1) && m1.running && SetAt(m1.mem, m1.pc, 0, 10) && HaltAt(m1.mem, m1.pc + 3);
    assert m1.(regs := m1.regs[0 := 10], pc := m1.pc + 4, running := false) ==
      m.(regs := m.regs[0 := 10], pc := m.pc + 7, running := false);
    ConditionalFallThrough(m, op, 2);
    SetThenHaltAt(m1, 0, 10);
  }

  /**
   * From a machine whose pc holds a branch laid out as above, with a
   * readable condition and a literal target: register 0 ends at 20 exactly
   * when the instruction jumps.
   */
  lemma BranchAt(m: Machine, op: Opcode, cond: nat, target: nat)
    requires WellFormed(m) && m.running && (op == Jt || op == Jf) && target < RegisterBase
    requires BranchLayout(m.mem, m.pc, op, cond, target) && Value(m, 1).Ok?
    ensures var r := Run(m, AllOpcodes, false, 3);
      r.status == Halted && r.final.regs[0] == (if Jumps(op, Value(m, 1).value) then 20 else 10)
  {
    if Jumps(op, Value(m, 1).value) {
      assert m.(regs := m.regs[0 := 20], pc := target + 4, running := false).regs[0] == 20;
      BranchTaken(m, op, cond, target);
    } else {
      assert m.(regs := m.regs[0 := 10], pc := m.pc + 7, running := false).regs[0] == 10;
      BranchNotTaken(m, op, cond, target);
    }
  }

  /**
   * `jt`/`jf` with a literal condition, then `set r0 10; halt` at 3 and
   * `set r0 20; halt` at 7: register 0 ends at 20 exactly when the
   * instruction jumps.
   */
  lemma ConditionalJumpLiteral(op: Opcode, literal: nat)
    requires (op == Jt || op == Jf) && literal < RegisterBase
    ensures var r := RunProgram(LiteralJumpProgram(op, literal), 3);
      r.status == Halted && r.final.regs[0] == (if Jumps(op, literal) then 20 else 10)
  {
    var m0 := Initial(LiteralJumpProgram(op, literal), []);
    LiteralJumpLayout(op, literal);
    assert m0.mem == LoadImage(LiteralJumpProgram(op, literal)) && m0.pc == 0;
    assert Value(m0, 1) == Ok(literal);
    BranchAt(m0, op, literal, 7);
  }

  /**
   * From a machine whose pc holds `set r0 <literal>`, then `jt`/`jf` on
   * register 0 to 10 laid out as in the register-condition jump test.
   */
  lemma RegisterJumpFrom(m: Machine, op: Opcode, literal: nat)
    requires (op == Jt || op == Jf) && literal < RegisterBase
    requires WellFormed(m) && m.running && SetAt(m.mem, m.pc, 0, literal) && BranchLayout(m.mem, m.pc + 3, op, R0, 10)
    ensures var r := Run(m, AllOpcodes, false, 4);
      r.status == Halted && r.final.regs[0] == (if Jumps(op, literal) then 20 else 10)
  {
    var m1 := m.(regs := m.regs[0 := literal], pc := m.pc + 3);
    assert WellFormed(m1) && m1.running && BranchLayout(m1.mem, m1.pc, op, R0, 10);
    assert Value(m1, 1) == Ok(literal);
    BranchAt(m1, op, R0, 10);
    SetStep(m, 0, literal, 3);
  }

  /**
   * `set r0 <literal>`, then `jt`/`jf` on register 0 to 10: register 0 ends
   * at 20 exactly when the instruction jumps on the register's value.
   */
  lemma ConditionalJumpRegister(op: Opcode, literal: nat)
    requires (op == Jt || op == Jf) && literal < RegisterBase
    ensures var r := RunProgram(RegisterJumpProgram(op, literal), 4);
      r.status == Halted && r.final.regs[0] == (if Jumps(op, literal) then 20 else 10)
  {
    var m0 := Initial(RegisterJumpProgram(op, literal), []);
    RegisterJumpLayout(op, literal);
    assert m0.mem == LoadImage(RegisterJumpProgram(op, literal)) && m0.pc == 0;
    RegisterJumpFrom(m0, op, literal);
  }

  /** `out c` at pc is fetched and emits c. */
  lemma OutExec(m: Machine, c: CodeUnit)
    requires WellFormed(m) && c < RegisterBase
    requires m.pc + 1 < |m.mem| && m.mem[m.pc] == Index(Out) && m.mem[m.pc + 1] == c
    ensures Fetch(m, AllOpcodes) == Ok(Out)
    ensures var emitted := Emit(m.outBuf, m.written, [c]);
      Exec(m, Out) == Ok(m.(outBuf := emitted.0, written := emitted.1, pc := m.pc + 2))
  {
    assert Order[19] == Out;
    assert Value(m, 1) == Ok(c);
    assert [c % 0x1_0000] == [c];
  }

  /** From a machine whose pc holds `out c`, the run continues with c emitted, past the instruction. */
  lemma OutStep(m: Machine, c: CodeUnit, fuel: nat)
    requires WellFormed(m) && m.running && c < RegisterBase
    requires m.pc + 1 < |m.mem| && m.mem[m.pc] == Index(Out) && m.mem[m.pc + 1] == c
    ensures var emitted := Emit(m.outBuf, m.written, [c]);
      Run(m, AllOpcodes, false, fuel + 1) ==
      Run(m.(outBuf := emitted.0, written := emitted.1, pc := m.pc + 2), AllOpcodes, false, fuel)
  {
    OutExec(m, c);
    var emitted := Emit(m.outBuf, m.written, [c]);
    RunStep(m, Out, m.(outBuf := emitted.0, written := emitted.1, pc := m.pc + 2), fuel);
  }

  /**
   * A run of `out` instructions, then `halt`: the machine halts with the
   * output buffer and the writer's lines as emitting the units one at a time
   * leaves them.
   */
  lemma {:induction false} RunOuts(m: Machine, units: seq<CodeUnit>)
    requires WellFormed(m) && m.running && OutsThenHalt(m.mem, m.pc, units)
    ensures var r := Run(m, AllOpcodes, false, |units| + 1);
      r.status == Halted && (r.final.outBuf, r.final.written) == EmitEach(m.outBuf, m.written, units)
    decreases |units|
  {
    if units == [] {
      assert HaltAt(m.mem, m.pc);
      assert EmitEach(m.outBuf, m.written, units) == (m.outBuf, m.written);
      HaltRun(m);
    } else {
      var emitted := Emit(m.outBuf, m.written, [units[0]]);
      var m1 := m.(outBuf := emitted.0, written := emitted.1, pc := m.pc + 2);
      assert WellFormed(m1) && m1.running && OutsThenHalt(m1.mem, m1.pc, units[1..]);
      assert EmitEach(m.outBuf, m.written, units) == EmitEach(m1.outBuf, m1.written, units[1..]);
      assert |units[1..]| + 1 == |units|;
      OutStep(m, units[0], |units|);
      RunOuts(m1, units[1..]);
    }
  }

  /**
   * Printing F, O, O, newline, B, A, R, newline with `out` literals, then
   * halting: the writer receives exactly "FOO" then "BAR" and the buffer
   * ends empty.
   */
  lemma FooBarProgram()
    ensures var r := RunProgram(FooBarCode, 9);
      r.status == Halted && r.final.outBuf == [] && r.final.written == [[70, 79, 79], [66, 65, 82]]
  {
    var m0 := Initial(FooBarCode, []);
    FooBarLayout();
    assert m0.mem == LoadImage(FooBarCode) && m0.pc == 0 && m0.outBuf == [] && m0.written == [];
    FooBarLines([]);
    RunOuts(m0, FooBar);
  }
}
