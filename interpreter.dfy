/**
 * The fetch-decode-execute loop over a runtime object, updating its pc,
 * registers, memory, stack, flag and output buffer in place.
 */
module Interpreter {
  import opened Wrappers
  import opened Opcodes
  import opened VmState
  import opened VmRuntime
  import opened Semantics
  import Disassembler

  /** The operand token k words after pc. */
  method OperandAt(rt: Runtime, k: nat) returns (r: Result<nat, VmError>)
    requires rt.Valid()
    ensures r == Operand(rt.Abs(), k)
  {
    if rt.pc + k < rt.memory.Length {
      r := Ok(rt.memory[rt.pc + k]);
    } else {
      r := Err(MissingOperand(rt.pc + k));
    }
  }

  /** Operand k as a value: a literal, or the register it names. */
  method ValueAt(rt: Runtime, k: nat) returns (r: Result<nat, VmError>)
    requires rt.Valid()
    ensures r == Value(rt.Abs(), k)
  {
    var token := OperandAt(rt, k);
    if token.Err? {
      return Err(token.error);
    }
    var t := token.value;
    if t < RegisterBase {
      r := Ok(t);
    } else if t < TokenLimit {
      r := Ok(rt.registers[t - RegisterBase]);
    } else {
      r := Err(InvalidOperand(t));
    }
  }

  /** Operand k as a destination register. */
  method TargetAt(rt: Runtime, k: nat) returns (r: Result<nat, VmError>)
    requires rt.Valid()
    ensures r == Target(rt.Abs(), k)
    ensures r.Ok? ==> r.value < RegisterCount
  {
    var token := OperandAt(rt, k);
    if token.Err? {
      return Err(token.error);
    }
    r := ResolveTarget(token.value);
  }

  /** The fetch checks: pc in memory, a table entry, semantics for it. */
  method FetchAt(rt: Runtime, implemented: set<Opcode>) returns (r: Result<Opcode, VmError>)
    requires rt.Valid()
    ensures r == Fetch(rt.Abs(), implemented)
  {
    if rt.pc >= rt.memory.Length {
      return Err(OutOfBoundsPC(rt.pc));
    }
    var index := rt.memory[rt.pc];
    var entry := Lookup(index);
    if entry.None? {
      return Err(UnknownOpcode(index));
    }
    if entry.value !in implemented {
      return Err(UnimplementedOpcode(Mnemonic(entry.value)));
    }
    r := Ok(entry.value);
  }

  /** Writes v into register a and moves pc past the instruction. */
  method StoreAt(rt: Runtime, op: Opcode, a: nat, v: nat)
    requires rt.Valid() && a < RegisterCount
    modifies rt`pc, rt.registers
    ensures rt.Valid() && rt.Abs() == Store(old(rt.Abs()), op, a, v)
  {
    rt.registers[a] := v;
    rt.pc := rt.pc + Size(op);
  }

  /**
   * The runtime did what `spec` says to the state it started in: on success
   * it is in the new state and reports no error; on an error it reports it
   * and is unchanged.
   */
  ghost predicate Performed(rt: Runtime, before: Machine, spec: Result<Machine, VmError>, err: Option<VmError>)
    reads rt, rt.registers, rt.memory
    requires rt.Valid()
  {
    match spec
    case Ok(m) => err == None && rt.Abs() == m
    case Err(e) => err == Some(e) && rt.Abs() == before
  }

  /** `set a b`: register a gets b's value. */
  method ExecuteSet(rt: Runtime) returns (err: Option<VmError>)
    requires rt.Valid()
    modifies rt, rt.memory, rt.registers
    ensures rt.Valid() && rt.memory == old(rt.memory) && rt.registers == old(rt.registers)
    ensures rt.program == old(rt.program)
    ensures Performed(rt, old(rt.Abs()), ExecRegister(old(rt.Abs()), Set), err)
  {
    var a := TargetAt(rt, 1);
    if a.Err? { return Some(a.error); }
    var b := ValueAt(rt, 2);
    if b.Err? { return Some(b.error); }
    StoreAt(rt, Set, a.value, b.value);
    err := None;
  }

  /** `pop a`: the top of the stack moves into register a; an empty stack is an error. */
  method ExecutePop(rt: Runtime) returns (err: Option<VmError>)
    requires rt.Valid()
    modifies rt, rt.memory, rt.registers
    ensures rt.Valid() && rt.memory == old(rt.memory) && rt.registers == old(rt.registers)
    ensures rt.program == old(rt.program)
    ensures Performed(rt, old(rt.Abs()), ExecRegister(old(rt.Abs()), Pop), err)
  {
    var a := TargetAt(rt, 1);
    if a.Err? { return Some(a.error); }
    if rt.stack == [] { return Some(StackUnderflow); }
    var top := rt.stack[|rt.stack| - 1];
    StoreAt(rt, Pop, a.value, top);
    rt.stack := rt.stack[..|rt.stack| - 1];
    err := None;
  }

  /** `not a b`: register a gets the 15-bit inverse of b. */
  method ExecuteNot(rt: Runtime) returns (err: Option<VmError>)
    requires rt.Valid()
    modifies rt, rt.memory, rt.registers
    ensures rt.Valid() && rt.memory == old(rt.memory) && rt.registers == old(rt.registers)
    ensures rt.program == old(rt.program)
    ensures Performed(rt, old(rt.Abs()), ExecRegister(old(rt.Abs()), Not), err)
  {
    var a := TargetAt(rt, 1);
    if a.Err? { return Some(a.error); }
    var b := ValueAt(rt, 2);
    if b.Err? { return Some(b.error); }
    StoreAt(rt, Not, a.value, Not15(b.value));
    err := None;
  }

  /** `rmem a b`: register a gets memory cell b. */
  method ExecuteRmem(rt: Runtime) returns (err: Option<VmError>)
    requires rt.Valid()
    modifies rt, rt.memory, rt.registers
    ensures rt.Valid() && rt.memory == old(rt.memory) && rt.registers == old(rt.registers)
    ensures rt.program == old(rt.program)
    ensures Performed(rt, old(rt.Abs()), ExecRegister(old(rt.Abs()), Rmem), err)
  {
    var a := TargetAt(rt, 1);
    if a.Err? { return Some(a.error); }
    var b := ValueAt(rt, 2);
    if b.Err? { return Some(b.error); }
    if b.value >= rt.memory.Length { return Some(InvalidAddress(b.value)); }
    StoreAt(rt, Rmem, a.value, rt.memory[b.value]);
    err := None;
  }

  /** `in a`: register a gets the next input character. */
  method ExecuteIn(rt: Runtime) returns (err: Option<VmError>)
    requires rt.Valid()
    modifies rt, rt.memory, rt.registers
    ensures rt.Valid() && rt.memory == old(rt.memory) && rt.registers == old(rt.registers)
    ensures rt.program == old(rt.program)
    ensures Performed(rt, old(rt.Abs()), ExecRegister(old(rt.Abs()), In), err)
  {
    var a := TargetAt(rt, 1);
    if a.Err? { return Some(a.error); }
    if rt.stdin == [] { return Some(InputExhausted); }
    StoreAt(rt, In, a.value, rt.stdin[0]);
    rt.stdin := rt.stdin[1..];
    err := None;
  }

  /** Instructions that store a function of two values: `eq`, `gt`, `add`, `mult`, `mod`, `and`, `or`. */
  method ExecuteBinary(rt: Runtime, op: Opcode) returns (err: Option<VmError>)
    requires rt.Valid() && IsBinary(op)
    modifies rt, rt.memory, rt.registers
    ensures rt.Valid() && rt.memory == old(rt.memory) && rt.registers == old(rt.registers)
    ensures rt.program == old(rt.program)
    ensures Performed(rt, old(rt.Abs()), ExecBinary(old(rt.Abs()), op), err)
  {
    var a := TargetAt(rt, 1);
    if a.Err? { return Some(a.error); }
    var b := ValueAt(rt, 2);
    if b.Err? { return Some(b.error); }
    var c := ValueAt(rt, 3);
    if c.Err? { return Some(c.error); }
    var v := Compute(op, b.value, c.value);
    if v.Err? { return Some(v.error); }
    StoreAt(rt, op, a.value, v.value);
    err := None;
  }

  /** `jmp a`: pc becomes a. */
  method ExecuteJmp(rt: Runtime) returns (err: Option<VmError>)
    requires rt.Valid()
    modifies rt, rt.memory, rt.registers
    ensures rt.Valid() && rt.memory == old(rt.memory) && rt.registers == old(rt.registers)
    ensures rt.program == old(rt.program)
    ensures Performed(rt, old(rt.Abs()), ExecControl(old(rt.Abs()), Jmp), err)
  {
    var a := ValueAt(rt, 1);
    if a.Err? { return Some(a.error); }
    rt.pc := a.value;
    err := None;
  }

  /** `jt a b`: pc becomes b when a is nonzero, else moves past the instruction. */
  method ExecuteJt(rt: Runtime) returns (err: Option<VmError>)
    requires rt.Valid()
    modifies rt, rt.memory, rt.registers
    ensures rt.Valid() && rt.memory == old(rt.memory) && rt.registers == old(rt.registers)
    ensures rt.program == old(rt.program)
    ensures Performed(rt, old(rt.Abs()), ExecControl(old(rt.Abs()), Jt), err)
  {
    var a := ValueAt(rt, 1);
    if a.Err? { return Some(a.error); }
    var b := ValueAt(rt, 2);
    if b.Err? { return Some(b.error); }
    rt.pc := if a.value != 0 then b.value else rt.pc + Size(Jt);
    err := None;
  }

  /** `jf a b`: pc becomes b when a is zero, else moves past the instruction. */
  method ExecuteJf(rt: Runtime) returns (err: Option<VmError>)
    requires rt.Valid()
    modifies rt, rt.memory, rt.registers
    ensures rt.Valid() && rt.memory == old(rt.memory) && rt.registers == old(rt.registers)
    ensures rt.program == old(rt.program)
    ensures Performed(rt, old(rt.Abs()), ExecControl(old(rt.Abs()), Jf), err)
  {
    var a := ValueAt(rt, 1);
    if a.Err? { return Some(a.error); }
    var b := ValueAt(rt, 2);
    if b.Err? { return Some(b.error); }
    rt.pc := if a.value == 0 then b.value else rt.pc + Size(Jf);
    err := None;
  }

  /** `call a`: pushes the address past the instruction and jumps to a. */
  method ExecuteCall(rt: Runtime) returns (err: Option<VmError>)
    requires rt.Valid()
    modifies rt, rt.memory, rt.registers
    ensures rt.Valid() && rt.memory == old(rt.memory) && rt.registers == old(rt.registers)
    ensures rt.program == old(rt.program)
    ensures Performed(rt, old(rt.Abs()), ExecControl(old(rt.Abs()), Call), err)
  {
    var a := ValueAt(rt, 1);
    if a.Err? { return Some(a.error); }
    rt.stack := rt.stack + [rt.pc + Size(Call)];
    rt.pc := a.value;
    err := None;
  }

  /** `ret`: pops the return address into pc; with an empty stack, halts. */
  method ExecuteRet(rt: Runtime) returns (err: Option<VmError>)
    requires rt.Valid()
    modifies rt, rt.memory, rt.registers
    ensures rt.Valid() && rt.memory == old(rt.memory) && rt.registers == old(rt.registers)
    ensures rt.program == old(rt.program)
    ensures Performed(rt, old(rt.Abs()), ExecControl(old(rt.Abs()), Ret), err)
  {
    if rt.stack == [] {
      rt.running := false;
    } else {
      rt.pc := rt.stack[|rt.stack| - 1];
      rt.stack := rt.stack[..|rt.stack| - 1];
    }
    err := None;
  }

  /** `halt`: stops the machine. */
  method ExecuteHalt(rt: Runtime) returns (err: Option<VmError>)
    requires rt.Valid()
    modifies rt, rt.memory, rt.registers
    ensures rt.Valid() && rt.memory == old(rt.memory) && rt.registers == old(rt.registers)
    ensures rt.program == old(rt.program)
    ensures Performed(rt, old(rt.Abs()), ExecOther(old(rt.Abs()), Halt), err)
  {
    rt.running := false;
    rt.pc := rt.pc + Size(Halt);
    err := None;
  }

  /** `push a`: pushes a's value. */
  method ExecutePush(rt: Runtime) returns (err: Option<VmError>)
    requires rt.Valid()
    modifies rt, rt.memory, rt.registers
    ensures rt.Valid() && rt.memory == old(rt.memory) && rt.registers == old(rt.registers)
    ensures rt.program == old(rt.program)
    ensures Performed(rt, old(rt.Abs()), ExecOther(old(rt.Abs()), Push), err)
  {
    var a := ValueAt(rt, 1);
    if a.Err? { return Some(a.error); }
    rt.stack := rt.stack + [a.value];
    rt.pc := rt.pc + Size(Push);
    err := None;
  }

  /** `wmem a b`: memory cell a gets b's value. */
  method ExecuteWmem(rt: Runtime) returns (err: Option<VmError>)
    requires rt.Valid()
    modifies rt, rt.memory, rt.registers
    ensures rt.Valid() && rt.memory == old(rt.memory) && rt.registers == old(rt.registers)
    ensures rt.program == old(rt.program)
    ensures Performed(rt, old(rt.Abs()), ExecOther(old(rt.Abs()), Wmem), err)
  {
    var a := ValueAt(rt, 1);
    if a.Err? { return Some(a.error); }
    var b := ValueAt(rt, 2);
    if b.Err? { return Some(b.error); }
    if a.value >= rt.memory.Length { return Some(InvalidAddress(a.value)); }
    rt.memory[a.value] := b.value;
    rt.pc := rt.pc + Size(Wmem);
    err := None;
  }

  /** `out a`: writes the character with code a (as a UTF-16 code unit) to stdout. */
  method ExecuteOut(rt: Runtime) returns (err: Option<VmError>)
    requires rt.Valid()
    modifies rt, rt.memory, rt.registers
    ensures rt.Valid() && rt.memory == old(rt.memory) && rt.registers == old(rt.registers)
    ensures rt.program == old(rt.program)
    ensures Performed(rt, old(rt.Abs()), ExecOther(old(rt.Abs()), Out), err)
  {
    var a := ValueAt(rt, 1);
    if a.Err? { return Some(a.error); }
    rt.Stdout([a.value % 0x1_0000]);
    rt.pc := rt.pc + Size(Out);
    err := None;
  }

  /** `noop`: moves past itself. */
  method ExecuteNoop(rt: Runtime) returns (err: Option<VmError>)
    requires rt.Valid()
    modifies rt, rt.memory, rt.registers
    ensures rt.Valid() && rt.memory == old(rt.memory) && rt.registers == old(rt.registers)
    ensures rt.program == old(rt.program)
    ensures Performed(rt, old(rt.Abs()), ExecOther(old(rt.Abs()), Noop), err)
  {
    rt.pc := rt.pc + Size(Noop);
    err := None;
  }

  /**
   * One instruction's effect on the runtime: the new state is the one
   * `Exec` describes, or, on an error, the state is untouched.
   */
  method Execute(rt: Runtime, op: Opcode) returns (err: Option<VmError>)
    requires rt.Valid()
    modifies rt, rt.memory, rt.registers
    ensures rt.Valid() && rt.memory == old(rt.memory) && rt.registers == old(rt.registers)
    ensures rt.program == old(rt.program)
    ensures Performed(rt, old(rt.Abs()), Exec(old(rt.Abs()), op), err)
  {
    if WritesRegister(op) {
      if op == Set {
        err := ExecuteSet(rt);
      } else if op == Pop {
        err := ExecutePop(rt);
      } else if op == Not {
        err := ExecuteNot(rt);
      } else if op == Rmem {
        err := ExecuteRmem(rt);
      } else {
        err := ExecuteIn(rt);
      }
    } else if IsBinary(op) {
      err := ExecuteBinary(rt, op);
    } else if IsControl(op) {
      if op == Jmp {
        err := ExecuteJmp(rt);
      } else if op == Jt {
        err := ExecuteJt(rt);
      } else if op == Jf {
        err := ExecuteJf(rt);
      } else if op == Call {
        err := ExecuteCall(rt);
      } else {
        err := ExecuteRet(rt);
      }
    } else {
      if op == Halt {
        err := ExecuteHalt(rt);
      } else if op == Push {
        err := ExecutePush(rt);
      } else if op == Wmem {
        err := ExecuteWmem(rt);
      } else if op == Out {
        err := ExecuteOut(rt);
      } else {
        err := ExecuteNoop(rt);
      }
    }
  }

  /**
   * One pass of the loop body: fetch and check the instruction at pc, render
   * its trace line when tracing, and execute it. Returns the error that stops
   * the loop, if any, and the lines printed.
   */
  method Pass(rt: Runtime, implemented: set<Opcode>, trace: bool) returns (stop: Option<VmError>, lines: seq<string>)
    requires rt.Valid()
    modifies rt, rt.memory, rt.registers
    ensures rt.Valid() && rt.memory == old(rt.memory) && rt.registers == old(rt.registers)
    ensures rt.program == old(rt.program)
    ensures match Step(old(rt.Abs()), implemented, trace)
      case Next(next, printed) => stop == None && lines == printed && rt.Abs() == next
      case Stop(e, printed) => stop == Some(e) && lines == printed && rt.Abs() == old(rt.Abs())
  {
    var fetched := FetchAt(rt, implemented);
    if fetched.Err? {
      return Some(fetched.error), [];
    }
    var op := fetched.value;
    lines := [];
    if trace {
      var line := Disassembler.FormatInstruction(rt.pc, rt.memory[..]);
      if line.Err? {
        return Some(TraceFailed(line.error)), [];
      }
      lines := [line.value];
    }
    assert TraceLines(old(rt.Abs()), trace) == Ok(lines);
    stop := Execute(rt, op);
  }

  /**
   * One pass seen from the loop: a run of `fuel` passes from the state
   * before it is this pass's lines followed by a run of `fuel - 1` passes
   * from the state after it, or, when the pass fails, stops here.
   */
  method Advance(rt: Runtime, implemented: set<Opcode>, trace: bool, ghost fuel: nat)
    returns (stop: Option<VmError>, lines: seq<string>)
    requires rt.Valid() && rt.running && fuel > 0
    modifies rt, rt.memory, rt.registers
    ensures rt.Valid() && rt.memory == old(rt.memory) && rt.registers == old(rt.registers)
    ensures rt.program == old(rt.program)
    ensures stop.None? ==>
      Run(old(rt.Abs()), implemented, trace, fuel) == PrependLines(lines, Run(rt.Abs(), implemented, trace, fuel - 1))
    ensures stop.Some? ==>
      rt.Abs() == old(rt.Abs()) &&
      Run(old(rt.Abs()), implemented, trace, fuel) == RunResult(rt.Abs(), Failed(stop.value), lines)
  {
    RunPass(rt.Abs(), implemented, trace, fuel);
    stop, lines := Pass(rt, implemented, trace);
  }

  /**
   * `interpret`: while the runtime is running, make one pass of the loop
   * body; at most `fuel` passes run. The runtime ends in the state `Run`
   * describes, the trace lines are those `Run` prints, and the loaded program
   * is never changed.
   */
  method Interpret(rt: Runtime, implemented: set<Opcode>, trace: bool, fuel: nat)
    returns (status: Status, traced: seq<string>)
    requires rt.Valid()
    modifies rt, rt.memory, rt.registers
    ensures rt.Valid() && rt.program == old(rt.program)
    ensures var r := Run(old(rt.Abs()), implemented, trace, fuel);
      rt.Abs() == r.final && status == r.status && traced == r.traced
  {
    ghost var start := rt.Abs();
    traced := [];
    var remaining := fuel;
    assert PrependLines([], Run(start, implemented, trace, fuel)) == Run(start, implemented, trace, fuel);
    while rt.running
      invariant rt.Valid() && rt.memory == old(rt.memory) && rt.registers == old(rt.registers)
      invariant rt.program == old(rt.program)
      invariant Run(start, implemented, trace, fuel) ==
        PrependLines(traced, Run(rt.Abs(), implemented, trace, remaining))
      decreases remaining
    {
      if remaining == 0 {
        return OutOfFuel, traced;
      }
      var stop, lines := Advance(rt, implemented, trace, remaining);
      if stop.Some? {
        return Failed(stop.value), traced + lines;
      }
      assert traced + (lines + Run(rt.Abs(), implemented, trace, remaining - 1).traced) ==
        (traced + lines) + Run(rt.Abs(), implemented, trace, remaining - 1).traced;
      traced := traced + lines;
      remaining := remaining - 1;
    }
    assert traced + [] == traced;
    status := Halted;
  }
}
