/**
 * What one instruction does to the machine, and what the fetch-decode-execute
 * loop does to it: the reference the runtime's in-place execution is proved
 * against.
 */
module Semantics {
  import opened Wrappers
  import opened Opcodes
  import opened VmState
  import Disassembler

  /** Why the loop stops before halting. */
  datatype VmError =
    | OutOfBoundsPC(pc: nat)
    | UnknownOpcode(index: nat)
    | UnimplementedOpcode(mnemonic: string)
    | MissingOperand(address: nat)
    | InvalidOperand(token: nat)
    | InvalidRegisterOperand(token: nat)
    | StackUnderflow
    | DivisionByZero
    | InvalidAddress(address: nat)
    | InputExhausted
    | TraceFailed(error: Disassembler.FormatError)

  /**
   * A value operand: a literal below 32768 is itself, 32768..32775 reads a
   * register, anything higher is refused. Over registers holding words the
   * value is a word.
   */
  function ResolveValue(regs: seq<nat>, token: nat): (r: Result<nat, VmError>)
    requires |regs| == RegisterCount
    ensures r.Ok? <==> token < TokenLimit
    ensures r.Err? ==> r.error == InvalidOperand(token)
    ensures token < RegisterBase ==> r == Ok(token)
    ensures r.Ok? && token >= RegisterBase ==> r.value == regs[token - RegisterBase]
    ensures r.Ok? && (forall i :: 0 <= i < |regs| ==> regs[i] < Modulus) ==> r.value < Modulus
  {
    if token < RegisterBase then Ok(token)
    else if token < TokenLimit then Ok(regs[token - RegisterBase])
    else Err(InvalidOperand(token))
  }

  /** A destination operand: only 32768..32775, naming register 0..7. */
  function ResolveTarget(token: nat): (r: Result<nat, VmError>)
    ensures r.Ok? <==> RegisterBase <= token < TokenLimit
    ensures r.Ok? ==> r.value < RegisterCount && RegisterBase + r.value == token
    ensures r.Err? ==> r.error == InvalidRegisterOperand(token)
  {
    if RegisterBase <= token < TokenLimit then Ok(token - RegisterBase)
    else Err(InvalidRegisterOperand(token))
  }

  /**
   * The addressing bands agree with the disassembler's: a value operand
   * resolves exactly when it renders; a literal resolves to itself and
   * renders as its decimal; a token resolves as a destination exactly when it
   * renders as `r<i>`, and then names register i, the one a value operand
   * with the same token reads.
   */
  lemma AddressingBands(regs: seq<nat>, token: nat)
    requires |regs| == RegisterCount
    ensures ResolveValue(regs, token).Ok? <==> Disassembler.FormatValue(token).Ok?
    ensures token < RegisterBase ==>
      ResolveValue(regs, token) == Ok(token) && Disassembler.FormatValue(token) == Ok(Disassembler.Decimal(token))
    ensures ResolveTarget(token).Ok? <==>
      Disassembler.FormatValue(token).Ok? && Disassembler.FormatValue(token).value[0] == 'r'
    ensures ResolveTarget(token).Ok? ==>
      var i := ResolveTarget(token).value;
      i < RegisterCount && ResolveValue(regs, token) == Ok(regs[i]) &&
      Disassembler.FormatValue(token).value == ['r', Disassembler.DigitChar(i)]
  {
    Disassembler.FormatValueRoundTrip(token);
    if token < RegisterBase {
      var s := Disassembler.Decimal(token);
      assert Disassembler.AllDigits(s);
      assert Disassembler.IsDigit(s[0]);
    }
  }

  /** The token `k` words after pc; a pc near the end of memory leaves it missing. */
  function Operand(m: Machine, k: nat): Result<nat, VmError> {
    if m.pc + k < |m.mem| then Ok(m.mem[m.pc + k]) else Err(MissingOperand(m.pc + k))
  }

  function Value(m: Machine, k: nat): Result<nat, VmError>
    requires WellFormed(m)
  {
    var token :- Operand(m, k);
    ResolveValue(m.regs, token)
  }

  function Target(m: Machine, k: nat): Result<nat, VmError> {
    var token :- Operand(m, k);
    ResolveTarget(token)
  }

  /** The instructions that store a function of two values into a register. */
  predicate IsBinary(op: Opcode) {
    op == Eq || op == Gt || op == Add || op == Mult || op == Mod || op == And || op == Or
  }

  /**
   * The value a binary instruction stores; `mod` by zero alone has none. The
   * comparisons store a truth value, the arithmetic a word, and every
   * instruction a word when both inputs are words.
   */
  function Compute(op: Opcode, b: nat, c: nat): (r: Result<nat, VmError>)
    requires IsBinary(op)
    ensures r.Err? <==> op == Mod && c == 0
    ensures r.Err? ==> r.error == DivisionByZero
    ensures r.Ok? && op == Eq ==> (r.value == 1 <==> b == c) && r.value <= 1
    ensures r.Ok? && op == Gt ==> (r.value == 1 <==> b > c) && r.value <= 1
    ensures r.Ok? && (op == Add || op == Mult) ==> r.value < Modulus
    ensures r.Ok? && op == Mod ==> r.value < c && (b - r.value) % c == 0
    ensures r.Ok? && b < Modulus && c < Modulus ==> r.value < Modulus
  {
    if op == Eq then Ok(Equal(b, c))
    else if op == Gt then Ok(Greater(b, c))
    else if op == Add then Ok(AddMod(b, c))
    else if op == Mult then Ok(MultMod(b, c))
    else if op == Mod then (if c == 0 then Err(DivisionByZero) else Ok(Remainder(b, c)))
    else if op == And then Ok(BitwiseAnd(b, c))
    else Ok(BitwiseOr(b, c))
  }

  /** Writes v into register a and moves past the instruction. */
  function Store(m: Machine, op: Opcode, a: nat, v: nat): Machine
    requires WellFormed(m) && a < RegisterCount
  {
    m.(regs := m.regs[a := v], pc := m.pc + Size(op))
  }

  /** The register-writing instructions other than the binary ones. */
  predicate WritesRegister(op: Opcode) {
    op == Set || op == Pop || op == Not || op == Rmem || op == In
  }

  /** The instructions that set pc directly. */
  predicate IsControl(op: Opcode) {
    op == Jmp || op == Jt || op == Jf || op == Call || op == Ret
  }

  /** `set`, `pop`, `not`, `rmem`, `in`: resolve the destination register first, then the source. */
  function ExecRegister(m: Machine, op: Opcode): (r: Result<Machine, VmError>)
    requires WellFormed(m) && WritesRegister(op)
    ensures r.Ok? ==> WellFormed(r.value) && |r.value.mem| == |m.mem|
    ensures r.Ok? ==> (Target(m, 1).Ok? &&
      r.value == m.(regs := m.regs[Target(m, 1).value := r.value.regs[Target(m, 1).value]],
        stack := r.value.stack, stdin := r.value.stdin, pc := m.pc + Size(op)))
    ensures r.Ok? && op != Pop ==> r.value.stack == m.stack
    ensures r.Ok? && op != In ==> r.value.stdin == m.stdin
  {
    var a :- Target(m, 1);
    if op == Set then
      var b :- Value(m, 2);
      Ok(Store(m, op, a, b))
    else if op == Pop then
      if m.stack == [] then Err(StackUnderflow)
      else Ok(Store(m, op, a, m.stack[|m.stack| - 1]).(stack := m.stack[..|m.stack| - 1]))
    else if op == Not then
      var b :- Value(m, 2);
      Ok(Store(m, op, a, Not15(b)))
    else if op == Rmem then
      var b :- Value(m, 2);
      if b < |m.mem| then Ok(Store(m, op, a, m.mem[b])) else Err(InvalidAddress(b))
    else
      if m.stdin == [] then Err(InputExhausted)
      else Ok(Store(m, op, a, m.stdin[0]).(stdin := m.stdin[1..]))
  }

  /** `eq`, `gt`, `add`, `mult`, `mod`, `and`, `or`: a, then b, then c, then the stored value. */
  function ExecBinary(m: Machine, op: Opcode): (r: Result<Machine, VmError>)
    requires WellFormed(m) && IsBinary(op)
    ensures r.Ok? ==> WellFormed(r.value) && |r.value.mem| == |m.mem|
    ensures r.Ok? ==> (Target(m, 1).Ok? &&
      r.value == m.(regs := r.value.regs, pc := m.pc + 4) &&
      r.value.regs == m.regs[Target(m, 1).value := r.value.regs[Target(m, 1).value]])
  {
    var a :- Target(m, 1);
    var b :- Value(m, 2);
    var c :- Value(m, 3);
    var v :- Compute(op, b, c);
    Ok(Store(m, op, a, v))
  }

  /** `jmp`, `jt`, `jf`, `call`, `ret`. */
  function ExecControl(m: Machine, op: Opcode): (r: Result<Machine, VmError>)
    requires WellFormed(m) && IsControl(op)
    ensures r.Ok? ==> WellFormed(r.value) && |r.value.mem| == |m.mem|
    ensures r.Ok? ==> r.value == m.(stack := r.value.stack, pc := r.value.pc, running := r.value.running)
    ensures r.Ok? && op != Ret ==> r.value.running == m.running
    ensures r.Ok? && op != Call && op != Ret ==> r.value.stack == m.stack
  {
    var next := m.pc + Size(op);
    if op == Ret then
      if m.stack == [] then Ok(m.(running := false))
      else Ok(m.(stack := m.stack[..|m.stack| - 1], pc := m.stack[|m.stack| - 1]))
    else
      var a :- Value(m, 1);
      if op == Jmp then Ok(m.(pc := a))
      else if op == Call then Ok(m.(stack := m.stack + [next], pc := a))
      else
        var b :- Value(m, 2);
        if op == Jt then Ok(m.(pc := if a != 0 then b else next))
        else Ok(m.(pc := if a == 0 then b else next))
  }

  /** `halt`, `push`, `wmem`, `out`, `noop`. */
  function ExecOther(m: Machine, op: Opcode): (r: Result<Machine, VmError>)
    requires WellFormed(m) && !WritesRegister(op) && !IsBinary(op) && !IsControl(op)
    ensures r.Ok? ==> WellFormed(r.value) && |r.value.mem| == |m.mem|
    ensures r.Ok? ==> r.value == m.(mem := r.value.mem, stack := r.value.stack, outBuf := r.value.outBuf,
      written := r.value.written, running := r.value.running, pc := m.pc + Size(op))
    ensures r.Ok? && op != Halt ==> r.value.running == m.running
    ensures r.Ok? && op != Push ==> r.value.stack == m.stack
    ensures r.Ok? && op != Wmem ==> r.value.mem == m.mem
    ensures r.Ok? && op != Out ==> r.value.outBuf == m.outBuf && r.value.written == m.written
  {
    var next := m.pc + Size(op);
    if op == Halt then Ok(m.(running := false, pc := next))
    else if op == Noop then Ok(m.(pc := next))
    else
      var a :- Value(m, 1);
      if op == Push then Ok(m.(stack := m.stack + [a], pc := next))
      else if op == Out then
        var emitted := Emit(m.outBuf, m.written, [a % 0x1_0000]);
        Ok(m.(outBuf := emitted.0, written := emitted.1, pc := next))
      else
        var b :- Value(m, 2);
        if a < |m.mem| then Ok(m.(mem := m.mem[a := b], pc := next)) else Err(InvalidAddress(a))
  }

  /**
   * The instruction op at m.pc, as the table's descriptions state it. Every
   * operand is resolved before anything is written, so a failing instruction
   * leaves no trace.
   */
  function Exec(m: Machine, op: Opcode): (r: Result<Machine, VmError>)
    requires WellFormed(m)
    ensures r.Ok? ==> WellFormed(r.value) && |r.value.mem| == |m.mem|
    ensures r.Ok? && !IsControl(op) ==> r.value.pc == m.pc + Size(op)
    ensures r.Ok? && !WritesRegister(op) && !IsBinary(op) ==> r.value.regs == m.regs
    ensures r.Ok? && op != Wmem ==> r.value.mem == m.mem
    ensures r.Ok? && op != Out ==> r.value.outBuf == m.outBuf && r.value.written == m.written
    ensures r.Ok? && op != In ==> r.value.stdin == m.stdin
  {
    if WritesRegister(op) then ExecRegister(m, op)
    else if IsBinary(op) then ExecBinary(m, op)
    else if IsControl(op) then ExecControl(m, op)
    else ExecOther(m, op)
  }

  /**
   * The three checks before dispatch, in order: pc has a memory cell, the
   * cell's word has a table entry, and that entry has semantics.
   */
  function Fetch(m: Machine, implemented: set<Opcode>): (r: Result<Opcode, VmError>)
    ensures r.Ok? <==> m.pc < |m.mem| && m.mem[m.pc] < |Order| && Order[m.mem[m.pc]] in implemented
    ensures r.Ok? ==> Index(r.value) == m.mem[m.pc]
    ensures m.pc >= |m.mem| ==> r == Err(OutOfBoundsPC(m.pc))
    ensures m.pc < |m.mem| && m.mem[m.pc] >= |Order| ==> r == Err(UnknownOpcode(m.mem[m.pc]))
    ensures m.pc < |m.mem| && m.mem[m.pc] < |Order| && Order[m.mem[m.pc]] !in implemented ==>
      r == Err(UnimplementedOpcode(Mnemonic(Order[m.mem[m.pc]])))
  {
    if m.pc >= |m.mem| then Err(OutOfBoundsPC(m.pc))
    else match Lookup(m.mem[m.pc])
      case None => Err(UnknownOpcode(m.mem[m.pc]))
      case Some(op) =>
        if op !in implemented then Err(UnimplementedOpcode(Mnemonic(op))) else Ok(op)
  }

  /** The trace line printed before the instruction at pc runs, when tracing is on. */
  function TraceLines(m: Machine, trace: bool): Result<seq<string>, VmError>
    requires m.pc < |m.mem| && m.mem[m.pc] < |Order|
  {
    if !trace then Ok([])
    else match Disassembler.InstructionLine(m.pc, m.mem)
      case Ok(line) => Ok([line])
      case Err(e) => Err(TraceFailed(e))
  }

  /** One pass of the loop body: the next machine and the lines printed, or the error that stops the loop. */
  datatype Outcome = Next(machine: Machine, lines: seq<string>) | Stop(error: VmError, printed: seq<string>)

  /**
   * Fetch and check the instruction at pc, render its trace line when
   * tracing, and execute it.
   */
  function Step(m: Machine, implemented: set<Opcode>, trace: bool): (r: Outcome)
    requires WellFormed(m)
    ensures r.Next? ==> WellFormed(r.machine) && |r.machine.mem| == |m.mem|
    ensures !trace ==> (r.Next? ==> r.lines == []) && (r.Stop? ==> r.printed == [])
  {
    match Fetch(m, implemented)
    case Err(e) => Stop(e, [])
    case Ok(op) =>
      match TraceLines(m, trace)
      case Err(e) => Stop(e, [])
      case Ok(lines) =>
        match Exec(m, op)
        case Err(e) => Stop(e, lines)
        case Ok(next) => Next(next, lines)
  }

  datatype Status = Halted | Failed(error: VmError) | OutOfFuel

  /** Where the loop stopped, why, and the trace lines it printed. */
  datatype RunResult = RunResult(final: Machine, status: Status, traced: seq<string>)

  /**
   * A loop body the loop can run: defined on every well-formed machine, and
   * a step it completes leaves the machine well formed with the same memory
   * size.
   */
  ghost predicate Closed(body: Machine --> Outcome) {
    forall m {:trigger body.requires(m)} {:trigger body(m)} :: WellFormed(m) ==>
      body.requires(m) &&
      (body(m).Next? ==> WellFormed(body(m).machine) && |body(m).machine.mem| == |m.mem|)
  }

  /** The loop body of `interpret` with the given opcode semantics and trace switch. */
  function LoopBody(implemented: set<Opcode>, trace: bool): (body: Machine --> Outcome)
    ensures Closed(body)
  {
    m requires WellFormed(m) => Step(m, implemented, trace)
  }

  /**
   * The `while (running)` loop around `body`: a stopped machine is done, a
   * failing pass stops the loop at the state before it with what it printed,
   * and at most `fuel` passes run.
   */
  function Loop(body: Machine --> Outcome, m: Machine, fuel: nat): (r: RunResult)
    requires Closed(body) && WellFormed(m)
    ensures WellFormed(r.final) && |r.final.mem| == |m.mem|
    ensures r.status == Halted <==> !r.final.running
    decreases fuel, 1
  {
    if !m.running then RunResult(m, Halted, [])
    else if fuel == 0 then RunResult(m, OutOfFuel, [])
    else LoopPass(body, m, fuel)
  }

  /** One pass of the running loop, then the rest of the loop from where it left off. */
  function LoopPass(body: Machine --> Outcome, m: Machine, fuel: nat): (r: RunResult)
    requires Closed(body) && WellFormed(m) && m.running && fuel > 0
    ensures WellFormed(r.final) && |r.final.mem| == |m.mem|
    ensures r.status == Halted <==> !r.final.running
    decreases fuel, 0
  {
    match body(m)
    case Stop(e, printed) => RunResult(m, Failed(e), printed)
    case Next(next, lines) => PrependLines(lines, Loop(body, next, fuel - 1))
  }

  /** A running machine with fuel left makes one pass of `body`, then loops on from its result. */
  lemma LoopUnfold(body: Machine --> Outcome, m: Machine, fuel: nat)
    requires Closed(body) && WellFormed(m) && m.running && fuel > 0
    ensures match body(m)
      case Stop(e, printed) => Loop(body, m, fuel) == RunResult(m, Failed(e), printed)
      case Next(next, lines) => Loop(body, m, fuel) == PrependLines(lines, Loop(body, next, fuel - 1))
  {
    assert Loop(body, m, fuel) == LoopPass(body, m, fuel);
  }

  /** A run whose first pass printed `lines`. */
  function PrependLines(lines: seq<string>, rest: RunResult): RunResult {
    RunResult(rest.final, rest.status, lines + rest.traced)
  }

  /** `interpret` on a machine: the loop around `Step`. */
  function Run(m: Machine, implemented: set<Opcode>, trace: bool, fuel: nat): (r: RunResult)
    requires WellFormed(m)
    ensures WellFormed(r.final) && |r.final.mem| == |m.mem|
    ensures r.status == Halted <==> !r.final.running
  {
    Loop(LoopBody(implemented, trace), m, fuel)
  }

  /** A running machine with fuel left makes one pass, then runs on from where it left off. */
  lemma RunPass(m: Machine, implemented: set<Opcode>, trace: bool, fuel: nat)
    requires WellFormed(m) && m.running && fuel > 0
    ensures match Step(m, implemented, trace)
      case Stop(e, printed) => Run(m, implemented, trace, fuel) == RunResult(m, Failed(e), printed)
      case Next(next, lines) =>
        Run(m, implemented, trace, fuel) == PrependLines(lines, Run(next, implemented, trace, fuel - 1))
  {
    var body := LoopBody(implemented, trace);
    LoopUnfold(body, m, fuel);
    assert body(m) == Step(m, implemented, trace);
  }

  /** A value or destination operand that resolves is one the disassembler can render. */
  lemma OperandRenders(m: Machine, k: nat)
    requires WellFormed(m)
    ensures Value(m, k).Ok? || Target(m, k).Ok? ==> Disassembler.TokenText(m.mem, m.pc + k).Ok?
  {
    if m.pc + k < |m.mem| {
      AddressingBands(m.regs, m.mem[m.pc + k]);
      Disassembler.FormatValueRoundTrip(m.mem[m.pc + k]);
    }
  }

  /** Each of the first n operand words resolves: the first as a value or a register, the others as values. */
  predicate OperandsResolve(m: Machine, n: nat)
    requires WellFormed(m)
  {
    (n >= 1 ==> Value(m, 1).Ok? || Target(m, 1).Ok?) && (n >= 2 ==> Value(m, 2).Ok?) && (n >= 3 ==> Value(m, 3).Ok?)
  }

  lemma RegisterOperands(m: Machine, op: Opcode)
    requires WellFormed(m) && WritesRegister(op) && ExecRegister(m, op).Ok?
    ensures OperandsResolve(m, Operands(op))
  { }

  lemma BinaryOperands(m: Machine, op: Opcode)
    requires WellFormed(m) && IsBinary(op) && ExecBinary(m, op).Ok?
    ensures OperandsResolve(m, Operands(op))
  { }

  lemma ControlOperands(m: Machine, op: Opcode)
    requires WellFormed(m) && IsControl(op) && ExecControl(m, op).Ok?
    ensures OperandsResolve(m, Operands(op))
  { }

  lemma OtherOperands(m: Machine, op: Opcode)
    requires WellFormed(m) && !WritesRegister(op) && !IsBinary(op) && !IsControl(op) && ExecOther(m, op).Ok?
    ensures OperandsResolve(m, Operands(op))
  {
    if op != Halt && op != Noop {
      assert Value(m, 1).Ok?;
      if op == Wmem {
        assert Value(m, 2).Ok?;
      }
    }
  }

  /**
   * An instruction that executes has all size - 1 operand words present and
   * in one of the two addressing bands.
   */
  lemma ExecReadsOperands(m: Machine, op: Opcode)
    requires WellFormed(m) && Exec(m, op).Ok?
    ensures forall j :: m.pc < j < m.pc + Size(op) ==> Disassembler.TokenText(m.mem, j).Ok?
  {
    if WritesRegister(op) {
      assert ExecRegister(m, op).Ok?;
      RegisterOperands(m, op);
    } else if IsBinary(op) {
      assert ExecBinary(m, op).Ok?;
      BinaryOperands(m, op);
    } else if IsControl(op) {
      assert ExecControl(m, op).Ok?;
      ControlOperands(m, op);
    } else {
      assert ExecOther(m, op).Ok?;
      OtherOperands(m, op);
    }
    OperandRenders(m, 1);
    OperandRenders(m, 2);
    OperandRenders(m, 3);
    forall j | m.pc < j < m.pc + Size(op)
      ensures Disassembler.TokenText(m.mem, j).Ok?
    {
      assert j == m.pc + 1 || j == m.pc + 2 || j == m.pc + 3;
    }
  }

  /** The table entry the fetched word names. */
  lemma FetchedEntry(m: Machine, implemented: set<Opcode>)
    requires Fetch(m, implemented).Ok?
    ensures Lookup(m.mem[m.pc]) == Some(Fetch(m, implemented).value)
  {
    LookupIndex(Fetch(m, implemented).value, m.mem[m.pc]);
  }

  /**
   * Tracing changes one pass only in what it prints: the traced pass stops
   * exactly when the untraced one does, and otherwise reaches the same machine.
   */
  lemma StepTraceTransparent(m: Machine, implemented: set<Opcode>)
    requires WellFormed(m)
    ensures Step(m, implemented, true).Next? <==> Step(m, implemented, false).Next?
    ensures Step(m, implemented, true).Next? ==>
      Step(m, implemented, true).machine == Step(m, implemented, false).machine
  {
    if Fetch(m, implemented).Ok? {
      var op := Fetch(m, implemented).value;
      FetchedEntry(m, implemented);
      if Exec(m, op).Ok? {
        ExecReadsOperands(m, op);
        assert TraceLines(m, true).Ok?;
      }
    }
  }

  /** The outcomes of one pass with and without tracing: same machine, and one stops exactly when the other does. */
  predicate SameEffect(traced: Outcome, plain: Outcome) {
    (traced.Next? <==> plain.Next?) && (traced.Next? ==> traced.machine == plain.machine)
  }

  /**
   * Two loop bodies with the same effect on every machine run to the same
   * final machine, and the runs fail together; a run that does not fail
   * stops for the same reason.
   */
  lemma {:induction false} LoopSameEffect(traced: Machine --> Outcome, plain: Machine --> Outcome, m: Machine, fuel: nat)
    requires Closed(traced) && Closed(plain) && WellFormed(m)
    requires forall m' :: WellFormed(m') ==> SameEffect(traced(m'), plain(m'))
    ensures var t := Loop(traced, m, fuel);
      var p := Loop(plain, m, fuel);
      t.final == p.final && (t.status.Failed? <==> p.status.Failed?) &&
      (!p.status.Failed? ==> t.status == p.status)
    decreases fuel
  {
    if m.running && fuel > 0 {
      LoopUnfold(traced, m, fuel);
      LoopUnfold(plain, m, fuel);
      assert SameEffect(traced(m), plain(m));
      if plain(m).Next? {
        LoopSameEffect(traced, plain, plain(m).machine, fuel - 1);
      }
    }
  }

  /**
   * Tracing only prints: a traced run ends in the same state as an untraced
   * one, stops for the same reason, and fails exactly when the untraced run
   * fails (a line that cannot be rendered belongs to an instruction that
   * cannot execute).
   */
  lemma TraceTransparent(m: Machine, implemented: set<Opcode>, fuel: nat)
    requires WellFormed(m)
    ensures var traced := Run(m, implemented, true, fuel);
      var plain := Run(m, implemented, false, fuel);
      traced.final == plain.final &&
      (traced.status.Failed? <==> plain.status.Failed?) &&
      (!plain.status.Failed? ==> traced.status == plain.status)
  {
    var traced := LoopBody(implemented, true);
    var plain := LoopBody(implemented, false);
    forall m' | WellFormed(m')
      ensures SameEffect(traced(m'), plain(m'))
    {
      StepTraceTransparent(m', implemented);
    }
    LoopSameEffect(traced, plain, m, fuel);
  }

  /** A loop body that prints nothing makes a run that prints nothing. */
  lemma {:induction false} LoopQuiet(body: Machine --> Outcome, m: Machine, fuel: nat)
    requires Closed(body) && WellFormed(m)
    requires forall m' :: WellFormed(m') ==> (body(m').Next? ==> body(m').lines == []) && (body(m').Stop? ==> body(m').printed == [])
    ensures Loop(body, m, fuel).traced == []
    decreases fuel
  {
    if m.running && fuel > 0 {
      LoopUnfold(body, m, fuel);
    }
    if m.running && fuel > 0 && body(m).Next? {
      LoopQuiet(body, body(m).machine, fuel - 1);
    }
  }

  /** With tracing off, a run prints no trace line. */
  lemma UntracedPrintsNothing(m: Machine, implemented: set<Opcode>, fuel: nat)
    requires WellFormed(m)
    ensures Run(m, implemented, false, fuel).traced == []
  {
    LoopQuiet(LoopBody(implemented, false), m, fuel);
  }

  /** Once the loop has stopped on its own, more fuel changes nothing. */
  lemma {:induction false} LoopMoreFuel(body: Machine --> Outcome, m: Machine, fuel: nat, extra: nat)
    requires Closed(body) && WellFormed(m) && Loop(body, m, fuel).status != OutOfFuel
    ensures Loop(body, m, fuel + extra) == Loop(body, m, fuel)
    decreases fuel
  {
    if m.running {
      LoopUnfold(body, m, fuel);
      LoopUnfold(body, m, fuel + extra);
    }
    if m.running && body(m).Next? {
      LoopMoreFuel(body, body(m).machine, fuel - 1, extra);
      assert fuel - 1 + extra == fuel + extra - 1;
    }
  }

  /** The pass that executes `halt`: it completes, printing at most its own trace line. */
  lemma HaltStep(m: Machine, implemented: set<Opcode>, trace: bool)
    requires WellFormed(m) && Fetch(m, implemented) == Ok(Halt)
    ensures Exec(m, Halt) == Ok(m.(running := false, pc := m.pc + 1))
    ensures var step := Step(m, implemented, trace);
      step.Next? && step.machine == m.(running := false, pc := m.pc + 1) && |step.lines| <= 1
  {
    FetchedEntry(m, implemented);
    assert TraceLines(m, trace).Ok?;
  }

  /**
   * `halt` stops the machine just past itself: the run ends there, halted,
   * having printed at most the halt's own trace line.
   */
  lemma HaltStops(m: Machine, implemented: set<Opcode>, trace: bool, fuel: nat)
    requires WellFormed(m) && m.running && Fetch(m, implemented) == Ok(Halt)
    ensures var r := Run(m, implemented, trace, fuel + 1);
      r.status == Halted && r.final == m.(running := false, pc := m.pc + 1) && |r.traced| <= 1
  {
    HaltStep(m, implemented, trace);
    var next := m.(running := false, pc := m.pc + 1);
    var body := LoopBody(implemented, trace);
    LoopUnfold(body, m, fuel + 1);
    assert body(m) == Step(m, implemented, trace);
    assert Loop(body, next, fuel) == RunResult(next, Halted, []);
  }

  /**
   * A pc with no memory cell, a word with no table entry and an entry with no
   * semantics each stop the loop with that error before anything changes or
   * is printed.
   */
  lemma FetchFailureStops(m: Machine, implemented: set<Opcode>, trace: bool, fuel: nat)
    requires WellFormed(m) && m.running && Fetch(m, implemented).Err?
    ensures Run(m, implemented, trace, fuel + 1) == RunResult(m, Failed(Fetch(m, implemented).error), [])
    ensures Fetch(m, implemented).error.OutOfBoundsPC? <==> m.pc >= |m.mem|
    ensures Fetch(m, implemented).error.UnknownOpcode? <==> m.pc < |m.mem| && m.mem[m.pc] >= |Order|
  {
    RunPass(m, implemented, trace, fuel + 1);
    assert Step(m, implemented, trace) == Stop(Fetch(m, implemented).error, []);
  }

  /** With an empty stack, `pop` is an error and `ret` halts, leaving everything else. */
  lemma EmptyStack(m: Machine)
    requires WellFormed(m) && m.stack == []
    ensures Exec(m, Ret) == Ok(m.(running := false))
    ensures Exec(m, Pop).Err?
    ensures Target(m, 1).Ok? ==> Exec(m, Pop) == Err(StackUnderflow)
  {
  }

  /** `push a` then `pop r` leaves the stack as it was and a's value in register r. */
  lemma PushThenPop(m: Machine)
    requires WellFormed(m) && Exec(m, Push).Ok?
    ensures var m1 := Exec(m, Push).value;
      m1.pc == m.pc + 2 &&
      (Target(m1, 1).Ok? ==>
        Exec(m1, Pop).Ok? &&
        Exec(m1, Pop).value.stack == m.stack &&
        Exec(m1, Pop).value.regs[Target(m1, 1).value] == Value(m, 1).value &&
        Exec(m1, Pop).value.pc == m.pc + 4)
  {
    var m1 := Exec(m, Push).value;
    assert m1.stack[..|m1.stack| - 1] == m.stack;
  }

  /** `call` pushes the address just past itself, so a following `ret` resumes there with the stack restored. */
  lemma CallThenRet(m: Machine)
    requires WellFormed(m) && Exec(m, Call).Ok?
    ensures var m1 := Exec(m, Call).value;
      m1.pc == Value(m, 1).value && m1.stack == m.stack + [m.pc + 2] &&
      Exec(m1, Ret) == Ok(m1.(pc := m.pc + 2, stack := m.stack))
  {
    var m1 := Exec(m, Call).value;
    assert m1.stack[..|m1.stack| - 1] == m.stack;
  }

  /**
   * `jt` jumps to b exactly when a is nonzero and `jf` exactly when a is
   * zero; the other falls through to pc + 3. Neither changes anything but pc.
   */
  lemma ConditionalJumps(m: Machine)
    requires WellFormed(m) && Value(m, 1).Ok? && Value(m, 2).Ok?
    ensures Exec(m, Jt).Ok? && Exec(m, Jf).Ok?
    ensures var a := Value(m, 1).value;
      var b := Value(m, 2).value;
      Exec(m, Jt).value == m.(pc := if a != 0 then b else m.pc + 3) &&
      Exec(m, Jf).value == m.(pc := if a == 0 then b else m.pc + 3)
    ensures Exec(m, Jt).value.pc == m.pc + 3 || Exec(m, Jf).value.pc == m.pc + 3
  {
  }

  /** `wmem a b` changes exactly memory cell a, to b's value. */
  lemma WmemWritesOneCell(m: Machine)
    requires WellFormed(m) && Exec(m, Wmem).Ok?
    ensures var m1 := Exec(m, Wmem).value;
      var a := Value(m, 1).value;
      a < |m.mem| && m1.mem[a] == Value(m, 2).value &&
      (forall i :: 0 <= i < |m.mem| && i != a ==> m1.mem[i] == m.mem[i]) &&
      m1.regs == m.regs && m1.stack == m.stack && m1.pc == m.pc + 3
  {
  }

  /** `rmem a b` then reading memory cell b: register a holds what the cell holds. */
  lemma RmemReadsCell(m: Machine)
    requires WellFormed(m) && Exec(m, Rmem).Ok?
    ensures var m1 := Exec(m, Rmem).value;
      m1.regs[Target(m, 1).value] == m.mem[Value(m, 2).value] && m1.mem == m.mem
  {
  }

  /** `set a b`: register a takes b's value; nothing else but pc changes. */
  lemma SetEffect(m: Machine)
    requires WellFormed(m)
    ensures Exec(m, Set).Ok? <==> Target(m, 1).Ok? && Value(m, 2).Ok?
    ensures Exec(m, Set).Ok? ==>
      Exec(m, Set).value == m.(regs := m.regs[Target(m, 1).value := Value(m, 2).value], pc := m.pc + 3)
  {
  }

  /**
   * The binary instructions store Compute's value of b and c in register a
   * and move pc past their four words; they fail only on an operand or on
   * `mod` by zero, and `add` and `mult` store a word.
   */
  lemma BinaryEffect(m: Machine, op: Opcode)
    requires WellFormed(m) && IsBinary(op)
    ensures Exec(m, op).Ok? <==>
      Target(m, 1).Ok? && Value(m, 2).Ok? && Value(m, 3).Ok? && Compute(op, Value(m, 2).value, Value(m, 3).value).Ok?
    ensures Exec(m, op).Ok? ==>
      Exec(m, op).value ==
        m.(regs := m.regs[Target(m, 1).value := Compute(op, Value(m, 2).value, Value(m, 3).value).value], pc := m.pc + 4)
    ensures Exec(m, op).Ok? && (op == Add || op == Mult) ==> Exec(m, op).value.regs[Target(m, 1).value] < Modulus
    ensures Exec(m, op) == Err(DivisionByZero) <==>
      op == Mod && Target(m, 1).Ok? && Value(m, 2).Ok? && Value(m, 3) == Ok(0)
  {
  }

  /** `not a b`: register a takes the 15-bit inverse of b, a word. */
  lemma NotEffect(m: Machine)
    requires WellFormed(m)
    ensures Exec(m, Not).Ok? <==> Target(m, 1).Ok? && Value(m, 2).Ok?
    ensures Exec(m, Not).Ok? ==>
      Exec(m, Not).value == m.(regs := m.regs[Target(m, 1).value := Not15(Value(m, 2).value)], pc := m.pc + 3) &&
      Exec(m, Not).value.regs[Target(m, 1).value] < Modulus
  {
  }

  /** `in a`: the next input code unit goes to register a and is consumed; no input left is an error. */
  lemma InEffect(m: Machine)
    requires WellFormed(m)
    ensures Exec(m, In).Ok? <==> Target(m, 1).Ok? && m.stdin != []
    ensures Exec(m, In).Ok? ==>
      Exec(m, In).value == m.(regs := m.regs[Target(m, 1).value := m.stdin[0]], stdin := m.stdin[1..], pc := m.pc + 2)
    ensures Target(m, 1).Ok? && m.stdin == [] ==> Exec(m, In) == Err(InputExhausted)
  {
  }

  /** `noop` only moves pc past itself. */
  lemma NoopEffect(m: Machine)
    requires WellFormed(m)
    ensures Exec(m, Noop) == Ok(m.(pc := m.pc + 1))
  {
    assert ExecOther(m, Noop) == Ok(m.(pc := m.pc + 1));
  }

  /** `jmp a` only sets pc to a's value. */
  lemma JmpEffect(m: Machine)
    requires WellFormed(m)
    ensures Exec(m, Jmp).Ok? <==> Value(m, 1).Ok?
    ensures Exec(m, Jmp).Ok? ==> Exec(m, Jmp).value == m.(pc := Value(m, 1).value)
  {
  }

  /** `out a`: a's value, as one code unit, goes to the output; nothing else but pc changes. */
  lemma OutEffect(m: Machine)
    requires WellFormed(m)
    ensures Exec(m, Out).Ok? <==> Value(m, 1).Ok?
    ensures Exec(m, Out).Ok? ==>
      var emitted := Emit(m.outBuf, m.written, [Value(m, 1).value % 0x1_0000]);
      Exec(m, Out).value == m.(outBuf := emitted.0, written := emitted.1, pc := m.pc + 2)
  {
  }

  /** `push a` puts a's value on top of the stack. */
  lemma PushEffect(m: Machine)
    requires WellFormed(m)
    ensures Exec(m, Push).Ok? <==> Value(m, 1).Ok?
    ensures Exec(m, Push).Ok? ==> Exec(m, Push).value == m.(stack := m.stack + [Value(m, 1).value], pc := m.pc + 2)
  {
  }

  /** `pop a` moves the top of a non-empty stack into register a. */
  lemma PopEffect(m: Machine)
    requires WellFormed(m)
    ensures Exec(m, Pop).Ok? <==> Target(m, 1).Ok? && m.stack != []
    ensures Exec(m, Pop).Ok? ==>
      Exec(m, Pop).value == m.(regs := m.regs[Target(m, 1).value := m.stack[|m.stack| - 1]],
        stack := m.stack[..|m.stack| - 1], pc := m.pc + 2)
  {
  }

  /** `ret` on a non-empty stack jumps to the address on top of it and pops it. */
  lemma RetEffect(m: Machine)
    requires WellFormed(m) && m.stack != []
    ensures Exec(m, Ret) == Ok(m.(stack := m.stack[..|m.stack| - 1], pc := m.stack[|m.stack| - 1]))
  {
  }
}
