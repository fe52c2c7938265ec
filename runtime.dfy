/**
 * The runtime object: machine state held in place, the loaded program kept
 * apart from memory, and the stdout line buffer with its writer.
 */
module VmRuntime {
  import opened VmState

  class Runtime {
    var pc: nat
    /** The tokens the runtime was loaded with; never written after construction. */
    var program: seq<nat>
    var running: bool
    var memory: array<nat>
    var registers: array<nat>
    var stack: seq<nat>
    var stdoutBuffer: seq<CodeUnit>
    /** Every line handed to the stdout line writer, in call order. */
    ghost var written: seq<seq<CodeUnit>>
    /** The characters the stdin reader will still supply. */
    var stdin: seq<CodeUnit>

    ghost predicate Valid()
      reads this
    {
      registers.Length == RegisterCount && memory.Length >= MemorySize && registers != memory
    }

    /** The state as a value. */
    ghost function Abs(): (m: Machine)
      reads this, registers, memory
      requires Valid()
      ensures WellFormed(m)
    {
      Machine(pc, running, registers[..], memory[..], stack, stdoutBuffer, written, stdin)
    }

    /**
     * Loads `tokens`: zeroes the 8 registers and the 2^15 memory cells, then
     * copies the program into memory from address 0.
     */
    constructor (tokens: seq<nat>, input: seq<CodeUnit>)
      ensures Valid() && Abs() == Initial(tokens, input)
      ensures program == tokens
      ensures fresh(memory) && fresh(registers)
    {
      pc := 0;
      program := tokens;
      running := true;
      var size := if |tokens| <= MemorySize then MemorySize else |tokens|;
      var mem := new nat[size];
      var regs := new nat[RegisterCount];
      stack := [];
      stdoutBuffer := [];
      written := [];
      stdin := input;
      for i := 0 to RegisterCount
        invariant forall r :: 0 <= r < i ==> regs[r] == 0
      {
        regs[i] := 0;
      }
      assert regs[..] == seq(RegisterCount, _ => 0);
      for i := 0 to MemorySize
        invariant forall a :: 0 <= a < i ==> mem[a] == 0
        invariant regs[..] == seq(RegisterCount, _ => 0)
      {
        mem[i] := 0;
      }
      for i := 0 to |tokens|
        invariant forall a :: 0 <= a < i ==> mem[a] == tokens[a]
        invariant forall a :: i <= a < MemorySize ==> mem[a] == 0
        invariant regs[..] == seq(RegisterCount, _ => 0)
      {
        mem[i] := tokens[i];
      }
      assert mem[..] == LoadImage(tokens);
      memory := mem;
      registers := regs;
    }

    /**
     * `stdout(data)`: appends to the buffer; when data ends with a newline,
     * the buffer minus that newline goes to the line writer and the buffer
     * becomes empty.
     */
    method Stdout(data: seq<CodeUnit>)
      modifies this`stdoutBuffer, this`written
      ensures (stdoutBuffer, written) == Emit(old(stdoutBuffer), old(written), data)
      ensures !EndsWithNewline(data) ==> stdoutBuffer == old(stdoutBuffer) + data && written == old(written)
      ensures EndsWithNewline(data) ==>
        stdoutBuffer == [] && written == old(written) + [old(stdoutBuffer) + data[..|data| - 1]]
    {
      stdoutBuffer := stdoutBuffer + data;
      if EndsWithNewline(data) {
        assert stdoutBuffer[..|stdoutBuffer| - 1] == old(stdoutBuffer) + data[..|data| - 1];
        stdoutBuffer := stdoutBuffer[..|stdoutBuffer| - 1];
        written := written + [stdoutBuffer];
        stdoutBuffer := [];
      }
    }
  }
}
