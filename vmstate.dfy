/**
 * The machine state as a value: what a runtime holds at one instant, the
 * loaded memory image, and the stdout line buffering.
 */
module VmState {

  /** A UTF-16 code unit: what one character of a JavaScript string is. */
  type CodeUnit = n: nat | n < 0x1_0000

  const Newline: CodeUnit := 10
  /** The memory cells a runtime zeroes: 2^15. */
  const MemorySize: nat := 32768
  const RegisterCount: nat := 8

  /**
   * pc, running flag, registers, memory and stack; the stdout line buffer and
   * the lines handed to the line writer so far; the characters the line
   * reader will still supply.
   */
  datatype Machine = Machine(
    pc: nat,
    running: bool,
    regs: seq<nat>,
    mem: seq<nat>,
    stack: seq<nat>,
    outBuf: seq<CodeUnit>,
    written: seq<seq<CodeUnit>>,
    stdin: seq<CodeUnit>)

  predicate WellFormed(m: Machine) {
    |m.regs| == RegisterCount && |m.mem| >= MemorySize
  }

  /** The memory a runtime starts with: the program from address 0, zeros after it. */
  function LoadImage(tokens: seq<nat>): (mem: seq<nat>)
    ensures |mem| == if |tokens| <= MemorySize then MemorySize else |tokens|
    ensures forall i :: 0 <= i < |mem| ==> mem[i] == if i < |tokens| then tokens[i] else 0
    ensures mem[..|tokens|] == tokens
  {
    if |tokens| <= MemorySize then tokens + seq(MemorySize - |tokens|, _ => 0) else tokens
  }

  /** A fresh runtime loaded with `tokens`. */
  function Initial(tokens: seq<nat>, stdin: seq<CodeUnit>): (m: Machine)
    ensures WellFormed(m) && m.pc == 0 && m.running && m.stack == [] && m.outBuf == [] && m.written == []
    ensures forall r :: 0 <= r < RegisterCount ==> m.regs[r] == 0
  {
    Machine(0, true, seq(RegisterCount, _ => 0), LoadImage(tokens), [], [], [], stdin)
  }

  predicate EndsWithNewline(data: seq<CodeUnit>) {
    |data| > 0 && data[|data| - 1] == Newline
  }

  /** The text the writer has received, each line followed by the newline that ended it. */
  function Joined(lines: seq<seq<CodeUnit>>): seq<CodeUnit> {
    if lines == [] then [] else Joined(lines[..|lines| - 1]) + lines[|lines| - 1] + [Newline]
  }

  /**
   * `stdout(data)` on (buffer, lines written): nothing emitted is lost or
   * reordered, the writer is called once exactly when data ends with a
   * newline, and the buffer is empty after that call.
   */
  function Emit(buffer: seq<CodeUnit>, written: seq<seq<CodeUnit>>, data: seq<CodeUnit>)
    : (r: (seq<CodeUnit>, seq<seq<CodeUnit>>))
    ensures Joined(r.1) + r.0 == Joined(written) + buffer + data
    ensures |r.1| == |written| + (if EndsWithNewline(data) then 1 else 0)
    ensures r.1[..|written|] == written
    ensures EndsWithNewline(data) ==> r.0 == []
  {
    var all := buffer + data;
    if EndsWithNewline(data) then
      var line := all[..|all| - 1];
      assert (written + [line])[..|written|] == written;
      assert line + [Newline] == all;
      ([], written + [line])
    else
      (all, written)
  }

  /** Emits each code unit of `units` by itself, in order. */
  function EmitEach(buffer: seq<CodeUnit>, written: seq<seq<CodeUnit>>, units: seq<CodeUnit>)
    : (seq<CodeUnit>, seq<seq<CodeUnit>>)
    decreases |units|
  {
    if units == [] then (buffer, written)
    else
      var next := Emit(buffer, written, [units[0]]);
      EmitEach(next.0, next.1, units[1..])
  }

  lemma {:induction false} EmitEachAppend(buffer: seq<CodeUnit>, written: seq<seq<CodeUnit>>, u: seq<CodeUnit>, v: seq<CodeUnit>)
    ensures var mid := EmitEach(buffer, written, u);
      EmitEach(buffer, written, u + v) == EmitEach(mid.0, mid.1, v)
    decreases |u|
  {
    if u != [] {
      var next := Emit(buffer, written, [u[0]]);
      assert (u + v)[0] == u[0] && (u + v)[1..] == u[1..] + v;
      EmitEachAppend(next.0, next.1, u[1..], v);
    } else {
      assert u + v == v;
    }
  }

  /** Characters other than newline only accumulate in the buffer. */
  lemma {:induction false} EmitEachWithoutNewline(buffer: seq<CodeUnit>, written: seq<seq<CodeUnit>>, u: seq<CodeUnit>)
    requires forall i :: 0 <= i < |u| ==> u[i] != Newline
    ensures EmitEach(buffer, written, u) == (buffer + u, written)
    decreases |u|
  {
    if u == [] {
      assert buffer + u == buffer;
    } else {
      assert !EndsWithNewline([u[0]]);
      assert Emit(buffer, written, [u[0]]) == (buffer + [u[0]], written);
      EmitEachWithoutNewline(buffer + [u[0]], written, u[1..]);
      assert buffer + [u[0]] + u[1..] == buffer + u;
    }
  }

  /** A line's characters followed by a newline make exactly one writer call, with the line. */
  lemma EmitEachLine(buffer: seq<CodeUnit>, written: seq<seq<CodeUnit>>, u: seq<CodeUnit>, rest: seq<CodeUnit>)
    requires forall i :: 0 <= i < |u| ==> u[i] != Newline
    ensures EmitEach(buffer, written, u + [Newline] + rest) == EmitEach([], written + [buffer + u], rest)
  {
    EmitEachAppend(buffer, written, u, [Newline] + rest);
    assert u + [Newline] + rest == u + ([Newline] + rest);
    EmitEachWithoutNewline(buffer, written, u);
    var all := buffer + u + [Newline];
    assert all[..|all| - 1] == buffer + u;
    assert Emit(buffer + u, written, [Newline]) == ([], written + [buffer + u]);
    assert ([Newline] + rest)[1..] == rest;
  }

  /** Emitting F, O, O, newline, B, A, R, newline writes "FOO", then "BAR", and empties the buffer. */
  lemma FooBarLines(written: seq<seq<CodeUnit>>)
    ensures EmitEach([], written, [70, 79, 79, 10, 66, 65, 82, 10]) ==
      ([], written + [[70, 79, 79], [66, 65, 82]])
  {
    assert [70, 79, 79, 10, 66, 65, 82, 10] == [70, 79, 79] + [Newline] + [66, 65, 82, 10];
    EmitEachLine([], written, [70, 79, 79], [66, 65, 82, 10]);
    assert [66, 65, 82, 10] == [66, 65, 82] + [Newline] + [];
    EmitEachLine([], written + [[] + [70, 79, 79]], [66, 65, 82], []);
    assert [] + [70, 79, 79] == [70, 79, 79] && [] + [66, 65, 82] == [66, 65, 82];
    assert written + [[70, 79, 79]] + [[66, 65, 82]] == written + [[70, 79, 79], [66, 65, 82]];
  }
}
