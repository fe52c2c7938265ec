/**
 * The opcode table: 22 instructions, each with a mnemonic and a fixed size in
 * words (the opcode word plus its operands), and the arithmetic the
 * instructions' descriptions promise.
 */
module Opcodes {
  import opened Wrappers
  import Bits

  /** One case per table entry, in table order. */
  datatype Opcode =
    | Halt | Set | Push | Pop | Eq | Gt | Jmp | Jt | Jf | Add | Mult
    | Mod | And | Or | Not | Rmem | Wmem | Call | Ret | Out | In | Noop

  /** The table: the opcode stored at each index. */
  const Order: seq<Opcode> := [
    Halt, Set, Push, Pop, Eq, Gt, Jmp, Jt, Jf, Add, Mult,
    Mod, And, Or, Not, Rmem, Wmem, Call, Ret, Out, In, Noop
  ]

  /** Every opcode; the intended table, in which each entry has semantics. */
  const AllOpcodes: set<Opcode> := set i | 0 <= i < |Order| :: Order[i]

  /** 2^15: words are the integers below it. */
  const Modulus: nat := 32768

  /** First operand token that names a register (32768 is register 0). */
  const RegisterBase: nat := 32768
  /** First token that is neither a literal nor a register reference. */
  const TokenLimit: nat := 32776

  function Index(op: Opcode): (i: nat)
    ensures i < |Order| && Order[i] == op
  {
    match op
    case Halt => 0 case Set => 1 case Push => 2 case Pop => 3
    case Eq => 4 case Gt => 5 case Jmp => 6 case Jt => 7
    case Jf => 8 case Add => 9 case Mult => 10 case Mod => 11
    case And => 12 case Or => 13 case Not => 14 case Rmem => 15
    case Wmem => 16 case Call => 17 case Ret => 18 case Out => 19
    case In => 20 case Noop => 21
  }

  /** `opcodes[n]`: the entry at index n, if the table has one. */
  function Lookup(n: nat): (r: Option<Opcode>)
    ensures r.Some? <==> n < |Order|
    ensures r.Some? ==> Index(r.value) == n
  {
    if n < |Order| then Some(Order[n]) else None
  }

  /** The number of operands the instruction's description names (a, b, c). */
  function Operands(op: Opcode): nat {
    match op
    case Halt | Ret | Noop => 0
    case Push | Pop | Jmp | Call | Out | In => 1
    case Set | Jt | Jf | Not | Rmem | Wmem => 2
    case Eq | Gt | Add | Mult | Mod | And | Or => 3
  }

  /** The entry's name: a short lower-case word, so a trace line's fields stay apart. */
  function Mnemonic(op: Opcode): (name: string)
    ensures 2 <= |name| <= 4
    ensures forall i :: 0 <= i < |name| ==> 'a' <= name[i] <= 'z'
  {
    match op
    case Halt => "halt" case Set => "set" case Push => "push" case Pop => "pop"
    case Eq => "eq" case Gt => "gt" case Jmp => "jmp" case Jt => "jt"
    case Jf => "jf" case Add => "add" case Mult => "mult" case Mod => "mod"
    case And => "and" case Or => "or" case Not => "not" case Rmem => "rmem"
    case Wmem => "wmem" case Call => "call" case Ret => "ret" case Out => "out"
    case In => "in" case Noop => "noop"
  }

  /** The instruction's length in words: the opcode word and its operands. */
  function Size(op: Opcode): (n: nat)
    ensures n == 1 + Operands(op) && 1 <= n <= 4
  {
    match op
    case Halt | Ret | Noop => 1
    case Push | Pop | Jmp | Call | Out | In => 2
    case Set | Jt | Jf | Not | Rmem | Wmem => 3
    case Eq | Gt | Add | Mult | Mod | And | Or => 4
  }

  /** The mnemonics the table is expected to hold, index by index. */
  const ExpectedMnemonics: seq<string> := [
    "halt", "set", "push", "pop", "eq", "gt", "jmp", "jt", "jf", "add", "mult",
    "mod", "and", "or", "not", "rmem", "wmem", "call", "ret", "out", "in", "noop"
  ]

  /** Table shape: 22 entries, with these mnemonics at indices 0..21. */
  lemma TableMnemonics()
    ensures |Order| == 22
    ensures forall i :: 0 <= i < |Order| ==> Mnemonic(Order[i]) == ExpectedMnemonics[i]
  {
  }

  /** Lookup and Index are inverse: each opcode has exactly one table index. */
  lemma LookupIndex(op: Opcode, n: nat)
    ensures Lookup(Index(op)) == Some(op)
    ensures Lookup(n).Some? ==> Lookup(n).value == Order[n]
  {
  }

  /** `add`: the sum modulo 32768. */
  function AddMod(b: nat, c: nat): (r: nat)
    ensures r < Modulus
    ensures (b + c - r) % Modulus == 0
  {
    (b + c) % Modulus
  }

  /** `mult`: the product modulo 32768. */
  function MultMod(b: nat, c: nat): (r: nat)
    ensures r < Modulus
    ensures (b * c - r) % Modulus == 0
  {
    (b * c) % Modulus
  }

  /** `mod`: the remainder of b divided by c. */
  function Remainder(b: nat, c: nat): (r: nat)
    requires c > 0
    ensures r < c && r <= b
    ensures (b - r) % c == 0
    ensures b < c ==> r == b
  {
    MultipleMod(b / c, c);
    assert b - b % c == (b / c) * c;
    b % c
  }

  /** A multiple of c leaves no remainder. */
  lemma MultipleMod(q: nat, c: nat)
    requires c > 0
    ensures (q * c) % c == 0
  {
    var d, s := (q * c) / c, (q * c) % c;
    // (q - d) * c is a multiple of c in [0, c), so q == d.
    assert (q - d) * c == s by {
      assert q * c == d * c + s;
    }
    if q - d >= 1 {
      assert false;
    } else if q - d <= -1 {
      assert false;
    }
  }

  /** `eq`: 1 when b equals c, 0 otherwise. */
  function Equal(b: nat, c: nat): (r: nat)
    ensures r <= 1 && (r == 1 <==> b == c)
  {
    if b == c then 1 else 0
  }

  /** `gt`: 1 when b is greater than c, 0 otherwise. */
  function Greater(b: nat, c: nat): (r: nat)
    ensures r <= 1 && (r == 1 <==> b > c)
  {
    if b > c then 1 else 0
  }

  /** `and`: bitwise and; of two words, a word. */
  function BitwiseAnd(b: nat, c: nat): (r: nat)
    ensures r <= b && r <= c
    ensures b < Modulus ==> r < Modulus
  {
    Bits.AndAtMost(b, c);
    Bits.And(b, c)
  }

  /** `or`: bitwise or; of two words, a word. */
  function BitwiseOr(b: nat, c: nat): (r: nat)
    ensures b < Modulus && c < Modulus ==> r < Modulus
  {
    Bits.Pow2Of15();
    if b < Modulus && c < Modulus then Bits.OrBelow(b, c, 15); Bits.Or(b, c)
    else Bits.Or(b, c)
  }

  /** `not`: the 15-bit inverse, `~b & 0x7FFF`. */
  function Not15(b: nat): (r: nat)
    ensures r < Modulus
    ensures b < Modulus ==> r == Modulus - 1 - b
  {
    Bits.Pow2Of15();
    Bits.ComplementBelow(b, 15);
    if b < Modulus then Bits.ComplementValue(b, 15); Bits.Complement(b, 15)
    else Bits.Complement(b, 15)
  }

  /** `not` is its own inverse on words. */
  lemma NotInvolutive(b: nat)
    requires b < Modulus
    ensures Not15(Not15(b)) == b
  {
  }

  /** `not` flips exactly the 15 low bits. */
  lemma NotFlipsLowBits(b: nat, i: nat)
    ensures Bits.Bit(Not15(b), i) == (i < 15 && !Bits.Bit(b, i))
  {
    Bits.ComplementBits(b, 15, i);
  }
}
