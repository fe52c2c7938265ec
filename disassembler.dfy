/**
 * The disassembler: renders operands, single instructions and whole listings
 * of a token sequence as text lines.
 */
module Disassembler {
  import opened Wrappers
  import opened Opcodes

  /** Why an operand could not be rendered: a token outside both bands, or no token at all. */
  datatype FormatError = InvalidLiteral(token: nat) | MissingToken(position: nat)

  predicate IsDigit(c: char) {
    '0' <= c <= '9'
  }

  predicate AllDigits(s: string) {
    forall i :: 0 <= i < |s| ==> IsDigit(s[i])
  }

  function DigitChar(d: nat): (c: char)
    requires d < 10
    ensures IsDigit(c) && c as int - '0' as int == d
  {
    "0123456789"[d]
  }

  /** The decimal numeral of n, as `Number.prototype.toString` writes it. */
  function Decimal(n: nat): (s: string)
    ensures |s| >= 1 && AllDigits(s)
    ensures n < 10 <==> |s| == 1
    ensures s[0] == '0' ==> n == 0
    decreases n
  {
    if n < 10 then [DigitChar(n)] else Decimal(n / 10) + [DigitChar(n % 10)]
  }

  /** Reads a decimal numeral back. */
  function DecimalValue(s: string): nat
    requires AllDigits(s)
  {
    if s == [] then 0
    else 10 * DecimalValue(s[..|s| - 1]) + (s[|s| - 1] as int - '0' as int)
  }

  lemma {:induction false} DecimalRoundTrip(n: nat)
    ensures DecimalValue(Decimal(n)) == n
    decreases n
  {
    if n >= 10 {
      var s := Decimal(n);
      assert s[..|s| - 1] == Decimal(n / 10);
      DecimalRoundTrip(n / 10);
    }
  }

  /** `formatValue`: a literal in decimal, a register reference as `r<i>`. */
  function FormatValue(token: nat): (r: Result<string, FormatError>)
    ensures r.Ok? <==> token < TokenLimit
    ensures r.Err? ==> r.error == InvalidLiteral(token)
    ensures r.Ok? ==> |r.value| >= 1 && (r.value[0] == 'r' <==> token >= RegisterBase)
  {
    if token < RegisterBase then Ok(Decimal(token))
    else if token < TokenLimit then Ok("r" + Decimal(token - RegisterBase))
    else Err(InvalidLiteral(token))
  }

  /** Reads a rendered operand back into its token. */
  function ParseValue(s: string): Option<nat> {
    if |s| >= 1 && s[0] == 'r' && AllDigits(s[1..]) then Some(RegisterBase + DecimalValue(s[1..]))
    else if AllDigits(s) then Some(DecimalValue(s))
    else None
  }

  /**
   * The two addressing bands render distinguishably: a token renders exactly
   * when it is below 32776, a register reference as `r` and one digit, and the
   * rendering reads back as the same token.
   */
  lemma FormatValueRoundTrip(token: nat)
    ensures FormatValue(token).Ok? <==> token < TokenLimit
    ensures token < RegisterBase ==> FormatValue(token) == Ok(Decimal(token))
    ensures RegisterBase <= token < TokenLimit ==>
      |FormatValue(token).value| == 2 && FormatValue(token).value[0] == 'r' &&
      FormatValue(token).value[1] == DigitChar(token - RegisterBase)
    ensures FormatValue(token).Ok? ==> ParseValue(FormatValue(token).value) == Some(token)
  {
    DecimalRoundTrip(token);
    if RegisterBase <= token < TokenLimit {
      var s := FormatValue(token).value;
      assert s[1..] == Decimal(token - RegisterBase);
      DecimalRoundTrip(token - RegisterBase);
    }
  }

  /** `tokens[i]` rendered; a position past the end holds no token. */
  function TokenText(tokens: seq<nat>, i: nat): (r: Result<string, FormatError>)
    ensures r.Ok? <==> i < |tokens| && tokens[i] < TokenLimit
  {
    FormatValueRoundTrip(if i < |tokens| then tokens[i] else 0);
    if i < |tokens| then FormatValue(tokens[i]) else Err(MissingToken(i))
  }

  /** The n operands starting at `start`, rendered in order; the first failure aborts. */
  function FormatArgs(tokens: seq<nat>, start: nat, n: nat): (r: Result<seq<string>, FormatError>)
    ensures r.Ok? <==> forall j :: start <= j < start + n ==> TokenText(tokens, j).Ok?
    ensures r.Ok? ==> |r.value| == n
    ensures r.Ok? ==> forall j :: start <= j < start + n ==> TokenText(tokens, j) == Ok(r.value[j - start])
    decreases n
  {
    if n == 0 then Ok([])
    else
      var head :- TokenText(tokens, start);
      var tail :- FormatArgs(tokens, start + 1, n - 1);
      Ok([head] + tail)
  }

  /** `args.join(" ")`. */
  function Join(parts: seq<string>): string {
    if parts == [] then ""
    else if |parts| == 1 then parts[0]
    else parts[0] + " " + Join(parts[1..])
  }

  /** The line `formatInstruction` produces for the instruction at pc. */
  function InstructionLine(pc: nat, tokens: seq<nat>): (r: Result<string, FormatError>)
    requires pc < |tokens| && tokens[pc] < |Order|
    ensures r.Ok? <==> forall j :: pc < j < pc + Size(Lookup(tokens[pc]).value) ==> TokenText(tokens, j).Ok?
  {
    var op := Lookup(tokens[pc]).value;
    var args :- FormatArgs(tokens, pc + 1, Size(op) - 1);
    Ok(Decimal(pc) + " " + Mnemonic(op) + " " + Join(args))
  }

  /**
   * A rendered line is the address, the mnemonic and a space, followed by
   * exactly size - 1 rendered operands joined by single spaces.
   */
  lemma InstructionLineShape(pc: nat, tokens: seq<nat>)
    requires pc < |tokens| && tokens[pc] < |Order|
    requires InstructionLine(pc, tokens).Ok?
    ensures exists args: seq<string> ::
      OperandTexts(tokens, pc, Lookup(tokens[pc]).value, args) &&
      InstructionLine(pc, tokens).value ==
        Decimal(pc) + " " + Mnemonic(Lookup(tokens[pc]).value) + " " + Join(args)
  {
    var op := Lookup(tokens[pc]).value;
    var args := FormatArgs(tokens, pc + 1, Size(op) - 1).value;
    assert OperandTexts(tokens, pc, op, args);
  }

  /** args are the renderings of the operands of the instruction op at pc, one per operand. */
  predicate OperandTexts(tokens: seq<nat>, pc: nat, op: Opcode, args: seq<string>) {
    |args| == Size(op) - 1 &&
    forall j :: pc < j < pc + Size(op) ==> TokenText(tokens, j) == Ok(args[j - pc - 1])
  }

  /** The partial result of an argument loop, extended by what remains. */
  function PrependArgs(done: seq<string>, rest: Result<seq<string>, FormatError>): Result<seq<string>, FormatError> {
    match rest
    case Ok(more) => Ok(done + more)
    case Err(e) => Err(e)
  }

  /** Rendering one more operand moves it from the rest of the arguments to the finished ones. */
  lemma ArgsStep(done: seq<string>, tokens: seq<nat>, start: nat, n: nat, text: string)
    requires n > 0 && TokenText(tokens, start) == Ok(text)
    ensures PrependArgs(done, FormatArgs(tokens, start, n)) ==
      PrependArgs(done + [text], FormatArgs(tokens, start + 1, n - 1))
  {
    var rest := FormatArgs(tokens, start + 1, n - 1);
    if rest.Ok? {
      assert done + ([text] + rest.value) == (done + [text]) + rest.value;
    }
  }

  /** `formatInstruction`: renders the instruction at pc, operand by operand. */
  method FormatInstruction(pc: nat, tokens: seq<nat>) returns (r: Result<string, FormatError>)
    requires pc < |tokens| && tokens[pc] < |Order|
    ensures r == InstructionLine(pc, tokens)
  {
    var op := Lookup(tokens[pc]).value;
    var args: seq<string> := [];
    match FormatArgs(tokens, pc + 1, Size(op) - 1) {
      case Ok(all) => assert [] + all == all;
      case Err(_) =>
    }
    for offset := 1 to Size(op)
      invariant |args| == offset - 1
      invariant FormatArgs(tokens, pc + 1, Size(op) - 1) ==
        PrependArgs(args, FormatArgs(tokens, pc + offset, Size(op) - offset))
    {
      var text := TokenText(tokens, pc + offset);
      if text.Err? {
        return Err(text.error);
      }
      ArgsStep(args, tokens, pc + offset, Size(op) - offset, text.value);
      args := args + [text.value];
    }
    assert args + [] == args;
    r := Ok(Decimal(pc) + " " + Mnemonic(op) + " " + Join(args));
  }

  /** What `prettyPrint` prints from pc on, and the error that stops it, if any. */
  function Listing(tokens: seq<nat>, pc: nat): (r: (seq<string>, Option<FormatError>))
    ensures r.0 == [] || pc + |r.0| <= |tokens|
    decreases |tokens| - pc
  {
    if pc >= |tokens| then ([], None)
    else if tokens[pc] >= |Order| then Listing(tokens, pc + 1)
    else match InstructionLine(pc, tokens)
      case Err(e) => ([], Some(e))
      case Ok(line) =>
        var rest := Listing(tokens, pc + Size(Lookup(tokens[pc]).value));
        ([line] + rest.0, rest.1)
  }

  /** The addresses the listing walk treats as instructions, from pc on. */
  function Starts(tokens: seq<nat>, pc: nat): seq<nat>
    decreases |tokens| - pc
  {
    if pc >= |tokens| then []
    else if tokens[pc] >= |Order| then Starts(tokens, pc + 1)
    else [pc] + Starts(tokens, pc + Size(Lookup(tokens[pc]).value))
  }

  /**
   * The walk's instruction addresses strictly increase and lie in
   * [pc, |tokens|), so there are at most |tokens| - pc of them.
   */
  lemma {:induction false} StartsIncrease(tokens: seq<nat>, pc: nat)
    ensures forall i :: 0 <= i < |Starts(tokens, pc)| ==> pc <= Starts(tokens, pc)[i] < |tokens|
    ensures forall i, j :: 0 <= i < j < |Starts(tokens, pc)| ==> Starts(tokens, pc)[i] < Starts(tokens, pc)[j]
    ensures |Starts(tokens, pc)| <= |tokens| - pc || pc >= |tokens|
    decreases |tokens| - pc
  {
    if pc >= |tokens| {
    } else if tokens[pc] >= |Order| {
      StartsIncrease(tokens, pc + 1);
    } else {
      var next := pc + Size(Lookup(tokens[pc]).value);
      StartsIncrease(tokens, next);
      var s := Starts(tokens, pc);
      assert s == [pc] + Starts(tokens, next);
      assert |Starts(tokens, next)| <= |tokens| - next || next >= |tokens|;
    }
  }

  /** The instruction at address a renders as `line`. */
  predicate RendersAt(tokens: seq<nat>, a: nat, line: string) {
    a < |tokens| && tokens[a] < |Order| && InstructionLine(a, tokens) == Ok(line)
  }

  /** One step of the listing walk from an address that holds an opcode. */
  lemma ListingAt(tokens: seq<nat>, pc: nat)
    requires pc < |tokens| && tokens[pc] < |Order|
    ensures InstructionLine(pc, tokens).Err? ==> Listing(tokens, pc) == ([], Some(InstructionLine(pc, tokens).error))
    ensures InstructionLine(pc, tokens).Ok? ==>
      var rest := Listing(tokens, pc + Size(Lookup(tokens[pc]).value));
      Listing(tokens, pc) == ([InstructionLine(pc, tokens).value] + rest.0, rest.1)
  {
  }

  /** Prepending one rendered instruction keeps lines and addresses in step. */
  lemma RendersCons(tokens: seq<nat>, pc: nat, line: string, lines: seq<string>, starts: seq<nat>)
    requires RendersAt(tokens, pc, line) && |lines| <= |starts|
    requires forall i :: 0 <= i < |lines| ==> RendersAt(tokens, starts[i], lines[i])
    ensures forall i :: 0 <= i < |[line] + lines| ==> RendersAt(tokens, ([pc] + starts)[i], ([line] + lines)[i])
  {
    forall i | 0 <= i < |[line] + lines|
      ensures RendersAt(tokens, ([pc] + starts)[i], ([line] + lines)[i])
    {
      if i > 0 {
        assert ([line] + lines)[i] == lines[i - 1] && ([pc] + starts)[i] == starts[i - 1];
      }
    }
  }

  /** The instruction at address a fails to render, with error e. */
  predicate FailsAt(tokens: seq<nat>, a: nat, e: FormatError) {
    a < |tokens| && tokens[a] < |Order| && InstructionLine(a, tokens) == Err(e)
  }

  /**
   * Line i of the listing is the rendering of the i-th instruction address,
   * and the listing has no more lines than the walk has addresses.
   */
  lemma {:induction false} ListingLines(tokens: seq<nat>, pc: nat)
    ensures |Listing(tokens, pc).0| <= |Starts(tokens, pc)|
    ensures forall i :: 0 <= i < |Listing(tokens, pc).0| ==> RendersAt(tokens, Starts(tokens, pc)[i], Listing(tokens, pc).0[i])
    decreases |tokens| - pc
  {
    if pc >= |tokens| {
    } else if tokens[pc] >= |Order| {
      ListingLines(tokens, pc + 1);
    } else if InstructionLine(pc, tokens).Ok? {
      var next := pc + Size(Lookup(tokens[pc]).value);
      ListingLines(tokens, next);
      ListingAt(tokens, pc);
      assert Starts(tokens, pc) == [pc] + Starts(tokens, next);
      RendersCons(tokens, pc, InstructionLine(pc, tokens).value, Listing(tokens, next).0, Starts(tokens, next));
    } else {
      ListingAt(tokens, pc);
    }
  }

  /**
   * The listing leaves nothing out: without an error it has a line for every
   * address of the walk; with error e it stops at the first address whose
   * instruction fails to render, and that instruction fails with e.
   */
  lemma {:induction false} ListingComplete(tokens: seq<nat>, pc: nat)
    ensures Listing(tokens, pc).1.None? ==> |Listing(tokens, pc).0| == |Starts(tokens, pc)|
    ensures Listing(tokens, pc).1.Some? ==>
      |Listing(tokens, pc).0| < |Starts(tokens, pc)| &&
      FailsAt(tokens, Starts(tokens, pc)[|Listing(tokens, pc).0|], Listing(tokens, pc).1.value)
    decreases |tokens| - pc
  {
    if pc >= |tokens| {
    } else if tokens[pc] >= |Order| {
      ListingComplete(tokens, pc + 1);
    } else {
      var next := pc + Size(Lookup(tokens[pc]).value);
      ListingAt(tokens, pc);
      var starts := Starts(tokens, pc);
      assert starts == [pc] + Starts(tokens, next);
      if InstructionLine(pc, tokens).Ok? {
        ListingComplete(tokens, next);
        var n := |Listing(tokens, next).0|;
        assert |Listing(tokens, pc).0| == n + 1;
        if Listing(tokens, next).1.Some? {
          assert starts[n + 1] == Starts(tokens, next)[n];
        }
      } else {
        assert starts[0] == pc;
      }
    }
  }

  /** The lines already printed, followed by the listing of what remains. */
  function AfterLines(lines: seq<string>, rest: (seq<string>, Option<FormatError>)): (seq<string>, Option<FormatError>) {
    (lines + rest.0, rest.1)
  }

  /** `prettyPrint`: walks the tokens, skipping words that are no opcode one at a time. */
  method PrettyPrint(tokens: seq<nat>) returns (lines: seq<string>, failure: Option<FormatError>)
    ensures lines == Listing(tokens, 0).0 && failure == Listing(tokens, 0).1
  {
    var pc := 0;
    lines := [];
    assert [] + Listing(tokens, 0).0 == Listing(tokens, 0).0;
    while pc < |tokens|
      invariant Listing(tokens, 0) == AfterLines(lines, Listing(tokens, pc))
      decreases |tokens| - pc
    {
      if tokens[pc] >= |Order| {
        assert Listing(tokens, pc) == Listing(tokens, pc + 1);
        pc := pc + 1;
        continue;
      }
      ListingAt(tokens, pc);
      var line := FormatInstruction(pc, tokens);
      if line.Err? {
        assert lines + [] == lines;
        return lines, Some(line.error);
      }
      var next := pc + Size(Lookup(tokens[pc]).value);
      assert lines + ([line.value] + Listing(tokens, next).0) == (lines + [line.value]) + Listing(tokens, next).0;
      lines := lines + [line.value];
      pc := next;
    }
    assert lines + [] == lines;
    failure := None;
  }
}
