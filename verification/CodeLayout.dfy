// The bytes of an assembled program, one by one: how wide each operand is,
// where it stands, and which number it holds
// (proc-macros/abacus-macros/src/lib.rs).
module CodeLayout {
  import opened Prelude
  import opened Arithmetic
  import opened FixedPoint
  import opened RustLiterals
  import opened AmountText
  import opened ByteCodec
  import opened AbacusSyntax
  import opened Assembler

  // ---- Widths and positions ----

  function Width(t: ArgType): nat {
    match t
    case RegisterId => 1
    case StackPos => 1
    case Size => 1
    case StorageId => 16
    case AmountImmediate => 16
    case Label => 16
  }

  function Widths(types: seq<ArgType>): nat {
    if types == [] then 0 else Width(types[0]) + Widths(types[1..])
  }

  function InstructionLength(table: ArgTable, mnemonic: string): nat {
    1 + if mnemonic in table then Widths(table[mnemonic]) else 0
  }

  function CodeLength(table: ArgTable, mnemonics: seq<string>): nat {
    if mnemonics == [] then 0 else InstructionLength(table, mnemonics[0]) + CodeLength(table, mnemonics[1..])
  }

  function DecodedLength(table: ArgTable, program: seq<Decoded>): nat {
    if program == [] then 0 else InstructionLength(table, program[0].mnemonic) + DecodedLength(table, program[1..])
  }

  lemma OperandBytes(t: ArgType, v: nat)
    ensures |EncodeOperand(t, v)| == Width(t)
    ensures forall b :: 0 <= b < Width(t) ==> 0 < Pow256(b) && EncodeOperand(t, v)[b] == v / Pow256(b) % 256
  {
    forall b | 0 <= b < Width(t)
      ensures 0 < Pow256(b) && EncodeOperand(t, v)[b] == v / Pow256(b) % 256
    {
      if !ByteWide(t) {
        LeBytesAt(v, WORD, b);
      }
    }
  }

  lemma {:induction false} OperandsLength(types: seq<ArgType>, operands: seq<nat>)
    requires |operands| == |types|
    ensures |EncodeOperands(types, operands)| == Widths(types)
  {
    if types != [] {
      OperandsLength(types[1..], operands[1..]);
      OperandBytes(types[0], operands[0]);
    }
  }

  // Operand k stands behind those before it.
  lemma {:induction false} OperandPlace(types: seq<ArgType>, operands: seq<nat>, k: nat)
    requires |operands| == |types| && k < |types|
    ensures Widths(types[..k]) + Width(types[k]) <= Widths(types)
    ensures |EncodeOperands(types, operands)| == Widths(types)
    ensures EncodeOperands(types, operands)[Widths(types[..k])..][..Width(types[k])]
      == EncodeOperand(types[k], operands[k])
  {
    var all := EncodeOperands(types, operands);
    OperandsLength(types, operands);
    OperandsLength(types[1..], operands[1..]);
    OperandBytes(types[0], operands[0]);
    if k > 0 {
      OperandPlace(types[1..], operands[1..], k - 1);
      assert types[..k][1..] == types[1..][..k - 1];
      assert all[Width(types[0])..] == EncodeOperands(types[1..], operands[1..]);
      assert all[Widths(types[..k])..] == EncodeOperands(types[1..], operands[1..])[Widths(types[1..][..k - 1])..];
    }
  }

  lemma InstructionBytes(isa: Isa, d: Decoded)
    requires Shaped(isa, d)
    ensures |EncodeInstruction(isa, d)| == InstructionLength(isa.table, d.mnemonic)
  {
    OperandsLength(isa.table[d.mnemonic], d.operands);
  }

  lemma {:induction false} ProgramLength(isa: Isa, program: seq<Decoded>)
    requires AllShaped(isa, program)
    ensures |EncodeProgram(isa, program)| == DecodedLength(isa.table, program)
  {
    if program != [] {
      ProgramLength(isa, program[1..]);
      InstructionBytes(isa, program[0]);
    }
  }

  // Instruction i stands behind those before it.
  lemma {:induction false} InstructionPlace(isa: Isa, program: seq<Decoded>, i: nat)
    requires AllShaped(isa, program) && i < |program|
    ensures Shaped(isa, program[i])
    ensures |EncodeProgram(isa, program)| == DecodedLength(isa.table, program)
    ensures DecodedLength(isa.table, program[..i]) <= DecodedLength(isa.table, program)
    ensures EncodeInstruction(isa, program[i]) <= EncodeProgram(isa, program)[DecodedLength(isa.table, program[..i])..]
  {
    var all := EncodeProgram(isa, program);
    ProgramLength(isa, program);
    if i > 0 {
      InstructionPlace(isa, program[1..], i - 1);
      InstructionBytes(isa, program[0]);
      var first := InstructionLength(isa.table, program[0].mnemonic);
      assert program[..i][1..] == program[1..][..i - 1];
      assert all[first..] == EncodeProgram(isa, program[1..]);
      assert all[DecodedLength(isa.table, program[..i])..]
        == EncodeProgram(isa, program[1..])[DecodedLength(isa.table, program[1..][..i - 1])..];
    }
  }

  // ---- The numbers ----

  predicate TakesAmount(mnemonic: string) { mnemonic == "IMMS" || mnemonic == "VPUSH" }

  // Whether Rust accepts an integer literal where a value of at most `max` is
  // expected and then cast.
  predicate Castable(n: nat, suffix: Suffix, max: nat) {
    match suffix
    case Unsuffixed => n <= max
    case IntType(own) => n <= own
    case NoType => false
  }

  // The number an argument stands for; no number if it does not compile.
  ghost predicate Denotes(
    env: Environment, mnemonic: string, t: ArgType, arg: Arg, order: seq<string>, number: Option<nat>)
  {
    match arg
    case RegisterArg(name) =>
      if number.Some? then number.value < |order| && order[number.value] == name else name !in order
    case ConstantArg(name) =>
      if number.Some? then name in env && number.value == env[name] else name !in env
    case LiteralArg(IntLit(n, suffix)) =>
      if TakesAmount(mnemonic) then
        number == if n * SCALE < TWO_128 && (n in {0, 1, 2, 4} || Castable(n, suffix, TWO_128 - 1))
          then Some(n * SCALE) else None
      else if Width(t) == 1 then
        number == if Castable(n, suffix, 255) then Some(n % 256) else None
      else
        number == if n < TWO_128 && suffix in {Unsuffixed, IntType(TWO_128 - 1)} then Some(n) else None
    case LiteralArg(FloatLit(digits, asByte)) =>
      if TakesAmount(mnemonic) then
        number == match ReadFloat(digits) { case Ok(a) => Some(a.raw) case Err(_) => None }
      else number == if Width(t) == 1 then Some(asByte) else None
    case LiteralArg(ScalarLit(code)) =>
      number == if !TakesAmount(mnemonic) && Width(t) == 1 then Some(code % 256) else None
    case LiteralArg(OtherLit) => number == None
  }

  // Registers stand for their place in the order of first use, constants for
  // their value, literals for themselves: an amount in units of 10^-18, a byte
  // for its low 8 bits, a word unchanged.
  lemma OperandDenotes(env: Environment, mnemonic: string, t: ArgType, arg: Arg, order: seq<string>)
    ensures Denotes(env, mnemonic, t, arg, order, Operand(env, mnemonic, t, arg, order))
  {
    if arg.LiteralArg? && arg.literal.IntLit? && TakesAmount(mnemonic) {
      IntegerLiteralMeaning(arg.literal.value, arg.literal.suffix);
      if TWO_128 <= arg.literal.value {
        MulAtLeast(arg.literal.value, SCALE);
      }
    }
  }

  // ---- The main result ----

  // From `at` on the code holds a number in `width` bytes, the lowest first.
  predicate HoldsNumber(code: seq<U8>, at: nat, width: nat, v: nat) {
    at + width <= |code| &&
    forall b :: 0 <= b < width ==> 0 < Pow256(b) && code[at + b] == v / Pow256(b) % 256
  }

  // Argument k stands behind the opcode and the arguments before it, as a
  // number it denotes.
  ghost predicate ArgumentHolds(
    env: Environment, mnemonic: string, types: seq<ArgType>, args: seq<Arg>, order: seq<string>, code: seq<U8>,
    start: nat, k: nat)
    requires k < |types| == |args|
  {
    exists v: nat ::
      && Denotes(env, mnemonic, types[k], args[k], order, Some(v))
      && HoldsNumber(code, start + 1 + Widths(types[..k]), Width(types[k]), v)
  }

  lemma OperandHeld(op: U8, types: seq<ArgType>, operands: seq<nat>, k: nat)
    requires |operands| == |types| && k < |types|
    ensures HoldsNumber([op] + EncodeOperands(types, operands), 1 + Widths(types[..k]), Width(types[k]), operands[k])
  {
    var bytes, at := EncodeOperands(types, operands), Widths(types[..k]);
    OperandPlace(types, operands, k);
    OperandBytes(types[k], operands[k]);
    assert forall b :: 0 <= b < Width(types[k]) ==> bytes[at..][..Width(types[k])][b] == bytes[at + b];
  }

  lemma HeldInside(code: seq<U8>, start: nat, own: seq<U8>, at: nat, width: nat, v: nat)
    requires start <= |code| && own <= code[start..] && HoldsNumber(own, at, width, v)
    ensures HoldsNumber(code, start + at, width, v)
  {
    forall b | 0 <= b < width
      ensures 0 < Pow256(b) && code[start + at + b] == v / Pow256(b) % 256
    {
      assert code[start..][at + b] == own[at + b];
    }
  }

  lemma ArgumentBytes(
    isa: Isa, env: Environment, instruction: Instruction, order: seq<string>, code: seq<U8>, start: nat, k: nat)
    requires isa.opcodes.Keys == isa.table.Keys && InstructionFits(isa.table, instruction)
    requires InstructionCompiles(isa, env, instruction, order) && k < |instruction.args|
    requires start <= |code|
    requires EncodeInstruction(isa, LowerInstruction(isa, env, instruction, order)) <= code[start..]
    ensures var m := Upper(instruction.mnemonic);
      ArgumentHolds(env, m, isa.table[m], instruction.args, order, code, start, k)
  {
    var m, d := Upper(instruction.mnemonic), LowerInstruction(isa, env, instruction, order);
    var types := isa.table[m];
    OperandDenotes(env, m, types[k], instruction.args[k], order);
    OperandHeld(isa.opcodes[m], types, d.operands, k);
    HeldInside(code, start, EncodeInstruction(isa, d), 1 + Widths(types[..k]), Width(types[k]), d.operands[k]);
  }

  function Mnemonics(program: seq<Instruction>): (m: seq<string>)
    ensures |m| == |program|
  {
    seq(|program|, i requires 0 <= i < |program| => Upper(program[i].mnemonic))
  }

  // The code of the first instructions of a program fills this many bytes.
  function Before(table: ArgTable, program: seq<Instruction>, i: nat): nat
    requires i <= |program|
  {
    CodeLength(table, Mnemonics(program)[..i])
  }

  lemma {:induction false} LoweredLength(table: ArgTable, d: seq<Decoded>, mnemonics: seq<string>)
    requires |d| == |mnemonics| && forall i :: 0 <= i < |d| ==> d[i].mnemonic == mnemonics[i]
    ensures DecodedLength(table, d) == CodeLength(table, mnemonics)
  {
    if d != [] {
      LoweredLength(table, d[1..], mnemonics[1..]);
    }
  }

  lemma LoweredPlace(isa: Isa, env: Environment, program: seq<Instruction>, i: nat)
    requires isa.opcodes.Keys == isa.table.Keys && WellTyped(isa.table, program) && Compiles(isa, env, program)
    requires i < |program|
    ensures InstructionFits(isa.table, program[i]) && InstructionCompiles(isa, env, program[i], Registers(program))
    ensures var code, start := Assembled(isa, env, program).value, Before(isa.table, program, i);
      && |code| == Before(isa.table, program, |program|) && start <= |code|
      && EncodeInstruction(isa, LowerInstruction(isa, env, program[i], Registers(program))) <= code[start..]
  {
    var lowered, mnemonics := Lower(isa, env, program), Mnemonics(program);
    assert AllShaped(isa, lowered) && InstructionFits(isa.table, program[i]);
    InstructionPlace(isa, lowered, i);
    LoweredLength(isa.table, lowered[..i], mnemonics[..i]);
    LoweredLength(isa.table, lowered, mnemonics);
    assert mnemonics[..|program|] == mnemonics;
  }

  // Every byte of the code: its length, each opcode, and each argument at the
  // place the widths of what stands before give it.
  lemma CodeBytes(isa: Isa, env: Environment, program: seq<Instruction>, i: nat)
    requires isa.opcodes.Keys == isa.table.Keys && WellTyped(isa.table, program) && Compiles(isa, env, program)
    requires i < |program|
    ensures InstructionFits(isa.table, program[i])
    ensures var code, start := Assembled(isa, env, program).value, Before(isa.table, program, i);
      var m := Upper(program[i].mnemonic);
      && |code| == Before(isa.table, program, |program|)
      && start < |code| && code[start] == isa.opcodes[m]
      && forall k :: 0 <= k < |program[i].args| ==>
           ArgumentHolds(env, m, isa.table[m], program[i].args, Registers(program), code, start, k)
  {
    LoweredPlace(isa, env, program, i);
    var code, start := Assembled(isa, env, program).value, Before(isa.table, program, i);
    var m := Upper(program[i].mnemonic);
    assert code[start..][0] == isa.opcodes[m];
    forall k | 0 <= k < |program[i].args|
      ensures ArgumentHolds(env, m, isa.table[m], program[i].args, Registers(program), code, start, k)
    {
      ArgumentBytes(isa, env, program[i], Registers(program), code, start, k);
    }
  }
}
