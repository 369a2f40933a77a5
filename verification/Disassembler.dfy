// A disassembler driven only by the argument table, and what it proves about
// the assembler: bytecode determines the program up to register names
// (proc-macros/abacus-macros/src/lib.rs).
module Disassembler {
  import opened Prelude
  import opened Text
  import opened ByteCodec
  import opened AbacusSyntax
  import opened Assembler

  ghost function MnemonicOf(isa: Isa, op: U8): (m: Option<string>)
    ensures m.Some? ==> m.value in isa.opcodes && isa.opcodes[m.value] == op
    ensures m.None? ==> forall n :: n in isa.opcodes ==> isa.opcodes[n] != op
  {
    if exists n :: n in isa.opcodes && isa.opcodes[n] == op then
      var n :| n in isa.opcodes && isa.opcodes[n] == op;
      Some(n)
    else None
  }

  function TakeOperand(t: ArgType, bytes: seq<U8>): (r: Option<(nat, seq<U8>)>)
    ensures r.Some? ==> |r.value.1| < |bytes|
  {
    if ByteWide(t) then
      if |bytes| < 1 then None else Some((bytes[0], bytes[1..]))
    else
      if |bytes| < WORD then None else Some((ReadU128(bytes), bytes[WORD..]))
  }

  function TakeOperands(types: seq<ArgType>, bytes: seq<U8>): (r: Option<(seq<nat>, seq<U8>)>)
    ensures r.Some? ==> |r.value.1| <= |bytes|
  {
    if types == [] then Some(([], bytes))
    else
      match TakeOperand(types[0], bytes)
      case None => None
      case Some((v, rest)) =>
        match TakeOperands(types[1..], rest)
        case None => None
        case Some((vs, end)) => Some(([v] + vs, end))
  }

  ghost function Disassemble(isa: Isa, bytes: seq<U8>): Option<seq<Decoded>>
    requires isa.opcodes.Keys == isa.table.Keys
    decreases |bytes|
  {
    if bytes == [] then Some([])
    else
      match MnemonicOf(isa, bytes[0])
      case None => None
      case Some(m) =>
        match TakeOperands(isa.table[m], bytes[1..])
        case None => None
        case Some((operands, rest)) =>
          match Disassemble(isa, rest)
          case None => None
          case Some(others) => Some([Decoded(m, operands)] + others)
  }

  // What survives in the bytes: byte-wide operands keep their low 8 bits.
  function Stored(t: ArgType, v: nat): nat {
    if ByteWide(t) then v % 256 else v
  }

  function StoredOperands(types: seq<ArgType>, operands: seq<nat>): (s: seq<nat>)
    requires |operands| == |types|
    ensures |s| == |operands|
  {
    seq(|operands|, k requires 0 <= k < |operands| => Stored(types[k], operands[k]))
  }

  function StoredInstruction(isa: Isa, d: Decoded): Decoded
    requires Shaped(isa, d)
  {
    Decoded(d.mnemonic, StoredOperands(isa.table[d.mnemonic], d.operands))
  }

  function StoredProgram(isa: Isa, program: seq<Decoded>): (s: seq<Decoded>)
    requires AllShaped(isa, program)
    ensures |s| == |program|
  {
    seq(|program|, i requires 0 <= i < |program| => StoredInstruction(isa, program[i]))
  }

  // Word-wide operands are 128-bit values.
  predicate WordsInRange(types: seq<ArgType>, operands: seq<nat>) {
    |operands| == |types| && forall k :: 0 <= k < |types| ==> ByteWide(types[k]) || operands[k] < TWO_128
  }

  predicate AllInRange(isa: Isa, program: seq<Decoded>) {
    AllShaped(isa, program) &&
    forall i :: 0 <= i < |program| ==>
      Shaped(isa, program[i]) && WordsInRange(isa.table[program[i].mnemonic], program[i].operands)
  }

  lemma TakeEncodedOperand(t: ArgType, v: nat, rest: seq<U8>)
    requires ByteWide(t) || v < TWO_128
    ensures TakeOperand(t, EncodeOperand(t, v) + rest) == Some((Stored(t, v), rest))
  {
    var bytes := EncodeOperand(t, v) + rest;
    if ByteWide(t) {
      assert bytes[1..] == rest;
    } else {
      WordRange(4);
      LeValueOfBytes(v, WORD);
      assert bytes[..WORD] == LeBytes(v, WORD) && bytes[WORD..] == rest;
    }
  }

  lemma {:induction false} TakeEncodedOperands(types: seq<ArgType>, operands: seq<nat>, rest: seq<U8>)
    requires WordsInRange(types, operands)
    ensures TakeOperands(types, EncodeOperands(types, operands) + rest) == Some((StoredOperands(types, operands), rest))
  {
    var bytes := EncodeOperands(types, operands) + rest;
    if types == [] {
      assert bytes == rest;
    } else {
      var after := EncodeOperands(types[1..], operands[1..]) + rest;
      assert bytes == EncodeOperand(types[0], operands[0]) + after;
      TakeEncodedOperand(types[0], operands[0], after);
      TakeEncodedOperands(types[1..], operands[1..], rest);
      assert StoredOperands(types, operands)
        == [Stored(types[0], operands[0])] + StoredOperands(types[1..], operands[1..]);
    }
  }

  // The first instruction is read off the front of the bytes.
  lemma DisassembleFirst(isa: Isa, d: Decoded, rest: seq<U8>)
    requires ValidIsa(isa) && Shaped(isa, d) && WordsInRange(isa.table[d.mnemonic], d.operands)
    ensures Disassemble(isa, EncodeInstruction(isa, d) + rest) ==
      match Disassemble(isa, rest)
      case None => None
      case Some(others) => Some([StoredInstruction(isa, d)] + others)
  {
    var bytes := EncodeInstruction(isa, d) + rest;
    assert bytes[0] == isa.opcodes[d.mnemonic];
    assert bytes[1..] == EncodeOperands(isa.table[d.mnemonic], d.operands) + rest;
    assert MnemonicOf(isa, bytes[0]) == Some(d.mnemonic);
    TakeEncodedOperands(isa.table[d.mnemonic], d.operands, rest);
  }

  // Disassembling encoded instructions gives them back, operands cut to width.
  lemma {:induction false} DisassembleEncoded(isa: Isa, program: seq<Decoded>)
    requires ValidIsa(isa) && AllInRange(isa, program)
    ensures Disassemble(isa, EncodeProgram(isa, program)) == Some(StoredProgram(isa, program))
  {
    if program != [] {
      assert Shaped(isa, program[0]) && WordsInRange(isa.table[program[0].mnemonic], program[0].operands);
      DisassembleEncoded(isa, program[1..]);
      DisassembleFirst(isa, program[0], EncodeProgram(isa, program[1..]));
      assert StoredProgram(isa, program) == [StoredInstruction(isa, program[0])] + StoredProgram(isa, program[1..]);
    }
  }

  lemma LowerInRange(isa: Isa, env: Environment, program: seq<Instruction>)
    requires ValidIsa(isa) && WellTyped(isa.table, program) && Compiles(isa, env, program)
    ensures AllInRange(isa, Lower(isa, env, program))
  {
    var lowered := Lower(isa, env, program);
    forall i | 0 <= i < |program|
      ensures Shaped(isa, lowered[i]) && WordsInRange(isa.table[lowered[i].mnemonic], lowered[i].operands)
    {
      OperandsInRange(isa, env, program[i], Registers(program));
    }
  }

  lemma OperandsInRange(isa: Isa, env: Environment, instruction: Instruction, order: seq<string>)
    requires InstructionFits(isa.table, instruction) && InstructionCompiles(isa, env, instruction, order)
    ensures var d := LowerInstruction(isa, env, instruction, order);
      WordsInRange(isa.table[d.mnemonic], d.operands)
  {
    var types := isa.table[Upper(instruction.mnemonic)];
    forall k | 0 <= k < |types|
      ensures ByteWide(types[k]) || LowerInstruction(isa, env, instruction, order).operands[k] < TWO_128
    {
      assert ArgFits(types[k], instruction.args[k]);
    }
  }

  // What must fit in a byte: the register count, and each constant used where
  // a byte is stored. Literals that do not fit never compile.
  predicate ConstantsFit(isa: Isa, env: Environment, program: seq<Instruction>)
    requires WellTyped(isa.table, program)
  {
    forall i, k :: 0 <= i < |program| && 0 <= k < |program[i].args| ==> ConstantFits(isa, env, program[i], k)
  }

  predicate ConstantFits(isa: Isa, env: Environment, instruction: Instruction, k: nat) {
    InstructionFits(isa.table, instruction) && k < |instruction.args| &&
    (instruction.args[k].ConstantArg? && instruction.args[k].name in env
       && ByteWide(isa.table[Upper(instruction.mnemonic)][k])
     ==> env[instruction.args[k].name] < 256)
  }

  predicate FitsBytes(isa: Isa, env: Environment, program: seq<Instruction>)
    requires WellTyped(isa.table, program)
  {
    |Registers(program)| <= 256 && ConstantsFit(isa, env, program)
  }

  // Amount literals sit at immediate operands only, as in ARG_TYPES.
  predicate AmountsAreWords(table: ArgTable) {
    && ("IMMS" in table ==> forall t :: t in table["IMMS"] ==> !ByteWide(t))
    && ("VPUSH" in table ==> forall t :: t in table["VPUSH"] ==> !ByteWide(t))
  }

  lemma ArgTypesAmountsAreWords()
    ensures AmountsAreWords(ARG_TYPES)
  {
    assert ARG_TYPES["IMMS"] == [AmountImmediate] && ARG_TYPES["VPUSH"] == [AmountImmediate];
  }

  lemma {:induction false} ArgNameOccurs(args: seq<Arg>, name: string)
    ensures name in ArgNames(args) <==> exists k :: 0 <= k < |args| && args[k] == RegisterArg(name)
  {
    if args != [] {
      var front := args[..|args| - 1];
      ArgNameOccurs(front, name);
      assert args == front + [args[|args| - 1]];
    }
  }

  lemma {:induction false} RegisterNameOccurs(program: seq<Instruction>, name: string)
    ensures name in RegisterNames(program) <==> exists i :: 0 <= i < |program| && name in ArgNames(program[i].args)
  {
    if program != [] {
      var front := program[..|program| - 1];
      RegisterNameOccurs(front, name);
      assert program == front + [program[|program| - 1]];
    }
  }

  lemma IndexOfDistinct(order: seq<string>, i: nat)
    requires Distinct(order) && i < |order|
    ensures order[i] in order && IndexOf(order, order[i]) == i
  {
    var j := IndexOf(order, order[i]);
  }

  lemma RegistersShape(program: seq<Instruction>)
    ensures Distinct(Registers(program))
    ensures forall n :: n in Registers(program) <==> n in RegisterNames(program)
  {
    FirstUseShape(RegisterNames(program));
  }

  lemma StoredOperandExact(
    isa: Isa, env: Environment, program: seq<Instruction>, i: nat, k: nat)
    requires WellTyped(isa.table, program) && Compiles(isa, env, program)
    requires AmountsAreWords(isa.table) && FitsBytes(isa, env, program)
    requires i < |program| && k < |program[i].args|
    ensures InstructionFits(isa.table, program[i])
    ensures var t := isa.table[Upper(program[i].mnemonic)][k];
      var v := Lower(isa, env, program)[i].operands[k];
      Stored(t, v) == v
  {
    var instruction, order := program[i], Registers(program);
    assert InstructionFits(isa.table, instruction);
    var m := Upper(instruction.mnemonic);
    var t := isa.table[m][k];
    assert t in isa.table[m];
    assert ConstantFits(isa, env, instruction, k);
    assert ArgFits(t, instruction.args[k]);
    assert Operand(env, m, t, instruction.args[k], order).Some?;
  }

  // Disassembly returns the lowered program exactly when it fits its bytes.
  lemma AssembleDisassemble(isa: Isa, env: Environment, program: seq<Instruction>)
    requires ValidIsa(isa) && AmountsAreWords(isa.table)
    requires WellTyped(isa.table, program) && Compiles(isa, env, program)
    ensures Disassemble(isa, Assembled(isa, env, program).value) == Some(Lower(isa, env, program))
      <==> FitsBytes(isa, env, program)
  {
    var lowered := Lower(isa, env, program);
    LowerInRange(isa, env, program);
    DisassembleEncoded(isa, lowered);
    if FitsBytes(isa, env, program) {
      forall i | 0 <= i < |program|
        ensures StoredInstruction(isa, lowered[i]) == lowered[i]
      {
        forall k | 0 <= k < |program[i].args|
          ensures StoredInstruction(isa, lowered[i]).operands[k] == lowered[i].operands[k]
        {
          StoredOperandExact(isa, env, program, i, k);
        }
        assert StoredInstruction(isa, lowered[i]).operands == lowered[i].operands;
      }
      assert StoredProgram(isa, lowered) == lowered;
    } else {
      var i, k := OversizedOperand(isa, env, program);
      assert StoredProgram(isa, lowered)[i].operands[k] != lowered[i].operands[k];
    }
  }

  lemma OversizedOperand(isa: Isa, env: Environment, program: seq<Instruction>) returns (i: nat, k: nat)
    requires WellTyped(isa.table, program) && Compiles(isa, env, program)
    requires !FitsBytes(isa, env, program)
    ensures i < |program| && k < |program[i].args| && InstructionFits(isa.table, program[i])
    ensures ByteWide(isa.table[Upper(program[i].mnemonic)][k])
    ensures 256 <= Lower(isa, env, program)[i].operands[k]
  {
    if 256 < |Registers(program)| {
      i, k := RegisterAt(isa, env, program, 256);
    } else {
      i, k :| 0 <= i < |program| && 0 <= k < |program[i].args| && !ConstantFits(isa, env, program[i], k);
      assert InstructionFits(isa.table, program[i]);
    }
  }

  // The register numbered n is an operand somewhere.
  lemma RegisterAt(isa: Isa, env: Environment, program: seq<Instruction>, n: nat) returns (i: nat, k: nat)
    requires WellTyped(isa.table, program) && Compiles(isa, env, program)
    requires n < |Registers(program)|
    ensures i < |program| && k < |program[i].args| && InstructionFits(isa.table, program[i])
    ensures isa.table[Upper(program[i].mnemonic)][k] == RegisterId
    ensures program[i].args[k] == RegisterArg(Registers(program)[n])
    ensures Lower(isa, env, program)[i].operands[k] == n
  {
    var order := Registers(program);
    var name := order[n];
    RegistersShape(program);
    assert name in order;
    RegisterNameOccurs(program, name);
    i :| 0 <= i < |program| && name in ArgNames(program[i].args);
    ArgNameOccurs(program[i].args, name);
    k :| 0 <= k < |program[i].args| && program[i].args[k] == RegisterArg(name);
    assert InstructionFits(isa.table, program[i]);
    assert ArgFits(isa.table[Upper(program[i].mnemonic)][k], program[i].args[k]);
    IndexOfDistinct(order, n);
  }

  // With more than 256 registers two of them share a byte: number 256 is
  // stored as number 0.
  lemma RegistersCollide(isa: Isa, env: Environment, program: seq<Instruction>)
    returns (i: nat, k: nat, j: nat, l: nat)
    requires ValidIsa(isa) && WellTyped(isa.table, program) && Compiles(isa, env, program)
    requires 256 < |Registers(program)|
    ensures i < |program| && k < |program[i].args| && j < |program| && l < |program[j].args|
    ensures program[i].args[k].RegisterArg? && program[j].args[l].RegisterArg?
    ensures program[i].args[k] != program[j].args[l]
    ensures var bytes := Disassemble(isa, Assembled(isa, env, program).value);
      && bytes.Some? && i < |bytes.value| && j < |bytes.value|
      && k < |bytes.value[i].operands| && l < |bytes.value[j].operands|
      && bytes.value[i].operands[k] == bytes.value[j].operands[l]
  {
    LowerInRange(isa, env, program);
    DisassembleEncoded(isa, Lower(isa, env, program));
    RegistersShape(program);
    i, k := RegisterAt(isa, env, program, 0);
    j, l := RegisterAt(isa, env, program, 256);
  }

  // Such programs exist: one load for each of any number of registers.
  function RegisterName(i: nat): string {
    "_" + Digits(i)
  }

  function LoadsOf(count: nat): (program: seq<Instruction>)
    ensures |program| == count
  {
    seq(count, i requires 0 <= i < count => Instruction("LDR", [RegisterArg(RegisterName(i))]))
  }

  lemma RegisterNamesDiffer(i: nat, j: nat)
    requires RegisterName(i) == RegisterName(j)
    ensures i == j
  {
    assert RegisterName(i)[1..] == Digits(i) && RegisterName(j)[1..] == Digits(j);
    DigitsRoundTrip(i);
    DigitsRoundTrip(j);
  }

  lemma OneMoreLoad(n: nat)
    ensures RegisterNames(LoadsOf(n + 1)) == RegisterNames(LoadsOf(n)) + [RegisterName(n)]
  {
    var program, arg := LoadsOf(n + 1), RegisterArg(RegisterName(n));
    assert program[..n] == LoadsOf(n);
    assert [arg][..0] == [] && ArgNames([arg]) == ArgNames([]) + [RegisterName(n)];
    assert program[n].args == [arg];
  }

  function RegisterList(count: nat): (names: seq<string>)
    ensures |names| == count
  {
    seq(count, i requires 0 <= i < count => RegisterName(i))
  }

  lemma {:induction false} LoadsUseRegisters(count: nat)
    ensures RegisterNames(LoadsOf(count)) == RegisterList(count)
  {
    if count > 0 {
      LoadsUseRegisters(count - 1);
      OneMoreLoad(count - 1);
      assert RegisterList(count) == RegisterList(count - 1) + [RegisterName(count - 1)];
    }
  }

  lemma RegisterListDistinct(count: nat)
    ensures Distinct(RegisterList(count))
  {
    forall i, j | 0 <= i < j < count
      ensures RegisterName(i) != RegisterName(j)
    {
      if RegisterName(i) == RegisterName(j) {
        RegisterNamesDiffer(i, j);
      }
    }
  }

  lemma {:induction false} FirstUseOfDistinct(names: seq<string>)
    requires Distinct(names)
    ensures FirstUse(names) == names
  {
    if names != [] {
      FirstUseOfDistinct(names[..|names| - 1]);
      assert names[|names| - 1] !in names[..|names| - 1];
    }
  }

  lemma LoadCompiles(isa: Isa, env: Environment, name: string, order: seq<string>)
    requires "LDR" in isa.table && isa.table["LDR"] == [RegisterId]
    requires IsRegisterName(name) && name in order
    ensures var load := Instruction("LDR", [RegisterArg(name)]);
      InstructionFits(isa.table, load) && InstructionCompiles(isa, env, load, order)
  {
    assert Upper("LDR") == "LDR";
  }

  lemma ManyRegisters(isa: Isa, env: Environment, count: nat)
    requires "LDR" in isa.table && isa.table["LDR"] == [RegisterId]
    ensures WellTyped(isa.table, LoadsOf(count)) && Compiles(isa, env, LoadsOf(count))
    ensures |Registers(LoadsOf(count))| == count
  {
    LoadsUseRegisters(count);
    RegisterListDistinct(count);
    FirstUseOfDistinct(RegisterList(count));
    var order := Registers(LoadsOf(count));
    forall i | 0 <= i < count
      ensures InstructionFits(isa.table, LoadsOf(count)[i]) && InstructionCompiles(isa, env, LoadsOf(count)[i], order)
    {
      assert order[i] in order;
      LoadCompiles(isa, env, RegisterName(i), order);
    }
  }

  // ---- Equal code, whatever the width of the operands ----

  lemma {:induction false} EncodeStoredOperands(types: seq<ArgType>, operands: seq<nat>)
    requires |operands| == |types|
    ensures EncodeOperands(types, StoredOperands(types, operands)) == EncodeOperands(types, operands)
  {
    if operands != [] {
      EncodeStoredOperands(types[1..], operands[1..]);
      assert StoredOperands(types, operands)[1..] == StoredOperands(types[1..], operands[1..]);
      StoredOperandEncodes(types[0], operands[0]);
    }
  }

  lemma StoredOperandEncodes(t: ArgType, v: nat)
    ensures EncodeOperand(t, Stored(t, v)) == EncodeOperand(t, v)
  {
  }

  // The bytes only depend on what survives in them.
  lemma {:induction false} EncodeStored(isa: Isa, program: seq<Decoded>)
    requires AllShaped(isa, program)
    ensures AllShaped(isa, StoredProgram(isa, program))
    ensures EncodeProgram(isa, StoredProgram(isa, program)) == EncodeProgram(isa, program)
  {
    if program != [] {
      EncodeStored(isa, program[1..]);
      EncodeStoredOperands(isa.table[program[0].mnemonic], program[0].operands);
      assert StoredProgram(isa, program)[1..] == StoredProgram(isa, program[1..]);
    }
  }

  // Two compiling programs have the same code exactly when they store the same
  // instructions, also when operands do not fit their bytes.
  lemma SameCodeIffStored(isa: Isa, env: Environment, p: seq<Instruction>, q: seq<Instruction>)
    requires ValidIsa(isa)
    requires WellTyped(isa.table, p) && WellTyped(isa.table, q)
    requires Compiles(isa, env, p) && Compiles(isa, env, q)
    ensures Assembled(isa, env, p) == Assembled(isa, env, q)
      <==> StoredProgram(isa, Lower(isa, env, p)) == StoredProgram(isa, Lower(isa, env, q))
  {
    var lp, lq := Lower(isa, env, p), Lower(isa, env, q);
    LowerInRange(isa, env, p);
    LowerInRange(isa, env, q);
    DisassembleEncoded(isa, lp);
    DisassembleEncoded(isa, lq);
    EncodeStored(isa, lp);
    EncodeStored(isa, lq);
  }
}
