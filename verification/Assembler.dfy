// Register allocation, byte emission, and the disassembler driven by the same
// argument table (proc-macros/abacus-macros/src/lib.rs).
module Assembler {
  import opened Prelude
  import opened RustLiterals
  import opened AmountText
  import opened ByteCodec
  import opened AbacusSyntax

  // The opcode constants belong to a crate outside this model; all that is
  // used of them is that distinct mnemonics have distinct bytes.
  datatype Isa = Isa(table: ArgTable, opcodes: map<string, U8>)

  ghost predicate ValidIsa(isa: Isa) {
    && isa.opcodes.Keys == isa.table.Keys
    && (forall m, n :: m in isa.opcodes && n in isa.opcodes && isa.opcodes[m] == isa.opcodes[n] ==> m == n)
  }

  type Environment = map<string, U128>

  predicate ByteWide(t: ArgType) { t.RegisterId? || t.StackPos? || t.Size? }

  // ---- Registers: the reference numbering ----

  function NameOf(arg: Arg): seq<string> {
    if arg.RegisterArg? then [arg.name] else []
  }

  function ArgNames(args: seq<Arg>): seq<string> {
    if args == [] then [] else ArgNames(args[..|args| - 1]) + NameOf(args[|args| - 1])
  }

  function RegisterNames(program: seq<Instruction>): seq<string> {
    if program == [] then []
    else RegisterNames(program[..|program| - 1]) + ArgNames(program[|program| - 1].args)
  }

  // Each name once, in the order of first use.
  function FirstUse(names: seq<string>): seq<string> {
    if names == [] then []
    else
      var before := FirstUse(names[..|names| - 1]);
      var last := names[|names| - 1];
      if last in before then before else before + [last]
  }

  function Registers(program: seq<Instruction>): seq<string> {
    FirstUse(RegisterNames(program))
  }

  function IndexOf(order: seq<string>, name: string): (i: nat)
    requires name in order
    ensures i < |order| && order[i] == name
    ensures forall k :: 0 <= k < i ==> order[k] != name
  {
    if order[0] == name then 0 else 1 + IndexOf(order[1..], name)
  }

  predicate Distinct(s: seq<string>) {
    forall i, j :: 0 <= i < j < |s| ==> s[i] != s[j]
  }

  // Register numbering is dense, injective and in first-use order.
  lemma {:induction false} FirstUseShape(names: seq<string>)
    ensures Distinct(FirstUse(names))
    ensures forall n :: n in FirstUse(names) <==> n in names
    ensures forall n, m :: n in FirstUse(names) && m in FirstUse(names) ==>
      (IndexOf(FirstUse(names), n) < IndexOf(FirstUse(names), m) <==> IndexOf(names, n) < IndexOf(names, m))
  {
    if names != [] {
      var front, last := names[..|names| - 1], names[|names| - 1];
      FirstUseShape(front);
      assert names == front + [last];
      forall n | n in front
        ensures n in names && IndexOf(names, n) == IndexOf(front, n)
      {
        IndexOfPrefix(front, [last], n);
      }
      forall n | n in FirstUse(front)
        ensures n in FirstUse(names) && IndexOf(FirstUse(names), n) == IndexOf(FirstUse(front), n)
      {
        IndexOfPrefix(FirstUse(front), [last], n);
      }
    }
  }

  lemma IndexOfPrefix(a: seq<string>, b: seq<string>, n: string)
    requires n in a
    ensures n in a + b && IndexOf(a + b, n) == IndexOf(a, n)
  {
    var i, j := IndexOf(a, n), IndexOf(a + b, n);
    assert (a + b)[i] == n;
  }

  lemma {:induction false} FirstUseGrows(names: seq<string>, more: seq<string>)
    ensures FirstUse(names) <= FirstUse(names + more)
  {
    if more == [] {
      assert names + more == names;
    } else {
      var front := more[..|more| - 1];
      FirstUseGrows(names, front);
      assert (names + more)[..|names + more| - 1] == names + front;
    }
  }

  // ---- Lowering: every argument becomes a number ----

  // A byte-wide literal is cast, so a suffixed one or a scalar is cut to its low
  // byte; a word-wide one is passed as a u128 and may carry no other suffix.
  function CastToByte(literal: Literal): Option<nat> {
    match literal
    case IntLit(v, suffix) => if Fits(v, suffix, 255) then Some(v % 256) else None
    case ScalarLit(code) => Some(code % 256)
    case FloatLit(_, b) => Some(b)
    case _ => None
  }

  function WordArgument(literal: Literal): Option<nat> {
    match literal
    case IntLit(v, suffix) =>
      if Fits(v, suffix, TWO_128 - 1) && (suffix == Unsuffixed || suffix == IntType(TWO_128 - 1)) then Some(v) else None
    case _ => None
  }

  // None is code that does not compile: a bad or out-of-range literal, or a
  // constant that is not in scope.
  function Operand(env: Environment, mnemonic: string, t: ArgType, arg: Arg, order: seq<string>): Option<nat> {
    match arg
    case RegisterArg(name) => if name in order then Some(IndexOf(order, name)) else None
    case ConstantArg(name) => if name in env then Some(env[name]) else None
    case LiteralArg(literal) =>
      if mnemonic == "IMMS" || mnemonic == "VPUSH" then
        match ReadLiteral(literal)
        case Ok(a) => Some(a.raw)
        case Err(_) => None
      else if ByteWide(t) then CastToByte(literal)
      else WordArgument(literal)
  }

  datatype Decoded = Decoded(mnemonic: string, operands: seq<nat>)

  predicate Resolvable(env: Environment, mnemonic: string, types: seq<ArgType>, args: seq<Arg>, order: seq<string>)
    requires |args| == |types|
  {
    forall k :: 0 <= k < |args| ==> Operand(env, mnemonic, types[k], args[k], order).Some?
  }

  predicate Compiles(isa: Isa, env: Environment, program: seq<Instruction>)
    requires WellTyped(isa.table, program)
  {
    forall i :: 0 <= i < |program| ==>
      InstructionFits(isa.table, program[i]) && InstructionCompiles(isa, env, program[i], Registers(program))
  }

  predicate InstructionCompiles(isa: Isa, env: Environment, instruction: Instruction, order: seq<string>)
    requires InstructionFits(isa.table, instruction)
  {
    var m := Upper(instruction.mnemonic);
    Resolvable(env, m, isa.table[m], instruction.args, order)
  }

  function LowerInstruction(isa: Isa, env: Environment, instruction: Instruction, order: seq<string>): (d: Decoded)
    requires InstructionFits(isa.table, instruction)
    requires InstructionCompiles(isa, env, instruction, order)
    ensures |d.operands| == |instruction.args|
  {
    var m := Upper(instruction.mnemonic);
    Decoded(m, seq(|instruction.args|, k requires 0 <= k < |instruction.args| =>
      Operand(env, m, isa.table[m][k], instruction.args[k], order).value))
  }

  // The program up to register names: mnemonics in upper case, operands as
  // numbers, registers as their first-use index.
  function Lower(isa: Isa, env: Environment, program: seq<Instruction>): (d: seq<Decoded>)
    requires WellTyped(isa.table, program) && Compiles(isa, env, program)
    ensures |d| == |program|
  {
    seq(|program|, i requires 0 <= i < |program| => LowerInstruction(isa, env, program[i], Registers(program)))
  }

  // ---- Bytes ----

  function EncodeOperand(t: ArgType, v: nat): seq<U8> {
    if ByteWide(t) then [v % 256] else LeBytes(v, WORD)
  }

  function EncodeOperands(types: seq<ArgType>, operands: seq<nat>): seq<U8>
    requires |operands| == |types|
  {
    if operands == [] then [] else EncodeOperand(types[0], operands[0]) + EncodeOperands(types[1..], operands[1..])
  }

  predicate Shaped(isa: Isa, d: Decoded) {
    d.mnemonic in isa.table && d.mnemonic in isa.opcodes && |d.operands| == |isa.table[d.mnemonic]|
  }

  predicate AllShaped(isa: Isa, program: seq<Decoded>) {
    forall i :: 0 <= i < |program| ==> Shaped(isa, program[i])
  }

  function EncodeInstruction(isa: Isa, d: Decoded): seq<U8>
    requires Shaped(isa, d)
  {
    [isa.opcodes[d.mnemonic]] + EncodeOperands(isa.table[d.mnemonic], d.operands)
  }

  function EncodeProgram(isa: Isa, program: seq<Decoded>): seq<U8>
    requires AllShaped(isa, program)
  {
    if program == [] then []
    else EncodeInstruction(isa, program[0]) + EncodeProgram(isa, program[1..])
  }

  lemma {:induction false} EncodeOperandsSnoc(types: seq<ArgType>, operands: seq<nat>, t: ArgType, v: nat)
    requires |operands| == |types|
    ensures EncodeOperands(types + [t], operands + [v]) == EncodeOperands(types, operands) + EncodeOperand(t, v)
  {
    if operands == [] {
      assert EncodeOperands([t][1..], [v][1..]) == [];
    } else {
      EncodeOperandsSnoc(types[1..], operands[1..], t, v);
      assert (types + [t])[1..] == types[1..] + [t] && (operands + [v])[1..] == operands[1..] + [v];
      Reassociate(
        EncodeOperand(types[0], operands[0]), EncodeOperands(types[1..], operands[1..]), EncodeOperand(t, v));
    }
  }

  lemma Reassociate<T>(a: seq<T>, b: seq<T>, c: seq<T>)
    ensures a + (b + c) == a + b + c
  {
  }

  lemma EncodeOperandsStep(types: seq<ArgType>, operands: seq<nat>, k: nat, v: nat)
    requires |operands| == k < |types|
    ensures EncodeOperands(types[..k + 1], operands + [v])
      == EncodeOperands(types[..k], operands) + EncodeOperand(types[k], v)
  {
    EncodeOperandsSnoc(types[..k], operands, types[k], v);
    assert types[..k + 1] == types[..k] + [types[k]];
  }

  lemma {:induction false} EncodeProgramSnoc(isa: Isa, program: seq<Decoded>, d: Decoded)
    requires AllShaped(isa, program) && Shaped(isa, d)
    ensures AllShaped(isa, program + [d])
    ensures EncodeProgram(isa, program + [d]) == EncodeProgram(isa, program) + EncodeInstruction(isa, d)
  {
    if program == [] {
      assert EncodeProgram(isa, [d][1..]) == [];
    } else {
      EncodeProgramSnoc(isa, program[1..], d);
      assert (program + [d])[1..] == program[1..] + [d];
    }
  }

  // The specification of the assembler.
  function Assembled(isa: Isa, env: Environment, program: seq<Instruction>): Option<seq<U8>>
    requires isa.opcodes.Keys == isa.table.Keys && WellTyped(isa.table, program)
  {
    if Compiles(isa, env, program) then
      assert AllShaped(isa, Lower(isa, env, program));
      Some(EncodeProgram(isa, Lower(isa, env, program)))
    else None
  }

  // The map built so far holds exactly the first-use indices of the names seen.
  ghost predicate MapFor(regMap: map<string, nat>, next: nat, seen: seq<string>) {
    && next == |FirstUse(seen)|
    && (forall n :: n in regMap <==> n in FirstUse(seen))
    && (forall n :: n in regMap ==> regMap[n] == IndexOf(FirstUse(seen), n))
  }

  // reg_map.entry(name).or_insert_with(next): an old name keeps its index, a
  // new one takes the next.
  method Allocate(regMap: map<string, nat>, next: nat, name: string, ghost seen: seq<string>)
    returns (newMap: map<string, nat>, newNext: nat, index: nat)
    requires MapFor(regMap, next, seen)
    ensures MapFor(newMap, newNext, seen + [name])
    ensures name in newMap && index == newMap[name]
  {
    ghost var before := FirstUse(seen);
    assert (seen + [name])[..|seen|] == seen;
    if name in regMap {
      return regMap, next, regMap[name];
    }
    assert FirstUse(seen + [name]) == before + [name];
    forall n | n in before
      ensures IndexOf(before + [name], n) == IndexOf(before, n)
    {
      IndexOfPrefix(before, [name], n);
    }
    return regMap[name := next], next + 1, next;
  }

  // The number of one argument, allocating a register if it is a new one.
  method ResolveArgument(
    env: Environment, mnemonic: string, t: ArgType, arg: Arg, regMap0: map<string, nat>, next0: nat,
    ghost seen: seq<string>, ghost order: seq<string>)
    returns (resolved: Option<nat>, regMap: map<string, nat>, next: nat)
    requires MapFor(regMap0, next0, seen)
    requires FirstUse(seen + NameOf(arg)) <= order
    ensures resolved == Operand(env, mnemonic, t, arg, order)
    ensures MapFor(regMap, next, seen + NameOf(arg))
  {
    regMap, next := regMap0, next0;
    if arg.RegisterArg? {
      var index;
      regMap, next, index := Allocate(regMap, next, arg.name, seen);
      ghost var here := FirstUse(seen + NameOf(arg));
      IndexOfPrefix(here, order[|here|..], arg.name);
      assert here + order[|here|..] == order;
      resolved := Some(index);
    } else {
      assert seen + NameOf(arg) == seen;
      resolved := Operand(env, mnemonic, t, arg, []);
    }
  }

  // The first k arguments resolve to the given operands.
  ghost predicate OperandsUpTo(
    env: Environment, mnemonic: string, types: seq<ArgType>, args: seq<Arg>, order: seq<string>, operands: seq<nat>)
  {
    && |operands| <= |args| && |args| == |types|
    && (forall j :: 0 <= j < |operands| ==>
         Operand(env, mnemonic, types[j], args[j], order) == Some(operands[j]))
  }

  // What holds when the first arguments of an instruction have been emitted.
  ghost predicate Emitted(
    env: Environment, mnemonic: string, types: seq<ArgType>, args: seq<Arg>, order: seq<string>,
    seen: seq<string>, regMap: map<string, nat>, next: nat, operands: seq<nat>, bytes: seq<U8>)
  {
    && OperandsUpTo(env, mnemonic, types, args, order, operands)
    && MapFor(regMap, next, seen + ArgNames(args[..|operands|]))
    && bytes == EncodeOperands(types[..|operands|], operands)
  }

  lemma EmittedStep(
    env: Environment, mnemonic: string, types: seq<ArgType>, args: seq<Arg>, order: seq<string>, seen: seq<string>,
    regMap: map<string, nat>, next: nat, operands: seq<nat>, bytes: seq<U8>, v: nat)
    requires OperandsUpTo(env, mnemonic, types, args, order, operands) && |operands| < |args|
    requires bytes == EncodeOperands(types[..|operands|], operands)
    requires Operand(env, mnemonic, types[|operands|], args[|operands|], order) == Some(v)
    requires MapFor(regMap, next, seen + ArgNames(args[..|operands| + 1]))
    ensures Emitted(env, mnemonic, types, args, order, seen, regMap, next, operands + [v],
      bytes + EncodeOperand(types[|operands|], v))
  {
    var longer := operands + [v];
    assert |longer| == |operands| + 1;
    OperandsStep(env, mnemonic, types, args, order, operands, v);
    EncodeOperandsStep(types, operands, |operands|, v);
    assert bytes + EncodeOperand(types[|operands|], v) == EncodeOperands(types[..|longer|], longer);
  }

  lemma OperandsStep(
    env: Environment, mnemonic: string, types: seq<ArgType>, args: seq<Arg>, order: seq<string>,
    operands: seq<nat>, v: nat)
    requires OperandsUpTo(env, mnemonic, types, args, order, operands) && |operands| < |args|
    requires Operand(env, mnemonic, types[|operands|], args[|operands|], order) == Some(v)
    ensures OperandsUpTo(env, mnemonic, types, args, order, operands + [v])
  {
  }

  method EmitArgument(
    env: Environment, mnemonic: string, types: seq<ArgType>, args: seq<Arg>, k: nat,
    regMap0: map<string, nat>, next0: nat, bytes0: seq<U8>, ghost seen: seq<string>, ghost order: seq<string>,
    ghost operands: seq<nat>)
    returns (value: Option<nat>, regMap: map<string, nat>, next: nat, bytes: seq<U8>)
    requires Emitted(env, mnemonic, types, args, order, seen, regMap0, next0, operands, bytes0)
    requires |operands| == k < |args|
    requires FirstUse(seen + ArgNames(args)) <= order
    ensures value == Operand(env, mnemonic, types[k], args[k], order)
    ensures value.Some? ==>
      Emitted(env, mnemonic, types, args, order, seen, regMap, next, operands + [value.value], bytes)
  {
    NamesUpTo(seen, args, k, order);
    value, regMap, next :=
      ResolveArgument(env, mnemonic, types[k], args[k], regMap0, next0, seen + ArgNames(args[..k]), order);
    bytes := bytes0;
    if value.Some? {
      bytes := bytes + EncodeOperand(types[k], value.value);
      EmittedStep(env, mnemonic, types, args, order, seen, regMap, next, operands, bytes0, value.value);
    }
  }

  // The bytes of the arguments, continuing the allocation in progress.
  method EmitArguments(
    env: Environment, mnemonic: string, types: seq<ArgType>, args: seq<Arg>, regMap0: map<string, nat>, next0: nat,
    ghost seen: seq<string>, ghost order: seq<string>)
    returns (ok: bool, bytes: seq<U8>, regMap: map<string, nat>, next: nat, ghost operands: seq<nat>)
    requires |types| == |args|
    requires MapFor(regMap0, next0, seen)
    requires FirstUse(seen + ArgNames(args)) <= order
    ensures ok <==> Resolvable(env, mnemonic, types, args, order)
    ensures ok ==>
      |operands| == |args| && Emitted(env, mnemonic, types, args, order, seen, regMap, next, operands, bytes)
  {
    regMap, next := regMap0, next0;
    bytes, operands := [], [];
    assert seen + ArgNames(args[..0]) == seen;
    for k := 0 to |args|
      invariant |operands| == k
      invariant Emitted(env, mnemonic, types, args, order, seen, regMap, next, operands, bytes)
    {
      var value;
      value, regMap, next, bytes :=
        EmitArgument(env, mnemonic, types, args, k, regMap, next, bytes, seen, order, operands);
      if value.None? {
        ok := false;
        return;
      }
      operands := operands + [value.value];
    }
    ok := true;
  }

  method EmitInstruction(
    isa: Isa, env: Environment, instruction: Instruction, regMap0: map<string, nat>, next0: nat,
    ghost seen: seq<string>, ghost order: seq<string>)
    returns (ok: bool, bytes: seq<U8>, regMap: map<string, nat>, next: nat)
    requires isa.opcodes.Keys == isa.table.Keys && InstructionFits(isa.table, instruction)
    requires MapFor(regMap0, next0, seen)
    requires FirstUse(seen + ArgNames(instruction.args)) <= order
    ensures ok <==> InstructionCompiles(isa, env, instruction, order)
    ensures ok ==> MapFor(regMap, next, seen + ArgNames(instruction.args))
    ensures ok ==> bytes == EncodeInstruction(isa, LowerInstruction(isa, env, instruction, order))
  {
    var mnemonic := Upper(instruction.mnemonic);
    ghost var operands;
    ok, bytes, regMap, next, operands :=
      EmitArguments(env, mnemonic, isa.table[mnemonic], instruction.args, regMap0, next0, seen, order);
    if ok {
      assert instruction.args[..|operands|] == instruction.args;
      assert isa.table[mnemonic][..|operands|] == isa.table[mnemonic];
      bytes := [isa.opcodes[mnemonic]] + bytes;
      assert operands == LowerInstruction(isa, env, instruction, order).operands;
    }
  }

  // One more argument has been seen: its names extend the list, and the
  // first-use order so far stays a prefix of the final one.
  lemma NamesUpTo(seen: seq<string>, args: seq<Arg>, k: nat, order: seq<string>)
    requires k < |args| && FirstUse(seen + ArgNames(args)) <= order
    ensures seen + ArgNames(args[..k + 1]) == seen + ArgNames(args[..k]) + NameOf(args[k])
    ensures FirstUse(seen + ArgNames(args[..k]) + NameOf(args[k])) <= order
  {
    assert args[..k + 1][..k] == args[..k];
    Reassociate(seen, ArgNames(args[..k]), NameOf(args[k]));
    var rest := ArgNamesSuffix(args, k + 1);
    Reassociate(seen, ArgNames(args[..k + 1]), rest);
    FirstUseGrows(seen + ArgNames(args[..k + 1]), rest);
  }

  lemma {:induction false} ArgNamesSuffix(args: seq<Arg>, k: nat) returns (rest: seq<string>)
    requires k <= |args|
    ensures ArgNames(args) == ArgNames(args[..k]) + rest
    decreases |args|
  {
    if k == |args| {
      assert args[..k] == args;
      rest := [];
    } else {
      var front := args[..|args| - 1];
      assert front[..k] == args[..k];
      var r := ArgNamesSuffix(front, k);
      rest := r + NameOf(args[|args| - 1]);
    }
  }

  lemma {:induction false} RegisterNamesSuffix(program: seq<Instruction>, k: nat) returns (rest: seq<string>)
    requires k <= |program|
    ensures RegisterNames(program) == RegisterNames(program[..k]) + rest
    decreases |program|
  {
    if k == |program| {
      assert program[..k] == program;
      rest := [];
    } else {
      var front := program[..|program| - 1];
      assert front[..k] == program[..k];
      var r := RegisterNamesSuffix(front, k);
      rest := r + ArgNames(program[|program| - 1].args);
    }
  }

  lemma ProgramNamesUpTo(program: seq<Instruction>, i: nat)
    requires i < |program|
    ensures RegisterNames(program[..i + 1]) == RegisterNames(program[..i]) + ArgNames(program[i].args)
    ensures FirstUse(RegisterNames(program[..i]) + ArgNames(program[i].args)) <= Registers(program)
  {
    assert program[..i + 1][..i] == program[..i];
    var rest := RegisterNamesSuffix(program, i + 1);
    FirstUseGrows(RegisterNames(program[..i + 1]), rest);
  }

  // The instructions before i compile and lower to the list d.
  ghost predicate LoweredUpTo(
    isa: Isa, env: Environment, program: seq<Instruction>, i: nat, order: seq<string>, d: seq<Decoded>)
  {
    && i <= |program| && |d| == i
    && (forall j :: 0 <= j < i ==>
         && InstructionFits(isa.table, program[j])
         && InstructionCompiles(isa, env, program[j], order)
         && d[j] == LowerInstruction(isa, env, program[j], order))
  }

  // They have been emitted, too.
  ghost predicate Emitting(
    isa: Isa, env: Environment, program: seq<Instruction>, i: nat, order: seq<string>, d: seq<Decoded>, bytes: seq<U8>)
  {
    LoweredUpTo(isa, env, program, i, order, d) && AllShaped(isa, d) && bytes == EncodeProgram(isa, d)
  }

  lemma EmittingStep(
    isa: Isa, env: Environment, program: seq<Instruction>, i: nat, order: seq<string>, d: seq<Decoded>, bytes: seq<U8>)
    requires isa.opcodes.Keys == isa.table.Keys && i < |program|
    requires Emitting(isa, env, program, i, order, d, bytes)
    requires InstructionFits(isa.table, program[i]) && InstructionCompiles(isa, env, program[i], order)
    ensures var next := LowerInstruction(isa, env, program[i], order);
      Shaped(isa, next)
      && Emitting(isa, env, program, i + 1, order, d + [next], bytes + EncodeInstruction(isa, next))
  {
    EncodeProgramSnoc(isa, d, LowerInstruction(isa, env, program[i], order));
  }

  lemma AllEmitted(isa: Isa, env: Environment, program: seq<Instruction>, d: seq<Decoded>, bytes: seq<U8>)
    requires isa.opcodes.Keys == isa.table.Keys && WellTyped(isa.table, program)
    requires Emitting(isa, env, program, |program|, Registers(program), d, bytes)
    ensures Assembled(isa, env, program) == Some(bytes)
  {
    assert Compiles(isa, env, program);
    assert d == Lower(isa, env, program);
  }

  // One pass over the program, allocating registers as they are met, produces
  // the bytes of the program lowered with the finished numbering.
  method Assemble(isa: Isa, env: Environment, program: seq<Instruction>) returns (code: Option<seq<U8>>)
    requires isa.opcodes.Keys == isa.table.Keys && WellTyped(isa.table, program)
    ensures code == Assembled(isa, env, program)
  {
    var bytecode: seq<U8> := [];
    var regMap: map<string, nat> := map[];
    var next := 0;
    ghost var order := Registers(program);
    ghost var lowered: seq<Decoded> := [];
    for i := 0 to |program|
      invariant MapFor(regMap, next, RegisterNames(program[..i]))
      invariant Emitting(isa, env, program, i, order, lowered, bytecode)
    {
      ProgramNamesUpTo(program, i);
      var ok, bytes;
      ok, bytes, regMap, next :=
        EmitInstruction(isa, env, program[i], regMap, next, RegisterNames(program[..i]), order);
      if !ok {
        return None;
      }
      EmittingStep(isa, env, program, i, order, lowered, bytecode);
      lowered := lowered + [LowerInstruction(isa, env, program[i], order)];
      bytecode := bytecode + bytes;
    }
    AllEmitted(isa, env, program, lowered, bytecode);
    code := Some(bytecode);
  }
}
