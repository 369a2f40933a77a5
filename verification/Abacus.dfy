// The vector assembly language: its argument table, its parser and the printer
// the parser inverts (proc-macros/abacus-macros/src/lib.rs).
module AbacusSyntax {
  import opened Prelude
  import opened RustLiterals

  datatype ArgType = RegisterId | AmountImmediate | StackPos | StorageId | Label | Size

  type ArgTable = map<string, seq<ArgType>>

  const ARG_TYPES: ArgTable := map[
    "LDL" := [StorageId], "LDV" := [StorageId], "LDD" := [StackPos],
    "LDR" := [RegisterId], "LDM" := [RegisterId],
    "STL" := [StorageId], "STV" := [StorageId], "STR" := [RegisterId],
    "PKV" := [Size], "PKL" := [Size], "UNPK" := [],
    "VPUSH" := [AmountImmediate], "VPOP" := [], "T" := [Size],
    "LUNION" := [StackPos], "LPUSH" := [Label], "LPOP" := [],
    "JUPD" := [StackPos, StackPos, StackPos], "JADD" := [StackPos, StackPos, StackPos],
    "JFLT" := [StackPos, StackPos],
    "ADD" := [StackPos], "SUB" := [StackPos], "SSB" := [StackPos],
    "MUL" := [StackPos], "DIV" := [StackPos], "SQRT" := [],
    "MIN" := [StackPos], "MAX" := [StackPos],
    "VSUM" := [], "VMIN" := [], "VMAX" := [],
    "IMMS" := [AmountImmediate], "IMML" := [Label],
    "ZEROS" := [StackPos], "ONES" := [StackPos],
    "POPN" := [Size], "SWAP" := [StackPos],
    "B" := [StorageId, Size, Size, Size], "FOLD" := [StorageId, Size, Size, Size]
  ]

  // The same table seen from the argument types: how many arguments a
  // mnemonic takes, and of which types.
  lemma ArgTypesCounts(m: string)
    requires m in ARG_TYPES
    ensures |ARG_TYPES[m]| == if m in {"B", "FOLD"} then 4 else if m in {"JUPD", "JADD"} then 3
      else if m == "JFLT" then 2 else if m in {"UNPK", "VPOP", "LPOP", "SQRT", "VSUM", "VMIN", "VMAX"} then 0 else 1
  {
  }

  lemma ArgTypesWords(m: string)
    requires m in ARG_TYPES
    ensures AmountImmediate in ARG_TYPES[m] <==> m in {"IMMS", "VPUSH"}
    ensures Label in ARG_TYPES[m] <==> m in {"LPUSH", "IMML"}
    ensures StorageId in ARG_TYPES[m] <==> m in {"LDL", "LDV", "STL", "STV", "B", "FOLD"}
  {
  }

  lemma ArgTypesBytes(m: string)
    requires m in ARG_TYPES
    ensures RegisterId in ARG_TYPES[m] <==> m in {"LDR", "LDM", "STR"}
    ensures Size in ARG_TYPES[m] <==> m in {"PKV", "PKL", "T", "POPN", "B", "FOLD"}
    ensures m in {"B", "FOLD"} ==> ARG_TYPES[m][0] == StorageId
  {
  }

  // A token as the macro's parser sees it.
  datatype Token = Comma | Slash | LitToken(literal: Literal) | IdentToken(name: string) | OtherToken

  datatype Arg = LiteralArg(literal: Literal) | RegisterArg(name: string) | ConstantArg(name: string)

  datatype Instruction = Instruction(mnemonic: string, args: seq<Arg>)

  datatype ParseError =
    | ExpectedMnemonic
    | UnknownMnemonic(mnemonic: string)
    | MissingArgument(position: nat, count: nat, mnemonic: string)
    | UnexpectedToken(position: nat, count: nat, mnemonic: string)
    | MustBeRegister(position: nat, mnemonic: string)
    | CannotBeRegister(position: nat, mnemonic: string)

  function UpperChar(c: char): char {
    if 'a' <= c <= 'z' then c - 'a' + 'A' else c
  }

  function Upper(s: string): string {
    seq(|s|, i requires 0 <= i < |s| => UpperChar(s[i]))
  }

  predicate IsRegisterName(name: string) { name != "" && name[0] == '_' }

  predicate StartsComment(tokens: seq<Token>) {
    2 <= |tokens| && tokens[0] == Slash && tokens[1] == Slash
  }

  function SkipCommas(tokens: seq<Token>): (rest: seq<Token>)
    ensures |rest| <= |tokens|
    ensures rest != [] ==> rest[0] != Comma
  {
    if tokens != [] && tokens[0] == Comma then SkipCommas(tokens[1..]) else tokens
  }

  function ArgOfToken(token: Token): Option<Arg> {
    match token
    case LitToken(literal) => Some(LiteralArg(literal))
    case IdentToken(name) => Some(if IsRegisterName(name) then RegisterArg(name) else ConstantArg(name))
    case _ => None
  }

  // Exactly one argument of the expected type, after any number of commas.
  function ParseArg(types: seq<ArgType>, i: nat, mnemonic: string, tokens: seq<Token>)
    : (r: Result<(Arg, seq<Token>), ParseError>)
    requires i < |types|
    ensures r.Ok? ==> |r.value.1| < |tokens|
  {
    var rest := SkipCommas(tokens);
    if rest == [] then Err(MissingArgument(i + 1, |types|, mnemonic))
    else
      match ArgOfToken(rest[0])
      case None => Err(UnexpectedToken(i + 1, |types|, mnemonic))
      case Some(arg) =>
        if types[i] == RegisterId && !arg.RegisterArg? then Err(MustBeRegister(i + 1, mnemonic))
        else if types[i] != RegisterId && arg.RegisterArg? then Err(CannotBeRegister(i + 1, mnemonic))
        else Ok((arg, rest[1..]))
  }

  function ParseArgs(types: seq<ArgType>, i: nat, mnemonic: string, tokens: seq<Token>)
    : (r: Result<(seq<Arg>, seq<Token>), ParseError>)
    requires i <= |types|
    ensures r.Ok? ==> |r.value.1| <= |tokens|
    decreases |types| - i
  {
    if i == |types| then Ok(([], tokens))
    else
      match ParseArg(types, i, mnemonic, tokens)
      case Err(e) => Err(e)
      case Ok((arg, rest)) =>
        match ParseArgs(types, i + 1, mnemonic, rest)
        case Err(e) => Err(e)
        case Ok((args, end)) => Ok(([arg] + args, end))
  }

  // The specification of the parser, one instruction at a time.
  function Parse(table: ArgTable, tokens: seq<Token>): Result<seq<Instruction>, ParseError>
    decreases |tokens|
  {
    if tokens == [] || StartsComment(tokens) then Ok([])
    else if !tokens[0].IdentToken? then Err(ExpectedMnemonic)
    else
      var mnemonic := Upper(tokens[0].name);
      if mnemonic !in table then Err(UnknownMnemonic(mnemonic))
      else
        match ParseArgs(table[mnemonic], 0, mnemonic, tokens[1..])
        case Err(e) => Err(e)
        case Ok((args, rest)) =>
          match Parse(table, rest)
          case Err(e) => Err(e)
          case Ok(others) => Ok([Instruction(tokens[0].name, args)] + others)
  }

  function Prepend<T>(before: seq<T>, r: Result<seq<T>, ParseError>): Result<seq<T>, ParseError> {
    match r
    case Ok(after) => Ok(before + after)
    case Err(e) => Err(e)
  }

  method ParseArguments(types: seq<ArgType>, mnemonic: string, input: seq<Token>)
    returns (r: Result<(seq<Arg>, seq<Token>), ParseError>)
    ensures r == ParseArgs(types, 0, mnemonic, input)
  {
    var args: seq<Arg> := [];
    var rest := input;
    assert forall more: seq<Arg> :: args + more == more;
    for i := 0 to |types|
      invariant ParseArgs(types, 0, mnemonic, input) ==
        match ParseArgs(types, i, mnemonic, rest)
        case Ok((more, end)) => Ok((args + more, end))
        case Err(e) => Err(e)
    {
      ghost var before := rest;
      while rest != [] && rest[0] == Comma
        invariant SkipCommas(rest) == SkipCommas(before)
        decreases |rest|
      {
        rest := rest[1..];
      }
      assert rest == SkipCommas(before);
      if rest == [] {
        return Err(MissingArgument(i + 1, |types|, mnemonic));
      }
      var arg := ArgOfToken(rest[0]);
      if arg.None? {
        return Err(UnexpectedToken(i + 1, |types|, mnemonic));
      }
      var isRegister := arg.value.RegisterArg?;
      if types[i] == RegisterId && !isRegister {
        return Err(MustBeRegister(i + 1, mnemonic));
      }
      if types[i] != RegisterId && isRegister {
        return Err(CannotBeRegister(i + 1, mnemonic));
      }
      rest := rest[1..];
      ghost var sofar := args;
      args := args + [arg.value];
      assert forall more :: sofar + ([arg.value] + more) == args + more;
    }
    assert args + [] == args;
    return Ok((args, rest));
  }

  method ParseInstructionList(table: ArgTable, input: seq<Token>)
    returns (r: Result<seq<Instruction>, ParseError>)
    ensures r == Parse(table, input)
  {
    var instructions: seq<Instruction> := [];
    var rest := input;
    assert forall more: seq<Instruction> :: instructions + more == more;
    while rest != []
      invariant Parse(table, input) == Prepend(instructions, Parse(table, rest))
      decreases |rest|
    {
      if StartsComment(rest) {
        break;
      }
      if !rest[0].IdentToken? {
        return Err(ExpectedMnemonic);
      }
      var mnemonic := Upper(rest[0].name);
      if mnemonic !in table {
        return Err(UnknownMnemonic(mnemonic));
      }
      var parsed := ParseArguments(table[mnemonic], mnemonic, rest[1..]);
      if parsed.Err? {
        return Err(parsed.error);
      }
      ghost var sofar := instructions;
      var instruction := Instruction(rest[0].name, parsed.value.0);
      instructions := instructions + [instruction];
      assert forall more :: sofar + ([instruction] + more) == instructions + more;
      rest := parsed.value.1;
    }
    assert instructions + [] == instructions;
    return Ok(instructions);
  }

  // What every parsed instruction satisfies.
  predicate ArgFits(t: ArgType, arg: Arg) {
    && (t == RegisterId <==> arg.RegisterArg?)
    && (arg.RegisterArg? ==> IsRegisterName(arg.name))
    && (arg.ConstantArg? ==> !IsRegisterName(arg.name))
  }

  predicate ArgsFit(types: seq<ArgType>, args: seq<Arg>) {
    |args| == |types| && forall k :: 0 <= k < |args| ==> ArgFits(types[k], args[k])
  }

  predicate InstructionFits(table: ArgTable, instruction: Instruction) {
    Upper(instruction.mnemonic) in table && ArgsFit(table[Upper(instruction.mnemonic)], instruction.args)
  }

  predicate WellTyped(table: ArgTable, program: seq<Instruction>) {
    forall i :: 0 <= i < |program| ==> InstructionFits(table, program[i])
  }

  // Printing: the mnemonic, then each argument behind its own number of commas.
  function Commas(n: nat): (c: seq<Token>)
    ensures |c| == n
  {
    seq(n, i => Comma)
  }

  function ArgToken(arg: Arg): Token {
    match arg
    case LiteralArg(literal) => LitToken(literal)
    case RegisterArg(name) => IdentToken(name)
    case ConstantArg(name) => IdentToken(name)
  }

  function PrintArgs(args: seq<Arg>, commas: seq<nat>): seq<Token>
    requires |commas| == |args|
  {
    if args == [] then []
    else Commas(commas[0]) + [ArgToken(args[0])] + PrintArgs(args[1..], commas[1..])
  }

  predicate SpacingFor(program: seq<Instruction>, spacing: seq<seq<nat>>) {
    |spacing| == |program| && forall i :: 0 <= i < |program| ==> |spacing[i]| == |program[i].args|
  }

  function Print(program: seq<Instruction>, spacing: seq<seq<nat>>): seq<Token>
    requires SpacingFor(program, spacing)
  {
    if program == [] then []
    else [IdentToken(program[0].mnemonic)] + PrintArgs(program[0].args, spacing[0]) + Print(program[1..], spacing[1..])
  }

  lemma PrintArgsCons(arg: Arg, args: seq<Arg>, n: nat, commas: seq<nat>, rest: seq<Token>)
    requires |commas| == |args|
    ensures PrintArgs([arg] + args, [n] + commas) + rest
      == Commas(n) + ([ArgToken(arg)] + (PrintArgs(args, commas) + rest))
  {
    var all, spaced := [arg] + args, [n] + commas;
    assert all[1..] == args && spaced[1..] == commas;
    assert PrintArgs(all, spaced) == Commas(n) + [ArgToken(arg)] + PrintArgs(args, commas);
    Regroup(Commas(n), [ArgToken(arg)], PrintArgs(args, commas), rest);
  }

  lemma Regroup<T>(a: seq<T>, b: seq<T>, c: seq<T>, d: seq<T>)
    ensures a + b + c + d == a + (b + (c + d))
  {
  }

  lemma PrintCons(
    first: Instruction, others: seq<Instruction>, commas: seq<nat>, spacing: seq<seq<nat>>, tail: seq<Token>)
    requires |commas| == |first.args| && SpacingFor(others, spacing)
    ensures SpacingFor([first] + others, [commas] + spacing)
    ensures Print([first] + others, [commas] + spacing) + tail
         == [IdentToken(first.mnemonic)] + (PrintArgs(first.args, commas) + (Print(others, spacing) + tail))
  {
    assert ([first] + others)[1..] == others && ([commas] + spacing)[1..] == spacing;
  }

  lemma {:induction false} SkipPrintedCommas(n: nat, rest: seq<Token>)
    requires rest == [] || rest[0] != Comma
    ensures SkipCommas(Commas(n) + rest) == rest
  {
    if n > 0 {
      SkipPrintedCommas(n - 1, rest);
      assert (Commas(n) + rest)[1..] == Commas(n - 1) + rest;
    } else {
      assert Commas(0) + rest == rest;
    }
  }

  lemma {:induction false} ParsePrintedArgs(
    types: seq<ArgType>, i: nat, mnemonic: string, args: seq<Arg>, commas: seq<nat>, rest: seq<Token>)
    requires i <= |types| && ArgsFit(types[i..], args) && |commas| == |args|
    ensures ParseArgs(types, i, mnemonic, PrintArgs(args, commas) + rest) == Ok((args, rest))
    decreases |args|
  {
    var tokens := PrintArgs(args, commas) + rest;
    if args == [] {
      assert tokens == rest;
    } else {
      assert types[i..][0] == types[i];
      var after := PrintArgs(args[1..], commas[1..]) + rest;
      PrintArgsCons(args[0], args[1..], commas[0], commas[1..], rest);
      assert [args[0]] + args[1..] == args && [commas[0]] + commas[1..] == commas;
      SkipPrintedCommas(commas[0], [ArgToken(args[0])] + after);
      assert ([ArgToken(args[0])] + after)[1..] == after;
      assert types[i + 1..] == types[i..][1..];
      ParsePrintedArgs(types, i + 1, mnemonic, args[1..], commas[1..], rest);
    }
  }

  // Behind a printed well-typed program the parser goes on with the rest.
  lemma {:induction false} ParseAfterPrint(
    table: ArgTable, program: seq<Instruction>, spacing: seq<seq<nat>>, rest: seq<Token>)
    requires WellTyped(table, program) && SpacingFor(program, spacing)
    ensures Parse(table, Print(program, spacing) + rest) == Prepend(program, Parse(table, rest))
  {
    var tokens := Print(program, spacing) + rest;
    if program == [] {
      assert tokens == rest;
      assert forall more: seq<Instruction> :: program + more == more;
    } else {
      var first, others := program[0], program[1..];
      var after := Print(others, spacing[1..]) + rest;
      var types := table[Upper(first.mnemonic)];
      assert [first] + others == program && [spacing[0]] + spacing[1..] == spacing;
      PrintCons(first, others, spacing[0], spacing[1..], rest);
      assert InstructionFits(table, first) && types[0..] == types;
      ParsePrintedArgs(types, 0, Upper(first.mnemonic), first.args, spacing[0], after);
      ParseAfterPrint(table, others, spacing[1..], rest);
      assert forall more: seq<Instruction> :: [first] + (others + more) == program + more;
      assert tokens[0] == IdentToken(first.mnemonic) && tokens[1..] == PrintArgs(first.args, spacing[0]) + after;
    }
  }

  // The parser inverts printing, whatever the number of commas before each
  // argument and even when a constant is spelled like a mnemonic.
  lemma ParsePrint(
    table: ArgTable, program: seq<Instruction>, spacing: seq<seq<nat>>, tail: seq<Token>)
    requires WellTyped(table, program) && SpacingFor(program, spacing)
    requires tail == [] || StartsComment(tail)
    ensures Parse(table, Print(program, spacing) + tail) == Ok(program)
  {
    ParseAfterPrint(table, program, spacing, tail);
    assert program + [] == program;
  }

  // ---- Where and how a program is refused ----

  // Between instructions only a mnemonic of the table may stand, or a comment,
  // which takes everything behind it; a single slash is no comment.
  lemma InstructionRefused(
    table: ArgTable, program: seq<Instruction>, spacing: seq<seq<nat>>, next: Token, rest: seq<Token>)
    requires WellTyped(table, program) && SpacingFor(program, spacing)
    ensures var parsed := Parse(table, Print(program, spacing) + ([next] + rest));
      && (next == Slash && rest != [] && rest[0] == Slash ==> parsed == Ok(program))
      && (next == Slash && (rest == [] || rest[0] != Slash) ==> parsed == Err(ExpectedMnemonic))
      && (next.Comma? || next.LitToken? || next.OtherToken? ==> parsed == Err(ExpectedMnemonic))
      && (next.IdentToken? && Upper(next.name) !in table ==> parsed == Err(UnknownMnemonic(Upper(next.name))))
  {
    ParseAfterPrint(table, program, spacing, [next] + rest);
    assert program + [] == program;
  }

  // Which token cannot be the argument behind `done` well-typed ones.
  function Refusal(types: seq<ArgType>, done: nat, mnemonic: string, rest: seq<Token>): Option<ParseError>
    requires done < |types|
  {
    if rest == [] then Some(MissingArgument(done + 1, |types|, mnemonic))
    else
      match rest[0]
      case IdentToken(name) =>
        if name != "" && name[0] == '_' then
          if types[done].RegisterId? then None else Some(CannotBeRegister(done + 1, mnemonic))
        else
          if types[done].RegisterId? then Some(MustBeRegister(done + 1, mnemonic)) else None
      case LitToken(_) => if types[done].RegisterId? then Some(MustBeRegister(done + 1, mnemonic)) else None
      case _ => Some(UnexpectedToken(done + 1, |types|, mnemonic))
  }

  lemma {:induction false} ParseArgsAfter(
    types: seq<ArgType>, i: nat, mnemonic: string, args: seq<Arg>, commas: seq<nat>, rest: seq<Token>)
    requires i + |args| <= |types| && ArgsFit(types[i..i + |args|], args) && |commas| == |args|
    requires ParseArgs(types, i + |args|, mnemonic, rest).Err?
    ensures ParseArgs(types, i, mnemonic, PrintArgs(args, commas) + rest)
      == ParseArgs(types, i + |args|, mnemonic, rest)
    decreases |args|
  {
    var tokens := PrintArgs(args, commas) + rest;
    if args == [] {
      assert tokens == rest;
    } else {
      assert types[i..i + |args|][0] == types[i];
      var after := PrintArgs(args[1..], commas[1..]) + rest;
      PrintArgsCons(args[0], args[1..], commas[0], commas[1..], rest);
      assert [args[0]] + args[1..] == args && [commas[0]] + commas[1..] == commas;
      SkipPrintedCommas(commas[0], [ArgToken(args[0])] + after);
      assert ([ArgToken(args[0])] + after)[1..] == after;
      assert types[i + 1..i + |args|] == types[i..i + |args|][1..];
      ParseArgsAfter(types, i + 1, mnemonic, args[1..], commas[1..], rest);
    }
  }

  // The first argument that is missing, of the wrong kind or no argument at all
  // is reported with its position, counted from one, and the mnemonic in upper
  // case.
  lemma ArgumentRefused(
    table: ArgTable, program: seq<Instruction>, spacing: seq<seq<nat>>, name: string, args: seq<Arg>,
    commas: seq<nat>, more: nat, rest: seq<Token>)
    requires WellTyped(table, program) && SpacingFor(program, spacing)
    requires Upper(name) in table && |commas| == |args| < |table[Upper(name)]|
    requires ArgsFit(table[Upper(name)][..|args|], args)
    requires (rest == [] || rest[0] != Comma) && Refusal(table[Upper(name)], |args|, Upper(name), rest).Some?
    ensures Parse(table, Print(program, spacing)
          + ([IdentToken(name)] + (PrintArgs(args, commas) + (Commas(more) + rest))))
      == Err(Refusal(table[Upper(name)], |args|, Upper(name), rest).value)
  {
    var written := PrintArgs(args, commas) + (Commas(more) + rest);
    ArgumentsRefused(table[Upper(name)], Upper(name), args, commas, more, rest);
    assert ([IdentToken(name)] + written)[1..] == written;
    ParseAfterPrint(table, program, spacing, [IdentToken(name)] + written);
  }

  lemma ArgumentsRefused(
    types: seq<ArgType>, mnemonic: string, args: seq<Arg>, commas: seq<nat>, more: nat, rest: seq<Token>)
    requires |commas| == |args| < |types| && ArgsFit(types[..|args|], args)
    requires (rest == [] || rest[0] != Comma) && Refusal(types, |args|, mnemonic, rest).Some?
    ensures ParseArgs(types, 0, mnemonic, PrintArgs(args, commas) + (Commas(more) + rest))
      == Err(Refusal(types, |args|, mnemonic, rest).value)
  {
    SkipPrintedCommas(more, rest);
    assert types[0..0 + |args|] == types[..|args|];
    ParseArgsAfter(types, 0, mnemonic, args, commas, Commas(more) + rest);
  }

  // Mnemonics are looked up in upper case, however they are spelled.
  lemma AnySpelling(name: string, k: nat)
    requires k < |name| == |Upper(name)|
    ensures 'a' <= name[k] <= 'z' ==> Upper(name)[k] as int == name[k] as int - 32
    ensures !('a' <= name[k] <= 'z') ==> Upper(name)[k] == name[k]
  {
  }

  lemma {:induction false} SkippedCommas(tokens: seq<Token>) returns (n: nat)
    ensures tokens == Commas(n) + SkipCommas(tokens)
  {
    if tokens != [] && tokens[0] == Comma {
      var m := SkippedCommas(tokens[1..]);
      n := m + 1;
      assert Commas(n) == [Comma] + Commas(m);
      assert tokens == [Comma] + tokens[1..];
    } else {
      n := 0;
    }
  }

  lemma ParsedArgPrints(types: seq<ArgType>, i: nat, mnemonic: string, tokens: seq<Token>) returns (n: nat)
    requires i < |types| && ParseArg(types, i, mnemonic, tokens).Ok?
    ensures var (arg, after) := ParseArg(types, i, mnemonic, tokens).value;
      ArgFits(types[i], arg) && tokens == Commas(n) + ([ArgToken(arg)] + after)
  {
    n := SkippedCommas(tokens);
    var rest := SkipCommas(tokens);
    assert rest == [rest[0]] + rest[1..];
  }

  lemma {:induction false} ParsedArgsPrint(types: seq<ArgType>, i: nat, mnemonic: string, tokens: seq<Token>)
    returns (commas: seq<nat>)
    requires i <= |types| && ParseArgs(types, i, mnemonic, tokens).Ok?
    ensures var (args, rest) := ParseArgs(types, i, mnemonic, tokens).value;
      && ArgsFit(types[i..], args) && |commas| == |args|
      && tokens == PrintArgs(args, commas) + rest
    decreases |types| - i
  {
    if i == |types| {
      commas := [];
    } else {
      var n := ParsedArgPrints(types, i, mnemonic, tokens);
      var (arg, after) := ParseArg(types, i, mnemonic, tokens).value;
      var more := ParsedArgsPrint(types, i + 1, mnemonic, after);
      var (others, rest) := ParseArgs(types, i + 1, mnemonic, after).value;
      commas := [n] + more;
      PrintArgsCons(arg, others, n, more, rest);
      ArgsFitCons(types, i, arg, others);
    }
  }

  lemma ArgsFitCons(types: seq<ArgType>, i: nat, arg: Arg, others: seq<Arg>)
    requires i < |types| && ArgFits(types[i], arg) && ArgsFit(types[i + 1..], others)
    ensures ArgsFit(types[i..], [arg] + others)
  {
    assert types[i..] == [types[i]] + types[i + 1..];
  }

  lemma WellTypedCons(table: ArgTable, first: Instruction, others: seq<Instruction>)
    requires InstructionFits(table, first) && WellTyped(table, others)
    ensures WellTyped(table, [first] + others)
  {
  }

  // Nothing else parses: an accepted stream is the printing of the returned,
  // well-typed list, up to a trailing comment.
  lemma {:induction false} ParsedIsPrinted(table: ArgTable, tokens: seq<Token>)
    returns (spacing: seq<seq<nat>>, tail: seq<Token>)
    requires Parse(table, tokens).Ok?
    ensures var program := Parse(table, tokens).value;
      && WellTyped(table, program) && SpacingFor(program, spacing)
      && (tail == [] || StartsComment(tail))
      && tokens == Print(program, spacing) + tail
    decreases |tokens|
  {
    if tokens == [] || StartsComment(tokens) {
      spacing, tail := [], tokens;
    } else {
      var mnemonic := Upper(tokens[0].name);
      var commas := ParsedArgsPrint(table[mnemonic], 0, mnemonic, tokens[1..]);
      var (args, rest) := ParseArgs(table[mnemonic], 0, mnemonic, tokens[1..]).value;
      assert table[mnemonic][0..] == table[mnemonic];
      var others, end := ParsedIsPrinted(table, rest);
      spacing, tail := [commas] + others, end;
      var first := Instruction(tokens[0].name, args);
      WellTypedCons(table, first, Parse(table, rest).value);
      PrintCons(first, Parse(table, rest).value, commas, others, end);
      assert tokens == [tokens[0]] + tokens[1..];
    }
  }
}
