// Two programs assemble to the same bytes exactly when they agree up to an
// injective renaming of registers (proc-macros/abacus-macros/src/lib.rs).
module RegisterRenaming {
  import opened AbacusSyntax
  import opened Assembler
  import opened Disassembler

  ghost predicate Injective(ren: map<string, string>) {
    forall a, b :: a in ren && b in ren && ren[a] == ren[b] ==> a == b
  }

  // The same argument: renamed registers, or literals and constants with the
  // same value.
  ghost predicate SameArg(env: Environment, mnemonic: string, t: ArgType, a: Arg, b: Arg, ren: map<string, string>) {
    if a.RegisterArg? then b.RegisterArg? && a.name in ren && ren[a.name] == b.name
    else !b.RegisterArg? && Operand(env, mnemonic, t, a, []) == Operand(env, mnemonic, t, b, [])
  }

  ghost predicate SameInstruction(
    isa: Isa, env: Environment, p: Instruction, q: Instruction, ren: map<string, string>)
  {
    var m := Upper(p.mnemonic);
    && m == Upper(q.mnemonic) && m in isa.table
    && |p.args| == |q.args| == |isa.table[m]|
    && forall k :: 0 <= k < |p.args| ==> SameArg(env, m, isa.table[m][k], p.args[k], q.args[k], ren)
  }

  ghost predicate SameUpTo(
    isa: Isa, env: Environment, p: seq<Instruction>, q: seq<Instruction>, ren: map<string, string>)
  {
    && |p| == |q|
    && forall i :: 0 <= i < |p| ==> SameInstruction(isa, env, p[i], q[i], ren)
  }

  ghost predicate AgreeUpToRenaming(isa: Isa, env: Environment, p: seq<Instruction>, q: seq<Instruction>) {
    exists ren: map<string, string> :: Injective(ren) && SameUpTo(isa, env, p, q, ren)
  }

  predicate AllIn(names: seq<string>, ren: map<string, string>) {
    forall i :: 0 <= i < |names| ==> names[i] in ren
  }

  function Rename(names: seq<string>, ren: map<string, string>): (r: seq<string>)
    requires AllIn(names, ren)
    ensures |r| == |names|
  {
    seq(|names|, i requires 0 <= i < |names| => ren[names[i]])
  }

  lemma RenameConcat(a: seq<string>, b: seq<string>, ren: map<string, string>)
    requires AllIn(a, ren) && AllIn(b, ren)
    ensures AllIn(a + b, ren) && Rename(a + b, ren) == Rename(a, ren) + Rename(b, ren)
  {
  }

  lemma {:induction false} ArgNamesRenamed(
    env: Environment, m: string, types: seq<ArgType>, a: seq<Arg>, b: seq<Arg>, ren: map<string, string>)
    requires |a| == |b| == |types|
    requires forall k :: 0 <= k < |a| ==> SameArg(env, m, types[k], a[k], b[k], ren)
    ensures AllIn(ArgNames(a), ren) && ArgNames(b) == Rename(ArgNames(a), ren)
    decreases |a|
  {
    if a != [] {
      var n := |a| - 1;
      ArgNamesRenamed(env, m, types[..n], a[..n], b[..n], ren);
      assert SameArg(env, m, types[n], a[n], b[n], ren);
      assert AllIn(NameOf(a[n]), ren) && NameOf(b[n]) == Rename(NameOf(a[n]), ren);
      RenameConcat(ArgNames(a[..n]), NameOf(a[n]), ren);
    }
  }

  lemma {:induction false} RegisterNamesRenamed(
    isa: Isa, env: Environment, p: seq<Instruction>, q: seq<Instruction>, ren: map<string, string>)
    requires SameUpTo(isa, env, p, q, ren)
    ensures AllIn(RegisterNames(p), ren) && RegisterNames(q) == Rename(RegisterNames(p), ren)
    decreases |p|
  {
    if p != [] {
      var n := |p| - 1;
      RegisterNamesRenamed(isa, env, p[..n], q[..n], ren);
      assert SameInstruction(isa, env, p[n], q[n], ren);
      var m := Upper(p[n].mnemonic);
      ArgNamesRenamed(env, m, isa.table[m], p[n].args, q[n].args, ren);
      RenameConcat(RegisterNames(p[..n]), ArgNames(p[n].args), ren);
    }
  }

  // Renaming commutes with taking first uses.
  lemma {:induction false} FirstUseRenamed(names: seq<string>, ren: map<string, string>)
    requires Injective(ren) && AllIn(names, ren)
    ensures AllIn(FirstUse(names), ren)
    ensures FirstUse(Rename(names, ren)) == Rename(FirstUse(names), ren)
  {
    if names != [] {
      var front, last := names[..|names| - 1], names[|names| - 1];
      FirstUseRenamed(front, ren);
      assert Rename(names, ren)[..|names| - 1] == Rename(front, ren);
      var before := FirstUse(front);
      if last in before {
        var k :| 0 <= k < |before| && before[k] == last;
        assert Rename(before, ren)[k] == ren[last];
      } else {
        assert ren[last] !in Rename(before, ren);
        assert Rename(before + [last], ren) == Rename(before, ren) + [ren[last]];
      }
    }
  }

  lemma IndexOfRenamed(order: seq<string>, ren: map<string, string>, name: string)
    requires Injective(ren) && AllIn(order, ren) && name in order
    ensures ren[name] in Rename(order, ren)
    ensures IndexOf(Rename(order, ren), ren[name]) == IndexOf(order, name)
  {
    var i := IndexOf(order, name);
    assert Rename(order, ren)[i] == ren[name];
    var j := IndexOf(Rename(order, ren), ren[name]);
    assert order[j] == name;
  }

  lemma SameArgSameOperand(
    env: Environment, m: string, t: ArgType, a: Arg, b: Arg, ren: map<string, string>, order: seq<string>)
    requires Injective(ren) && AllIn(order, ren) && SameArg(env, m, t, a, b, ren)
    requires Operand(env, m, t, a, order).Some?
    ensures Operand(env, m, t, a, order) == Operand(env, m, t, b, Rename(order, ren))
  {
    if a.RegisterArg? {
      IndexOfRenamed(order, ren, a.name);
    }
  }

  lemma RenamedLowersAlike(
    isa: Isa, env: Environment, p: seq<Instruction>, q: seq<Instruction>, ren: map<string, string>)
    requires WellTyped(isa.table, p) && WellTyped(isa.table, q)
    requires Compiles(isa, env, p) && Compiles(isa, env, q)
    requires Injective(ren) && SameUpTo(isa, env, p, q, ren)
    ensures Lower(isa, env, p) == Lower(isa, env, q)
  {
    RegisterNamesRenamed(isa, env, p, q, ren);
    FirstUseRenamed(RegisterNames(p), ren);
    var order := Registers(p);
    assert Registers(q) == Rename(order, ren);
    forall i | 0 <= i < |p|
      ensures Lower(isa, env, p)[i] == Lower(isa, env, q)[i]
    {
      assert SameInstruction(isa, env, p[i], q[i], ren) && InstructionFits(isa.table, p[i]);
      var m := Upper(p[i].mnemonic);
      forall k | 0 <= k < |p[i].args|
        ensures Lower(isa, env, p)[i].operands[k] == Lower(isa, env, q)[i].operands[k]
      {
        assert SameArg(env, m, isa.table[m][k], p[i].args[k], q[i].args[k], ren);
        SameArgSameOperand(env, m, isa.table[m][k], p[i].args[k], q[i].args[k], ren, order);
      }
      assert Lower(isa, env, p)[i].operands == Lower(isa, env, q)[i].operands;
    }
  }

  // The renaming that sends the register numbered n to the one numbered n.
  function Matching(from: seq<string>, to: seq<string>): map<string, string> {
    map name | name in from && IndexOf(from, name) < |to| :: to[IndexOf(from, name)]
  }

  lemma MatchingInjective(from: seq<string>, to: seq<string>)
    requires Distinct(to)
    ensures Injective(Matching(from, to))
  {
  }

  lemma EqualOperandSameArg(
    env: Environment, m: string, t: ArgType, a: Arg, b: Arg, from: seq<string>, to: seq<string>)
    requires ArgFits(t, a) && ArgFits(t, b)
    requires Operand(env, m, t, a, from).Some?
    requires Operand(env, m, t, a, from) == Operand(env, m, t, b, to)
    ensures SameArg(env, m, t, a, b, Matching(from, to))
  {
    if a.RegisterArg? {
      assert IndexOf(from, a.name) == IndexOf(to, b.name);
    }
  }

  lemma LowersAlikeAgrees(isa: Isa, env: Environment, p: seq<Instruction>, q: seq<Instruction>)
    requires WellTyped(isa.table, p) && WellTyped(isa.table, q)
    requires Compiles(isa, env, p) && Compiles(isa, env, q)
    requires Lower(isa, env, p) == Lower(isa, env, q)
    ensures AgreeUpToRenaming(isa, env, p, q)
  {
    var from, to := Registers(p), Registers(q);
    var ren := Matching(from, to);
    RegistersShape(q);
    MatchingInjective(from, to);
    forall i | 0 <= i < |p|
      ensures SameInstruction(isa, env, p[i], q[i], ren)
    {
      var d, e := Lower(isa, env, p)[i], Lower(isa, env, q)[i];
      assert d == e && InstructionFits(isa.table, p[i]) && InstructionFits(isa.table, q[i]);
      var m := Upper(p[i].mnemonic);
      assert d.mnemonic == m == Upper(q[i].mnemonic);
      forall k | 0 <= k < |p[i].args|
        ensures SameArg(env, m, isa.table[m][k], p[i].args[k], q[i].args[k], ren)
      {
        assert d.operands[k] == e.operands[k];
        EqualOperandSameArg(env, m, isa.table[m][k], p[i].args[k], q[i].args[k], from, to);
      }
    }
    assert SameUpTo(isa, env, p, q, ren);
  }

  // Unique decodability: for programs that fit their bytes, equal code means
  // equal programs up to register names, and renaming never changes the code.
  lemma SameCodeIffRenamed(isa: Isa, env: Environment, p: seq<Instruction>, q: seq<Instruction>)
    requires ValidIsa(isa) && AmountsAreWords(isa.table)
    requires WellTyped(isa.table, p) && WellTyped(isa.table, q)
    requires Compiles(isa, env, p) && Compiles(isa, env, q)
    requires FitsBytes(isa, env, p) && FitsBytes(isa, env, q)
    ensures Assembled(isa, env, p) == Assembled(isa, env, q) <==> AgreeUpToRenaming(isa, env, p, q)
  {
    AssembleDisassemble(isa, env, p);
    AssembleDisassemble(isa, env, q);
    if Assembled(isa, env, p) == Assembled(isa, env, q) {
      LowersAlikeAgrees(isa, env, p, q);
    }
    if AgreeUpToRenaming(isa, env, p, q) {
      var ren :| Injective(ren) && SameUpTo(isa, env, p, q, ren);
      RenamedLowersAlike(isa, env, p, q, ren);
    }
  }
}
