// Literal tokens as a macro receives them: Rust has dropped underscores and
// resolved the radix, a float keeps its decimal digits.
module RustLiterals {
  import opened Prelude

  // The integer types are told apart by their largest value; NoType is a
  // suffix that names no integer type.
  datatype Suffix = Unsuffixed | IntType(max: nat) | NoType

  // A scalar is a byte, character or boolean, known by its code. A float comes
  // with the byte Rust casts it to.
  datatype Literal =
    | IntLit(value: nat, suffix: Suffix)
    | FloatLit(digits: string, asByte: U8)
    | ScalarLit(code: nat)
    | OtherLit

  // Whether an integer literal compiles where a type of at most `max` is
  // expected; a suffix overrides the expectation.
  predicate Fits(value: nat, suffix: Suffix, max: nat) {
    match suffix
    case Unsuffixed => value <= max
    case IntType(own) => value <= own
    case NoType => false
  }
}
