/** The four-valued logic of SystemC and Verilog, bit by bit. */
module Logic {
  datatype Logic = X | L0 | L1 | Z

  type Bits = seq<Logic>

  /** An unknown operand: X or Z. */
  predicate Unknown(a: Logic) {
    a.X? || a.Z?
  }

  function Not(a: Logic): Logic {
    match a
    case L0 => L1
    case L1 => L0
    case _ => X
  }

  function And(a: Logic, b: Logic): Logic {
    if a.L0? || b.L0? then L0 else if a.L1? && b.L1? then L1 else X
  }

  function Or(a: Logic, b: Logic): Logic {
    if a.L1? || b.L1? then L1 else if a.L0? && b.L0? then L0 else X
  }

  function Xor(a: Logic, b: Logic): Logic {
    if Unknown(a) || Unknown(b) then X else if a == b then L0 else L1
  }
}
