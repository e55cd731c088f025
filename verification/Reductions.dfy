/**
 Lowering the reduction operators: to a chain of bit operations for VHDL, to a comparison or a
 parity loop for native integers in SystemC.

 Reduced is the rule a reduction follows, whatever the order of the bits. ChainReduces says exactly
 when VHDL's chain has that value, IntegersReduce when the SystemC forms have it.
 */
module Reductions {
  import opened Logic
  import opened SystemcExtensions
  import opened Wrappers

  datatype ReduceOp = AndRd | OrRd | XorRd

  function Apply(op: ReduceOp, a: Logic, b: Logic): Logic {
    match op
    case AndRd => And(a, b)
    case OrRd => Or(a, b)
    case XorRd => Xor(a, b)
  }

  // ---------------------------------------------------------------- the rule

  function Ones(bits: Bits): nat {
    if |bits| == 0 then 0 else (if bits[0].L1? then 1 else 0) + Ones(bits[1..])
  }

  predicate AnyUnknown(bits: Bits) {
    exists k :: 0 <= k < |bits| && Unknown(bits[k])
  }

  predicate All(bits: Bits, b: Logic) {
    forall k :: 0 <= k < |bits| ==> bits[k] == b
  }

  function Reduced(op: ReduceOp, bits: Bits): Logic {
    match op
    case AndRd => if L0 in bits then L0 else if All(bits, L1) then L1 else X
    case OrRd => if L1 in bits then L1 else if All(bits, L0) then L0 else X
    case XorRd => if AnyUnknown(bits) then X else if Ones(bits) % 2 == 1 then L1 else L0
  }

  lemma {:induction false} OnesAppend(bits: Bits, b: Logic)
    ensures Ones(bits + [b]) == Ones(bits) + if b.L1? then 1 else 0
  {
    if |bits| == 0 {
      assert [b][1..] == [];
      assert bits + [b] == [b];
    } else {
      assert (bits + [b])[1..] == bits[1..] + [b];
      OnesAppend(bits[1..], b);
    }
  }

  lemma ReducedAppend(op: ReduceOp, bits: Bits, b: Logic)
    ensures Reduced(op, bits + [b]) == Apply(op, Reduced(op, bits), b)
  {
    var all := bits + [b];
    assert all[|bits|] == b;
    assert forall k :: 0 <= k < |bits| ==> all[k] == bits[k];
    match op
    case AndRd => AllAppend(bits, b, L1);
    case OrRd => AllAppend(bits, b, L0);
    case XorRd =>
      OnesAppend(bits, b);
      if AnyUnknown(bits) {
        var k :| 0 <= k < |bits| && Unknown(bits[k]);
        assert Unknown(all[k]);
      }
  }

  lemma AllAppend(bits: Bits, b: Logic, x: Logic)
    ensures All(bits + [b], x) <==> All(bits, x) && b == x
    ensures forall y :: y in bits + [b] <==> y in bits || y == b
  {
    var all := bits + [b];
    assert all[|bits|] == b;
    assert forall k :: 0 <= k < |bits| ==> all[k] == bits[k];
  }

  function Reversed(bits: Bits): (r: Bits)
    ensures |r| == |bits| && forall k :: 0 <= k < |bits| ==> r[k] == bits[|bits| - 1 - k]
  {
    if |bits| == 0 then [] else Reversed(bits[1..]) + [bits[0]]
  }

  lemma {:induction false} OnesReversed(bits: Bits)
    ensures Ones(Reversed(bits)) == Ones(bits)
  {
    if |bits| != 0 {
      OnesReversed(bits[1..]);
      OnesAppend(Reversed(bits[1..]), bits[0]);
    }
  }

  /** The rule does not depend on the direction the bits are read in. */
  lemma ReducedReversed(op: ReduceOp, bits: Bits)
    ensures Reduced(op, Reversed(bits)) == Reduced(op, bits)
  {
    OnesReversed(bits);
    var r := Reversed(bits);
    assert forall k :: 0 <= k < |bits| ==> bits[k] == r[|bits| - 1 - k];
    assert forall b: Logic :: b in r <==> b in bits;
    assert forall b: Logic :: All(r, b) <==> All(bits, b);
    if AnyUnknown(bits) {
      var k :| 0 <= k < |bits| && Unknown(bits[k]);
      assert Unknown(r[|bits| - 1 - k]);
    }
  }

  // ---------------------------------------------------------------- the VHDL chain

  datatype Span = Span(left: int, right: int)

  /** Bits of a vector, by the index they are selected with. */
  datatype BitExpr = Bit(index: int) | Operation(op: ReduceOp, l: BitExpr, r: BitExpr)
  datatype Lowered = Operand | Chain(e: BitExpr)

  function Low(s: Span): int {
    if s.left <= s.right then s.left else s.right
  }

  function High(s: Span): int {
    if s.left <= s.right then s.right else s.left
  }

  function Width(s: Span): nat {
    if s.left <= s.right then s.right - s.left + 1 else s.left - s.right + 1
  }

  /** Where the bit of an index stands in the vector, written from left to right. */
  function Position(s: Span, index: int): int {
    if s.left <= s.right then index - s.left else s.left - index
  }

  function ChainOf(op: ReduceOp, low: int, index: int): BitExpr
    requires low <= index
    decreases index - low
  {
    if index == low then Bit(low) else Operation(op, ChainOf(op, low, index - 1), Bit(index))
  }

  method FixReduceOperator(op: ReduceOp, span: Option<Span>) returns (r: Lowered)
    ensures r == if span.None? then Operand else Chain(ChainOf(op, Low(span.value), High(span.value)))
  {
    if span.None? {
      return Operand;
    }
    var low, high := Low(span.value), High(span.value);
    var chain := None;
    var index := low;
    while index <= high
      invariant low <= index <= high + 1
      invariant chain == if index == low then None else Some(ChainOf(op, low, index - 1))
    {
      var bit := Bit(index);
      chain := if chain.None? then Some(bit) else Some(Operation(op, chain.value, bit));
      index := index + 1;
    }
    r := Chain(chain.value);
  }

  /** The indices a chain selects, from left to right. */
  function Selected(e: BitExpr): seq<int> {
    match e
    case Bit(index) => [index]
    case Operation(_, l, r) => Selected(l) + Selected(r)
  }

  /** The chain is the operands as they come, lowest index first and each exactly once. */
  lemma {:induction false} ChainOrder(op: ReduceOp, low: int, index: int)
    requires low <= index
    ensures Selected(ChainOf(op, low, index)) == seq(index - low + 1, k => low + k)
    decreases index - low
  {
    if low < index {
      ChainOrder(op, low, index - 1);
    }
  }

  function BitAt(bits: Bits, k: int): Logic {
    if 0 <= k < |bits| then bits[k] else X
  }

  function EvalChain(e: BitExpr, s: Span, bits: Bits): Logic {
    match e
    case Bit(index) => BitAt(bits, Position(s, index))
    case Operation(op, l, r) => Apply(op, EvalChain(l, s, bits), EvalChain(r, s, bits))
  }

  /** The bits of indices low to index, in that order. */
  function BitsTo(s: Span, bits: Bits, index: int): (r: Bits)
    requires |bits| == Width(s) && Low(s) <= index <= High(s)
    ensures |r| == index - Low(s) + 1
  {
    seq(index - Low(s) + 1, k => BitAt(bits, Position(s, Low(s) + k)))
  }

  /** Only the chain of one bit can show more than a reduction: Z, where the rule gives X. */
  lemma {:induction false} ChainValue(op: ReduceOp, s: Span, bits: Bits, index: int)
    requires |bits| == Width(s) && Low(s) <= index <= High(s)
    ensures var v := EvalChain(ChainOf(op, Low(s), index), s, bits);
            v == Reduced(op, BitsTo(s, bits, index))
              || (index == Low(s) && v.Z? && Reduced(op, BitsTo(s, bits, index)).X?)
    ensures index == Low(s) ==> EvalChain(ChainOf(op, Low(s), index), s, bits) == BitsTo(s, bits, index)[0]
    decreases index - Low(s)
  {
    var low := Low(s);
    if index == low {
      var b := BitAt(bits, Position(s, low));
      assert BitsTo(s, bits, index) == [] + [b];
      ReducedAppend(op, [], b);
      assert Reduced(op, []) == if op.AndRd? then L1 else L0;
    } else {
      ChainValue(op, s, bits, index - 1);
      assert BitsTo(s, bits, index) == BitsTo(s, bits, index - 1) + [BitAt(bits, Position(s, index))];
      ReducedAppend(op, BitsTo(s, bits, index - 1), BitAt(bits, Position(s, index)));
    }
  }

  lemma BitsToAt(s: Span, bits: Bits, k: nat)
    requires |bits| == Width(s) && k < |bits|
    ensures |BitsTo(s, bits, High(s))| == |bits|
    ensures BitsTo(s, bits, High(s))[k] == if s.left <= s.right then bits[k] else bits[|bits| - 1 - k]
  {
    if s.left <= s.right {
      assert Low(s) == s.left && High(s) == s.right;
      assert Position(s, Low(s) + k) == k;
    } else {
      assert Low(s) == s.right && High(s) == s.left;
      assert Position(s, Low(s) + k) == |bits| - 1 - k;
    }
  }

  /** Read low index first, a `to` vector comes as written and a `downto` vector reversed. */
  lemma AllBits(s: Span, bits: Bits)
    requires |bits| == Width(s)
    ensures BitsTo(s, bits, High(s)) == if s.left <= s.right then bits else Reversed(bits)
  {
    var r := BitsTo(s, bits, High(s));
    var t := if s.left <= s.right then bits else Reversed(bits);
    BitsToAt(s, bits, 0);
    forall k | 0 <= k < |r|
      ensures r[k] == t[k]
    {
      BitsToAt(s, bits, k);
    }
    assert r == t;
  }

  /**
   For every width and both directions the chain is the reduction, except that the chain of a
   single bit is that bit: Z stays Z.
   */
  lemma ChainReduces(op: ReduceOp, s: Span, bits: Bits)
    requires |bits| == Width(s)
    ensures EvalChain(ChainOf(op, Low(s), High(s)), s, bits) == Reduced(op, bits) <==> !(|bits| == 1 && bits[0].Z?)
  {
    ChainValue(op, s, bits, High(s));
    AllBits(s, bits);
    ReducedReversed(op, bits);
    if |bits| == 1 {
      assert Reversed(bits)[0] == bits[0];
      assert bits == [] + [bits[0]];
      ReducedAppend(op, [], bits[0]);
    }
  }

  // ---------------------------------------------------------------- native integers in SystemC

  /** Value of a word, least significant bit first. */
  function ValueOf(word: seq<bool>): nat {
    if |word| == 0 then 0 else (if word[0] then 1 else 0) + 2 * ValueOf(word[1..])
  }

  function Pow2(n: nat): nat {
    if n == 0 then 1 else 2 * Pow2(n - 1)
  }

  function AsLogic(word: seq<bool>): (r: Bits)
    ensures |r| == |word| && forall k :: 0 <= k < |word| ==> r[k] == if word[k] then L1 else L0
  {
    seq(|word|, k requires 0 <= k < |word| => if word[k] then L1 else L0)
  }

  /** The argument of the parity function is 64 bits wide: a signed operand is extended by its sign. */
  function Widened(word: seq<bool>, signed: bool): seq<bool>
    requires 0 < |word| <= 64
  {
    word + seq(64 - |word|, _ => signed && word[|word| - 1])
  }

  lemma {:induction false} ValueBounds(word: seq<bool>)
    ensures ValueOf(word) < Pow2(|word|)
    ensures ValueOf(word) == 0 <==> !(true in word)
    ensures ValueOf(word) == Pow2(|word|) - 1 <==> !(false in word)
  {
    if |word| != 0 {
      ValueBounds(word[1..]);
      assert word == [word[0]] + word[1..];
    }
  }

  lemma {:induction false} ParityOf(word: seq<bool>)
    ensures OddOnes(ValueOf(word)) <==> Ones(AsLogic(word)) % 2 == 1
  {
    if |word| != 0 {
      ParityOf(word[1..]);
      assert AsLogic(word)[1..] == AsLogic(word[1..]);
      var rest := ValueOf(word[1..]);
      assert ValueOf(word) / 2 == rest && (ValueOf(word) % 2 == 1) == word[0];
    }
  }

  lemma {:induction false} OnesExtended(word: seq<bool>, n: nat, b: bool)
    ensures Ones(AsLogic(word + seq(n, _ => b))) == Ones(AsLogic(word)) + if b then n else 0
  {
    if n == 0 {
      assert word + seq(0, _ => b) == word;
    } else {
      OnesExtended(word, n - 1, b);
      assert word + seq(n, _ => b) == (word + seq(n - 1, _ => b)) + [b];
      assert AsLogic(word + seq(n, _ => b)) == AsLogic(word + seq(n - 1, _ => b)) + [if b then L1 else L0];
      OnesAppend(AsLogic(word + seq(n - 1, _ => b)), if b then L1 else L0);
    }
  }

  /** What the lowered operator computes: nonzero, all ones in the operand's width, or hif_xorrd. */
  function IntegerForm(op: ReduceOp, word: seq<bool>, signed: bool): bool
    requires 0 < |word| <= 64
  {
    match op
    case OrRd => ValueOf(word) != 0
    case AndRd => ValueOf(word) == Pow2(|word|) - 1
    case XorRd => OddOnes(ValueOf(Widened(word, signed)))
  }

  /**
   The integer forms are the reduction of the operand's bits exactly when the parity loop, if it is
   one, sees an even number of sign bits added; for widths 8, 16, 32 and 64 it always does.
   */
  lemma IntegersReduce(op: ReduceOp, word: seq<bool>, signed: bool)
    requires 0 < |word| <= 64
    ensures Reduced(op, AsLogic(word)) == (if IntegerForm(op, word, signed) then L1 else L0)
            <==> !(op.XorRd? && signed && word[|word| - 1] && |word| % 2 == 1)
    ensures |word| in {8, 16, 32, 64} ==>
              Reduced(op, AsLogic(word)) == if IntegerForm(op, word, signed) then L1 else L0
  {
    ValueBounds(word);
    match op
    case AndRd => MembersOf(word);
    case OrRd => MembersOf(word);
    case XorRd =>
      KnownParity(word);
      WidenedParity(word, signed);
  }

  lemma KnownParity(word: seq<bool>)
    ensures Reduced(XorRd, AsLogic(word)) == if Ones(AsLogic(word)) % 2 == 1 then L1 else L0
  {
    var bits := AsLogic(word);
    assert forall k :: 0 <= k < |bits| ==> !Unknown(bits[k]);
  }

  lemma WidenedParity(word: seq<bool>, signed: bool)
    requires 0 < |word| <= 64
    ensures (OddOnes(ValueOf(Widened(word, signed))) <==> Ones(AsLogic(word)) % 2 == 1)
            <==> !(signed && word[|word| - 1] && |word| % 2 == 1)
  {
    ParityOf(Widened(word, signed));
    OnesExtended(word, 64 - |word|, signed && word[|word| - 1]);
  }

  lemma MembersOf(word: seq<bool>)
    ensures L1 in AsLogic(word) <==> true in word
    ensures L0 in AsLogic(word) <==> false in word
    ensures All(AsLogic(word), L1) <==> !(false in word)
    ensures All(AsLogic(word), L0) <==> !(true in word)
  {
    var bits := AsLogic(word);
    if true in word {
      var k :| 0 <= k < |word| && word[k];
      assert bits[k] == L1;
    }
    if false in word {
      var k :| 0 <= k < |word| && !word[k];
      assert bits[k] == L0;
    }
    if L1 in bits {
      var k :| 0 <= k < |bits| && bits[k] == L1;
      assert word[k];
    }
    if L0 in bits {
      var k :| 0 <= k < |bits| && bits[k] == L0;
      assert !word[k];
    }
  }
}
