/**
 Writing a slice of a native integer with masks.

 C++ integers have no slices, so `a[l:r] = b` becomes an assignment of the whole of a. SliceWritten
 says what a holds afterwards, for every width, every pair of bounds and both readings of a shift by
 the full width, which C++ leaves open.
 */
module SliceMask {
  type Name = string

  /** Bits of a word, least significant first. */
  type Word = seq<bool>

  /** Value of a shift by the full width: no bits left, or the operand unshifted. */
  datatype FullShift = Empties | Ignored

  datatype WordExpr =
    | Prefix(n: Name)
    | Source
    | Zero
    | BNot(e: WordExpr)
    | BAnd(l: WordExpr, r: WordExpr)
    | BOr(l: WordExpr, r: WordExpr)
    | Sla(e: WordExpr, k: int)
    | Sra(e: WordExpr, k: int)
    | Cast(e: WordExpr)

  datatype Target = WholeWord(n: Name) | Slice(n: Name, left: int, right: int)

  // ---------------------------------------------------------------- words

  function BitOf(a: Word, i: int): bool {
    0 <= i < |a| && a[i]
  }

  function Zeros(w: nat): (r: Word)
    ensures |r| == w && forall i :: 0 <= i < w ==> !r[i]
  {
    seq(w, _ => false)
  }

  function Not(a: Word): (r: Word)
    ensures |r| == |a| && forall i :: 0 <= i < |a| ==> r[i] == !a[i]
  {
    seq(|a|, i requires 0 <= i < |a| => !a[i])
  }

  function And(a: Word, b: Word): (r: Word)
    requires |a| == |b|
    ensures |r| == |a| && forall i :: 0 <= i < |a| ==> r[i] == (a[i] && b[i])
  {
    seq(|a|, i requires 0 <= i < |a| => a[i] && b[i])
  }

  function Or(a: Word, b: Word): (r: Word)
    requires |a| == |b|
    ensures |r| == |a| && forall i :: 0 <= i < |a| ==> r[i] == (a[i] || b[i])
  {
    seq(|a|, i requires 0 <= i < |a| => a[i] || b[i])
  }

  /** Bits from k upward come from the operand; k equal to the width is the open case. */
  function ShiftLeft(a: Word, k: int, full: FullShift): (r: Word)
    ensures |r| == |a|
    ensures forall i :: 0 <= i < |a| ==> r[i] == if k == |a| && full.Ignored? then a[i] else BitOf(a, i - k)
  {
    if k == |a| && full.Ignored? then a else seq(|a|, i => BitOf(a, i - k))
  }

  function ShiftRight(a: Word, k: int, full: FullShift): (r: Word)
    ensures |r| == |a|
    ensures forall i :: 0 <= i < |a| ==> r[i] == if k == |a| && full.Ignored? then a[i] else BitOf(a, i + k)
  {
    if k == |a| && full.Ignored? then a else seq(|a|, i => BitOf(a, i + k))
  }

  /** A source word cut to w bits, or extended by zeros or by its sign. */
  function Resized(b: Word, signed: bool, w: nat): (r: Word)
    ensures |r| == w
    ensures forall i :: 0 <= i < w ==> r[i] == if i < |b| then b[i] else signed && BitOf(b, |b| - 1)
  {
    seq(w, i requires 0 <= i => if i < |b| then b[i] else signed && BitOf(b, |b| - 1))
  }

  function Eval(e: WordExpr, w: nat, a: Word, b: Word, signed: bool, full: FullShift): (r: Word)
    requires |a| == w
    ensures |r| == w
  {
    match e
    case Prefix(_) => a
    case Source => Resized(b, signed, w)
    case Zero => Zeros(w)
    case BNot(e1) => Not(Eval(e1, w, a, b, signed, full))
    case BAnd(l, r) => And(Eval(l, w, a, b, signed, full), Eval(r, w, a, b, signed, full))
    case BOr(l, r) => Or(Eval(l, w, a, b, signed, full), Eval(r, w, a, b, signed, full))
    case Sla(e1, k) => ShiftLeft(Eval(e1, w, a, b, signed, full), k, full)
    case Sra(e1, k) => ShiftRight(Eval(e1, w, a, b, signed, full), k, full)
    case Cast(e1) => Eval(e1, w, a, b, signed, full)
  }

  // ---------------------------------------------------------------- the pass

  function OutsideMask(w: nat, left: int, right: int): WordExpr {
    var ones := BNot(Zero);
    BOr(Sla(ones, left + 1), Sra(ones, w - right))
  }

  function MaskedSource(n: Name, w: nat, left: int, right: int, rhs: WordExpr): WordExpr {
    var mask := OutsideMask(w, left, right);
    BOr(BAnd(Prefix(n), mask), BAnd(Sla(Cast(rhs), right), BNot(mask)))
  }

  /** width is that of the prefix's integer type; None stands for any other type. */
  class AssignNode {
    const isInt: bool
    const width: nat
    var target: Target
    var rhs: WordExpr

    constructor (isInt: bool, width: nat, target: Target, rhs: WordExpr)
      ensures this.isInt == isInt && this.width == width && this.target == target && this.rhs == rhs
    {
      this.isInt := isInt;
      this.width := width;
      this.target := target;
      this.rhs := rhs;
    }

    method FixAssignToIntSlice() returns (changed: bool)
      modifies this
      ensures changed == (old(target).Slice? && isInt)
      ensures changed ==> target == WholeWord(old(target).n)
      ensures changed ==> rhs == MaskedSource(old(target).n, width, old(target).left, old(target).right, old(rhs))
      ensures !changed ==> target == old(target) && rhs == old(rhs)
    {
      if !target.Slice? {
        return false;
      }
      if !isInt {
        return false;
      }
      var ones := BNot(Zero);
      var leftBound, rightBound := target.left, target.right;
      var mask101 := BOr(Sla(ones, leftBound + 1), Sra(ones, width - rightBound));
      var mask010 := BNot(mask101);
      var prefix := target.n;
      target := WholeWord(prefix);
      var leftExpr := BAnd(Prefix(prefix), mask101);
      var rightExpr := BAnd(Sla(Cast(rhs), rightBound), mask010);
      rhs := BOr(leftExpr, rightExpr);
      return true;
    }
  }

  // ---------------------------------------------------------------- what is written

  /** The slice write itself: bit i of a is bit i - right of the source inside the slice. */
  function Written(a: Word, b: Word, left: int, right: int): (r: Word)
    ensures |r| == |a|
    ensures forall i :: 0 <= i < |a| ==> r[i] == if right <= i <= left then BitOf(b, i - right) else a[i]
  {
    seq(|a|, i requires 0 <= i < |a| => if right <= i <= left then BitOf(b, i - right) else a[i])
  }

  lemma OnesValue(w: nat, a: Word, b: Word, signed: bool, full: FullShift)
    requires |a| == w
    ensures forall i :: 0 <= i < w ==> Eval(BNot(Zero), w, a, b, signed, full)[i]
  {
    assert forall i :: 0 <= i < w ==> !Eval(Zero, w, a, b, signed, full)[i];
  }

  /** The open case of C++'s shifts: a bound of the slice is a bound of the word. */
  predicate TouchesEnd(w: nat, left: int, right: int) {
    right == 0 || left == w - 1
  }

  lemma MaskBit(w: nat, a: Word, b: Word, signed: bool, full: FullShift, left: int, right: int, i: int)
    requires |a| == w && 0 <= left < w && 0 <= right < w && 0 <= i < w
    ensures Eval(OutsideMask(w, left, right), w, a, b, signed, full)[i] <==>
            (i > left || i < right || (full.Ignored? && TouchesEnd(w, left, right)))
  {
    OnesValue(w, a, b, signed, full);
    var ones := Eval(BNot(Zero), w, a, b, signed, full);
    assert ShiftLeft(ones, left + 1, full)[i] <==> i > left || (full.Ignored? && left == w - 1);
    assert ShiftRight(ones, w - right, full)[i] <==> i < right || (full.Ignored? && right == 0);
  }

  lemma SourceBit(w: nat, a: Word, b: Word, signed: bool, full: FullShift, right: int, i: int)
    requires |a| == w && 0 <= right < w && 0 <= i < w
    ensures Eval(Sla(Cast(Source), right), w, a, b, signed, full)[i] == BitOf(Resized(b, signed, w), i - right)
  {
    assert Eval(Cast(Source), w, a, b, signed, full) == Resized(b, signed, w);
  }

  /**
   The whole of what the new assignment stores. A slice written from its high bound down is
   written as the original would, unless it touches an end of the word and a shift by the full
   width leaves the operand as it is; in that case, and for bounds in ascending order, a keeps
   its value.
   */
  lemma SliceWritten(n: Name, w: nat, a: Word, b: Word, signed: bool, full: FullShift, left: int, right: int)
    requires |a| == w && 0 <= left < w && 0 <= right < w
    ensures Eval(MaskedSource(n, w, left, right, Source), w, a, b, signed, full)
            == if right <= left && (full.Empties? || !TouchesEnd(w, left, right))
               then Written(a, Resized(b, signed, w), left, right) else a
  {
    var e := MaskedSource(n, w, left, right, Source);
    var r := Eval(e, w, a, b, signed, full);
    var whole := right <= left && (full.Empties? || !TouchesEnd(w, left, right));
    var t := if whole then Written(a, Resized(b, signed, w), left, right) else a;
    forall i | 0 <= i < w
      ensures r[i] == t[i]
    {
      var mask := OutsideMask(w, left, right);
      var source := Sla(Cast(Source), right);
      MaskBit(w, a, b, signed, full, left, right, i);
      SourceBit(w, a, b, signed, full, right, i);
      assert Eval(BAnd(Prefix(n), mask), w, a, b, signed, full)[i] == (a[i] && Eval(mask, w, a, b, signed, full)[i]);
      assert Eval(BAnd(source, BNot(mask)), w, a, b, signed, full)[i]
             == (Eval(source, w, a, b, signed, full)[i] && !Eval(mask, w, a, b, signed, full)[i]);
    }
  }

  /** A source as wide as the slice is written bit for bit; the rest of the word stays. */
  lemma SliceBits(n: Name, w: nat, a: Word, b: Word, signed: bool, left: int, right: int, i: int)
    requires |a| == w && 0 <= right <= left < w && |b| == left - right + 1 && 0 <= i < w
    ensures Eval(MaskedSource(n, w, left, right, Source), w, a, b, signed, Empties)[i]
            == if right <= i <= left then b[i - right] else a[i]
  {
    SliceWritten(n, w, a, b, signed, Empties, left, right);
  }
}
