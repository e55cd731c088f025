/**
 Lowering a logic ternary: Verilog's conditional operator becomes a When with one alternative
 for a true condition, one for a false one, and a default for an unknown one.

 LoweredTernary shows the result is section 5.1.13 of IEEE 1364-2005, bit by bit; CombinedType,
 that the default keeps the type of the When.
 */
module Ternary {
  import opened Logic

  type Name = string

  datatype Value = Vec(bits: Bits) | RealNum(r: real)

  type Env = map<Name, Value>

  /** The bounds of a vector; Open when they have no known value. */
  datatype Span = Open | Bounds(left: int, right: int)

  /** What typing says of a value: a bit, a bit vector, or something else. */
  datatype Type = BitType | VectorType(span: Span, isSigned: bool) | OtherType

  datatype Expr =
    | Ref(n: Name)
    | Lit(v: Value, litType: Type)
    | Bnot(e: Expr)
    | Bxor(l: Expr, r: Expr)
    | Bor(l: Expr, r: Expr)
    | CaseEq(l: Expr, r: Expr)
    | Cast(castType: Type, e: Expr)

  const TRUE: Expr := Lit(Vec([L1]), BitType)
  const FALSE: Expr := Lit(Vec([L0]), BitType)

  datatype WhenAlt = WhenAlt(cond: Expr, value: Expr)

  /** The number of bits between the bounds, 0 when they are not known. */
  function BitWidth(span: Span): nat {
    match span
    case Open => 0
    case Bounds(l, r) => (if l >= r then l - r else r - l) + 1
  }

  function BitsOf(v: Value): Bits {
    match v
    case Vec(b) => b
    case RealNum(_) => []
  }

  function Map1(f: Logic -> Logic, a: Bits): (r: Bits)
    ensures |r| == |a| && forall i :: 0 <= i < |a| ==> r[i] == f(a[i])
  {
    seq(|a|, i requires 0 <= i < |a| => f(a[i]))
  }

  /** Operands of one width; a width mismatch does not type. */
  function Map2(f: (Logic, Logic) -> Logic, a: Bits, b: Bits): (r: Bits)
    ensures |a| == |b| ==> |r| == |a| && forall i :: 0 <= i < |a| ==> r[i] == f(a[i], b[i])
  {
    if |a| != |b| then [] else seq(|a|, i requires 0 <= i < |a| && |a| == |b| => f(a[i], b[i]))
  }

  function Eval(e: Expr, s: Env): Value {
    match e
    case Ref(n) => if n in s then s[n] else Vec([])
    case Lit(v, _) => v
    case Bnot(e1) => Vec(Map1(Not, BitsOf(Eval(e1, s))))
    case Bxor(l, r) => Vec(Map2(Xor, BitsOf(Eval(l, s)), BitsOf(Eval(r, s))))
    case Bor(l, r) => Vec(Map2(Or, BitsOf(Eval(l, s)), BitsOf(Eval(r, s))))
    case CaseEq(l, r) => Vec([if Eval(l, s) == Eval(r, s) then L1 else L0])
    case Cast(t, e1) => Converted(Eval(e1, s), t)
  }

  /** A conversion to a vector of known width drops the leftmost bits or fills in zeros. */
  function Converted(v: Value, t: Type): Value {
    if v.Vec? && t.VectorType? && t.span.Bounds? then Vec(Resized(v.bits, BitWidth(t.span))) else v
  }

  function Resized(b: Bits, width: nat): (r: Bits)
    ensures |r| == width
  {
    if |b| >= width then b[|b| - width..] else seq(width - |b|, i => L0) + b
  }

  /** typing gives the type of a name or an operation; a constant and a cast carry their own. */
  function TypeOf(e: Expr, typing: Expr -> Type): Type {
    match e
    case Lit(_, t) => t
    case Cast(t, _) => t
    case _ => typing(e)
  }

  /** A native When: the first alternative whose condition is true, else the default. */
  function EvalWhen(alts: seq<WhenAlt>, deflt: Expr, s: Env): Value {
    if |alts| == 0 then Eval(deflt, s)
    else if Eval(alts[0].cond, s) == Vec([L1]) then Eval(alts[0].value, s)
    else EvalWhen(alts[1..], deflt, s)
  }

  /** t is a bit, or a vector of w bits with any known bounds. */
  predicate HasWidth(t: Type, w: nat) {
    || (t.BitType? && w == 1)
    || (t.VectorType? && t.span.Bounds? && w > 0
        && (w == t.span.left - t.span.right + 1 || w == t.span.right - t.span.left + 1))
  }

  function Mask(t: Type): Expr
    requires !t.OtherType?
  {
    if t.BitType? then Lit(Vec([X]), t) else UnknownVector(t)
  }

  function Combined(a: Expr, b: Expr, t: Type): Expr
    requires !t.OtherType?
  {
    var e := Bxor(Bor(Bnot(Bxor(a, b)), Mask(t)), Bnot(a));
    if t.VectorType? then Cast(t, e) else e
  }

  function Unknowns(width: nat): (r: Bits)
    ensures |r| == width && forall i :: 0 <= i < width ==> r[i] == X
  {
    seq(width, i => X)
  }

  /** The constant of X bits, counted down to 0 where the width is known. */
  function UnknownVector(t: Type): (r: Expr)
    requires t.VectorType?
    ensures r.Lit? && r.v.Vec? && forall i :: 0 <= i < |r.v.bits| ==> r.v.bits[i] == X
    ensures r.litType.VectorType? && r.litType.isSigned == t.isSigned
    ensures t.span.Open? ==> |BitsOf(r.v)| == 1 && r.litType == t
    ensures t.span.Bounds? ==> r.litType.span.Bounds? && r.litType.span.right == 0 <= r.litType.span.left
    ensures t.span.Bounds? ==> HasWidth(t, |BitsOf(r.v)|) && HasWidth(r.litType, |BitsOf(r.v)|)
  {
    var width := BitWidth(t.span);
    Lit(Vec(Unknowns(if width == 0 then 1 else width)), if width == 0 then t else t.(span := Bounds(width - 1, 0)))
  }

  /** A When whose fields the refinement updates in place. */
  class When {
    var isLogicTernary: bool
    var alts: seq<WhenAlt>
    var deflt: Expr

    constructor (c: Expr, a: Expr, b: Expr)
      ensures isLogicTernary && alts == [WhenAlt(c, a)] && deflt == b
    {
      isLogicTernary, alts, deflt := true, [WhenAlt(c, a)], b;
    }

    /** Returns whether the When was rewritten; ok is false when its type stops the program. */
    method FixCombineTernary(t: Type, isReal: bool) returns (rewritten: bool, ok: bool)
      requires isLogicTernary ==> |alts| == 1
      modifies this
      ensures rewritten <==> old(isLogicTernary)
      ensures !rewritten ==> ok && alts == old(alts) && deflt == old(deflt) && !isLogicTernary
      ensures rewritten ==> !isLogicTernary && (ok <==> isReal || !t.OtherType?)
      ensures rewritten && ok ==>
        var c, a, b := old(alts)[0].cond, old(alts)[0].value, old(deflt);
        && alts == [WhenAlt(CaseEq(c, TRUE), a), WhenAlt(CaseEq(c, FALSE), b)]
        && deflt == if isReal then Lit(RealNum(0.0), OtherType) else Combined(a, b, t)
    {
      if !isLogicTernary {
        return false, true;
      }
      isLogicTernary := false;
      var whenThen := alts[0];
      var whenElse := WhenAlt(whenThen.cond, deflt);
      alts := alts + [whenElse];
      alts := alts[0 := WhenAlt(CaseEq(whenThen.cond, TRUE), whenThen.value)];
      alts := alts[1 := WhenAlt(CaseEq(whenElse.cond, FALSE), whenElse.value)];
      if isReal {
        deflt := Lit(RealNum(0.0), OtherType);
        return true, true;
      }
      var a, b := whenThen.value, whenElse.value;
      if t.OtherType? {
        return true, false;
      }
      var bvx := Lit(Vec([X]), t);
      if t.VectorType? {
        var size := BitWidth(t.span);
        var tmp := t;
        if size != 0 {
          tmp := tmp.(span := Bounds(size - 1, 0));
        }
        if size == 0 {
          size := 1;
        }
        bvx := Lit(Vec(Unknowns(size)), tmp);
      }
      var expr := Bxor(Bor(Bnot(Bxor(a, b)), bvx), Bnot(a));
      if t.VectorType? {
        expr := Cast(t, expr);
      }
      deflt := expr;
      return true, true;
    }
  }

  /** The merge of two bits under an unknown condition. */
  function Merge(a: Logic, b: Logic): Logic {
    if a == b && !Unknown(a) then a else X
  }

  /** Verilog's conditional operator on a one-bit condition. */
  function Conditional(c: Logic, a: Bits, b: Bits): Bits
    requires |a| == |b|
  {
    match c
    case L1 => a
    case L0 => b
    case _ => Map2(Merge, a, b)
  }

  lemma MergeBit(a: Logic, b: Logic)
    ensures Xor(Or(Not(Xor(a, b)), X), Not(a)) == Merge(a, b)
  {
  }

  /** The default's type is the When's, however the operations are typed; a bit needs no conversion. */
  lemma CombinedType(a: Expr, b: Expr, t: Type, typing: Expr -> Type)
    requires !t.OtherType?
    requires forall e :: t.BitType? && Bitwise(e) ==> typing(e) == BitType
    ensures TypeOf(Combined(a, b, t), typing) == t
    ensures Combined(a, b, t).Cast? <==> t.VectorType?
  {
    var e := Combined(a, b, t);
    assert t.BitType? ==> Bitwise(e);
  }

  predicate Bitwise(e: Expr) {
    e.Bnot? || e.Bxor? || e.Bor?
  }

  lemma MergedBits(a: Bits, b: Bits, x: Bits)
    requires |a| == |b| == |x| && forall i :: 0 <= i < |x| ==> x[i] == X
    ensures Map2(Xor, Map2(Or, Map1(Not, Map2(Xor, a, b)), x), Map1(Not, a)) == Map2(Merge, a, b)
  {
    var inner := Map2(Or, Map1(Not, Map2(Xor, a, b)), x);
    var r := Map2(Xor, inner, Map1(Not, a));
    assert |Map2(Xor, a, b)| == |a| && |inner| == |a|;
    forall i | 0 <= i < |a|
      ensures r[i] == Merge(a[i], b[i])
    {
      MergeBit(a[i], b[i]);
    }
    assert r == Map2(Merge, a, b);
  }

  lemma MaskBits(t: Type, w: nat)
    requires HasWidth(t, w)
    ensures var x := Mask(t);
            x.Lit? && x.v.Vec? && |x.v.bits| == w && forall i :: 0 <= i < w ==> x.v.bits[i] == X
  {
  }

  lemma CombinedBits(a: Expr, b: Expr, x: Expr, s: Env)
    requires Eval(a, s).Vec? && Eval(b, s).Vec? && x.Lit? && x.v.Vec?
    ensures var va, vb := Eval(a, s).bits, Eval(b, s).bits;
            Eval(Bxor(Bor(Bnot(Bxor(a, b)), x), Bnot(a)), s)
            == Vec(Map2(Xor, Map2(Or, Map1(Not, Map2(Xor, va, vb)), x.v.bits), Map1(Not, va)))
  {
    var inner := Bor(Bnot(Bxor(a, b)), x);
    assert Eval(Bnot(Bxor(a, b)), s) == Vec(Map1(Not, Map2(Xor, Eval(a, s).bits, Eval(b, s).bits)));
    assert Eval(x, s) == x.v;
    assert Eval(Bxor(inner, Bnot(a)), s) == Vec(Map2(Xor, BitsOf(Eval(inner, s)), BitsOf(Eval(Bnot(a), s))));
  }

  lemma MaskedValue(a: Expr, b: Expr, x: Expr, s: Env)
    requires Eval(a, s).Vec? && Eval(b, s).Vec? && x.Lit? && x.v.Vec?
    requires |Eval(a, s).bits| == |Eval(b, s).bits| == |x.v.bits|
    requires forall i :: 0 <= i < |x.v.bits| ==> x.v.bits[i] == X
    ensures Eval(Bxor(Bor(Bnot(Bxor(a, b)), x), Bnot(a)), s) == Vec(Map2(Merge, Eval(a, s).bits, Eval(b, s).bits))
  {
    CombinedBits(a, b, x, s);
    MergedBits(Eval(a, s).bits, Eval(b, s).bits, x.v.bits);
  }

  /** A conversion to a vector of the same width changes no bit. */
  lemma SameWidth(b: Bits, t: Type)
    requires HasWidth(t, |b|)
    ensures Converted(Vec(b), t) == Vec(b)
  {
  }

  lemma CastValue(e: Expr, t: Type, s: Env, b: Bits)
    requires Eval(e, s) == Vec(b) && HasWidth(t, |b|)
    ensures Eval(Cast(t, e), s) == Vec(b)
  {
    SameWidth(b, t);
  }

  lemma CombinedValue(a: Expr, b: Expr, t: Type, s: Env)
    requires Eval(a, s).Vec? && Eval(b, s).Vec?
    requires |Eval(a, s).bits| == |Eval(b, s).bits| && HasWidth(t, |Eval(a, s).bits|)
    ensures Eval(Combined(a, b, t), s) == Vec(Map2(Merge, Eval(a, s).bits, Eval(b, s).bits))
  {
    var va, vb := Eval(a, s).bits, Eval(b, s).bits;
    MaskBits(t, |va|);
    MaskedValue(a, b, Mask(t), s);
    CastValue(Bxor(Bor(Bnot(Bxor(a, b)), Mask(t)), Bnot(a)), t, s, Map2(Merge, va, vb));
  }

  /** The lowered When is the conditional operator, for every width, operand and condition. */
  lemma {:induction false} LoweredTernary(c: Expr, a: Expr, b: Expr, t: Type, s: Env, cv: Logic)
    requires Eval(c, s) == Vec([cv]) && Eval(a, s).Vec? && Eval(b, s).Vec?
    requires |Eval(a, s).bits| == |Eval(b, s).bits| && HasWidth(t, |Eval(a, s).bits|)
    ensures EvalWhen([WhenAlt(CaseEq(c, TRUE), a), WhenAlt(CaseEq(c, FALSE), b)], Combined(a, b, t), s)
            == Vec(Conditional(cv, Eval(a, s).bits, Eval(b, s).bits))
  {
    var a1, a0 := WhenAlt(CaseEq(c, TRUE), a), WhenAlt(CaseEq(c, FALSE), b);
    CombinedValue(a, b, t, s);
    assert [a1, a0][1..] == [a0] && [a0][1..] == [];
    assert Eval(a1.cond, s) == Vec([if cv.L1? then L1 else L0]) by { assert [cv][0] == cv; }
    assert Eval(a0.cond, s) == Vec([if cv.L0? then L1 else L0]) by { assert [cv][0] == cv; }
    assert EvalWhen([a0], Combined(a, b, t), s)
        == if cv.L0? then Eval(b, s) else EvalWhen([a0][1..], Combined(a, b, t), s);
  }
}
