/**
 Printing HIF expressions as C++: where the SystemC printer puts parentheses.

 Print is the text the printer writes, Intended the C++ tree it is meant to denote and ReadAs the
 one it does denote; PrintedText proves the latter and says exactly when the two are the same.
 */
module ExprPrinter {
  import Cpp = CppExpr
  import opened CppExpr

  datatype BinOp =
    | OrOp | AndOp | BorOp | BandOp | XorOp | BxorOp
    | EqOp | NeqOp | CaseEqOp | CaseNeqOp | LeOp | GeOp | LtOp | GtOp
    | SllOp | SrlOp | SlaOp | SraOp
    | PlusOp | MinusOp | MultOp | DivOp | ModOp | RemOp
    | ConcatOp | StringConcatOp

  datatype UnOp = NotOp | BnotOp | UPlusOp | UMinusOp | RefOp | DerefOp

  /** The type of a cast, by its text: pointers and references are cast to by reinterpretation. */
  datatype CastType = ObjectType(text: string) | PointerOrReference(text: string)

  datatype Hif =
    | Atom(name: string)
    | Un(uop: UnOp, e: Hif)
    | Bin(bop: BinOp, l: Hif, r: Hif)
    | When(alts: Alts)
    | CastTo(ty: CastType, e: Hif)
    | Member(prefix: Hif, index: Hif)
    | FunctionCall(name: string, args: HifArgs)

  /** The alternatives of a When and its default; there is at least one alternative. */
  datatype Alts = Last(cond: Hif, value: Hif, deflt: Hif) | Alt(cond: Hif, value: Hif, rest: Alts)

  datatype HifArgs = NoHifArgs | MoreHifArgs(first: Hif, rest: HifArgs)

  // ---------------------------------------------------------------- the precedence table

  type Precedence = nat

  const PREC_MIN: Precedence := 0
  const PREC_CONCAT: Precedence := 1
  const PREC_WHEN: Precedence := 3
  const PREC_OR: Precedence := 4
  const PREC_AND: Precedence := 5
  const PREC_BOR: Precedence := 6
  const PREC_BXOR: Precedence := 7
  const PREC_BAND: Precedence := 8
  const PREC_EQ_NEQ: Precedence := 9
  const PREC_GT_GE: Precedence := 10
  const PREC_LT_LE: Precedence := 11
  const PREC_SHIFTS: Precedence := 12
  const PREC_PLUS_MINUS: Precedence := 13
  const PREC_MULT_DIV_MOD: Precedence := 14
  const PREC_REF: Precedence := 15
  const PREC_DEREF: Precedence := 16
  const PREC_NOT_BNOT: Precedence := 18
  const PREC_UNARY_PLUS_MINUS: Precedence := 19
  const PREC_ACCESS: Precedence := 20
  const PREC_MEMBER: Precedence := 21
  const PREC_CALL: Precedence := 22
  const PREC_SCOPE: Precedence := 23

  function BinPrecedence(op: BinOp): Precedence {
    match op
    case OrOp => PREC_OR
    case AndOp => PREC_AND
    case BorOp => PREC_BOR
    case BandOp => PREC_BAND
    case XorOp => PREC_BXOR
    case BxorOp => PREC_BXOR
    case EqOp => PREC_EQ_NEQ
    case NeqOp => PREC_EQ_NEQ
    case CaseEqOp => PREC_EQ_NEQ
    case CaseNeqOp => PREC_EQ_NEQ
    case LeOp => PREC_LT_LE
    case GeOp => PREC_GT_GE
    case LtOp => PREC_LT_LE
    case GtOp => PREC_GT_GE
    case SllOp => PREC_SHIFTS
    case SrlOp => PREC_SHIFTS
    case SlaOp => PREC_SHIFTS
    case SraOp => PREC_SHIFTS
    case PlusOp => PREC_PLUS_MINUS
    case MinusOp => PREC_PLUS_MINUS
    case MultOp => PREC_MULT_DIV_MOD
    case DivOp => PREC_MULT_DIV_MOD
    case ModOp => PREC_MULT_DIV_MOD
    case RemOp => PREC_MULT_DIV_MOD
    case ConcatOp => PREC_CONCAT
    case StringConcatOp => PREC_PLUS_MINUS
  }

  function UnPrecedence(op: UnOp): Precedence {
    match op
    case NotOp => PREC_NOT_BNOT
    case BnotOp => PREC_NOT_BNOT
    case UPlusOp => PREC_UNARY_PLUS_MINUS
    case UMinusOp => PREC_UNARY_PLUS_MINUS
    case RefOp => PREC_REF
    case DerefOp => PREC_DEREF
  }

  /** Where a node stands under its parent. */
  datatype Place =
    | Top
    | Operand(op: BinOp, isValue2: bool)
    | UnaryOperand(uop: UnOp)
    | InWhen                       // a condition, a value or the default
    | OfMember(isPrefix: bool)
    | InCast
    | Argument

  function PrecedenceOf(v: Hif): Precedence {
    match v
    case Atom(_) => PREC_MIN
    case Un(op, _) => UnPrecedence(op)
    case Bin(op, _, _) => BinPrecedence(op)
    case When(_) => PREC_WHEN
    case CastTo(_, _) => PREC_MIN
    case Member(_, _) => PREC_MEMBER
    case FunctionCall(_, _) => PREC_CALL
  }

  function ParentPrecedence(at: Place): Precedence {
    match at
    case Top => PREC_MIN
    case Operand(op, _) => BinPrecedence(op)
    case UnaryOperand(op) => UnPrecedence(op)
    case InWhen => PREC_WHEN
    case OfMember(_) => PREC_MEMBER
    case InCast => PREC_MIN
    case Argument => PREC_MIN
  }

  predicate NeedWrapParen(v: Hif, at: Place) {
    var prec := PrecedenceOf(v);
    var parentPrec := ParentPrecedence(at);
    if prec == PREC_MIN then false
    else if prec == PREC_CONCAT && parentPrec != PREC_CONCAT then true
    else if parentPrec == PREC_MEMBER && at != OfMember(true) then false
    else if PREC_ACCESS <= prec <= PREC_SCOPE then false
    else if prec == parentPrec && at.Operand? && at.isValue2 then true
    else if prec == parentPrec && at.InWhen? && v.When? then true
    else prec < parentPrec
  }

  // ---------------------------------------------------------------- printing

  function BinSymbol(op: BinOp): Token {
    match op
    case OrOp => BarBar
    case AndOp => AmpAmp
    case BorOp => Bar
    case BandOp => Amp
    case XorOp => Caret
    case BxorOp => Caret
    case EqOp => EqEq
    case NeqOp => BangEq
    case CaseEqOp => EqEq
    case CaseNeqOp => BangEq
    case LeOp => LtEq
    case GeOp => GtEq
    case LtOp => Lt
    case GtOp => Gt
    case SllOp => LtLt
    case SrlOp => GtGt
    case SlaOp => LtLt
    case SraOp => GtGt
    case PlusOp => PlusT
    case MinusOp => MinusT
    case MultOp => Star
    case DivOp => Slash
    case ModOp => Percent
    case RemOp => Percent
    case ConcatOp => CommaT
    case StringConcatOp => PlusT
  }

  function UnSymbol(op: UnOp): Token {
    match op
    case NotOp => Bang
    case BnotOp => Tilde
    case UPlusOp => PlusT
    case UMinusOp => MinusT
    case RefOp => Amp
    case DerefOp => Star
  }

  function KindOf(ty: CastType): CastKind {
    if ty.PointerOrReference? then ReinterpretCast else StaticCast
  }

  function CastToken(ty: CastType): Token {
    Cpp.CastTo(KindOf(ty), ty.text)
  }

  function Print(v: Hif, at: Place): seq<Piece>
    decreases v, 1
  {
    if NeedWrapParen(v, at) then [Sym(LParen)] + PrintBare(v) + [Sym(RParen)] else PrintBare(v)
  }

  function PrintBare(v: Hif): seq<Piece>
    decreases v, 0
  {
    match v
    case Atom(n) => [Sym(Word(n))]
    case Un(op, e) => [Sym(UnSymbol(op))] + Print(e, UnaryOperand(op))
    case Bin(op, l, r) =>
      Print(l, Operand(op, false)) + [Space] + [Sym(BinSymbol(op))] + [Space] + Print(r, Operand(op, true))
    case When(alts) => PrintAlts(alts)
    case CastTo(ty, e) => [Sym(CastToken(ty)), Sym(LParen), Space] + Print(e, InCast) + [Space, Sym(RParen)]
    case Member(p, i) => Print(p, OfMember(true)) + [Sym(LBracket)] + Print(i, OfMember(false)) + [Sym(RBracket)]
    case FunctionCall(n, args) => [Sym(Word(n)), Sym(LParen)] + PrintArgs(args) + [Sym(RParen)]
  }

  function PrintAlts(alts: Alts): seq<Piece>
    decreases alts, 1
  {
    match alts
    case Last(_, _, d) => PrintAlt(alts) + Print(d, InWhen)
    case Alt(_, _, rest) => PrintAlt(alts) + PrintAlts(rest)
  }

  /** The first alternative, up to the colon. */
  function PrintAlt(alts: Alts): seq<Piece>
    decreases alts, 0
  {
    Print(alts.cond, InWhen) + [Space, Sym(Quest), Space] + Print(alts.value, InWhen) + [Space, Sym(Colon), Space]
  }

  function PrintArgs(args: HifArgs): seq<Piece> {
    match args
    case NoHifArgs => []
    case MoreHifArgs(e, rest) =>
      Print(e, Argument) + (if rest.NoHifArgs? then [] else [Sym(CommaT), Space] + PrintArgs(rest))
  }

  /** The printer: visits a tree and writes to its stream. */
  class Printer {
    var out: seq<Piece>

    constructor ()
      ensures out == []
    {
      out := [];
    }

    method Write(ps: seq<Piece>)
      modifies this
      ensures out == old(out) + ps
    {
      out := out + ps;
    }

    method Visit(v: Hif, at: Place)
      modifies this
      ensures out == old(out) + Print(v, at)
      decreases v, 2
    {
      var needWrapParen := NeedWrapParen(v, at);
      WriteIf(needWrapParen, LParen);
      VisitBare(v);
      WriteIf(needWrapParen, RParen);
      assert old(out) + [Sym(LParen)] + PrintBare(v) + [Sym(RParen)]
          == old(out) + ([Sym(LParen)] + PrintBare(v) + [Sym(RParen)]);
    }

    method WriteIf(needed: bool, t: Token)
      modifies this
      ensures out == if needed then old(out) + [Sym(t)] else old(out)
    {
      if needed {
        Write([Sym(t)]);
      }
    }

    method VisitBare(v: Hif)
      modifies this
      ensures out == old(out) + PrintBare(v)
      decreases v, 1
    {
      match v
      case Atom(n) => Write([Sym(Word(n))]);
      case Un(_, _) => VisitUnary(v);
      case Bin(_, _, _) => VisitBinary(v);
      case When(alts) => VisitAlts(alts);
      case CastTo(_, _) => VisitCast(v);
      case Member(_, _) => VisitMember(v);
      case FunctionCall(_, _) => VisitCall(v);
    }

    method VisitUnary(v: Hif)
      requires v.Un?
      modifies this
      ensures out == old(out) + PrintBare(v)
      decreases v, 0
    {
      ghost var o := out;
      var op := [Sym(UnSymbol(v.uop))];
      Write(op);
      Visit(v.e, UnaryOperand(v.uop));
      assert o + op + Print(v.e, UnaryOperand(v.uop)) == o + PrintBare(v);
    }

    method VisitBinary(v: Hif)
      requires v.Bin?
      modifies this
      ensures out == old(out) + PrintBare(v)
      decreases v, 0
    {
      ghost var o, l, r := out, Print(v.l, Operand(v.bop, false)), Print(v.r, Operand(v.bop, true));
      var op := [Sym(BinSymbol(v.bop))];
      Visit(v.l, Operand(v.bop, false));
      Write([Space]);
      Write(op);
      Write([Space]);
      Visit(v.r, Operand(v.bop, true));
      assert o + l + [Space] + op + [Space] + r == o + (l + [Space] + op + [Space] + r);
    }

    method VisitCast(v: Hif)
      requires v.CastTo?
      modifies this
      ensures out == old(out) + PrintBare(v)
      decreases v, 0
    {
      ghost var o, body := out, Print(v.e, InCast);
      var cast := CastToken(v.ty);
      var head, tail := [Sym(cast), Sym(LParen), Space], [Space, Sym(RParen)];
      Write(head);
      Visit(v.e, InCast);
      Write(tail);
      assert o + head + body + tail == o + (head + body + tail);
    }

    method VisitMember(v: Hif)
      requires v.Member?
      modifies this
      ensures out == old(out) + PrintBare(v)
      decreases v, 0
    {
      ghost var o, p, i := out, Print(v.prefix, OfMember(true)), Print(v.index, OfMember(false));
      Visit(v.prefix, OfMember(true));
      Write([Sym(LBracket)]);
      Visit(v.index, OfMember(false));
      Write([Sym(RBracket)]);
      assert o + p + [Sym(LBracket)] + i + [Sym(RBracket)] == o + (p + [Sym(LBracket)] + i + [Sym(RBracket)]);
    }

    method VisitCall(v: Hif)
      requires v.FunctionCall?
      modifies this
      ensures out == old(out) + PrintBare(v)
      decreases v, 0
    {
      ghost var o, args := out, PrintArgs(v.args);
      var head := [Sym(Word(v.name)), Sym(LParen)];
      Write(head);
      VisitArgs(v.args);
      Write([Sym(RParen)]);
      assert o + head + args + [Sym(RParen)] == o + (head + args + [Sym(RParen)]);
    }

    method VisitAlt(alts: Alts)
      modifies this
      ensures out == old(out) + PrintAlt(alts)
      decreases alts, 0
    {
      ghost var o, c, v := out, Print(alts.cond, InWhen), Print(alts.value, InWhen);
      var quest, colon := [Space, Sym(Quest), Space], [Space, Sym(Colon), Space];
      Visit(alts.cond, InWhen);
      Write(quest);
      Visit(alts.value, InWhen);
      Write(colon);
      assert o + c + quest + v + colon == o + (c + quest + v + colon);
    }

    method VisitAlts(alts: Alts)
      modifies this
      ensures out == old(out) + PrintAlts(alts)
      decreases alts, 1
    {
      ghost var o, alt := out, PrintAlt(alts);
      VisitAlt(alts);
      match alts
      case Last(_, _, d) =>
        Visit(d, InWhen);
        assert o + alt + Print(d, InWhen) == o + (alt + Print(d, InWhen));
      case Alt(_, _, rest) =>
        VisitAlts(rest);
        assert o + alt + PrintAlts(rest) == o + (alt + PrintAlts(rest));
    }

    method VisitArgs(args: HifArgs)
      modifies this
      ensures out == old(out) + PrintArgs(args)
      decreases args, 0
    {
      match args
      case NoHifArgs =>
      case MoreHifArgs(e, rest) =>
        ghost var o, first := out, Print(e, Argument);
        Visit(e, Argument);
        if rest.NoHifArgs? {
          assert first + [] == first;
        } else {
          var comma := [Sym(CommaT), Space];
          Write(comma);
          VisitArgs(rest);
          assert o + first + comma + PrintArgs(rest) == o + (first + (comma + PrintArgs(rest)));
        }
    }
  }

  // ---------------------------------------------------------------- meaning of the text

  /** The C++ operator that a HIF operator stands for. */
  function CppBinary(op: BinOp): BinaryOp {
    match op
    case OrOp => LogOr
    case AndOp => LogAnd
    case BorOp => BitOr
    case BandOp => BitAnd
    case XorOp => BitXor
    case BxorOp => BitXor
    case EqOp => Equal
    case NeqOp => NotEqual
    case CaseEqOp => Equal
    case CaseNeqOp => NotEqual
    case LeOp => LessEq
    case GeOp => GreaterEq
    case LtOp => Less
    case GtOp => Greater
    case SllOp => ShiftL
    case SrlOp => ShiftR
    case SlaOp => ShiftL
    case SraOp => ShiftR
    case PlusOp => Add
    case MinusOp => Sub
    case MultOp => Mul
    case DivOp => Div
    case ModOp => Mod
    case RemOp => Mod
    case ConcatOp => Comma
    case StringConcatOp => Add
  }

  function CppUnary(op: UnOp): UnaryOp {
    match op
    case NotOp => LogNot
    case BnotOp => Compl
    case UPlusOp => Pos
    case UMinusOp => Neg
    case RefOp => AddrOf
    case DerefOp => Indirect
  }

  /** The intended tree: the same shape, with a When's alternatives nested to the right. */
  function Intended(v: Hif): Expr
    decreases v
  {
    match v
    case Atom(n) => Name(n)
    case Un(op, e) => Unary(CppUnary(op), Intended(e))
    case Bin(op, l, r) => Binary(CppBinary(op), Intended(l), Intended(r))
    case When(alts) => IntendedAlts(alts)
    case CastTo(ty, e) =>
      (match ty
       case ObjectType(text) => NewCast(StaticCast, text, Intended(e))
       case PointerOrReference(text) => NewCast(ReinterpretCast, text, Intended(e)))
    case Member(p, i) => Subscript(Intended(p), Intended(i))
    case FunctionCall(n, args) => Call(Name(n), IntendedArgs(args))
  }

  function IntendedAlts(alts: Alts): Expr
    decreases alts
  {
    match alts
    case Last(c, v, d) => Conditional(Intended(c), Intended(v), Intended(d))
    case Alt(c, v, rest) => Conditional(Intended(c), Intended(v), IntendedAlts(rest))
  }

  function IntendedArgs(args: HifArgs): Args
    decreases args
  {
    match args
    case NoHifArgs => NoArgs
    case MoreHifArgs(e, rest) => MoreArgs(Intended(e), IntendedArgs(rest))
  }

  predicate IsLess(v: Hif) {
    v.Bin? && (v.bop.LtOp? || v.bop.LeOp?)
  }

  predicate IsGreaterOp(op: BinOp) {
    op.GtOp? || op.GeOp?
  }

  /** Two equal signs in a row, which join into ++ or --. */
  predicate SignPair(op: UnOp, e: Hif) {
    (op.UPlusOp? || op.UMinusOp?) && e.Un? && e.uop == op
  }

  function PairOperator(op: UnOp): UnaryOp {
    if op.UPlusOp? then PreInc else PreDec
  }

  /** The tree a C++ compiler reads. */
  function ReadAs(v: Hif): Expr
    decreases v, 0
  {
    match v
    case Atom(n) => Name(n)
    case Un(op, e) =>
      if SignPair(op, e) then Unary(PairOperator(op), ReadAs(e.e)) else Unary(CppUnary(op), ReadAs(e))
    case Bin(op, l, r) =>
      if IsGreaterOp(op) then Chained(op, ReadAs(l), r) else Binary(CppBinary(op), ReadAs(l), ReadAs(r))
    case When(alts) => ReadAlts(alts)
    case CastTo(ty, e) => NewCast(KindOf(ty), ty.text, ReadAs(e))
    case Member(p, i) => Subscript(ReadAs(p), ReadAs(i))
    case FunctionCall(n, args) => Call(Name(n), ReadArgs(args))
  }

  /** left op r, when a bare comparison r gives its own leftmost operand away. */
  function Chained(op: BinOp, left: Expr, r: Hif): Expr
    decreases r, 1
  {
    if IsLess(r) then Binary(CppBinary(r.bop), Chained(op, left, r.l), ReadAs(r.r))
    else Binary(CppBinary(op), left, ReadAs(r))
  }

  function ReadAlts(alts: Alts): Expr
    decreases alts, 0
  {
    match alts
    case Last(c, v, d) => Conditional(ReadAs(c), ReadAs(v), ReadAs(d))
    case Alt(c, v, rest) => Conditional(ReadAs(c), ReadAs(v), ReadAlts(rest))
  }

  function ReadArgs(args: HifArgs): Args
    decreases args, 0
  {
    match args
    case NoHifArgs => NoArgs
    case MoreHifArgs(e, rest) => MoreArgs(ReadAs(e), ReadArgs(rest))
  }

  /** Section 5.3.1: the operand of & is an lvalue, so it is not itself the address of something. */
  predicate AddressesLvalues(v: Hif) {
    match v
    case Atom(_) => true
    case Un(op, e) => AddressesLvalues(e) && !(op.RefOp? && e.Un? && e.uop.RefOp?)
    case Bin(_, l, r) => AddressesLvalues(l) && AddressesLvalues(r)
    case When(alts) => AddressesLvaluesAlts(alts)
    case CastTo(_, e) => AddressesLvalues(e)
    case Member(p, i) => AddressesLvalues(p) && AddressesLvalues(i)
    case FunctionCall(_, args) => AddressesLvaluesArgs(args)
  }

  predicate AddressesLvaluesAlts(alts: Alts) {
    AddressesLvalues(alts.cond) && AddressesLvalues(alts.value) &&
    match alts
    case Last(_, _, d) => AddressesLvalues(d)
    case Alt(_, _, rest) => AddressesLvaluesAlts(rest)
  }

  predicate AddressesLvaluesArgs(args: HifArgs) {
    args.MoreHifArgs? ==> AddressesLvalues(args.first) && AddressesLvaluesArgs(args.rest)
  }
}
