/**
 What a C++ compiler reads in the text the expression printer writes.

 LexPrint cuts the text into tokens, the lemmas named after the grammar parse them, and
 ReadBack and RoundTrip are the main results.
 */
module PrintedText {
  import opened CppExpr
  import opened ExprPrinter

  // ---------------------------------------------------------------- the tokens of a printed tree

  function Tokens(v: Hif, at: Place): seq<Token>
    decreases v, 1
  {
    if NeedWrapParen(v, at) then [LParen] + (BareTokens(v) + [RParen]) else BareTokens(v)
  }

  function BareTokens(v: Hif): seq<Token>
    decreases v, 0
  {
    match v
    case Atom(n) => [Word(n)]
    case Un(op, e) =>
      if SignPair(op, e) then [Joined(UnSymbol(op))] + Tokens(e.e, UnaryOperand(op))
      else [UnSymbol(op)] + Tokens(e, UnaryOperand(op))
    case Bin(op, l, r) => Tokens(l, Operand(op, false)) + ([BinSymbol(op)] + Tokens(r, Operand(op, true)))
    case When(alts) => AltsTokens(alts)
    case CastTo(ty, e) => [CastToken(ty), LParen] + (Tokens(e, InCast) + [RParen])
    case Member(p, i) => Tokens(p, OfMember(true)) + ([LBracket] + (Tokens(i, OfMember(false)) + [RBracket]))
    case FunctionCall(n, args) => [Word(n), LParen] + (ArgsTokens(args) + [RParen])
  }

  function AltsTokens(alts: Alts): seq<Token>
    decreases alts, 0
  {
    var tail := match alts
                case Last(_, _, d) => Tokens(d, InWhen)
                case Alt(_, _, rest) => AltsTokens(rest);
    Tokens(alts.cond, InWhen) + ([Quest] + (Tokens(alts.value, InWhen) + ([Colon] + tail)))
  }

  function ArgsTokens(args: HifArgs): seq<Token>
    decreases args, 0
  {
    match args
    case NoHifArgs => []
    case MoreHifArgs(e, rest) =>
      Tokens(e, Argument) + (if rest.NoHifArgs? then [] else [CommaT] + ArgsTokens(rest))
  }

  // ---------------------------------------------------------------- regrouping

  lemma Group3<T>(a: seq<T>, b: seq<T>, c: seq<T>, r: seq<T>)
    ensures a + b + c + r == a + (b + (c + r))
    ensures a + (b + c) + r == a + (b + (c + r))
  {
  }

  lemma Group4<T>(a: seq<T>, b: seq<T>, c: seq<T>, d: seq<T>, r: seq<T>)
    ensures a + b + c + d + r == a + (b + (c + (d + r)))
    ensures a + (b + (c + d)) + r == a + (b + (c + (d + r)))
  {
  }

  lemma Group5<T>(a: seq<T>, b: seq<T>, c: seq<T>, d: seq<T>, e: seq<T>, r: seq<T>)
    ensures a + b + c + d + e + r == a + (b + (c + (d + (e + r))))
    ensures a + (b + (c + (d + e))) + r == a + (b + (c + (d + (e + r))))
  {
  }

  lemma Cut2<T>(x: T, y: T, r: seq<T>)
    ensures [x, y] + r == [x] + ([y] + r)
  {
  }

  lemma Cut3<T>(x: T, y: T, z: T, r: seq<T>)
    ensures [x, y, z] + r == [x] + ([y] + ([z] + r))
  {
  }

  // ---------------------------------------------------------------- cutting the text

  lemma LexSymbol(t: Token, rest: seq<Piece>)
    requires !Joins(t) || |rest| == 0 || rest[0] != Sym(t)
    ensures Lex([Sym(t)] + rest) == [t] + Lex(rest)
  {
    assert ([Sym(t)] + rest)[1..] == rest;
  }

  lemma LexSpace(rest: seq<Piece>)
    ensures Lex([Space] + rest) == Lex(rest)
  {
    assert ([Space] + rest)[1..] == rest;
  }

  lemma LexPair(t: Token, rest: seq<Piece>)
    requires Joins(t)
    ensures Lex([Sym(t)] + ([Sym(t)] + rest)) == [Joined(t)] + Lex(rest)
  {
    var ps := [Sym(t)] + ([Sym(t)] + rest);
    assert ps[1] == Sym(t) && ps[2..] == rest;
  }

  lemma LexSpaced(t: Token, rest: seq<Piece>)
    ensures Lex([Space] + ([Sym(t)] + ([Space] + rest))) == [t] + Lex(rest)
  {
    LexSpace([Sym(t)] + ([Space] + rest));
    LexSymbol(t, [Space] + rest);
    LexSpace(rest);
  }

  predicate StartsOperand(p: Piece) {
    p.Sym? && (p.t.Word? || p.t.CastTo? || p.t.LParen?)
  }

  /** How the operand of a unary operator, or the prefix of a member, begins. */
  lemma {:induction false} FirstPiece(v: Hif, at: Place)
    requires at.UnaryOperand? || at == OfMember(true)
    ensures |Print(v, at)| > 0
    ensures StartsOperand(Print(v, at)[0]) || (at.UnaryOperand? && v.Un? && Print(v, at)[0] == Sym(UnSymbol(v.uop)))
  {
    if v.Member? && !NeedWrapParen(v, at) {
      FirstPiece(v.prefix, OfMember(true));
    }
  }

  /** The printed text of a tree is cut into its tokens, whatever follows. */
  lemma {:induction false} LexPrint(v: Hif, at: Place, rest: seq<Piece>)
    requires AddressesLvalues(v)
    ensures Lex(Print(v, at) + rest) == Tokens(v, at) + Lex(rest)
    decreases v, 2
  {
    if NeedWrapParen(v, at) {
      var bare := PrintBare(v);
      Group3([Sym(LParen)], bare, [Sym(RParen)], rest);
      LexSymbol(LParen, bare + ([Sym(RParen)] + rest));
      LexBare(v, [Sym(RParen)] + rest);
      LexSymbol(RParen, rest);
      Group3([LParen], BareTokens(v), [RParen], Lex(rest));
    } else {
      LexBare(v, rest);
    }
  }

  lemma {:induction false} LexBare(v: Hif, rest: seq<Piece>)
    requires AddressesLvalues(v)
    ensures Lex(PrintBare(v) + rest) == BareTokens(v) + Lex(rest)
    decreases v, 1
  {
    match v
    case Atom(n) => LexSymbol(Word(n), rest);
    case Un(_, _) => LexUnary(v, rest);
    case Bin(_, _, _) => LexBinary(v, rest);
    case When(alts) => LexAlts(alts, rest);
    case CastTo(_, _) => LexCast(v, rest);
    case Member(_, _) => LexMember(v, rest);
    case FunctionCall(_, _) => LexCall(v, rest);
  }

  lemma {:induction false} LexUnary(v: Hif, rest: seq<Piece>)
    requires v.Un? && AddressesLvalues(v)
    ensures Lex(PrintBare(v) + rest) == BareTokens(v) + Lex(rest)
    decreases v, 0
  {
    var op, e := v.uop, v.e;
    var at := UnaryOperand(op);
    if SignPair(op, e) {
      LexSignPair(v, rest);
    } else {
      var p := Print(e, at);
      assert PrintBare(v) + rest == [Sym(UnSymbol(op))] + (p + rest);
      FirstPiece(e, at);
      assert (p + rest)[0] == p[0];
      LexSymbol(UnSymbol(op), p + rest);
      LexPrint(e, at, rest);
      assert BareTokens(v) + Lex(rest) == [UnSymbol(op)] + (Tokens(e, at) + Lex(rest));
    }
  }

  /** A sign applied to the same sign is cut as one token. */
  lemma {:induction false} LexSignPair(v: Hif, rest: seq<Piece>)
    requires v.Un? && SignPair(v.uop, v.e) && AddressesLvalues(v)
    ensures Lex(PrintBare(v) + rest) == BareTokens(v) + Lex(rest)
    decreases v, 0, 0
  {
    var op, e := v.uop, v.e;
    var at := UnaryOperand(op);
    var s := Sym(UnSymbol(op));
    var q := Print(e.e, at);
    assert !NeedWrapParen(e, at);
    assert Print(e, at) == PrintBare(e) == [s] + q;
    assert PrintBare(v) + rest == [s] + ([s] + (q + rest));
    LexPair(UnSymbol(op), q + rest);
    LexPrint(e.e, at, rest);
    assert BareTokens(v) + Lex(rest) == [Joined(UnSymbol(op))] + (Tokens(e.e, at) + Lex(rest));
  }

  lemma {:induction false} LexBinary(v: Hif, rest: seq<Piece>)
    requires v.Bin? && AddressesLvalues(v)
    ensures Lex(PrintBare(v) + rest) == BareTokens(v) + Lex(rest)
    decreases v, 0
  {
    var op := v.bop;
    var atl, atr := Operand(op, false), Operand(op, true);
    var pl, pr := Print(v.l, atl), Print(v.r, atr);
    Group5(pl, [Space], [Sym(BinSymbol(op))], [Space], pr, rest);
    LexPrint(v.l, atl, [Space] + ([Sym(BinSymbol(op))] + ([Space] + (pr + rest))));
    LexSpaced(BinSymbol(op), pr + rest);
    LexPrint(v.r, atr, rest);
    Group3(Tokens(v.l, atl), [BinSymbol(op)], Tokens(v.r, atr), Lex(rest));
  }

  lemma {:induction false} LexCast(v: Hif, rest: seq<Piece>)
    requires v.CastTo? && AddressesLvalues(v)
    ensures Lex(PrintBare(v) + rest) == BareTokens(v) + Lex(rest)
    decreases v, 0
  {
    var p := Print(v.e, InCast);
    var tail := [Space] + ([Sym(RParen)] + rest);
    Group3([Sym(CastToken(v.ty)), Sym(LParen), Space], p, [Space, Sym(RParen)], rest);
    Cut2(Space, Sym(RParen), rest);
    Cut3(Sym(CastToken(v.ty)), Sym(LParen), Space, p + tail);
    LexSymbol(CastToken(v.ty), [Sym(LParen)] + ([Space] + (p + tail)));
    LexSymbol(LParen, [Space] + (p + tail));
    LexSpace(p + tail);
    LexPrint(v.e, InCast, tail);
    LexSpace([Sym(RParen)] + rest);
    LexSymbol(RParen, rest);
    Group3([CastToken(v.ty), LParen], Tokens(v.e, InCast), [RParen], Lex(rest));
    Cut2(CastToken(v.ty), LParen, Tokens(v.e, InCast) + ([RParen] + Lex(rest)));
  }

  lemma {:induction false} LexMember(v: Hif, rest: seq<Piece>)
    requires v.Member? && AddressesLvalues(v)
    ensures Lex(PrintBare(v) + rest) == BareTokens(v) + Lex(rest)
    decreases v, 0
  {
    var p, i := Print(v.prefix, OfMember(true)), Print(v.index, OfMember(false));
    var tail := [Sym(RBracket)] + rest;
    Group4(p, [Sym(LBracket)], i, [Sym(RBracket)], rest);
    LexPrint(v.prefix, OfMember(true), [Sym(LBracket)] + (i + tail));
    LexSymbol(LBracket, i + tail);
    LexPrint(v.index, OfMember(false), tail);
    LexSymbol(RBracket, rest);
    Group4(Tokens(v.prefix, OfMember(true)), [LBracket], Tokens(v.index, OfMember(false)), [RBracket], Lex(rest));
  }

  lemma {:induction false} LexCall(v: Hif, rest: seq<Piece>)
    requires v.FunctionCall? && AddressesLvalues(v)
    ensures Lex(PrintBare(v) + rest) == BareTokens(v) + Lex(rest)
    decreases v, 0
  {
    var args := PrintArgs(v.args);
    var tail := [Sym(RParen)] + rest;
    Group3([Sym(Word(v.name)), Sym(LParen)], args, [Sym(RParen)], rest);
    Cut2(Sym(Word(v.name)), Sym(LParen), args + tail);
    LexSymbol(Word(v.name), [Sym(LParen)] + (args + tail));
    LexSymbol(LParen, args + tail);
    LexArgs(v.args, tail);
    LexSymbol(RParen, rest);
    Group3([Word(v.name), LParen], ArgsTokens(v.args), [RParen], Lex(rest));
    Cut2(Word(v.name), LParen, ArgsTokens(v.args) + ([RParen] + Lex(rest)));
  }

  lemma {:induction false} LexArgs(args: HifArgs, rest: seq<Piece>)
    requires AddressesLvaluesArgs(args)
    ensures Lex(PrintArgs(args) + rest) == ArgsTokens(args) + Lex(rest)
    decreases args, 0
  {
    match args
    case NoHifArgs => assert [] + rest == rest;
    case MoreHifArgs(e, more) =>
      var p := Print(e, Argument);
      if more.NoHifArgs? {
        assert PrintArgs(args) + rest == p + rest;
        LexPrint(e, Argument, rest);
      } else {
        var tail := PrintArgs(more) + rest;
        Group3(p, [Sym(CommaT), Space], PrintArgs(more), rest);
        Cut2(Sym(CommaT), Space, tail);
        LexPrint(e, Argument, [Sym(CommaT)] + ([Space] + tail));
        LexSymbol(CommaT, [Space] + tail);
        LexSpace(tail);
        LexArgs(more, rest);
        Group3(Tokens(e, Argument), [CommaT], ArgsTokens(more), Lex(rest));
      }
  }

  lemma {:induction false} LexAlts(alts: Alts, rest: seq<Piece>)
    requires AddressesLvaluesAlts(alts)
    ensures Lex(PrintAlts(alts) + rest) == AltsTokens(alts) + Lex(rest)
    decreases alts, 1
  {
    match alts {
      case Last(_, _, d) =>
        LexPrint(d, InWhen, rest);
        LexAlt(alts, Print(d, InWhen), Tokens(d, InWhen), rest);
      case Alt(_, _, more) =>
        LexAlts(more, rest);
        LexAlt(alts, PrintAlts(more), AltsTokens(more), rest);
    }
  }

  /** One alternative in front of a tail that is already cut. */
  lemma {:induction false} LexAlt(alts: Alts, pt: seq<Piece>, tt: seq<Token>, rest: seq<Piece>)
    requires AddressesLvaluesAlts(alts) && Lex(pt + rest) == tt + Lex(rest)
    ensures Lex(PrintAlt(alts) + pt + rest)
         == Tokens(alts.cond, InWhen) + ([Quest] + (Tokens(alts.value, InWhen) + ([Colon] + tt))) + Lex(rest)
    decreases alts, 0
  {
    var pc, pv := Print(alts.cond, InWhen), Print(alts.value, InWhen);
    var t2 := [Space] + ([Sym(Colon)] + ([Space] + (pt + rest)));
    var t1 := [Space] + ([Sym(Quest)] + ([Space] + (pv + t2)));
    Group5(pc, [Space, Sym(Quest), Space], pv, [Space, Sym(Colon), Space], pt, rest);
    Cut3(Space, Sym(Colon), Space, pt + rest);
    Cut3(Space, Sym(Quest), Space, pv + t2);
    LexPrint(alts.cond, InWhen, t1);
    LexSpaced(Quest, pv + t2);
    LexPrint(alts.value, InWhen, t2);
    LexSpaced(Colon, pt + rest);
    Group5(Tokens(alts.cond, InWhen), [Quest], Tokens(alts.value, InWhen), [Colon], tt, Lex(rest));
  }

  // ---------------------------------------------------------------- how strongly printed text binds

  const POSTFIX := 12

  function BareStrength(v: Hif): int {
    match v
    case Un(_, _) => UNARY
    case Bin(op, _, _) => if op.ConcatOp? then -1 else LevelOf(CppBinary(op))
    case When(_) => 0
    case _ => POSTFIX
  }

  function Strength(v: Hif, at: Place): int {
    if NeedWrapParen(v, at) then POSTFIX else BareStrength(v)
  }

  /** The level C++ gives an operator, from its precedence in the table. */
  lemma LevelFromTable(op: BinOp)
    requires !op.ConcatOp?
    ensures LevelOf(CppBinary(op)) == BinPrecedence(op) - (if BinPrecedence(op) <= PREC_GT_GE then 3 else 4)
    ensures IsGreaterOp(op) <==> BinPrecedence(op) == PREC_GT_GE
    ensures op.LtOp? || op.LeOp? <==> BinPrecedence(op) == PREC_LT_LE
    ensures PREC_OR <= BinPrecedence(op) <= PREC_MULT_DIV_MOD
  {
  }

  /** The table orders operators as C++ does, except that it puts < and <= above > and >=. */
  lemma OperandStrength(v: Hif, op: BinOp)
    requires !op.ConcatOp?
    ensures Strength(v, Operand(op, false)) >= LevelOf(CppBinary(op))
    ensures Strength(v, Operand(op, true)) >=
            LevelOf(CppBinary(op)) + (if IsGreaterOp(op) && IsLess(v) then 0 else 1)
    ensures IsLess(v) && IsGreaterOp(op) ==> !NeedWrapParen(v, Operand(op, true))
    ensures !IsLess(v) && (op.LtOp? || op.LeOp?) ==> Strength(v, Operand(op, false)) >= LevelOf(CppBinary(op)) + 1
    ensures IsLess(v) && (op.LtOp? || op.LeOp?) ==> !NeedWrapParen(v, Operand(op, false))
  {
    LevelFromTable(op);
    if v.Bin? && !v.bop.ConcatOp? {
      LevelFromTable(v.bop);
    }
  }

  /** How strongly an expression must bind at a place to be read there as one operand. */
  function Needed(at: Place): int {
    match at
    case Operand(op, isValue2) =>
      (if op.ConcatOp? then -1 else LevelOf(CppBinary(op))) + (if isValue2 then 1 else 0)
    case UnaryOperand(_) => UNARY
    case InWhen => 1
    case OfMember(isPrefix) => if isPrefix then POSTFIX else -1
    case Argument => 0
    case _ => -1
  }

  /** The table's order of unary operators, which C++ does not ask for. */
  function UnaryRank(op: UnOp): int {
    match op
    case RefOp => 0
    case DerefOp => 1
    case NotOp => 2
    case BnotOp => 2
    case UPlusOp => 3
    case UMinusOp => 3
  }

  /** Parentheses that C++ does not need. */
  predicate Spare(v: Hif, at: Place) {
    match v
    case Bin(op, _, _) =>
      || (op.ConcatOp? && (at.Top? || at.InCast? || at == OfMember(false)))
      || (IsGreaterOp(op) && at.Operand? && !at.isValue2 && (at.op.LtOp? || at.op.LeOp?))
    case Un(op, _) => at.UnaryOperand? && UnaryRank(op) < UnaryRank(at.uop)
    case _ => false
  }

  /**
   Parentheses stand exactly where an operand binds too weakly for its place, but for a less-than
   right of a greater-than, and in the few places where C++ does not need them.
   */
  lemma ParenthesesIff(v: Hif, at: Place)
    ensures NeedWrapParen(v, at) <==>
            || (BareStrength(v) < Needed(at)
                && !(IsLess(v) && at.Operand? && IsGreaterOp(at.op) && at.isValue2))
            || Spare(v, at)
  {
    if v.Bin? && !v.bop.ConcatOp? {
      LevelFromTable(v.bop);
    }
    if at.Operand? && !at.op.ConcatOp? {
      LevelFromTable(at.op);
    }
  }

  lemma PlaceStrength(v: Hif, at: Place)
    ensures at.UnaryOperand? ==> Strength(v, at) >= UNARY
    ensures at == OfMember(true) ==> Strength(v, at) == POSTFIX
    ensures at == Operand(ConcatOp, true) || at == OfMember(false) || at.InCast? || at.Argument? || at.Top? ==>
            Strength(v, at) >= 0
    ensures at.InWhen? ==> Strength(v, at) >= 1
  {
  }

  // ---------------------------------------------------------------- parsing, one level at a time

  lemma Opened(t: Token, ts: seq<Token>)
    ensures ([t] + ts)[0] == t && ([t] + ts)[1..] == ts
    ensures Starts([t] + ts, t)
  {
  }

  /** Nothing at the head of rest continues an expression above the given level. */
  predicate Quiet(rest: seq<Token>, level: nat) {
    |rest| > 0 ==>
      && rest[0] != LBracket && rest[0] != LParen
      && (BinaryOf(rest[0]).IsBinary? ==> LevelOf(BinaryOf(rest[0]).op) <= level)
  }

  /** What parsing at a level goes on to do once it has read e. */
  function LoopAt(level: nat, e: Expr, rest: seq<Token>): Parse<Expr>
    requires 1 <= level <= UNARY
  {
    if level == UNARY then Ok(e, rest) else BinaryLoop(level, e, rest)
  }

  /** Reading e at a level is reading it at every lower one. */
  lemma {:induction false} Lift(ts: seq<Token>, e: Expr, rest: seq<Token>, from: nat, level: nat)
    requires 1 <= level <= from <= UNARY && Quiet(rest, level)
    requires ParseBinary(from, ts) == LoopAt(from, e, rest)
    ensures ParseBinary(level, ts) == LoopAt(level, e, rest)
    decreases from
  {
    if level < from {
      QuietLoop(from, e, rest);
      LiftOne(ts, e, rest, from);
      Lift(ts, e, rest, from - 1, level);
    }
  }

  lemma LiftOne(ts: seq<Token>, e: Expr, rest: seq<Token>, from: nat)
    requires 2 <= from <= UNARY && ParseBinary(from, ts) == Ok(e, rest)
    ensures ParseBinary(from - 1, ts) == BinaryLoop(from - 1, e, rest)
  {
  }

  predicate StartsPrimary(ts: seq<Token>) {
    |ts| > 0 && (ts[0].Word? || ts[0].CastTo? || ts[0].LParen?)
  }

  lemma {:induction false} FirstToken(v: Hif, at: Place)
    ensures |Tokens(v, at)| > 0
    ensures Tokens(v, at)[0] != RParen
    ensures Strength(v, at) == POSTFIX ==> StartsPrimary(Tokens(v, at))
    decreases v, 1
  {
    if !NeedWrapParen(v, at) {
      FirstBareToken(v);
    }
  }

  lemma {:induction false} FirstBareToken(v: Hif)
    ensures |BareTokens(v)| > 0
    ensures BareTokens(v)[0] != RParen
    ensures BareStrength(v) == POSTFIX ==> StartsPrimary(BareTokens(v))
    decreases v, 0
  {
    match v
    case Atom(_) =>
    case Un(_, _) =>
    case Bin(op, l, _) => FirstToken(l, Operand(op, false));
    case When(alts) => FirstToken(alts.cond, InWhen);
    case CastTo(_, _) =>
    case Member(p, _) =>
      FirstToken(p, OfMember(true));
      PlaceStrength(p, OfMember(true));
    case FunctionCall(_, _) =>
  }

  lemma PostfixIsUnary(ts: seq<Token>, e: Expr, rest: seq<Token>)
    requires StartsPrimary(ts) && ParsePostfix(ts) == PostfixLoop(e, rest)
    requires Quiet(rest, UNARY)
    ensures ParseUnary(ts) == Ok(e, rest)
  {
  }

  lemma SymbolSpells(op: BinOp)
    requires !op.ConcatOp?
    ensures BinaryOf(BinSymbol(op)) == IsBinary(CppBinary(op))
    ensures BinSymbol(op) != LBracket && BinSymbol(op) != LParen
    ensures 1 <= LevelOf(CppBinary(op)) <= MULTIPLICATIVE
  {
  }

  /** One step of the loop: an operator and a right operand that binds more tightly. */
  lemma LoopStep(level: nat, lhs: Expr, t: Token, ts: seq<Token>, r: Expr, rest: seq<Token>)
    requires 1 <= level < UNARY && IsBinaryAt(t, level) && ParseBinary(level + 1, ts) == Ok(r, rest)
    ensures BinaryLoop(level, lhs, [t] + ts) == BinaryLoop(level, Binary(BinaryOf(t).op, lhs, r), rest)
  {
    Opened(t, ts);
  }

  lemma OperatorIsQuiet(op: BinOp, ts: seq<Token>)
    requires !op.ConcatOp?
    ensures Quiet([BinSymbol(op)] + ts, LevelOf(CppBinary(op)))
    ensures 1 <= LevelOf(CppBinary(op)) <= MULTIPLICATIVE
  {
    SymbolSpells(op);
  }

  /** Text that binds more tightly than a level is read whole when nothing continues it. */
  lemma QuietLoop(level: nat, e: Expr, rest: seq<Token>)
    requires 1 <= level <= UNARY && Quiet(rest, level - 1)
    ensures LoopAt(level, e, rest) == Ok(e, rest)
  {
  }

  lemma CommaQuiet(t: Token, ts: seq<Token>)
    requires t.CommaT? || t.Quest? || t.Colon? || t.RParen? || t.RBracket?
    ensures Quiet([t] + ts, 0) && ([t] + ts)[1..] == ts
  {
  }

  lemma ParsePrefix(t: Token, ts: seq<Token>, e: Expr, rest: seq<Token>)
    requires UnaryOf(t).IsUnary? && ParseUnary(ts) == Ok(e, rest)
    ensures ParseUnary([t] + ts) == Ok(Unary(UnaryOf(t).op, e), rest)
  {
    assert ([t] + ts)[1..] == ts;
  }

  lemma ConditionalIsComma(ts: seq<Token>, e: Expr, rest: seq<Token>)
    requires ParseConditional(ts) == Ok(e, rest)
    ensures ParseComma(ts) == CommaLoop(e, rest)
  {
  }

  lemma CommaStep(lhs: Expr, ts: seq<Token>, r: Expr, rest: seq<Token>)
    requires ParseConditional(ts) == Ok(r, rest)
    ensures CommaLoop(lhs, [CommaT] + ts) == CommaLoop(Binary(Comma, lhs, r), rest)
  {
    assert ([CommaT] + ts)[1..] == ts;
  }

  lemma ParseWord(n: string, rest: seq<Token>)
    ensures ParsePostfix([Word(n)] + rest) == PostfixLoop(Name(n), rest)
  {
    assert ([Word(n)] + rest)[1..] == rest;
    assert ParsePrimary([Word(n)] + rest) == Ok(Name(n), rest);
  }

  lemma ParseEmptyCall(f: Expr, rest: seq<Token>)
    ensures PostfixLoop(f, [LParen] + ([RParen] + rest)) == PostfixLoop(Call(f, NoArgs), rest)
  {
    var ts := [LParen] + ([RParen] + rest);
    assert ts[1..] == [RParen] + rest && ts[2..] == rest;
  }

  lemma ParseCall(f: Expr, ts: seq<Token>, args: Args, rest: seq<Token>)
    requires ParseArgs(ts) == Ok(args, [RParen] + rest) && !Starts(ts, RParen)
    ensures PostfixLoop(f, [LParen] + ts) == PostfixLoop(Call(f, args), rest)
  {
    Opened(LParen, ts);
    Opened(RParen, rest);
  }

  lemma ParseIndex(p: Expr, ts: seq<Token>, i: Expr, rest: seq<Token>)
    requires ParseComma(ts) == Ok(i, [RBracket] + rest)
    ensures PostfixLoop(p, [LBracket] + ts) == PostfixLoop(Subscript(p, i), rest)
  {
    Opened(LBracket, ts);
    Opened(RBracket, rest);
  }

  lemma ParseParens(ts: seq<Token>, e: Expr, rest: seq<Token>)
    requires ParseComma(ts) == Ok(e, [RParen] + rest)
    ensures ParsePostfix([LParen] + ts) == PostfixLoop(e, rest)
  {
    Opened(LParen, ts);
    Opened(RParen, rest);
  }

  lemma ParseCast(ty: CastType, ts: seq<Token>, e: Expr, rest: seq<Token>)
    requires ParseComma(ts) == Ok(e, [RParen] + rest)
    ensures ParsePostfix([CastToken(ty)] + ([LParen] + ts)) == PostfixLoop(NewCast(KindOf(ty), ty.text, e), rest)
  {
    Opened(CastToken(ty), [LParen] + ts);
    Opened(LParen, ts);
    Opened(RParen, rest);
    assert ([CastToken(ty)] + ([LParen] + ts))[2..] == ts;
    assert ParsePrimary([CastToken(ty)] + ([LParen] + ts)) == Ok(NewCast(KindOf(ty), ty.text, e), rest);
  }

  /** Nothing that closes or separates an expression continues one. */
  lemma CommaEnds(e: Expr, t: Token, ts: seq<Token>)
    requires t.Colon? || t.RParen? || t.RBracket?
    ensures CommaLoop(e, [t] + ts) == Ok(e, [t] + ts)
    ensures Quiet([t] + ts, 0) && !Starts([t] + ts, Quest)
  {
  }

  // Each lemma below reads a printed tree at one level of the grammar. Those named Bare are for
  // the text without surrounding parentheses; the others take the parentheses into account.

  lemma {:induction false} ReadPostfix(v: Hif, at: Place, rest: seq<Token>)
    requires Strength(v, at) == POSTFIX
    ensures ParsePostfix(Tokens(v, at) + rest) == PostfixLoop(ReadAs(v), rest)
    ensures StartsPrimary(Tokens(v, at) + rest)
    decreases v, 6, 0
  {
    FirstToken(v, at);
    if NeedWrapParen(v, at) {
      Group3([LParen], BareTokens(v), [RParen], rest);
      BareClosed(v, RParen, rest);
      ParseParens(BareTokens(v) + ([RParen] + rest), ReadAs(v), rest);
    } else {
      BarePostfix(v, rest);
    }
  }

  lemma {:induction false} ReadUnary(v: Hif, at: Place, rest: seq<Token>)
    requires Strength(v, at) >= UNARY && Quiet(rest, UNARY)
    ensures ParseUnary(Tokens(v, at) + rest) == Ok(ReadAs(v), rest)
    decreases v, 7, 0
  {
    if Strength(v, at) == POSTFIX {
      ReadPostfix(v, at, rest);
      PostfixIsUnary(Tokens(v, at) + rest, ReadAs(v), rest);
    } else {
      BareUnary(v, rest);
    }
  }

  lemma {:induction false} ReadBinary(v: Hif, at: Place, level: nat, rest: seq<Token>)
    requires 1 <= level <= UNARY && Strength(v, at) >= level && Quiet(rest, level)
    ensures ParseBinary(level, Tokens(v, at) + rest) == LoopAt(level, ReadAs(v), rest)
    decreases v, 8, 0
  {
    if Strength(v, at) >= UNARY {
      ReadUnary(v, at, rest);
      Lift(Tokens(v, at) + rest, ReadAs(v), rest, UNARY, level);
    } else {
      BareBinary(v, level, rest);
    }
  }

  /** A right operand, read whole. */
  lemma {:induction false} ReadWhole(v: Hif, at: Place, level: nat, rest: seq<Token>)
    requires 1 <= level <= UNARY && Strength(v, at) >= level && Quiet(rest, level - 1)
    ensures ParseBinary(level, Tokens(v, at) + rest) == Ok(ReadAs(v), rest)
    decreases v, 9, 0
  {
    ReadBinary(v, at, level, rest);
    QuietLoop(level, ReadAs(v), rest);
  }

  lemma {:induction false} ReadConditional(v: Hif, at: Place, rest: seq<Token>)
    requires Strength(v, at) >= 0 && Quiet(rest, 0) && !Starts(rest, Quest)
    ensures ParseConditional(Tokens(v, at) + rest) == Ok(ReadAs(v), rest)
    decreases v, 10, 0
  {
    if Strength(v, at) >= 1 {
      ReadWhole(v, at, 1, rest);
    } else {
      BareConditional(v, rest);
    }
  }

  lemma {:induction false} ReadComma(v: Hif, at: Place, rest: seq<Token>)
    requires Quiet(rest, 0) && !Starts(rest, Quest)
    ensures ParseComma(Tokens(v, at) + rest) == CommaLoop(ReadAs(v), rest)
    decreases v, 11, 0
  {
    if Strength(v, at) >= 0 {
      ReadConditional(v, at, rest);
      ConditionalIsComma(Tokens(v, at) + rest, ReadAs(v), rest);
    } else {
      BareComma(v, rest);
    }
  }

  /** An expression between brackets, read up to the closing one. */
  lemma {:induction false} ReadClosed(v: Hif, at: Place, t: Token, rest: seq<Token>)
    requires t.Colon? || t.RParen? || t.RBracket?
    ensures ParseComma(Tokens(v, at) + ([t] + rest)) == Ok(ReadAs(v), [t] + rest)
    decreases v, 12, 0
  {
    CommaEnds(ReadAs(v), t, rest);
    ReadComma(v, at, [t] + rest);
  }

  lemma {:induction false} BareClosed(v: Hif, t: Token, rest: seq<Token>)
    requires t.Colon? || t.RParen? || t.RBracket?
    ensures ParseComma(BareTokens(v) + ([t] + rest)) == Ok(ReadAs(v), [t] + rest)
    decreases v, 5, 5
  {
    CommaEnds(ReadAs(v), t, rest);
    BareComma(v, [t] + rest);
  }

  lemma {:induction false} BarePostfix(v: Hif, rest: seq<Token>)
    requires BareStrength(v) == POSTFIX
    ensures ParsePostfix(BareTokens(v) + rest) == PostfixLoop(ReadAs(v), rest)
    decreases v, 1, 0
  {
    match v
    case Atom(n) => assert ([Word(n)] + rest)[1..] == rest;
    case CastTo(_, _) => BareCast(v, rest);
    case Member(_, _) => BareMember(v, rest);
    case FunctionCall(_, _) => BareCall(v, rest);
  }

  lemma {:induction false} BareCast(v: Hif, rest: seq<Token>)
    requires v.CastTo?
    ensures ParsePostfix(BareTokens(v) + rest) == PostfixLoop(ReadAs(v), rest)
    decreases v, 0
  {
    var ts := Tokens(v.e, InCast) + ([RParen] + rest);
    Group3([CastToken(v.ty), LParen], Tokens(v.e, InCast), [RParen], rest);
    Cut2(CastToken(v.ty), LParen, ts);
    ReadClosed(v.e, InCast, RParen, rest);
    ParseCast(v.ty, ts, ReadAs(v.e), rest);
  }

  lemma {:induction false} BareMember(v: Hif, rest: seq<Token>)
    requires v.Member?
    ensures ParsePostfix(BareTokens(v) + rest) == PostfixLoop(ReadAs(v), rest)
    decreases v, 0
  {
    var i := Tokens(v.index, OfMember(false));
    Group4(Tokens(v.prefix, OfMember(true)), [LBracket], i, [RBracket], rest);
    PlaceStrength(v.prefix, OfMember(true));
    ReadPostfix(v.prefix, OfMember(true), [LBracket] + (i + ([RBracket] + rest)));
    ReadClosed(v.index, OfMember(false), RBracket, rest);
    ParseIndex(ReadAs(v.prefix), i + ([RBracket] + rest), ReadAs(v.index), rest);
  }

  lemma {:induction false} BareCall(v: Hif, rest: seq<Token>)
    requires v.FunctionCall?
    ensures ParsePostfix(BareTokens(v) + rest) == PostfixLoop(ReadAs(v), rest)
    decreases v, 0
  {
    var after := [LParen] + (ArgsTokens(v.args) + ([RParen] + rest));
    Group3([Word(v.name), LParen], ArgsTokens(v.args), [RParen], rest);
    Cut2(Word(v.name), LParen, ArgsTokens(v.args) + ([RParen] + rest));
    ParseWord(v.name, after);
    if v.args.NoHifArgs? {
      assert [] + ([RParen] + rest) == [RParen] + rest;
      ParseEmptyCall(Name(v.name), rest);
    } else {
      var ts := ArgsTokens(v.args) + ([RParen] + rest);
      ReadArguments(v.args, [RParen] + rest);
      FirstToken(v.args.first, Argument);
      assert ts[0] == Tokens(v.args.first, Argument)[0];
      ParseCall(Name(v.name), ts, ReadArgs(v.args), rest);
    }
  }

  lemma {:induction false} ReadArguments(args: HifArgs, rest: seq<Token>)
    requires args.MoreHifArgs? && Starts(rest, RParen)
    ensures ParseArgs(ArgsTokens(args) + rest) == Ok(ReadArgs(args), rest)
    decreases args
  {
    var t := Tokens(args.first, Argument);
    PlaceStrength(args.first, Argument);
    if args.rest.NoHifArgs? {
      assert ArgsTokens(args) + rest == t + rest;
      ReadConditional(args.first, Argument, rest);
      LastArgument(t + rest, ReadAs(args.first), rest);
    } else {
      var more := ArgsTokens(args.rest) + rest;
      Group3(t, [CommaT], ArgsTokens(args.rest), rest);
      CommaQuiet(CommaT, more);
      ReadConditional(args.first, Argument, [CommaT] + more);
      ReadArguments(args.rest, rest);
      FirstArgument(t + ([CommaT] + more), ReadAs(args.first), more, ReadArgs(args.rest), rest);
    }
  }

  lemma LastArgument(ts: seq<Token>, e: Expr, rest: seq<Token>)
    requires ParseConditional(ts) == Ok(e, rest) && Starts(rest, RParen)
    ensures ParseArgs(ts) == Ok(MoreArgs(e, NoArgs), rest)
  {
  }

  lemma FirstArgument(ts: seq<Token>, e: Expr, more: seq<Token>, args: Args, rest: seq<Token>)
    requires ParseConditional(ts) == Ok(e, [CommaT] + more) && ParseArgs(more) == Ok(args, rest)
    ensures ParseArgs(ts) == Ok(MoreArgs(e, args), rest)
  {
    Opened(CommaT, more);
  }

  lemma {:induction false} BareUnary(v: Hif, rest: seq<Token>)
    requires v.Un? && Quiet(rest, UNARY)
    ensures ParseUnary(BareTokens(v) + rest) == Ok(ReadAs(v), rest)
    decreases v, 1, 0
  {
    if SignPair(v.uop, v.e) {
      BareOperand(Joined(UnSymbol(v.uop)), v.e.e, v.uop, rest);
    } else {
      BareOperand(UnSymbol(v.uop), v.e, v.uop, rest);
    }
  }

  lemma {:induction false} BareOperand(symbol: Token, e: Hif, op: UnOp, rest: seq<Token>)
    requires UnaryOf(symbol).IsUnary? && Quiet(rest, UNARY)
    ensures ParseUnary([symbol] + Tokens(e, UnaryOperand(op)) + rest) == Ok(Unary(UnaryOf(symbol).op, ReadAs(e)), rest)
    decreases e, 8, 0
  {
    var ts := Tokens(e, UnaryOperand(op));
    PlaceStrength(e, UnaryOperand(op));
    ReadUnary(e, UnaryOperand(op), rest);
    assert [symbol] + ts + rest == [symbol] + (ts + rest);
    ParsePrefix(symbol, ts + rest, ReadAs(e), rest);
  }

  lemma {:induction false} BareBinary(v: Hif, level: nat, rest: seq<Token>)
    requires v.Bin? && !v.bop.ConcatOp? && 1 <= level <= BareStrength(v) && Quiet(rest, level)
    ensures ParseBinary(level, BareTokens(v) + rest) == LoopAt(level, ReadAs(v), rest)
    decreases v, 2, 0
  {
    BareBinaryOwn(v, rest);
    Lift(BareTokens(v) + rest, ReadAs(v), rest, BareStrength(v), level);
  }

  lemma ReadAsBinary(v: Hif)
    requires v.Bin? && !IsGreaterOp(v.bop)
    ensures ReadAs(v) == Binary(CppBinary(v.bop), ReadAs(v.l), ReadAs(v.r))
  {
  }

  lemma ChainedLess(op: BinOp, left: Expr, r: Hif)
    requires IsLess(r)
    ensures Chained(op, left, r) == Binary(CppBinary(r.bop), Chained(op, left, r.l), ReadAs(r.r))
  {
  }

  lemma BinaryTokens(v: Hif, rest: seq<Token>)
    requires v.Bin?
    ensures BareTokens(v) + rest
            == Tokens(v.l, Operand(v.bop, false)) + ([BinSymbol(v.bop)] + (Tokens(v.r, Operand(v.bop, true)) + rest))
  {
    Group3(Tokens(v.l, Operand(v.bop, false)), [BinSymbol(v.bop)], Tokens(v.r, Operand(v.bop, true)), rest);
  }

  /** A binary expression at its own level. */
  lemma {:induction false} BareBinaryOwn(v: Hif, rest: seq<Token>)
    requires v.Bin? && !v.bop.ConcatOp? && Quiet(rest, LevelOf(CppBinary(v.bop)))
    ensures var k := LevelOf(CppBinary(v.bop));
            1 <= k < UNARY && ParseBinary(k, BareTokens(v) + rest) == BinaryLoop(k, ReadAs(v), rest)
    decreases v, 1, 0
  {
    var op := v.bop;
    var k := LevelOf(CppBinary(op));
    var atl, atr := Operand(op, false), Operand(op, true);
    var more := [BinSymbol(op)] + (Tokens(v.r, atr) + rest);
    BinaryTokens(v, rest);
    OperatorIsQuiet(op, Tokens(v.r, atr) + rest);
    OperandStrength(v.l, op);
    ReadBinary(v.l, atl, k, more);
    RightOperand(v, rest);
  }

  /** An operator and a right operand that is read whole. */
  lemma {:induction false} TakeOperand(k: nat, op: BinOp, left: Expr, r: Hif, at: Place, e: Expr, rest: seq<Token>)
    requires !op.ConcatOp? && k == LevelOf(CppBinary(op)) && Quiet(rest, k) && Strength(r, at) >= k + 1
    requires e == Binary(CppBinary(op), left, ReadAs(r))
    ensures 1 <= k < UNARY
    ensures BinaryLoop(k, left, [BinSymbol(op)] + (Tokens(r, at) + rest)) == BinaryLoop(k, e, rest)
    decreases r, 11, 5
  {
    SymbolSpells(op);
    ReadWhole(r, at, k + 1, rest);
    LoopStep(k, left, BinSymbol(op), Tokens(r, at) + rest, ReadAs(r), rest);
  }

  /** The operator and the right operand, once the left one is read. */
  lemma {:induction false} RightOperand(v: Hif, rest: seq<Token>)
    requires v.Bin? && !v.bop.ConcatOp? && Quiet(rest, LevelOf(CppBinary(v.bop)))
    ensures var k := LevelOf(CppBinary(v.bop));
            var more := [BinSymbol(v.bop)] + (Tokens(v.r, Operand(v.bop, true)) + rest);
            BinaryLoop(k, ReadAs(v.l), more) == BinaryLoop(k, ReadAs(v), rest)
    decreases v, 0, 9
  {
    var op := v.bop;
    var k := LevelOf(CppBinary(op));
    var atr := Operand(op, true);
    OperandStrength(v.r, op);
    if IsGreaterOp(op) {
      ReadChain(op, ReadAs(v.l), v.r, rest);
    } else {
      ReadAsBinary(v);
      TakeOperand(k, op, ReadAs(v.l), v.r, atr, ReadAs(v), rest);
    }
  }

  /** After > or >=, a bare < or <= gives its leftmost operand away. */
  lemma {:induction false} ReadChain(op: BinOp, left: Expr, r: Hif, rest: seq<Token>)
    requires IsGreaterOp(op) && Quiet(rest, 7)
    requires Strength(r, Operand(op, true)) >= 7 && (IsLess(r) <==> Strength(r, Operand(op, true)) == 7)
    ensures BinaryLoop(7, left, [BinSymbol(op)] + (Tokens(r, Operand(op, true)) + rest))
         == BinaryLoop(7, Chained(op, left, r), rest)
    decreases r, 12, 0
  {
    if IsLess(r) {
      OperandStrength(r, op);
      ReadLess(op, left, r, rest);
    } else {
      TakeOperand(7, op, left, r, Operand(op, true), Chained(op, left, r), rest);
    }
  }

  lemma {:induction false} ReadLess(op: BinOp, left: Expr, r: Hif, rest: seq<Token>)
    requires IsGreaterOp(op) && IsLess(r) && Quiet(rest, 7)
    ensures BinaryLoop(7, left, [BinSymbol(op)] + (BareTokens(r) + rest)) == BinaryLoop(7, Chained(op, left, r), rest)
    decreases r, 1, 0
  {
    BinaryTokens(r, rest);
    OperatorIsQuiet(r.bop, Tokens(r.r, Operand(r.bop, true)) + rest);
    ReadLessLeft(op, left, r, [BinSymbol(r.bop)] + (Tokens(r.r, Operand(r.bop, true)) + rest));
    ReadLessRight(op, left, r, rest);
  }

  lemma {:induction false} ReadLessRight(op: BinOp, left: Expr, r: Hif, rest: seq<Token>)
    requires IsGreaterOp(op) && IsLess(r) && Quiet(rest, 7)
    ensures BinaryLoop(7, Chained(op, left, r.l), [BinSymbol(r.bop)] + (Tokens(r.r, Operand(r.bop, true)) + rest))
         == BinaryLoop(7, Chained(op, left, r), rest)
    decreases r, 0
  {
    OperandStrength(r.r, r.bop);
    ChainedLess(op, left, r);
    TakeOperand(7, r.bop, Chained(op, left, r.l), r.r, Operand(r.bop, true), Chained(op, left, r), rest);
  }

  lemma {:induction false} ReadLessLeft(op: BinOp, left: Expr, r: Hif, more: seq<Token>)
    requires IsGreaterOp(op) && IsLess(r) && Quiet(more, 7)
    ensures BinaryLoop(7, left, [BinSymbol(op)] + (Tokens(r.l, Operand(r.bop, false)) + more))
         == BinaryLoop(7, Chained(op, left, r.l), more)
    decreases r, 0
  {
    OperandStrength(r.l, r.bop);
    if IsLess(r.l) {
      ReadLess(op, left, r.l, more);
    } else {
      TakeOperand(7, op, left, r.l, Operand(r.bop, false), Chained(op, left, r.l), more);
    }
  }

  lemma {:induction false} BareConditional(v: Hif, rest: seq<Token>)
    requires BareStrength(v) >= 0 && Quiet(rest, 0) && !Starts(rest, Quest)
    ensures ParseConditional(BareTokens(v) + rest) == Ok(ReadAs(v), rest)
    decreases v, 4, 0
  {
    if v.When? {
      ReadAlternatives(v.alts, rest);
    } else {
      BareFromOne(v, rest);
    }
  }

  lemma {:induction false} BareFromOne(v: Hif, rest: seq<Token>)
    requires BareStrength(v) >= 1 && Quiet(rest, 0)
    ensures ParseBinary(1, BareTokens(v) + rest) == Ok(ReadAs(v), rest)
    decreases v, 3, 0
  {
    if v.Bin? {
      BareBinary(v, 1, rest);
    } else {
      if v.Un? {
        BareUnary(v, rest);
      } else {
        BarePostfix(v, rest);
        FirstBareToken(v);
        PostfixIsUnary(BareTokens(v) + rest, ReadAs(v), rest);
      }
      Lift(BareTokens(v) + rest, ReadAs(v), rest, UNARY, 1);
    }
    QuietLoop(1, ReadAs(v), rest);
  }

  lemma ParseChoice(ts: seq<Token>, c: Expr, vs: seq<Token>, v: Expr, ds: seq<Token>, d: Expr, rest: seq<Token>)
    requires ParseBinary(1, ts) == Ok(c, [Quest] + vs) && ParseComma(vs) == Ok(v, [Colon] + ds)
    requires ParseConditional(ds) == Ok(d, rest)
    ensures ParseConditional(ts) == Ok(Conditional(c, v, d), rest)
  {
    Opened(Quest, vs);
    Opened(Colon, ds);
  }

  lemma {:induction false} ReadAlternatives(alts: Alts, rest: seq<Token>)
    requires Quiet(rest, 0) && !Starts(rest, Quest)
    ensures ParseConditional(AltsTokens(alts) + rest) == Ok(ReadAlts(alts), rest)
    decreases alts, 1
  {
    match alts
    case Last(_, _, d) =>
      PlaceStrength(d, InWhen);
      ReadConditional(d, InWhen, rest);
      ReadAlternative(alts, Tokens(d, InWhen), ReadAs(d), rest);
    case Alt(_, _, more) =>
      ReadAlternatives(more, rest);
      ReadAlternative(alts, AltsTokens(more), ReadAlts(more), rest);
  }

  lemma {:induction false} ReadAlternative(alts: Alts, tail: seq<Token>, e: Expr, rest: seq<Token>)
    requires ParseConditional(tail + rest) == Ok(e, rest)
    ensures var ts := Tokens(alts.cond, InWhen) + ([Quest] + (Tokens(alts.value, InWhen) + ([Colon] + tail)));
            ParseConditional(ts + rest) == Ok(Conditional(ReadAs(alts.cond), ReadAs(alts.value), e), rest)
    decreases alts, 0
  {
    var c, v := Tokens(alts.cond, InWhen), Tokens(alts.value, InWhen);
    var colon := [Colon] + (tail + rest);
    var quest := [Quest] + (v + colon);
    Group5(c, [Quest], v, [Colon], tail, rest);
    CommaQuiet(Quest, v + colon);
    PlaceStrength(alts.cond, InWhen);
    ReadWhole(alts.cond, InWhen, 1, quest);
    ReadClosed(alts.value, InWhen, Colon, tail + rest);
    ParseChoice(c + quest, ReadAs(alts.cond), v + colon, ReadAs(alts.value), tail + rest, e, rest);
  }

  lemma {:induction false} BareComma(v: Hif, rest: seq<Token>)
    requires Quiet(rest, 0) && !Starts(rest, Quest)
    ensures ParseComma(BareTokens(v) + rest) == CommaLoop(ReadAs(v), rest)
    decreases v, 5, 0
  {
    if BareStrength(v) >= 0 {
      BareConditional(v, rest);
      ConditionalIsComma(BareTokens(v) + rest, ReadAs(v), rest);
    } else {
      BareConcat(v, rest);
    }
  }

  /** A comma and its right operand, once the left one is read. */
  lemma {:induction false} ConcatRight(left: Expr, r: Hif, e: Expr, rest: seq<Token>)
    requires Quiet(rest, 0) && !Starts(rest, Quest) && e == Binary(Comma, left, ReadAs(r))
    ensures CommaLoop(left, [CommaT] + (Tokens(r, Operand(ConcatOp, true)) + rest)) == CommaLoop(e, rest)
    decreases r, 12, 0
  {
    var at := Operand(ConcatOp, true);
    PlaceStrength(r, at);
    ReadConditional(r, at, rest);
    CommaStep(left, Tokens(r, at) + rest, ReadAs(r), rest);
  }

  lemma {:induction false} BareConcat(v: Hif, rest: seq<Token>)
    requires v.Bin? && v.bop.ConcatOp? && Quiet(rest, 0) && !Starts(rest, Quest)
    ensures ParseComma(BareTokens(v) + rest) == CommaLoop(ReadAs(v), rest)
    decreases v, 0, 0
  {
    var right := Tokens(v.r, Operand(ConcatOp, true)) + rest;
    BinaryTokens(v, rest);
    CommaQuiet(CommaT, right);
    ReadComma(v.l, Operand(ConcatOp, false), [CommaT] + right);
    ReadAsBinary(v);
    ConcatRight(ReadAs(v.l), v.r, ReadAs(v), rest);
  }

  // ---------------------------------------------------------------- main results

  /** The whole pipeline: print, cut into tokens, parse. */
  function Reread(v: Hif): Parse<Expr> {
    ParseAll(Lex(Print(v, Top)))
  }

  /** Main result: the printed text always denotes one C++ expression, and it is ReadAs. */
  lemma ReadBack(v: Hif)
    requires AddressesLvalues(v)
    ensures Reread(v) == Ok(ReadAs(v), [])
  {
    assert Print(v, Top) + [] == Print(v, Top);
    LexPrint(v, Top, []);
    assert Tokens(v, Top) + [] == Tokens(v, Top);
    ReadComma(v, Top, []);
  }

  /** No > or >= with a < or <= as its right operand, and no sign applied to the same sign. */
  predicate Faithful(v: Hif) {
    match v
    case Atom(_) => true
    case Un(op, e) => Faithful(e) && !SignPair(op, e)
    case Bin(op, l, r) => Faithful(l) && Faithful(r) && !(IsGreaterOp(op) && IsLess(r))
    case When(alts) => FaithfulAlts(alts)
    case CastTo(_, e) => Faithful(e)
    case Member(p, i) => Faithful(p) && Faithful(i)
    case FunctionCall(_, args) => FaithfulArgs(args)
  }

  predicate FaithfulAlts(alts: Alts) {
    Faithful(alts.cond) && Faithful(alts.value) &&
    match alts
    case Last(_, _, d) => Faithful(d)
    case Alt(_, _, rest) => FaithfulAlts(rest)
  }

  predicate FaithfulArgs(args: HifArgs) {
    args.MoreHifArgs? ==> Faithful(args.first) && FaithfulArgs(args.rest)
  }

  lemma {:induction false} FaithfulIff(v: Hif)
    ensures ReadAs(v) == Intended(v) <==> Faithful(v)
    decreases v, 0
  {
    match v
    case Atom(_) =>
    case Un(_, e) => FaithfulIff(e);
    case Bin(_, l, r) =>
      FaithfulIff(l);
      FaithfulIff(r);
    case When(alts) => FaithfulAltsIff(alts);
    case CastTo(_, e) => FaithfulIff(e);
    case Member(p, i) =>
      FaithfulIff(p);
      FaithfulIff(i);
    case FunctionCall(_, args) => FaithfulArgsIff(args);
  }

  lemma {:induction false} FaithfulAltsIff(alts: Alts)
    ensures ReadAlts(alts) == IntendedAlts(alts) <==> FaithfulAlts(alts)
    decreases alts, 0
  {
    FaithfulIff(alts.cond);
    FaithfulIff(alts.value);
    match alts
    case Last(_, _, d) => FaithfulIff(d);
    case Alt(_, _, rest) => FaithfulAltsIff(rest);
  }

  lemma {:induction false} FaithfulArgsIff(args: HifArgs)
    ensures ReadArgs(args) == IntendedArgs(args) <==> FaithfulArgs(args)
    decreases args, 0
  {
    if args.MoreHifArgs? {
      FaithfulIff(args.first);
      FaithfulArgsIff(args.rest);
    }
  }

  /** Main result: the text is read back as the intended tree exactly for the faithful expressions. */
  lemma RoundTrip(v: Hif)
    requires AddressesLvalues(v)
    ensures Reread(v) == Ok(Intended(v), []) <==> Faithful(v)
  {
    ReadBack(v);
    FaithfulIff(v);
  }

  /** a > (b < c) is printed without parentheses and read as (a > b) < c. */
  lemma ComparisonLost(a: string, b: string, c: string)
    ensures var v := Bin(GtOp, Atom(a), Bin(LtOp, Atom(b), Atom(c)));
            && Reread(v) == Ok(Binary(Less, Binary(Greater, Name(a), Name(b)), Name(c)), [])
            && Intended(v) == Binary(Greater, Name(a), Binary(Less, Name(b), Name(c)))
  {
    var less := Bin(LtOp, Atom(b), Atom(c));
    assert Intended(Atom(a)) == Name(a) && Intended(Atom(b)) == Name(b) && Intended(Atom(c)) == Name(c);
    assert Intended(less) == Binary(Less, Name(b), Name(c));
    ReadBack(Bin(GtOp, Atom(a), less));
    assert Chained(GtOp, Name(a), Atom(b)) == Binary(Greater, Name(a), Name(b));
    assert Chained(GtOp, Name(a), less) == Binary(Less, Chained(GtOp, Name(a), Atom(b)), ReadAs(Atom(c)));
  }

  /** -(-a) is printed as --a and read as a decrement. */
  lemma DoubleMinus(a: string)
    ensures var v := Un(UMinusOp, Un(UMinusOp, Atom(a)));
            Reread(v) == Ok(Unary(PreDec, Name(a)), []) && Intended(v) == Unary(Neg, Unary(Neg, Name(a)))
  {
    assert Intended(Atom(a)) == Name(a);
    assert Intended(Un(UMinusOp, Atom(a))) == Unary(Neg, Name(a));
    ReadBack(Un(UMinusOp, Un(UMinusOp, Atom(a))));
  }
}
