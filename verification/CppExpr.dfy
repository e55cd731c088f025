/**
 C++ expressions: how the text of one is cut into tokens and read back as a tree.

 Tokens are cut greedily (section 2.5 of ISO/IEC 14882:2011). The parser follows the grammar of
 sections 5.1 to 5.18, for the operators the SystemC printer can emit.
 */
module CppExpr {
  datatype UnaryOp = LogNot | Compl | Pos | Neg | AddrOf | Indirect | PreInc | PreDec

  datatype BinaryOp =
    | LogOr | LogAnd | BitOr | BitXor | BitAnd
    | Equal | NotEqual | Less | Greater | LessEq | GreaterEq
    | ShiftL | ShiftR | Add | Sub | Mul | Div | Mod | Comma

  datatype CastKind = StaticCast | ReinterpretCast

  datatype Expr =
    | Name(n: string)
    | Unary(uop: UnaryOp, e: Expr)
    | Binary(bop: BinaryOp, l: Expr, r: Expr)
    | Conditional(c: Expr, a: Expr, b: Expr)
    | NewCast(kind: CastKind, ty: string, e: Expr)
    | Subscript(p: Expr, i: Expr)
    | Call(f: Expr, args: Args)
  datatype Args = NoArgs | MoreArgs(first: Expr, rest: Args)

  datatype Token =
    | Word(n: string)
    | CastTo(kind: CastKind, ty: string)
    | Bang | Tilde | PlusT | MinusT | Amp | Star | PlusPlus | MinusMinus | AmpAmp
    | BarBar | Bar | Caret | EqEq | BangEq | Lt | Gt | LtEq | GtEq | LtLt | GtGt | Slash | Percent
    | CommaT | Quest | Colon | LParen | RParen | LBracket | RBracket

  // ---------------------------------------------------------------- tokens

  /** What a printer writes: symbols, and the blanks that keep them apart. */
  datatype Piece = Sym(t: Token) | Space

  /** Symbols that join with a copy of themselves when nothing stands between. */
  predicate Joins(t: Token) {
    t.PlusT? || t.MinusT? || t.Amp?
  }

  function Joined(t: Token): Token {
    match t
    case PlusT => PlusPlus
    case MinusT => MinusMinus
    case _ => AmpAmp
  }

  function Lex(ps: seq<Piece>): seq<Token> {
    if |ps| == 0 then []
    else if ps[0].Space? then Lex(ps[1..])
    else if Joins(ps[0].t) && |ps| >= 2 && ps[1] == ps[0] then [Joined(ps[0].t)] + Lex(ps[2..])
    else [ps[0].t] + Lex(ps[1..])
  }

  // ---------------------------------------------------------------- grammar

  const MULTIPLICATIVE := 10
  const UNARY := 11

  /** Binding strength of a binary operator, from || upwards; the comma stands below all. */
  function LevelOf(op: BinaryOp): (n: nat)
    ensures n <= MULTIPLICATIVE
  {
    match op
    case Comma => 0
    case LogOr => 1
    case LogAnd => 2
    case BitOr => 3
    case BitXor => 4
    case BitAnd => 5
    case Equal => 6
    case NotEqual => 6
    case Less => 7
    case Greater => 7
    case LessEq => 7
    case GreaterEq => 7
    case ShiftL => 8
    case ShiftR => 8
    case Add => 9
    case Sub => 9
    case Mul => 10
    case Div => 10
    case Mod => 10
  }

  datatype Operator = NotBinary | IsBinary(op: BinaryOp)

  /** The binary operator a token spells, the comma aside. */
  function BinaryOf(t: Token): Operator {
    match t
    case BarBar => IsBinary(LogOr)
    case AmpAmp => IsBinary(LogAnd)
    case Bar => IsBinary(BitOr)
    case Caret => IsBinary(BitXor)
    case Amp => IsBinary(BitAnd)
    case EqEq => IsBinary(Equal)
    case BangEq => IsBinary(NotEqual)
    case Lt => IsBinary(Less)
    case Gt => IsBinary(Greater)
    case LtEq => IsBinary(LessEq)
    case GtEq => IsBinary(GreaterEq)
    case LtLt => IsBinary(ShiftL)
    case GtGt => IsBinary(ShiftR)
    case PlusT => IsBinary(Add)
    case MinusT => IsBinary(Sub)
    case Star => IsBinary(Mul)
    case Slash => IsBinary(Div)
    case Percent => IsBinary(Mod)
    case _ => NotBinary
  }

  predicate IsBinaryAt(t: Token, level: nat) {
    BinaryOf(t).IsBinary? && LevelOf(BinaryOf(t).op) == level
  }

  datatype UnaryOperator = NotUnary | IsUnary(op: UnaryOp)

  function UnaryOf(t: Token): UnaryOperator {
    match t
    case Bang => IsUnary(LogNot)
    case Tilde => IsUnary(Compl)
    case PlusT => IsUnary(Pos)
    case MinusT => IsUnary(Neg)
    case Amp => IsUnary(AddrOf)
    case Star => IsUnary(Indirect)
    case PlusPlus => IsUnary(PreInc)
    case MinusMinus => IsUnary(PreDec)
    case _ => NotUnary
  }

  datatype Parse<T> = Fail | Ok(tree: T, rest: seq<Token>)

  predicate Starts(ts: seq<Token>, t: Token) {
    |ts| > 0 && ts[0] == t
  }

  /** expression: assignment-expressions joined by commas, to the left. */
  function ParseComma(ts: seq<Token>): (r: Parse<Expr>)
    ensures r.Ok? ==> |r.rest| < |ts|
    decreases |ts|, 16
  {
    var r := ParseConditional(ts);
    if r.Fail? then Fail else CommaLoop(r.tree, r.rest)
  }

  function CommaLoop(lhs: Expr, ts: seq<Token>): (r: Parse<Expr>)
    ensures r.Ok? ==> |r.rest| <= |ts|
    decreases |ts|, 0
  {
    if Starts(ts, CommaT) then
      var r := ParseConditional(ts[1..]);
      if r.Fail? then Fail else CommaLoop(Binary(Comma, lhs, r.tree), r.rest)
    else Ok(lhs, ts)
  }

  /** conditional-expression: the middle is a full expression, the right operand nests. */
  function ParseConditional(ts: seq<Token>): (r: Parse<Expr>)
    ensures r.Ok? ==> |r.rest| < |ts|
    decreases |ts|, 15
  {
    var c := ParseBinary(1, ts);
    if c.Fail? then Fail else ConditionalRest(c.tree, c.rest)
  }

  function ConditionalRest(c: Expr, ts: seq<Token>): (r: Parse<Expr>)
    ensures r.Ok? ==> |r.rest| <= |ts|
    decreases |ts|, 0
  {
    if !Starts(ts, Quest) then Ok(c, ts)
    else
      var a := ParseComma(ts[1..]);
      if a.Fail? || !Starts(a.rest, Colon) then Fail
      else
        var b := ParseConditional(a.rest[1..]);
        if b.Fail? then Fail else Ok(Conditional(c, a.tree, b.tree), b.rest)
  }

  function ParseBinary(level: nat, ts: seq<Token>): (r: Parse<Expr>)
    requires 1 <= level <= UNARY
    ensures r.Ok? ==> |r.rest| < |ts|
    decreases |ts|, 14 - level
  {
    if level == UNARY then ParseUnary(ts)
    else
      var r := ParseBinary(level + 1, ts);
      if r.Fail? then Fail else BinaryLoop(level, r.tree, r.rest)
  }

  function BinaryLoop(level: nat, lhs: Expr, ts: seq<Token>): (r: Parse<Expr>)
    requires 1 <= level < UNARY
    ensures r.Ok? ==> |r.rest| <= |ts|
    decreases |ts|, 0
  {
    if |ts| > 0 && IsBinaryAt(ts[0], level) then
      var r := ParseBinary(level + 1, ts[1..]);
      if r.Fail? then Fail else BinaryLoop(level, Binary(BinaryOf(ts[0]).op, lhs, r.tree), r.rest)
    else Ok(lhs, ts)
  }

  function ParseUnary(ts: seq<Token>): (r: Parse<Expr>)
    ensures r.Ok? ==> |r.rest| < |ts|
    decreases |ts|, 2
  {
    if |ts| > 0 && UnaryOf(ts[0]).IsUnary? then
      var r := ParseUnary(ts[1..]);
      if r.Fail? then Fail else Ok(Unary(UnaryOf(ts[0]).op, r.tree), r.rest)
    else ParsePostfix(ts)
  }

  function ParsePostfix(ts: seq<Token>): (r: Parse<Expr>)
    ensures r.Ok? ==> |r.rest| < |ts|
    decreases |ts|, 1
  {
    var r := ParsePrimary(ts);
    if r.Fail? then Fail else PostfixLoop(r.tree, r.rest)
  }

  function PostfixLoop(lhs: Expr, ts: seq<Token>): (r: Parse<Expr>)
    ensures r.Ok? ==> |r.rest| <= |ts|
    decreases |ts|, 0
  {
    if Starts(ts, LBracket) then
      var i := ParseComma(ts[1..]);
      if i.Fail? || !Starts(i.rest, RBracket) then Fail else PostfixLoop(Subscript(lhs, i.tree), i.rest[1..])
    else if Starts(ts, LParen) then
      if Starts(ts[1..], RParen) then PostfixLoop(Call(lhs, NoArgs), ts[2..])
      else
        var a := ParseArgs(ts[1..]);
        if a.Fail? || !Starts(a.rest, RParen) then Fail else PostfixLoop(Call(lhs, a.tree), a.rest[1..])
    else Ok(lhs, ts)
  }

  /** A non-empty list of assignment-expressions. */
  function ParseArgs(ts: seq<Token>): (r: Parse<Args>)
    ensures r.Ok? ==> |r.rest| < |ts|
    decreases |ts|, 16
  {
    var r := ParseConditional(ts);
    if r.Fail? then Fail
    else if Starts(r.rest, CommaT) then
      var more := ParseArgs(r.rest[1..]);
      if more.Fail? then Fail else Ok(MoreArgs(r.tree, more.tree), more.rest)
    else Ok(MoreArgs(r.tree, NoArgs), r.rest)
  }

  function ParsePrimary(ts: seq<Token>): (r: Parse<Expr>)
    ensures r.Ok? ==> |r.rest| < |ts|
    decreases |ts|, 0
  {
    if |ts| == 0 then Fail
    else match ts[0]
      case Word(n) => Ok(Name(n), ts[1..])
      case LParen =>
        var e := ParseComma(ts[1..]);
        if e.Fail? || !Starts(e.rest, RParen) then Fail else Ok(e.tree, e.rest[1..])
      case CastTo(kind, ty) =>
        if !Starts(ts[1..], LParen) then Fail
        else
          var e := ParseComma(ts[2..]);
          if e.Fail? || !Starts(e.rest, RParen) then Fail else Ok(NewCast(kind, ty, e.tree), e.rest[1..])
      case _ => Fail
  }

  /** A whole text is one expression. */
  function ParseAll(ts: seq<Token>): Parse<Expr> {
    var r := ParseComma(ts);
    if r.Ok? && r.rest == [] then r else Fail
  }
}
