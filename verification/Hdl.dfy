/**
 The fragment of the HIF tree that processes are written in, and its simulation semantics.

 One semantics serves both languages: a process carries three sensitivity lists (level,
 positive edge, negative edge), and a VHDL process is one whose edge lists are empty.
 Activation follows section 11.3 of IEEE 1076-2008 and section 9.7.2 of IEEE 1364-2005 on
 two-valued event expressions: a process runs its body from the top when one of its
 sensitivity entries moves, signal assignments take effect when the body suspends and
 variable assignments take effect at once.
 */
module Hdl {
  type Name = string

  /** A bit is a vector of length one. */
  type Value = seq<int>
  type Store = map<Name, Value>

  const ZERO: Value := [0]
  const ONE: Value := [1]

  datatype Kind = SignalDecl | PortDecl | VariableDecl | ConstantDecl | GenericDecl

  type Decls = map<Name, Kind>

  /** The three spellings of an edge test: clk'event, rising_edge(clk), falling_edge(clk). */
  datatype EdgeFunction = Event | RisingEdge | FallingEdge

  datatype UnaryOp = Not | Minus
  datatype BinaryOp = And | Or | Xor | Eq | Plus

  datatype Expr =
    | Lit(v: Value)
    | Ref(n: Name)
    | Index(n: Name, i: Expr)
    | EdgeCall(fn: EdgeFunction, arg: Name)
    | Unary(uop: UnaryOp, e: Expr)
    | Binary(bop: BinaryOp, l: Expr, r: Expr)

  datatype Target = Whole(n: Name) | Element(n: Name, i: Expr)

  datatype Stmt =
    | Assign(target: Target, rhs: Expr)
    | If(alts: seq<IfAlt>, els: seq<Stmt>)
  datatype IfAlt = IfAlt(cond: Expr, actions: seq<Stmt>)

  datatype Process = Process(
    sensitivity: seq<Expr>,
    sensitivityPos: seq<Expr>,
    sensitivityNeg: seq<Expr>,
    body: seq<Stmt>)

  function Get(s: Store, n: Name): Value {
    if n in s then s[n] else ZERO
  }

  predicate Truthy(v: Value) {
    |v| > 0 && v[0] != 0
  }

  function Bit(b: bool): Value {
    if b then ONE else ZERO
  }

  function IntOf(v: Value): int {
    if |v| > 0 then v[0] else 0
  }

  predicate IsVariable(d: Decls, n: Name) {
    n in d && d[n].VariableDecl?
  }

  /** Declarations whose value can change between two activations. */
  predicate IsMutable(d: Decls, n: Name) {
    n in d && (d[n].SignalDecl? || d[n].PortDecl? || d[n].VariableDecl?)
  }

  function ApplyUnary(op: UnaryOp, v: Value): Value {
    match op
    case Not => Bit(!Truthy(v))
    case Minus => [-IntOf(v)]
  }

  function ApplyBinary(op: BinaryOp, v1: Value, v2: Value): Value {
    match op
    case And => Bit(Truthy(v1) && Truthy(v2))
    case Or => Bit(Truthy(v1) || Truthy(v2))
    case Xor => Bit(Truthy(v1) != Truthy(v2))
    case Eq => Bit(v1 == v2)
    case Plus => [IntOf(v1) + IntOf(v2)]
  }

  /** Value of an expression in store cur, where prev is the store before the event. */
  function Eval(e: Expr, cur: Store, prev: Store): Value {
    match e
    case Lit(v) => v
    case Ref(n) => Get(cur, n)
    case Index(n, i) =>
      var k := IntOf(Eval(i, cur, prev));
      var v := Get(cur, n);
      if 0 <= k < |v| then [v[k]] else ZERO
    case EdgeCall(fn, n) =>
      var moved := Get(cur, n) != Get(prev, n);
      match fn {
        case Event => Bit(moved)
        case RisingEdge => Bit(moved && Truthy(Get(cur, n)))
        case FallingEdge => Bit(moved && !Truthy(Get(cur, n)))
      }
    case Unary(op, e1) => ApplyUnary(op, Eval(e1, cur, prev))
    case Binary(op, e1, e2) => ApplyBinary(op, Eval(e1, cur, prev), Eval(e2, cur, prev))
  }

  /** What one activation has written so far: variables at once, signals when it suspends. */
  datatype Frame = Frame(vars: Store, pending: Store)

  const EMPTY_FRAME: Frame := Frame(map[], map[])

  /** Value held by a target before it is written: a later element write builds on an earlier one. */
  function Base(n: Name, d: Decls, cur: Store, f: Frame): Value {
    if IsVariable(d, n) then Get(cur + f.vars, n)
    else if n in f.pending then f.pending[n] else Get(cur, n)
  }

  function Write(n: Name, v: Value, d: Decls, f: Frame): Frame {
    if IsVariable(d, n) then f.(vars := f.vars[n := v]) else f.(pending := f.pending[n := v])
  }

  function ExecAssign(t: Target, rhs: Expr, d: Decls, cur: Store, prev: Store, f: Frame): Frame {
    var v := Eval(rhs, cur + f.vars, prev);
    match t
    case Whole(n) => Write(n, v, d, f)
    case Element(n, i) =>
      var k := IntOf(Eval(i, cur + f.vars, prev));
      var b := Base(n, d, cur, f);
      Write(n, if 0 <= k < |b| then b[k := IntOf(v)] else b, d, f)
  }

  /** The branch an if takes: the first alternative whose condition holds, else the default. */
  function Chosen(alts: seq<IfAlt>, els: seq<Stmt>, cur: Store, prev: Store): (r: seq<Stmt>)
    ensures r == els || exists i :: 0 <= i < |alts| && r == alts[i].actions
  {
    if |alts| == 0 then els
    else if Truthy(Eval(alts[0].cond, cur, prev)) then alts[0].actions
    else Chosen(alts[1..], els, cur, prev)
  }

  function Exec(s: Stmt, d: Decls, cur: Store, prev: Store, f: Frame): Frame
    decreases s, 1
  {
    match s
    case Assign(t, rhs) => ExecAssign(t, rhs, d, cur, prev, f)
    case If(alts, els) =>
      var branch := Chosen(alts, els, cur + f.vars, prev);
      assert branch == els || exists i :: 0 <= i < |alts| && branch == alts[i].actions;
      ExecSeq(branch, d, cur, prev, f)
  }

  function ExecSeq(ss: seq<Stmt>, d: Decls, cur: Store, prev: Store, f: Frame): Frame
    decreases ss, 0
  {
    if |ss| == 0 then f
    else ExecSeq(ss[1..], d, cur, prev, Exec(ss[0], d, cur, prev, f))
  }

  /** Everything one run of a body writes. */
  function Writes(body: seq<Stmt>, d: Decls, cur: Store, prev: Store): Store {
    var f := ExecSeq(body, d, cur, prev, EMPTY_FRAME);
    f.vars + f.pending
  }

  predicate Level(e: Expr, prev: Store, cur: Store) {
    Eval(e, cur, cur) != Eval(e, prev, prev)
  }

  predicate PosEdge(e: Expr, prev: Store, cur: Store) {
    !Truthy(Eval(e, prev, prev)) && Truthy(Eval(e, cur, cur))
  }

  predicate NegEdge(e: Expr, prev: Store, cur: Store) {
    Truthy(Eval(e, prev, prev)) && !Truthy(Eval(e, cur, cur))
  }

  /** Whether the change from prev to cur activates the process. */
  predicate Wakes(p: Process, prev: Store, cur: Store) {
    || (exists i :: 0 <= i < |p.sensitivity| && Level(p.sensitivity[i], prev, cur))
    || (exists i :: 0 <= i < |p.sensitivityPos| && PosEdge(p.sensitivityPos[i], prev, cur))
    || (exists i :: 0 <= i < |p.sensitivityNeg| && NegEdge(p.sensitivityNeg[i], prev, cur))
  }

  /** What the process writes in reaction to the change from prev to cur. */
  function Reaction(p: Process, d: Decls, prev: Store, cur: Store): Store {
    if Wakes(p, prev, cur) then Writes(p.body, d, cur, prev) else map[]
  }

  /** The store after the process has reacted. */
  function Activate(p: Process, d: Decls, prev: Store, cur: Store): Store {
    cur + Reaction(p, d, prev, cur)
  }

  /** Names an expression reads; an edge test reads its signal. */
  function Reads(e: Expr): set<Name> {
    match e
    case Lit(_) => {}
    case Ref(n) => {n}
    case Index(n, i) => {n} + Reads(i)
    case EdgeCall(_, n) => {n}
    case Unary(_, e1) => Reads(e1)
    case Binary(_, e1, e2) => Reads(e1) + Reads(e2)
  }

  function TargetName(t: Target): Name {
    t.n
  }

  /** Names assigned anywhere in a body. */
  function Assigned(ss: seq<Stmt>): set<Name>
    decreases ss, 0
  {
    if |ss| == 0 then {} else AssignedBy(ss[0]) + Assigned(ss[1..])
  }

  function AssignedBy(s: Stmt): set<Name>
    decreases s, 1
  {
    match s
    case Assign(t, _) => {TargetName(t)}
    case If(alts, els) => AssignedInAlts(alts) + Assigned(els)
  }

  function AssignedInAlts(alts: seq<IfAlt>): set<Name>
    decreases alts, 0
  {
    if |alts| == 0 then {} else Assigned(alts[0].actions) + AssignedInAlts(alts[1..])
  }

  /** Two stores that agree on every name an expression reads give it the same value. */
  lemma {:induction false} EvalFrame(e: Expr, c1: Store, o1: Store, c2: Store, o2: Store)
    requires forall n :: n in Reads(e) ==> Get(c1, n) == Get(c2, n) && Get(o1, n) == Get(o2, n)
    ensures Eval(e, c1, o1) == Eval(e, c2, o2)
  {
    match e
    case Lit(_) =>
    case Ref(_) =>
    case Index(_, i) => EvalFrame(i, c1, o1, c2, o2);
    case EdgeCall(_, _) =>
    case Unary(_, e1) => EvalFrame(e1, c1, o1, c2, o2);
    case Binary(_, l, r) =>
      EvalFrame(l, c1, o1, c2, o2);
      EvalFrame(r, c1, o1, c2, o2);
  }

  lemma {:induction false} ChosenAssigned(alts: seq<IfAlt>, els: seq<Stmt>, cur: Store, prev: Store)
    ensures Assigned(Chosen(alts, els, cur, prev)) <= AssignedInAlts(alts) + Assigned(els)
  {
    if |alts| != 0 && !Truthy(Eval(alts[0].cond, cur, prev)) {
      ChosenAssigned(alts[1..], els, cur, prev);
    }
  }

  lemma {:induction false} ExecWritesOnlyAssigned(ss: seq<Stmt>, d: Decls, cur: Store, prev: Store, f: Frame)
    ensures ExecSeq(ss, d, cur, prev, f).vars.Keys <= f.vars.Keys + Assigned(ss)
    ensures ExecSeq(ss, d, cur, prev, f).pending.Keys <= f.pending.Keys + Assigned(ss)
    decreases ss, 0
  {
    if |ss| != 0 {
      ExecWritesOnlyItsOwn(ss[0], d, cur, prev, f);
      ExecWritesOnlyAssigned(ss[1..], d, cur, prev, Exec(ss[0], d, cur, prev, f));
    }
  }

  lemma {:induction false} ExecWritesOnlyItsOwn(s: Stmt, d: Decls, cur: Store, prev: Store, f: Frame)
    ensures Exec(s, d, cur, prev, f).vars.Keys <= f.vars.Keys + AssignedBy(s)
    ensures Exec(s, d, cur, prev, f).pending.Keys <= f.pending.Keys + AssignedBy(s)
    decreases s, 1
  {
    if s.If? {
      var branch := Chosen(s.alts, s.els, cur + f.vars, prev);
      assert branch == s.els || exists i :: 0 <= i < |s.alts| && branch == s.alts[i].actions;
      ExecWritesOnlyAssigned(branch, d, cur, prev, f);
      ChosenAssigned(s.alts, s.els, cur + f.vars, prev);
    }
  }

  /** A run writes only names its body assigns. */
  lemma WritesOnlyAssigned(body: seq<Stmt>, d: Decls, cur: Store, prev: Store)
    ensures Writes(body, d, cur, prev).Keys <= Assigned(body)
  {
    ExecWritesOnlyAssigned(body, d, cur, prev, EMPTY_FRAME);
  }
}
