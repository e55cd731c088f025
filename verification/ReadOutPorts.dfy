/**
 Making the out ports a VHDL architecture reads readable: a shadow signal takes the place of the
 port in the whole view, and the port is assigned from it.

 The main results are AllPortsRun, which compares the two designs delta cycle by delta cycle,
 StillRead, which says that no out port is read after the pass, and NewNameIs, which says exactly
 which ports get a shadow. ReadIn says what a read is.
 */
module ReadOutPorts {
  import opened Hdl
  import opened Wrappers

  datatype Direction = In | Out | Inout
  datatype Port = Port(name: Name, dir: Direction)

  /** An association in the port map of an instance. */
  datatype PortAssign = PortAssign(formal: Direction, actual: Expr)

  datatype View = View(
    ports: seq<Port>,
    decls: Decls,
    initial: Store,                 // the initial values of the declarations
    processes: seq<Process>,
    globals: seq<Stmt>,
    portAssigns: seq<PortAssign>)

  // ---------------------------------------------------------------- references

  /** One reference to a port: where it stands, and whether it is the root of a port map's actual. */
  datatype Reference = Reference(inLeftHandSide: bool, inPortAssign: bool, isTerminal: bool)

  const READ: Reference := Reference(false, false, false)

  function RefsInExpr(e: Expr, p: Name, r: Reference): seq<Reference> {
    match e
    case Lit(_) => []
    case Ref(n) => if n == p then [r] else []
    case Index(n, i) => (if n == p then [r] else []) + RefsInExpr(i, p, r)
    case EdgeCall(_, n) => if n == p then [r] else []
    case Unary(_, e1) => RefsInExpr(e1, p, r)
    case Binary(_, l, rr) => RefsInExpr(l, p, r) + RefsInExpr(rr, p, r)
  }

  function RefsInTarget(t: Target, p: Name): seq<Reference> {
    (if t.n == p then [Reference(true, false, false)] else [])
    + (if t.Element? then RefsInExpr(t.i, p, READ) else [])
  }

  function RefsIn(ss: seq<Stmt>, p: Name): seq<Reference>
    decreases ss, 0
  {
    if |ss| == 0 then [] else RefsOf(ss[0], p) + RefsIn(ss[1..], p)
  }

  function RefsOf(s: Stmt, p: Name): seq<Reference>
    decreases s, 1
  {
    match s
    case Assign(t, rhs) => RefsInTarget(t, p) + RefsInExpr(rhs, p, READ)
    case If(alts, els) => RefsInAlts(alts, p) + RefsIn(els, p)
  }

  function RefsInAlts(alts: seq<IfAlt>, p: Name): seq<Reference>
    decreases alts, 0
  {
    if |alts| == 0 then []
    else RefsInExpr(alts[0].cond, p, READ) + RefsIn(alts[0].actions, p) + RefsInAlts(alts[1..], p)
  }

  function RefsInList(es: seq<Expr>, p: Name): seq<Reference> {
    if |es| == 0 then [] else RefsInExpr(es[0], p, READ) + RefsInList(es[1..], p)
  }

  function RefsInProcesses(ps: seq<Process>, p: Name): seq<Reference> {
    if |ps| == 0 then []
    else RefsInList(ps[0].sensitivity, p) + RefsInList(ps[0].sensitivityPos, p) + RefsInList(ps[0].sensitivityNeg, p)
         + RefsIn(ps[0].body, p) + RefsInProcesses(ps[1..], p)
  }

  /** The actual of an association: its root name is terminal, the names in its index are not. */
  function RefsInActual(e: Expr, p: Name): seq<Reference> {
    match e
    case Ref(n) => if n == p then [Reference(false, true, true)] else []
    case Index(n, i) =>
      (if n == p then [Reference(false, true, true)] else []) + RefsInExpr(i, p, Reference(false, true, false))
    case _ => RefsInExpr(e, p, Reference(false, true, false))
  }

  function RefsInActuals(pas: seq<PortAssign>, p: Name): seq<Reference> {
    if |pas| == 0 then [] else RefsInActual(pas[0].actual, p) + RefsInActuals(pas[1..], p)
  }

  function References(v: View, p: Name): seq<Reference> {
    RefsInProcesses(v.processes, p) + RefsIn(v.globals, p) + RefsInActuals(v.portAssigns, p)
  }

  predicate CountsAsRead(r: Reference) {
    !r.inLeftHandSide && (!r.inPortAssign || !r.isTerminal)
  }

  predicate NeedsFix(list: seq<Reference>) {
    exists k :: 0 <= k < |list| && CountsAsRead(list[k])
  }

  method NeedFix(list: seq<Reference>) returns (b: bool)
    ensures b == NeedsFix(list)
    ensures b <==> exists r :: r in list && !r.inLeftHandSide && !(r.inPortAssign && r.isTerminal)
  {
    for k := 0 to |list|
      invariant forall j :: 0 <= j < k ==> !CountsAsRead(list[j])
    {
      if list[k].inLeftHandSide {
        continue;
      }
      if !list[k].inPortAssign {
        return true;
      }
      if list[k].isTerminal {
        continue;
      }
      return true;
    }
    return false;
  }

  // ---------------------------------------------------------------- reads

  predicate Reading(es: seq<Expr>, n: Name) {
    exists k :: 0 <= k < |es| && n in Reads(es[k])
  }

  /** A name read by a statement: in a right-hand side, a condition or the index of a target. */
  predicate OccursIn(ss: seq<Stmt>, q: Name)
    decreases ss, 0
  {
    |ss| != 0 && (OccursInStmt(ss[0], q) || OccursIn(ss[1..], q))
  }

  predicate OccursInStmt(s: Stmt, q: Name)
    decreases s, 1
  {
    match s
    case Assign(t, rhs) => q in Reads(rhs) || (t.Element? && q in Reads(t.i))
    case If(alts, els) => OccursInAlts(alts, q) || OccursIn(els, q)
  }

  predicate OccursInAlts(alts: seq<IfAlt>, q: Name)
    decreases alts, 0
  {
    |alts| != 0 && (q in Reads(alts[0].cond) || OccursIn(alts[0].actions, q) || OccursInAlts(alts[1..], q))
  }

  predicate OccursInProcess(p: Process, q: Name) {
    Reading(p.sensitivity, q) || Reading(p.sensitivityPos, q) || Reading(p.sensitivityNeg, q) || OccursIn(p.body, q)
  }

  /** The name occurs in an actual other than as its root. */
  predicate OccursInside(e: Expr, q: Name) {
    match e
    case Ref(_) => false
    case Index(_, i) => q in Reads(i)
    case _ => q in Reads(e)
  }

  /** The view reads the name: in a process, a global action or inside an actual. */
  predicate ReadIn(v: View, q: Name) {
    || (exists k :: 0 <= k < |v.processes| && OccursInProcess(v.processes[k], q))
    || OccursIn(v.globals, q)
    || (exists k :: 0 <= k < |v.portAssigns| && OccursInside(v.portAssigns[k].actual, q))
  }

  lemma NeedsFixConcat(a: seq<Reference>, b: seq<Reference>)
    ensures NeedsFix(a + b) <==> NeedsFix(a) || NeedsFix(b)
  {
    var all := a + b;
    if NeedsFix(a) {
      var k :| 0 <= k < |a| && CountsAsRead(a[k]);
      assert CountsAsRead(all[k]);
    }
    if NeedsFix(b) {
      var k :| 0 <= k < |b| && CountsAsRead(b[k]);
      assert CountsAsRead(all[|a| + k]);
    }
  }

  lemma NeedsFixOne(r: Reference)
    ensures NeedsFix([r]) <==> !r.inLeftHandSide && !(r.inPortAssign && r.isTerminal)
    ensures !NeedsFix([])
  {
    assert [r][0] == r;
  }

  lemma {:induction false} ExprCounted(e: Expr, q: Name, r: Reference)
    requires !r.inLeftHandSide && !r.isTerminal
    ensures NeedsFix(RefsInExpr(e, q, r)) <==> q in Reads(e)
  {
    NeedsFixOne(r);
    match e
    case Lit(_) =>
    case Ref(_) =>
    case Index(n, i) =>
      ExprCounted(i, q, r);
      NeedsFixConcat(if n == q then [r] else [], RefsInExpr(i, q, r));
    case EdgeCall(_, _) =>
    case Unary(_, e1) => ExprCounted(e1, q, r);
    case Binary(_, l, rr) =>
      ExprCounted(l, q, r);
      ExprCounted(rr, q, r);
      NeedsFixConcat(RefsInExpr(l, q, r), RefsInExpr(rr, q, r));
  }

  lemma TargetCounted(t: Target, q: Name)
    ensures NeedsFix(RefsInTarget(t, q)) <==> t.Element? && q in Reads(t.i)
  {
    NeedsFixOne(Reference(true, false, false));
    var root := if t.n == q then [Reference(true, false, false)] else [];
    if t.Element? {
      ExprCounted(t.i, q, READ);
      NeedsFixConcat(root, RefsInExpr(t.i, q, READ));
    } else {
      assert root + [] == root;
    }
  }

  lemma {:induction false} SeqCounted(ss: seq<Stmt>, q: Name)
    ensures NeedsFix(RefsIn(ss, q)) <==> OccursIn(ss, q)
    decreases ss, 0
  {
    if |ss| != 0 {
      StmtCounted(ss[0], q);
      SeqCounted(ss[1..], q);
      NeedsFixConcat(RefsOf(ss[0], q), RefsIn(ss[1..], q));
    }
  }

  lemma {:induction false} StmtCounted(s: Stmt, q: Name)
    ensures NeedsFix(RefsOf(s, q)) <==> OccursInStmt(s, q)
    decreases s, 1
  {
    match s
    case Assign(t, rhs) =>
      TargetCounted(t, q);
      ExprCounted(rhs, q, READ);
      NeedsFixConcat(RefsInTarget(t, q), RefsInExpr(rhs, q, READ));
    case If(alts, els) =>
      AltsCounted(alts, q);
      SeqCounted(els, q);
      NeedsFixConcat(RefsInAlts(alts, q), RefsIn(els, q));
  }

  lemma {:induction false} AltsCounted(alts: seq<IfAlt>, q: Name)
    ensures NeedsFix(RefsInAlts(alts, q)) <==> OccursInAlts(alts, q)
    decreases alts, 0
  {
    if |alts| != 0 {
      var cond, actions := RefsInExpr(alts[0].cond, q, READ), RefsIn(alts[0].actions, q);
      ExprCounted(alts[0].cond, q, READ);
      SeqCounted(alts[0].actions, q);
      AltsCounted(alts[1..], q);
      NeedsFixConcat(cond, actions);
      NeedsFixConcat(cond + actions, RefsInAlts(alts[1..], q));
    }
  }

  lemma {:induction false} ListCounted(es: seq<Expr>, q: Name)
    ensures NeedsFix(RefsInList(es, q)) <==> Reading(es, q)
  {
    if |es| != 0 {
      ExprCounted(es[0], q, READ);
      ListCounted(es[1..], q);
      NeedsFixConcat(RefsInExpr(es[0], q, READ), RefsInList(es[1..], q));
      FirstOf(es, e => q in Reads(e));
    }
  }

  lemma FirstOf<T>(es: seq<T>, f: T -> bool)
    requires |es| > 0
    ensures (exists k :: 0 <= k < |es| && f(es[k])) <==> f(es[0]) || exists k :: 0 <= k < |es[1..]| && f(es[1..][k])
  {
    assert forall k :: 0 < k < |es| ==> es[k] == es[1..][k - 1];
    assert forall k :: 0 <= k < |es[1..]| ==> es[1..][k] == es[k + 1];
  }

  lemma {:induction false} ProcessesCounted(ps: seq<Process>, q: Name)
    ensures NeedsFix(RefsInProcesses(ps, q)) <==> exists k :: 0 <= k < |ps| && OccursInProcess(ps[k], q)
  {
    if |ps| != 0 {
      var l1, l2 := RefsInList(ps[0].sensitivity, q), RefsInList(ps[0].sensitivityPos, q);
      var l3, body := RefsInList(ps[0].sensitivityNeg, q), RefsIn(ps[0].body, q);
      ListCounted(ps[0].sensitivity, q);
      ListCounted(ps[0].sensitivityPos, q);
      ListCounted(ps[0].sensitivityNeg, q);
      SeqCounted(ps[0].body, q);
      NeedsFixConcat(l1, l2);
      NeedsFixConcat(l1 + l2, l3);
      NeedsFixConcat(l1 + l2 + l3, body);
      NeedsFixConcat(l1 + l2 + l3 + body, RefsInProcesses(ps[1..], q));
      ProcessesCounted(ps[1..], q);
      FirstOf(ps, p => OccursInProcess(p, q));
    }
  }

  lemma ActualCounted(e: Expr, q: Name)
    ensures NeedsFix(RefsInActual(e, q)) <==> OccursInside(e, q)
  {
    NeedsFixOne(Reference(false, true, true));
    match e
    case Ref(_) =>
    case Index(n, i) =>
      ExprCounted(i, q, Reference(false, true, false));
      NeedsFixConcat(if n == q then [Reference(false, true, true)] else [],
                     RefsInExpr(i, q, Reference(false, true, false)));
    case _ => ExprCounted(e, q, Reference(false, true, false));
  }

  lemma {:induction false} ActualsCounted(pas: seq<PortAssign>, q: Name)
    ensures NeedsFix(RefsInActuals(pas, q)) <==> exists k :: 0 <= k < |pas| && OccursInside(pas[k].actual, q)
  {
    if |pas| != 0 {
      ActualCounted(pas[0].actual, q);
      ActualsCounted(pas[1..], q);
      NeedsFixConcat(RefsInActual(pas[0].actual, q), RefsInActuals(pas[1..], q));
      FirstOf(pas, (pa: PortAssign) => OccursInside(pa.actual, q));
    }
  }

  /** Some reference counts for the pass exactly when the view reads the name. */
  lemma ReadsCounted(v: View, q: Name)
    ensures NeedsFix(References(v, q)) <==> ReadIn(v, q)
  {
    ProcessesCounted(v.processes, q);
    SeqCounted(v.globals, q);
    ActualsCounted(v.portAssigns, q);
    NeedsFixConcat(RefsInProcesses(v.processes, q), RefsIn(v.globals, q));
    NeedsFixConcat(RefsInProcesses(v.processes, q) + RefsIn(v.globals, q), RefsInActuals(v.portAssigns, q));
  }

  // ---------------------------------------------------------------- renaming

  function RenName(n: Name, p: Name, sig: Name): Name {
    if n == p then sig else n
  }

  function RenExpr(e: Expr, p: Name, sig: Name): Expr {
    match e
    case Lit(_) => e
    case Ref(n) => Ref(RenName(n, p, sig))
    case Index(n, i) => Index(RenName(n, p, sig), RenExpr(i, p, sig))
    case EdgeCall(f, n) => EdgeCall(f, RenName(n, p, sig))
    case Unary(op, e1) => Unary(op, RenExpr(e1, p, sig))
    case Binary(op, l, r) => Binary(op, RenExpr(l, p, sig), RenExpr(r, p, sig))
  }

  function RenTarget(t: Target, p: Name, sig: Name): Target {
    match t
    case Whole(n) => Whole(RenName(n, p, sig))
    case Element(n, i) => Element(RenName(n, p, sig), RenExpr(i, p, sig))
  }

  function RenSeq(ss: seq<Stmt>, p: Name, sig: Name): (r: seq<Stmt>)
    ensures |r| == |ss| && forall k :: 0 <= k < |ss| ==> r[k].Assign? == ss[k].Assign?
    decreases ss, 0
  {
    if |ss| == 0 then [] else [RenStmt(ss[0], p, sig)] + RenSeq(ss[1..], p, sig)
  }

  function RenStmt(s: Stmt, p: Name, sig: Name): Stmt
    decreases s, 1
  {
    match s
    case Assign(t, rhs) => Assign(RenTarget(t, p, sig), RenExpr(rhs, p, sig))
    case If(alts, els) => If(RenAlts(alts, p, sig), RenSeq(els, p, sig))
  }

  function RenAlts(alts: seq<IfAlt>, p: Name, sig: Name): seq<IfAlt>
    decreases alts, 0
  {
    if |alts| == 0 then []
    else [IfAlt(RenExpr(alts[0].cond, p, sig), RenSeq(alts[0].actions, p, sig))] + RenAlts(alts[1..], p, sig)
  }

  function RenList(es: seq<Expr>, p: Name, sig: Name): (r: seq<Expr>)
    ensures |r| == |es| && forall k :: 0 <= k < |es| ==> r[k] == RenExpr(es[k], p, sig)
  {
    if |es| == 0 then [] else [RenExpr(es[0], p, sig)] + RenList(es[1..], p, sig)
  }

  function RenProcess(q: Process, p: Name, sig: Name): Process {
    Process(RenList(q.sensitivity, p, sig), RenList(q.sensitivityPos, p, sig), RenList(q.sensitivityNeg, p, sig),
            RenSeq(q.body, p, sig))
  }

  function RenProcesses(ps: seq<Process>, p: Name, sig: Name): seq<Process> {
    if |ps| == 0 then [] else [RenProcess(ps[0], p, sig)] + RenProcesses(ps[1..], p, sig)
  }

  function RenPortAssigns(pas: seq<PortAssign>, p: Name, sig: Name): seq<PortAssign> {
    if |pas| == 0 then [] else [pas[0].(actual := RenExpr(pas[0].actual, p, sig))] + RenPortAssigns(pas[1..], p, sig)
  }

  // ---------------------------------------------------------------- the pass

  /** A signal that starts at the port's value, if it has one. */
  function WithShadow(s: Store, p: Name, sig: Name): Store {
    if p in s then s[sig := s[p]] else s
  }

  /** Declares the shadow signal, renames every reference, and assigns the port from the signal. */
  function Shadowed(v: View, p: Name, sig: Name): (r: View)
    ensures AssignsOnly(v.globals) ==> AssignsOnly(r.globals)
  {
    View(v.ports,
         v.decls[sig := SignalDecl],
         WithShadow(v.initial, p, sig),
         RenProcesses(v.processes, p, sig),
         RenSeq(v.globals, p, sig) + [Assign(Whole(p), Ref(sig))],
         RenPortAssigns(v.portAssigns, p, sig))
  }

  function FixPort(v: View, p: Port, sig: Name): (r: View)
    ensures AssignsOnly(v.globals) ==> AssignsOnly(r.globals)
  {
    if p.dir.Out? && NeedsFix(References(v, p.name)) then Shadowed(v, p.name, sig) else v
  }

  /** shadow gives the fresh name of each port's signal. */
  function FixPorts(v: View, ports: seq<Port>, shadow: Name -> Name): (r: View)
    ensures AssignsOnly(v.globals) ==> AssignsOnly(r.globals)
    decreases |ports|
  {
    if |ports| == 0 then v else FixPorts(FixPort(v, ports[0], shadow(ports[0].name)), ports[1..], shadow)
  }

  class Architecture {
    var view: View

    constructor (v: View)
      ensures view == v
    {
      view := v;
    }

    method DoFix(p: Name, sig: Name)
      modifies this
      ensures view == Shadowed(old(view), p, sig)
      ensures p != sig ==> !ReadIn(view, p)
      ensures forall q :: q != p && p != sig && q != sig ==> (ReadIn(view, q) <==> ReadIn(old(view), q))
    {
      forall q | p != sig && q != sig
        ensures ReadIn(Shadowed(view, p, sig), q) <==> q != p && ReadIn(view, q)
      {
        ShadowedReferences(view, p, sig, q);
      }
      view := view.(decls := view.decls[sig := SignalDecl], initial := WithShadow(view.initial, p, sig));
      view := view.(processes := RenProcesses(view.processes, p, sig),
                    globals := RenSeq(view.globals, p, sig),
                    portAssigns := RenPortAssigns(view.portAssigns, p, sig));
      view := view.(globals := view.globals + [Assign(Whole(p), Ref(sig))]);
    }

    method VisitPort(p: Port, sig: Name)
      modifies this
      ensures view == FixPort(old(view), p, sig)
      ensures view == if p.dir == Out && ReadIn(old(view), p.name) then Shadowed(old(view), p.name, sig) else old(view)
    {
      ReadsCounted(view, p.name);
      if !p.dir.Out? {
        return;
      }
      var need := NeedFix(References(view, p.name));
      if !need {
        return;
      }
      DoFix(p.name, sig);
    }

    method FixReadOutPorts(ports: seq<Port>, shadow: Name -> Name)
      modifies this
      ensures view == FixPorts(old(view), ports, shadow)
    {
      for i := 0 to |ports|
        invariant FixPorts(old(view), ports, shadow) == FixPorts(view, ports[i..], shadow)
      {
        VisitPort(ports[i], shadow(ports[i].name));
        assert ports[i..][1..] == ports[i + 1..];
      }
    }
  }

  // ---------------------------------------------------------------- what is read afterwards

  /** References to q after p has been renamed to sig: none to p, the same to any other name. */
  function After(list: seq<Reference>, q: Name, p: Name): seq<Reference> {
    if q == p then [] else list
  }

  lemma {:induction false} RefsRenExpr(e: Expr, p: Name, sig: Name, q: Name, r: Reference)
    requires p != sig && q != sig
    ensures RefsInExpr(RenExpr(e, p, sig), q, r) == After(RefsInExpr(e, q, r), q, p)
  {
    match e
    case Lit(_) =>
    case Ref(_) =>
    case Index(_, i) => RefsRenExpr(i, p, sig, q, r);
    case EdgeCall(_, _) =>
    case Unary(_, e1) => RefsRenExpr(e1, p, sig, q, r);
    case Binary(_, l, rr) =>
      RefsRenExpr(l, p, sig, q, r);
      RefsRenExpr(rr, p, sig, q, r);
  }

  lemma {:induction false} RefsRenSeq(ss: seq<Stmt>, p: Name, sig: Name, q: Name)
    requires p != sig && q != sig
    ensures RefsIn(RenSeq(ss, p, sig), q) == After(RefsIn(ss, q), q, p)
    decreases ss, 0
  {
    if |ss| != 0 {
      RefsRenStmt(ss[0], p, sig, q);
      RefsRenSeq(ss[1..], p, sig, q);
      assert RenSeq(ss, p, sig)[1..] == RenSeq(ss[1..], p, sig);
    }
  }

  lemma {:induction false} RefsRenStmt(s: Stmt, p: Name, sig: Name, q: Name)
    requires p != sig && q != sig
    ensures RefsOf(RenStmt(s, p, sig), q) == After(RefsOf(s, q), q, p)
    decreases s, 1
  {
    match s
    case Assign(t, rhs) =>
      RefsRenExpr(rhs, p, sig, q, READ);
      if t.Element? {
        RefsRenExpr(t.i, p, sig, q, READ);
      }
    case If(alts, els) =>
      RefsRenAlts(alts, p, sig, q);
      RefsRenSeq(els, p, sig, q);
  }

  lemma {:induction false} RefsRenAlts(alts: seq<IfAlt>, p: Name, sig: Name, q: Name)
    requires p != sig && q != sig
    ensures RefsInAlts(RenAlts(alts, p, sig), q) == After(RefsInAlts(alts, q), q, p)
    decreases alts, 0
  {
    if |alts| != 0 {
      RefsRenExpr(alts[0].cond, p, sig, q, READ);
      RefsRenSeq(alts[0].actions, p, sig, q);
      RefsRenAlts(alts[1..], p, sig, q);
      assert RenAlts(alts, p, sig)[1..] == RenAlts(alts[1..], p, sig);
    }
  }

  lemma {:induction false} RefsRenList(es: seq<Expr>, p: Name, sig: Name, q: Name)
    requires p != sig && q != sig
    ensures RefsInList(RenList(es, p, sig), q) == After(RefsInList(es, q), q, p)
  {
    if |es| != 0 {
      RefsRenExpr(es[0], p, sig, q, READ);
      RefsRenList(es[1..], p, sig, q);
      assert RenList(es, p, sig)[1..] == RenList(es[1..], p, sig);
    }
  }

  lemma {:induction false} RefsRenProcesses(ps: seq<Process>, p: Name, sig: Name, q: Name)
    requires p != sig && q != sig
    ensures RefsInProcesses(RenProcesses(ps, p, sig), q) == After(RefsInProcesses(ps, q), q, p)
  {
    if |ps| != 0 {
      RefsRenList(ps[0].sensitivity, p, sig, q);
      RefsRenList(ps[0].sensitivityPos, p, sig, q);
      RefsRenList(ps[0].sensitivityNeg, p, sig, q);
      RefsRenSeq(ps[0].body, p, sig, q);
      RefsRenProcesses(ps[1..], p, sig, q);
      assert RenProcesses(ps, p, sig)[1..] == RenProcesses(ps[1..], p, sig);
    }
  }

  lemma {:induction false} RefsRenActuals(pas: seq<PortAssign>, p: Name, sig: Name, q: Name)
    requires p != sig && q != sig
    ensures RefsInActuals(RenPortAssigns(pas, p, sig), q) == After(RefsInActuals(pas, q), q, p)
  {
    if |pas| != 0 {
      var e := pas[0].actual;
      RefsRenExpr(e, p, sig, q, Reference(false, true, false));
      if e.Index? {
        RefsRenExpr(e.i, p, sig, q, Reference(false, true, false));
      }
      RefsRenActuals(pas[1..], p, sig, q);
      assert RenPortAssigns(pas, p, sig)[1..] == RenPortAssigns(pas[1..], p, sig);
    }
  }

  lemma {:induction false} RefsInConcat(a: seq<Stmt>, b: seq<Stmt>, q: Name)
    ensures RefsIn(a + b, q) == RefsIn(a, q) + RefsIn(b, q)
  {
    if |a| == 0 {
      assert a + b == b;
    } else {
      assert (a + b)[1..] == a[1..] + b;
      RefsInConcat(a[1..], b, q);
    }
  }

  lemma ShadowedReferences(v: View, p: Name, sig: Name, q: Name)
    requires p != sig && q != sig
    ensures ReadIn(Shadowed(v, p, sig), q) <==> q != p && ReadIn(v, q)
  {
    var w := Shadowed(v, p, sig);
    var mirror := Assign(Whole(p), Ref(sig));
    RefsRenProcesses(v.processes, p, sig, q);
    RefsRenSeq(v.globals, p, sig, q);
    RefsRenActuals(v.portAssigns, p, sig, q);
    RefsInConcat(RenSeq(v.globals, p, sig), [mirror], q);
    SeqCounted([mirror], q);
    assert [mirror][1..] == [] && !OccursIn([mirror], q);
    NeedsFixConcat(RefsIn(RenSeq(v.globals, p, sig), q), RefsIn([mirror], q));
    ReadsByPart(w, q);
    ReadsByPart(v, q);
  }

  lemma ReadsByPart(v: View, q: Name)
    ensures ReadIn(v, q) <==>
            || NeedsFix(RefsInProcesses(v.processes, q))
            || NeedsFix(RefsIn(v.globals, q))
            || NeedsFix(RefsInActuals(v.portAssigns, q))
  {
    ProcessesCounted(v.processes, q);
    SeqCounted(v.globals, q);
    ActualsCounted(v.portAssigns, q);
  }

  predicate Roots(e: Expr, q: Name) {
    (e.Ref? || e.Index?) && e.n == q
  }

  /** The port feeds an input of an instance: a read that a whole-actual association hides from the pass. */
  predicate FeedsInstance(pas: seq<PortAssign>, q: Name) {
    exists k :: 0 <= k < |pas| && !pas[k].formal.Out? && Roots(pas[k].actual, q)
  }

  lemma {:induction false} RenPortAssignsAt(pas: seq<PortAssign>, p: Name, sig: Name)
    ensures |RenPortAssigns(pas, p, sig)| == |pas|
    ensures forall k :: 0 <= k < |pas| ==>
              RenPortAssigns(pas, p, sig)[k] == pas[k].(actual := RenExpr(pas[k].actual, p, sig))
  {
    if |pas| != 0 {
      RenPortAssignsAt(pas[1..], p, sig);
    }
  }

  lemma ShadowedFeeds(v: View, p: Name, sig: Name, q: Name)
    requires p != sig && q != sig
    ensures FeedsInstance(Shadowed(v, p, sig).portAssigns, q) <==> q != p && FeedsInstance(v.portAssigns, q)
  {
    RenPortAssignsAt(v.portAssigns, p, sig);
    var pas := RenPortAssigns(v.portAssigns, p, sig);
    if k :| 0 <= k < |v.portAssigns| && !v.portAssigns[k].formal.Out? && Roots(v.portAssigns[k].actual, q) && q != p {
      assert Roots(pas[k].actual, q) && !pas[k].formal.Out?;
    }
    if k :| 0 <= k < |pas| && !pas[k].formal.Out? && Roots(pas[k].actual, q) {
      assert Roots(v.portAssigns[k].actual, q);
    }
  }

  /** The shadow names are new: no port has one. */
  predicate ShadowsAreNew(ports: seq<Port>, shadow: Name -> Name) {
    forall j, k :: 0 <= j < |ports| && 0 <= k < |ports| ==> shadow(ports[j].name) != ports[k].name
  }

  predicate IsOutPort(ports: seq<Port>, q: Name) {
    exists k :: 0 <= k < |ports| && ports[k].dir.Out? && ports[k].name == q
  }

  lemma FirstOutPort(ports: seq<Port>, q: Name)
    requires |ports| > 0
    ensures IsOutPort(ports, q) <==> (ports[0].dir.Out? && ports[0].name == q) || IsOutPort(ports[1..], q)
  {
    if k :| 1 <= k < |ports| && ports[k].dir.Out? && ports[k].name == q {
      assert ports[1..][k - 1] == ports[k];
    }
    if k :| 0 <= k < |ports[1..]| && ports[1..][k].dir.Out? && ports[1..][k].name == q {
      assert ports[k + 1] == ports[1..][k];
    }
  }

  /** What fixing one port does to the reads of any name. */
  lemma FixPortReads(v: View, p: Port, sig: Name, q: Name)
    requires sig != p.name && sig != q
    ensures var w := FixPort(v, p, sig);
            var fixed := p.dir == Out && p.name == q;
            && (ReadIn(w, q) <==> !fixed && ReadIn(v, q))
            && (FeedsInstance(w.portAssigns, q) <==> FeedsInstance(v.portAssigns, q) && !(fixed && ReadIn(v, q)))
  {
    ReadsCounted(v, p.name);
    if p.dir.Out? && ReadIn(v, p.name) {
      ShadowedReferences(v, p.name, sig, q);
      ShadowedFeeds(v, p.name, sig, q);
    }
  }

  lemma {:induction false} FixPortsReads(v: View, ports: seq<Port>, shadow: Name -> Name, q: Name)
    requires forall j :: 0 <= j < |ports| ==> shadow(ports[j].name) != ports[j].name && shadow(ports[j].name) != q
    ensures var w := FixPorts(v, ports, shadow);
            && (ReadIn(w, q) <==> !IsOutPort(ports, q) && ReadIn(v, q))
            && (FeedsInstance(w.portAssigns, q) <==>
                FeedsInstance(v.portAssigns, q) && !(IsOutPort(ports, q) && ReadIn(v, q)))
    decreases |ports|
  {
    if |ports| != 0 {
      var sig := shadow(ports[0].name);
      FixPortReads(v, ports[0], sig, q);
      FixPortsReads(FixPort(v, ports[0], sig), ports[1..], shadow, q);
      FirstOutPort(ports, q);
    }
  }

  /**
   After the pass no out port is read: it occurs in no right-hand side, condition, index, sensitivity
   list or edge test, and in no actual but as its root. As the root of an instance's input it is
   still there exactly when it was read nowhere else, since the pass takes that for a connection.
   */
  lemma {:induction false} StillRead(v: View, ports: seq<Port>, shadow: Name -> Name, q: Name)
    requires ShadowsAreNew(ports, shadow) && IsOutPort(ports, q)
    ensures var w := FixPorts(v, ports, shadow);
            && !ReadIn(w, q)
            && (FeedsInstance(w.portAssigns, q) <==> FeedsInstance(v.portAssigns, q) && !ReadIn(v, q))
  {
    FixPortsReads(v, ports, shadow, q);
  }

  /** A view whose out port drives an instance's input and is read nowhere else. */
  function FeedingView(q: Name): View {
    View([Port(q, Out)], map[q := PortDecl], map[], [], [], [PortAssign(In, Ref(q))])
  }

  /** There the pass leaves the read in place. */
  lemma {:induction false} FeedingStillRead(q: Name, shadow: Name -> Name)
    requires ShadowsAreNew([Port(q, Out)], shadow)
    ensures FeedsInstance(FixPorts(FeedingView(q), [Port(q, Out)], shadow).portAssigns, q)
  {
    var v := FeedingView(q);
    var pa := PortAssign(In, Ref(q));
    assert [pa][1..] == [] && [pa][0] == pa && [Port(q, Out)][0] == Port(q, Out);
    assert !ReadIn(v, q);
    assert Roots(v.portAssigns[0].actual, q);
    StillRead(v, [Port(q, Out)], shadow, q);
  }

  lemma {:induction false} NothingToFix(v: View, ports: seq<Port>, shadow: Name -> Name)
    requires forall k :: 0 <= k < |ports| && ports[k].dir.Out? ==> !ReadIn(v, ports[k].name)
    ensures FixPorts(v, ports, shadow) == v
    decreases |ports|
  {
    if |ports| != 0 {
      ReadsCounted(v, ports[0].name);
      assert ports[0].dir.Out? ==> !ReadIn(v, ports[0].name);
      forall k | 0 <= k < |ports[1..]| && ports[1..][k].dir.Out?
        ensures !ReadIn(v, ports[1..][k].name)
      {
        assert ports[1..][k] == ports[k + 1];
      }
      NothingToFix(v, ports[1..], shadow);
    }
  }

  /** A second pass, with whatever fresh names, changes nothing. */
  lemma {:induction false} FixIsFinal(v: View, ports: seq<Port>, shadow: Name -> Name, again: Name -> Name)
    requires ShadowsAreNew(ports, shadow)
    ensures FixPorts(FixPorts(v, ports, shadow), ports, again) == FixPorts(v, ports, shadow)
  {
    var w := FixPorts(v, ports, shadow);
    forall k | 0 <= k < |ports| && ports[k].dir.Out?
      ensures !ReadIn(w, ports[k].name)
    {
      StillRead(v, ports, shadow, ports[k].name);
    }
    NothingToFix(w, ports, again);
  }

  // ---------------------------------------------------------------- delta cycles

  /** What all processes write in one delta cycle; each name has one driver. */
  function AllWrites(ps: seq<Process>, d: Decls, prev: Store, cur: Store): Store {
    if |ps| == 0 then map[] else Reaction(ps[0], d, prev, cur) + AllWrites(ps[1..], d, prev, cur)
  }

  /** At initialisation every process runs once, with no event. */
  function FirstWrites(ps: seq<Process>, d: Decls, s0: Store): Store {
    if |ps| == 0 then map[] else Writes(ps[0].body, d, s0, s0) + FirstWrites(ps[1..], d, s0)
  }

  function NamesRead(e: Expr): seq<Name> {
    match e
    case Lit(_) => []
    case Ref(n) => [n]
    case Index(n, i) => [n] + NamesRead(i)
    case EdgeCall(_, n) => [n]
    case Unary(_, e1) => NamesRead(e1)
    case Binary(_, l, r) => NamesRead(l) + NamesRead(r)
  }

  function RefsTo(ns: seq<Name>): seq<Expr> {
    if |ns| == 0 then [] else [Ref(ns[0])] + RefsTo(ns[1..])
  }

  /** A global action is a process sensitive to what it reads. */
  function Concurrent(s: Stmt): Process
    requires s.Assign?
  {
    Process(RefsTo((if s.target.Element? then NamesRead(s.target.i) else []) + NamesRead(s.rhs)), [], [], [s])
  }

  function ConcurrentAll(globals: seq<Stmt>): seq<Process>
    requires forall k :: 0 <= k < |globals| ==> globals[k].Assign?
  {
    if |globals| == 0 then [] else [Concurrent(globals[0])] + ConcurrentAll(globals[1..])
  }

  predicate AssignsOnly(globals: seq<Stmt>) {
    forall k :: 0 <= k < |globals| ==> globals[k].Assign?
  }

  function AllProcesses(v: View): seq<Process>
    requires AssignsOnly(v.globals)
  {
    v.processes + ConcurrentAll(v.globals)
  }

  /** The stores of two delta cycles that follow one another: the change between them is the event. */
  datatype History = History(prev: Store, cur: Store)

  /** At initialisation every process runs once; the stimulus drives the inputs. */
  function Initialised(ps: seq<Process>, d: Decls, stimulus: nat -> Store, s0: Store): History {
    History(s0, s0 + FirstWrites(ps, d, s0) + stimulus(0))
  }

  function Advanced(ps: seq<Process>, d: Decls, stimulus: nat -> Store, i: nat, h: History): History {
    History(h.cur, h.cur + AllWrites(ps, d, h.prev, h.cur) + stimulus(i + 1))
  }

  function Iterated(step: (nat, History) -> History, h: History, k: nat): History {
    if k == 0 then h else step(k - 1, Iterated(step, h, k - 1))
  }

  /** Cycles k and k + 1. */
  function Delta(ps: seq<Process>, d: Decls, stimulus: nat -> Store, s0: Store, k: nat): History {
    Iterated((i: nat, h: History) => Advanced(ps, d, stimulus, i, h), Initialised(ps, d, stimulus, s0), k)
  }

  function Cell(s: Store, n: Name): Option<Value> {
    if n in s then Some(s[n]) else None
  }

  /** Stores of the two designs: the same but for the port, whose value the shadow holds. */
  ghost predicate Shadows(s: Store, t: Store, p: Name, sig: Name) {
    sig !in s && forall n :: n != sig ==> Cell(t, RenName(n, p, sig)) == Cell(s, n)
  }

  /** The same of what is written; the port itself is not. */
  ghost predicate WritesAlike(w: Store, w': Store, p: Name, sig: Name) {
    Shadows(w, w', p, sig) && p !in w'
  }

  ghost predicate FramesAlike(f: Frame, f': Frame, p: Name, sig: Name) {
    WritesAlike(f.vars, f'.vars, p, sig) && WritesAlike(f.pending, f'.pending, p, sig)
  }

  lemma Overlay(c: Store, c': Store, v: Store, v': Store, p: Name, sig: Name)
    requires p != sig && Shadows(c, c', p, sig) && WritesAlike(v, v', p, sig)
    ensures Shadows(c + v, c' + v', p, sig)
    ensures p !in c' ==> p !in c' + v'
  {
    forall n | n != sig
      ensures Cell(c' + v', RenName(n, p, sig)) == Cell(c + v, n)
    {
      assert Cell(c', RenName(n, p, sig)) == Cell(c, n);
      assert Cell(v', RenName(n, p, sig)) == Cell(v, n);
    }
  }

  lemma GetAlike(c: Store, c': Store, n: Name, p: Name, sig: Name)
    requires Shadows(c, c', p, sig) && n != sig
    ensures Get(c', RenName(n, p, sig)) == Get(c, n)
  {
    assert Cell(c', RenName(n, p, sig)) == Cell(c, n);
  }

  lemma {:induction false} RenEval(e: Expr, c: Store, o: Store, c': Store, o': Store, p: Name, sig: Name)
    requires sig !in Reads(e) && Shadows(c, c', p, sig) && Shadows(o, o', p, sig)
    ensures Eval(RenExpr(e, p, sig), c', o') == Eval(e, c, o)
  {
    match e
    case Lit(_) =>
    case Ref(n) => GetAlike(c, c', n, p, sig);
    case Index(n, i) =>
      GetAlike(c, c', n, p, sig);
      RenEval(i, c, o, c', o', p, sig);
    case EdgeCall(_, n) =>
      GetAlike(c, c', n, p, sig);
      GetAlike(o, o', n, p, sig);
    case Unary(_, e1) => RenEval(e1, c, o, c', o', p, sig);
    case Binary(_, l, r) =>
      RenEval(l, c, o, c', o', p, sig);
      RenEval(r, c, o, c', o', p, sig);
  }

  /** Names a body mentions, read or written. */
  function Mentions(ss: seq<Stmt>): set<Name>
    decreases ss, 0
  {
    if |ss| == 0 then {} else MentionsOf(ss[0]) + Mentions(ss[1..])
  }

  function MentionsOf(s: Stmt): set<Name>
    decreases s, 1
  {
    match s
    case Assign(t, rhs) => {t.n} + (if t.Element? then Reads(t.i) else {}) + Reads(rhs)
    case If(alts, els) => MentionsInAlts(alts) + Mentions(els)
  }

  function MentionsInAlts(alts: seq<IfAlt>): set<Name>
    decreases alts, 0
  {
    if |alts| == 0 then {} else Reads(alts[0].cond) + Mentions(alts[0].actions) + MentionsInAlts(alts[1..])
  }

  predicate MentionedBy(q: Process, n: Name) {
    Reading(q.sensitivity, n) || Reading(q.sensitivityPos, n) || Reading(q.sensitivityNeg, n) || n in Mentions(q.body)
  }

  /** The shadow signal is new, and the port is not a variable. */
  predicate ShadowDeclared(d: Decls, d': Decls, p: Name, sig: Name) {
    p != sig && d' == d[sig := SignalDecl] && !IsVariable(d, p)
  }

  lemma RenBase(n: Name, d: Decls, d': Decls, c: Store, c': Store, f: Frame, f': Frame, p: Name, sig: Name)
    requires ShadowDeclared(d, d', p, sig) && n != sig && Shadows(c, c', p, sig) && FramesAlike(f, f', p, sig)
    ensures Base(RenName(n, p, sig), d', c', f') == Base(n, d, c, f)
  {
    Overlay(c, c', f.vars, f'.vars, p, sig);
    GetAlike(c + f.vars, c' + f'.vars, n, p, sig);
    GetAlike(c, c', n, p, sig);
    assert Cell(f'.pending, RenName(n, p, sig)) == Cell(f.pending, n);
  }

  lemma WriteAlike(w: Store, w': Store, n: Name, v: Value, p: Name, sig: Name)
    requires p != sig && n != sig && WritesAlike(w, w', p, sig)
    ensures WritesAlike(w[n := v], w'[RenName(n, p, sig) := v], p, sig)
  {
    forall m | m != sig
      ensures Cell(w'[RenName(n, p, sig) := v], RenName(m, p, sig)) == Cell(w[n := v], m)
    {
      assert Cell(w', RenName(m, p, sig)) == Cell(w, m);
    }
  }

  lemma RenWrite(n: Name, v: Value, d: Decls, d': Decls, f: Frame, f': Frame, p: Name, sig: Name)
    requires ShadowDeclared(d, d', p, sig) && n != sig && FramesAlike(f, f', p, sig)
    ensures FramesAlike(Write(n, v, d, f), Write(RenName(n, p, sig), v, d', f'), p, sig)
  {
    WriteAlike(f.vars, f'.vars, n, v, p, sig);
    WriteAlike(f.pending, f'.pending, n, v, p, sig);
  }

  lemma {:induction false} RenAssign(t: Target, rhs: Expr, d: Decls, d': Decls, c: Store, o: Store, c': Store,
                                     o': Store,
                  f: Frame, f': Frame, p: Name, sig: Name)
    requires ShadowDeclared(d, d', p, sig) && sig !in MentionsOf(Assign(t, rhs))
    requires Shadows(c, c', p, sig) && Shadows(o, o', p, sig) && FramesAlike(f, f', p, sig)
    ensures FramesAlike(ExecAssign(t, rhs, d, c, o, f),
                        ExecAssign(RenTarget(t, p, sig), RenExpr(rhs, p, sig), d', c', o', f'), p, sig)
  {
    var cv, cv' := c + f.vars, c' + f'.vars;
    Overlay(c, c', f.vars, f'.vars, p, sig);
    RenEval(rhs, cv, o, cv', o', p, sig);
    match t
    case Whole(n) => RenWrite(n, Eval(rhs, cv, o), d, d', f, f', p, sig);
    case Element(n, i) =>
      RenEval(i, cv, o, cv', o', p, sig);
      RenBase(n, d, d', c, c', f, f', p, sig);
      RenElement(n, IntOf(Eval(i, cv, o)), IntOf(Eval(rhs, cv, o)), Base(n, d, c, f), d, d', f, f', p, sig);
  }

  lemma RenElement(n: Name, k: int, x: int, b: Value, d: Decls, d': Decls, f: Frame, f': Frame, p: Name, sig: Name)
    requires ShadowDeclared(d, d', p, sig) && n != sig && FramesAlike(f, f', p, sig)
    ensures var v := if 0 <= k < |b| then b[k := x] else b;
            FramesAlike(Write(n, v, d, f), Write(RenName(n, p, sig), v, d', f'), p, sig)
  {
    RenWrite(n, if 0 <= k < |b| then b[k := x] else b, d, d', f, f', p, sig);
  }

  lemma {:induction false} RenChosen(alts: seq<IfAlt>, els: seq<Stmt>, c: Store, o: Store, c': Store, o': Store,
                                     p: Name, sig: Name)
    requires sig !in MentionsInAlts(alts) && Shadows(c, c', p, sig) && Shadows(o, o', p, sig)
    ensures Chosen(RenAlts(alts, p, sig), RenSeq(els, p, sig), c', o') == RenSeq(Chosen(alts, els, c, o), p, sig)
  {
    if |alts| != 0 {
      RenEval(alts[0].cond, c, o, c', o', p, sig);
      RenChosen(alts[1..], els, c, o, c', o', p, sig);
      assert RenAlts(alts, p, sig)[1..] == RenAlts(alts[1..], p, sig);
    }
  }

  lemma {:induction false} ChosenMentions(alts: seq<IfAlt>, els: seq<Stmt>, c: Store, o: Store)
    ensures Mentions(Chosen(alts, els, c, o)) <= MentionsInAlts(alts) + Mentions(els)
  {
    if |alts| != 0 {
      ChosenMentions(alts[1..], els, c, o);
    }
  }

  /** Running a renamed body on matching stores writes the same values, under the new name. */
  lemma {:induction false} RenExec(ss: seq<Stmt>, d: Decls, d': Decls, c: Store, o: Store, c': Store, o': Store,
                                   f: Frame, f': Frame, p: Name, sig: Name)
    requires ShadowDeclared(d, d', p, sig) && sig !in Mentions(ss)
    requires Shadows(c, c', p, sig) && Shadows(o, o', p, sig) && FramesAlike(f, f', p, sig)
    ensures FramesAlike(ExecSeq(ss, d, c, o, f), ExecSeq(RenSeq(ss, p, sig), d', c', o', f'), p, sig)
    decreases ss, 0
  {
    if |ss| != 0 {
      RenExecOne(ss[0], d, d', c, o, c', o', f, f', p, sig);
      assert RenSeq(ss, p, sig)[1..] == RenSeq(ss[1..], p, sig);
      RenExec(ss[1..], d, d', c, o, c', o', Exec(ss[0], d, c, o, f), Exec(RenStmt(ss[0], p, sig), d', c', o', f'), p,
        sig);
    }
  }

  lemma {:induction false} RenExecOne(s: Stmt, d: Decls, d': Decls, c: Store, o: Store, c': Store, o': Store,
                                      f: Frame, f': Frame, p: Name, sig: Name)
    requires ShadowDeclared(d, d', p, sig) && sig !in MentionsOf(s)
    requires Shadows(c, c', p, sig) && Shadows(o, o', p, sig) && FramesAlike(f, f', p, sig)
    ensures FramesAlike(Exec(s, d, c, o, f), Exec(RenStmt(s, p, sig), d', c', o', f'), p, sig)
    decreases s, 1
  {
    match s
    case Assign(t, rhs) => RenAssign(t, rhs, d, d', c, o, c', o', f, f', p, sig);
    case If(alts, els) =>
      var cv, cv' := c + f.vars, c' + f'.vars;
      Overlay(c, c', f.vars, f'.vars, p, sig);
      RenChosen(alts, els, cv, o, cv', o', p, sig);
      ChosenMentions(alts, els, cv, o);
      var branch := Chosen(alts, els, cv, o);
      assert branch == els || exists i :: 0 <= i < |alts| && branch == alts[i].actions;
      RenExec(branch, d, d', c, o, c', o', f, f', p, sig);
  }

  lemma RenWrites(body: seq<Stmt>, d: Decls, d': Decls, c: Store, o: Store, c': Store, o': Store, p: Name, sig: Name)
    requires ShadowDeclared(d, d', p, sig) && sig !in Mentions(body)
    requires Shadows(c, c', p, sig) && Shadows(o, o', p, sig)
    ensures WritesAlike(Writes(body, d, c, o), Writes(RenSeq(body, p, sig), d', c', o'), p, sig)
  {
    RenExec(body, d, d', c, o, c', o', EMPTY_FRAME, EMPTY_FRAME, p, sig);
    var f := ExecSeq(body, d, c, o, EMPTY_FRAME);
    var f' := ExecSeq(RenSeq(body, p, sig), d', c', o', EMPTY_FRAME);
    Overlay(f.vars, f'.vars, f.pending, f'.pending, p, sig);
  }

  lemma RenListWakes(es: seq<Expr>, o: Store, c: Store, o': Store, c': Store, p: Name, sig: Name)
    requires !Reading(es, sig) && Shadows(c, c', p, sig) && Shadows(o, o', p, sig)
    ensures var rs := RenList(es, p, sig);
            forall k :: 0 <= k < |es| ==>
              && Level(rs[k], o', c') == Level(es[k], o, c)
              && PosEdge(rs[k], o', c') == PosEdge(es[k], o, c)
              && NegEdge(rs[k], o', c') == NegEdge(es[k], o, c)
  {
    forall k | 0 <= k < |es|
      ensures Eval(RenExpr(es[k], p, sig), c', c') == Eval(es[k], c, c)
      ensures Eval(RenExpr(es[k], p, sig), o', o') == Eval(es[k], o, o)
    {
      RenEval(es[k], c, c, c', c', p, sig);
      RenEval(es[k], o, o, o', o', p, sig);
    }
  }

  lemma RenWakes(q: Process, o: Store, c: Store, o': Store, c': Store, p: Name, sig: Name)
    requires !MentionedBy(q, sig) && Shadows(c, c', p, sig) && Shadows(o, o', p, sig)
    ensures Wakes(RenProcess(q, p, sig), o', c') == Wakes(q, o, c)
  {
    RenListWakes(q.sensitivity, o, c, o', c', p, sig);
    RenListWakes(q.sensitivityPos, o, c, o', c', p, sig);
    RenListWakes(q.sensitivityNeg, o, c, o', c', p, sig);
    SameListsWake(q, RenProcess(q, p, sig), o, c, o', c');
  }

  lemma SameListsWake(q: Process, r: Process, o: Store, c: Store, o': Store, c': Store)
    requires |r.sensitivity| == |q.sensitivity| && |r.sensitivityPos| == |q.sensitivityPos|
             && |r.sensitivityNeg| == |q.sensitivityNeg|
    requires forall k :: 0 <= k < |q.sensitivity| ==> Level(r.sensitivity[k], o', c') == Level(q.sensitivity[k], o, c)
    requires forall k :: 0 <= k < |q.sensitivityPos| ==>
      PosEdge(r.sensitivityPos[k], o', c') == PosEdge(q.sensitivityPos[k], o, c)
    requires forall k :: 0 <= k < |q.sensitivityNeg| ==>
      NegEdge(r.sensitivityNeg[k], o', c') == NegEdge(q.sensitivityNeg[k], o, c)
    ensures Wakes(r, o', c') == Wakes(q, o, c)
  {
  }

  lemma RenReaction(q: Process, d: Decls, d': Decls, o: Store, c: Store, o': Store, c': Store, p: Name, sig: Name)
    requires ShadowDeclared(d, d', p, sig) && !MentionedBy(q, sig)
    requires Shadows(c, c', p, sig) && Shadows(o, o', p, sig)
    ensures WritesAlike(Reaction(q, d, o, c), Reaction(RenProcess(q, p, sig), d', o', c'), p, sig)
  {
    RenWakes(q, o, c, o', c', p, sig);
    RenWrites(q.body, d, d', c, o, c', o', p, sig);
  }

  predicate UnusedBy(ps: seq<Process>, n: Name) {
    forall k :: 0 <= k < |ps| ==> !MentionedBy(ps[k], n)
  }

  lemma {:induction false} RenAllWrites(ps: seq<Process>, d: Decls, d': Decls, o: Store, c: Store, o': Store,
                                        c': Store, p: Name, sig: Name)
    requires ShadowDeclared(d, d', p, sig) && UnusedBy(ps, sig)
    requires Shadows(c, c', p, sig) && Shadows(o, o', p, sig)
    ensures WritesAlike(AllWrites(ps, d, o, c), AllWrites(RenProcesses(ps, p, sig), d', o', c'), p, sig)
  {
    if |ps| != 0 {
      RenReaction(ps[0], d, d', o, c, o', c', p, sig);
      RenAllWrites(ps[1..], d, d', o, c, o', c', p, sig);
      var r := RenProcesses(ps, p, sig);
      assert r[0] == RenProcess(ps[0], p, sig) && r[1..] == RenProcesses(ps[1..], p, sig);
      Overlay(Reaction(ps[0], d, o, c), Reaction(r[0], d', o', c'), AllWrites(ps[1..], d, o, c),
        AllWrites(r[1..], d', o', c'), p, sig);
    }
  }

  lemma {:induction false} RenFirstWrites(ps: seq<Process>, d: Decls, d': Decls, s0: Store, t0: Store, p: Name,
                                          sig: Name)
    requires ShadowDeclared(d, d', p, sig) && UnusedBy(ps, sig) && Shadows(s0, t0, p, sig)
    ensures WritesAlike(FirstWrites(ps, d, s0), FirstWrites(RenProcesses(ps, p, sig), d', t0), p, sig)
  {
    if |ps| != 0 {
      RenWrites(ps[0].body, d, d', s0, s0, t0, t0, p, sig);
      RenFirstWrites(ps[1..], d, d', s0, t0, p, sig);
      var r := RenProcesses(ps, p, sig);
      assert r[0] == RenProcess(ps[0], p, sig) && r[1..] == RenProcesses(ps[1..], p, sig);
      Overlay(Writes(ps[0].body, d, s0, s0), Writes(r[0].body, d', t0, t0), FirstWrites(ps[1..], d, s0),
        FirstWrites(r[1..], d', t0), p, sig);
    }
  }

  // ---------------------------------------------------------------- global actions, renamed

  function RenNames(ns: seq<Name>, p: Name, sig: Name): seq<Name> {
    if |ns| == 0 then [] else [RenName(ns[0], p, sig)] + RenNames(ns[1..], p, sig)
  }

  lemma {:induction false} RenNamesConcat(a: seq<Name>, b: seq<Name>, p: Name, sig: Name)
    ensures RenNames(a + b, p, sig) == RenNames(a, p, sig) + RenNames(b, p, sig)
  {
    if |a| == 0 {
      assert a + b == b;
    } else {
      assert (a + b)[1..] == a[1..] + b;
      RenNamesConcat(a[1..], b, p, sig);
    }
  }

  lemma {:induction false} NamesRen(e: Expr, p: Name, sig: Name)
    ensures NamesRead(RenExpr(e, p, sig)) == RenNames(NamesRead(e), p, sig)
  {
    match e
    case Lit(_) =>
    case Ref(n) => assert [n][1..] == [];
    case Index(n, i) =>
      NamesRen(i, p, sig);
      assert ([n] + NamesRead(i))[1..] == NamesRead(i);
    case EdgeCall(_, n) => assert [n][1..] == [];
    case Unary(_, e1) => NamesRen(e1, p, sig);
    case Binary(_, l, r) =>
      NamesRen(l, p, sig);
      NamesRen(r, p, sig);
      RenNamesConcat(NamesRead(l), NamesRead(r), p, sig);
  }

  lemma {:induction false} RefsToRen(ns: seq<Name>, p: Name, sig: Name)
    ensures RefsTo(RenNames(ns, p, sig)) == RenList(RefsTo(ns), p, sig)
  {
    if |ns| != 0 {
      RefsToRen(ns[1..], p, sig);
      assert RenNames(ns, p, sig)[1..] == RenNames(ns[1..], p, sig);
      assert RefsTo(ns)[1..] == RefsTo(ns[1..]);
    }
  }

  function SensitivityNames(s: Stmt): seq<Name>
    requires s.Assign?
  {
    (if s.target.Element? then NamesRead(s.target.i) else []) + NamesRead(s.rhs)
  }

  lemma ConcurrentRen(s: Stmt, p: Name, sig: Name)
    requires s.Assign?
    ensures Concurrent(RenStmt(s, p, sig)) == RenProcess(Concurrent(s), p, sig)
  {
    NamesRen(s.rhs, p, sig);
    var index := if s.target.Element? then NamesRead(s.target.i) else [];
    if s.target.Element? {
      NamesRen(s.target.i, p, sig);
    }
    RenNamesConcat(index, NamesRead(s.rhs), p, sig);
    assert SensitivityNames(RenStmt(s, p, sig)) == RenNames(SensitivityNames(s), p, sig);
    RefsToRen(SensitivityNames(s), p, sig);
    assert Concurrent(s).sensitivity == RefsTo(SensitivityNames(s));
    assert [s][1..] == [];
    assert RenSeq([s], p, sig) == [RenStmt(s, p, sig)];
  }

  lemma {:induction false} ConcurrentAllRen(globals: seq<Stmt>, p: Name, sig: Name)
    requires AssignsOnly(globals)
    ensures AssignsOnly(RenSeq(globals, p, sig))
    ensures ConcurrentAll(RenSeq(globals, p, sig)) == RenProcesses(ConcurrentAll(globals), p, sig)
  {
    if |globals| != 0 {
      ConcurrentRen(globals[0], p, sig);
      ConcurrentAllRen(globals[1..], p, sig);
      assert RenSeq(globals, p, sig)[1..] == RenSeq(globals[1..], p, sig);
      assert ConcurrentAll(globals)[1..] == ConcurrentAll(globals[1..]);
    }
  }

  lemma {:induction false} ConcurrentAllConcat(a: seq<Stmt>, b: seq<Stmt>)
    requires AssignsOnly(a) && AssignsOnly(b)
    ensures AssignsOnly(a + b) && ConcurrentAll(a + b) == ConcurrentAll(a) + ConcurrentAll(b)
  {
    if |a| == 0 {
      assert a + b == b;
    } else {
      assert (a + b)[0] == a[0] && (a + b)[1..] == a[1..] + b;
      ConcurrentAllConcat(a[1..], b);
      Joined([Concurrent(a[0])], ConcurrentAll(a[1..]), ConcurrentAll(b));
    }
  }

  lemma Joined<T>(a: seq<T>, b: seq<T>, c: seq<T>)
    ensures a + (b + c) == a + b + c
  {
  }

  lemma {:induction false} RenProcessesConcat(a: seq<Process>, b: seq<Process>, p: Name, sig: Name)
    ensures RenProcesses(a + b, p, sig) == RenProcesses(a, p, sig) + RenProcesses(b, p, sig)
  {
    if |a| == 0 {
      assert a + b == b;
    } else {
      assert (a + b)[1..] == a[1..] + b;
      RenProcessesConcat(a[1..], b, p, sig);
    }
  }

  /** The process that the assignment of the port from its shadow stands for. */
  function Mirror(p: Name, sig: Name): Process {
    Concurrent(Assign(Whole(p), Ref(sig)))
  }

  /** The new design runs the renamed processes of the old one, and the mirror. */
  lemma ShadowedProcesses(v: View, p: Name, sig: Name)
    requires AssignsOnly(v.globals)
    ensures AssignsOnly(Shadowed(v, p, sig).globals)
    ensures AllProcesses(Shadowed(v, p, sig)) == RenProcesses(AllProcesses(v), p, sig) + [Mirror(p, sig)]
  {
    var m := [Assign(Whole(p), Ref(sig))];
    ConcurrentAllRen(v.globals, p, sig);
    ConcurrentAllConcat(RenSeq(v.globals, p, sig), m);
    assert m[1..] == [];
    assert ConcurrentAll(m) == [Mirror(p, sig)];
    RenProcessesConcat(v.processes, ConcurrentAll(v.globals), p, sig);
  }

  // ---------------------------------------------------------------- one delta cycle of each design

  lemma MergeAssociates(x: Store, y: Store, z: Store)
    ensures (x + y) + z == x + (y + z)
  {
  }

  lemma AllWritesStep(q: Process, rest: seq<Process>, d: Decls, prev: Store, cur: Store)
    ensures AllWrites([q] + rest, d, prev, cur) == Reaction(q, d, prev, cur) + AllWrites(rest, d, prev, cur)
  {
    assert ([q] + rest)[1..] == rest;
  }

  lemma FirstWritesStep(q: Process, rest: seq<Process>, d: Decls, s0: Store)
    ensures FirstWrites([q] + rest, d, s0) == Writes(q.body, d, s0, s0) + FirstWrites(rest, d, s0)
  {
    assert ([q] + rest)[1..] == rest;
  }

  lemma {:induction false} AllWritesConcat(a: seq<Process>, b: seq<Process>, d: Decls, prev: Store, cur: Store)
    ensures AllWrites(a + b, d, prev, cur) == AllWrites(a, d, prev, cur) + AllWrites(b, d, prev, cur)
  {
    if |a| == 0 {
      assert a + b == b;
    } else {
      assert a == [a[0]] + a[1..] && a + b == [a[0]] + (a[1..] + b);
      AllWritesStep(a[0], a[1..], d, prev, cur);
      AllWritesStep(a[0], a[1..] + b, d, prev, cur);
      AllWritesConcat(a[1..], b, d, prev, cur);
      MergeAssociates(Reaction(a[0], d, prev, cur), AllWrites(a[1..], d, prev, cur), AllWrites(b, d, prev, cur));
    }
  }

  lemma {:induction false} FirstWritesConcat(a: seq<Process>, b: seq<Process>, d: Decls, s0: Store)
    ensures FirstWrites(a + b, d, s0) == FirstWrites(a, d, s0) + FirstWrites(b, d, s0)
  {
    if |a| == 0 {
      assert a + b == b;
    } else {
      assert a == [a[0]] + a[1..] && a + b == [a[0]] + (a[1..] + b);
      FirstWritesStep(a[0], a[1..], d, s0);
      FirstWritesStep(a[0], a[1..] + b, d, s0);
      FirstWritesConcat(a[1..], b, d, s0);
      MergeAssociates(Writes(a[0].body, d, s0, s0), FirstWrites(a[1..], d, s0), FirstWrites(b, d, s0));
    }
  }

  lemma MirrorWrites(p: Name, sig: Name, d: Decls, cur: Store, prev: Store)
    requires !IsVariable(d, p)
    ensures Writes(Mirror(p, sig).body, d, cur, prev) == map[p := Get(cur, sig)]
  {
    var body := Mirror(p, sig).body;
    assert body[1..] == [];
    assert cur + map[] == cur;
    assert ExecSeq(body, d, cur, prev, EMPTY_FRAME) == Write(p, Get(cur, sig), d, EMPTY_FRAME);
  }

  lemma MirrorWakes(p: Name, sig: Name, prev: Store, cur: Store)
    ensures Wakes(Mirror(p, sig), prev, cur) <==> Get(prev, sig) != Get(cur, sig)
  {
    var names := SensitivityNames(Assign(Whole(p), Ref(sig)));
    assert names == [sig] && names[1..] == [];
    assert RefsTo(names[1..]) == [];
    assert Mirror(p, sig).sensitivity == RefsTo(names) == [Ref(sig)];
    assert Level(Mirror(p, sig).sensitivity[0], prev, cur) <==> Get(prev, sig) != Get(cur, sig);
  }

  lemma MirrorAllWrites(p: Name, sig: Name, d: Decls, prev: Store, cur: Store)
    requires !IsVariable(d, p)
    ensures AllWrites([Mirror(p, sig)], d, prev, cur)
            == if Get(prev, sig) != Get(cur, sig) then map[p := Get(cur, sig)] else map[]
  {
    MirrorWrites(p, sig, d, cur, prev);
    MirrorWakes(p, sig, prev, cur);
    assert [Mirror(p, sig)][1..] == [];
  }

  /** One cycle: the renamed writes w', what the mirror writes m, and the stimulus. */
  lemma CycleShadows(s: Store, t: Store, w: Store, w': Store, m: Store, stim: Store, p: Name, sig: Name)
    requires p != sig && Shadows(s, t, p, sig) && WritesAlike(w, w', p, sig)
    requires m.Keys <= {p} && p !in stim && sig !in stim
    ensures Shadows(s + w + stim, t + (w' + m) + stim, p, sig)
    ensures Get(t + (w' + m) + stim, p) == if p in m then m[p] else Get(t, p)
  {
    Overlay(s, t, w, w', p, sig);
    assert Shadows(s + w, t + (w' + m), p, sig) by {
      forall n | n != sig
        ensures Cell(t + (w' + m), RenName(n, p, sig)) == Cell(s + w, n)
      {
        assert Cell(t + w', RenName(n, p, sig)) == Cell(s + w, n);
        assert RenName(n, p, sig) !in m;
      }
    }
    assert WritesAlike(stim, stim, p, sig);
    Overlay(s + w, t + (w' + m), stim, stim, p, sig);
  }

  /** The stimulus drives neither the port nor its shadow. */
  ghost predicate DrivesNeither(stimulus: nat -> Store, p: Name, sig: Name) {
    forall k :: p !in stimulus(k) && sig !in stimulus(k)
  }

  /** The two designs, their start, and what the fresh name promises. */
  ghost predicate Comparable(v: View, p: Name, sig: Name, stimulus: nat -> Store, s0: Store, t0: Store) {
    && AssignsOnly(v.globals)
    && ShadowDeclared(v.decls, v.decls[sig := SignalDecl], p, sig)
    && UnusedBy(AllProcesses(v), sig)
    && DrivesNeither(stimulus, p, sig)
    && Shadows(s0, t0, p, sig)
  }

  function Runs(v: View, stimulus: nat -> Store, s0: Store, k: nat): History
    requires AssignsOnly(v.globals)
  {
    Delta(AllProcesses(v), v.decls, stimulus, s0, k)
  }

  /** The store after delta cycle k. */
  function Run(v: View, stimulus: nat -> Store, s0: Store, k: nat): Store
    requires AssignsOnly(v.globals)
  {
    Runs(v, stimulus, s0, k).prev
  }

  /** What the two runs keep: the new port shows the value of the cycle before. */
  ghost predicate InStep(h: History, h': History, p: Name, sig: Name) {
    Shadows(h.prev, h'.prev, p, sig) && Shadows(h.cur, h'.cur, p, sig) && Get(h'.cur, p) == Get(h.prev, p)
  }

  /** What the new design writes at initialisation. */
  lemma NewFirstWrites(v: View, p: Name, sig: Name, t0: Store)
    requires AssignsOnly(v.globals) && !IsVariable(v.decls[sig := SignalDecl], p)
    ensures AssignsOnly(Shadowed(v, p, sig).globals)
    ensures var d' := v.decls[sig := SignalDecl];
            FirstWrites(AllProcesses(Shadowed(v, p, sig)), d', t0)
            == FirstWrites(RenProcesses(AllProcesses(v), p, sig), d', t0) + map[p := Get(t0, sig)]
  {
    var d' := v.decls[sig := SignalDecl];
    ShadowedProcesses(v, p, sig);
    FirstWritesConcat(RenProcesses(AllProcesses(v), p, sig), [Mirror(p, sig)], d', t0);
    MirrorWrites(p, sig, d', t0, t0);
    assert [Mirror(p, sig)][1..] == [];
    assert FirstWrites([Mirror(p, sig)], d', t0) == map[p := Get(t0, sig)];
  }

  lemma FirstCycle(v: View, p: Name, sig: Name, stimulus: nat -> Store, s0: Store, t0: Store)
    requires Comparable(v, p, sig, stimulus, s0, t0)
    ensures InStep(Runs(v, stimulus, s0, 0), Runs(Shadowed(v, p, sig), stimulus, t0, 0), p, sig)
  {
    var ps, d, d' := AllProcesses(v), v.decls, v.decls[sig := SignalDecl];
    RenFirstWrites(ps, d, d', s0, t0, p, sig);
    NewFirstWrites(v, p, sig, t0);
    GetAlike(s0, t0, p, p, sig);
    CycleShadows(s0, t0, FirstWrites(ps, d, s0), FirstWrites(RenProcesses(ps, p, sig), d', t0),
                 map[p := Get(t0, sig)], stimulus(0), p, sig);
  }

  lemma {:induction false} NextCycle(v: View, p: Name, sig: Name, stimulus: nat -> Store, i: nat, h: History,
                                     h': History)
    requires AssignsOnly(v.globals) && DrivesNeither(stimulus, p, sig)
    requires ShadowDeclared(v.decls, v.decls[sig := SignalDecl], p, sig) && UnusedBy(AllProcesses(v), sig)
    requires InStep(h, h', p, sig)
    ensures InStep(Advanced(AllProcesses(v), v.decls, stimulus, i, h),
                   Advanced(AllProcesses(Shadowed(v, p, sig)), v.decls[sig := SignalDecl], stimulus, i, h'), p, sig)
  {
    var o, c, o', c' := h.prev, h.cur, h'.prev, h'.cur;
    var ps, d, d' := AllProcesses(v), v.decls, v.decls[sig := SignalDecl];
    ShadowedProcesses(v, p, sig);
    RenAllWrites(ps, d, d', o, c, o', c', p, sig);
    AllWritesConcat(RenProcesses(ps, p, sig), [Mirror(p, sig)], d', o', c');
    MirrorAllWrites(p, sig, d', o', c');
    GetAlike(o, o', p, p, sig);
    GetAlike(c, c', p, p, sig);
    CycleShadows(c, c', AllWrites(ps, d, o, c), AllWrites(RenProcesses(ps, p, sig), d', o', c'),
                 AllWrites([Mirror(p, sig)], d', o', c'), stimulus(i + 1), p, sig);
  }

  ghost predicate InLockstep(step: (nat, History) -> History, other: (nat, History) -> History, p: Name, sig: Name) {
    forall i: nat, h: History, h': History :: InStep(h, h', p, sig) ==> InStep(step(i, h), other(i, h'), p, sig)
  }

  lemma {:induction false} IteratedInStep(step: (nat, History) -> History, other: (nat, History) -> History,
                                          h: History, h': History, p: Name, sig: Name, k: nat)
    requires InLockstep(step, other, p, sig) && InStep(h, h', p, sig)
    ensures InStep(Iterated(step, h, k), Iterated(other, h', k), p, sig)
  {
    if k != 0 {
      IteratedInStep(step, other, h, h', p, sig, k - 1);
    }
  }

  lemma AllInStep(v: View, p: Name, sig: Name, stimulus: nat -> Store, s0: Store, t0: Store, k: nat)
    requires Comparable(v, p, sig, stimulus, s0, t0)
    ensures InStep(Runs(v, stimulus, s0, k), Runs(Shadowed(v, p, sig), stimulus, t0, k), p, sig)
  {
    var w := Shadowed(v, p, sig);
    var step := (i: nat, h: History) => Advanced(AllProcesses(v), v.decls, stimulus, i, h);
    var other := (i: nat, h: History) => Advanced(AllProcesses(w), w.decls, stimulus, i, h);
    FirstCycle(v, p, sig, stimulus, s0, t0);
    forall i: nat, h: History, h': History | InStep(h, h', p, sig)
      ensures InStep(step(i, h), other(i, h'), p, sig)
    {
      NextCycle(v, p, sig, stimulus, i, h, h');
    }
    IteratedInStep(step, other, Initialised(AllProcesses(v), v.decls, stimulus, s0),
                   Initialised(AllProcesses(w), w.decls, stimulus, t0), p, sig, k);
  }

  lemma RunFollows(v: View, stimulus: nat -> Store, s0: Store, k: nat)
    requires AssignsOnly(v.globals) && k > 0
    ensures Run(v, stimulus, s0, k) == Runs(v, stimulus, s0, k - 1).cur
  {
  }

  /** Runs in step hold alike, and the new port lags. */
  lemma RunsInStep(v: View, w: View, p: Name, sig: Name, stimulus: nat -> Store, s0: Store, t0: Store, k: nat)
    requires AssignsOnly(v.globals) && AssignsOnly(w.globals)
    requires InStep(Runs(v, stimulus, s0, k), Runs(w, stimulus, t0, k), p, sig)
    requires k > 0 ==> InStep(Runs(v, stimulus, s0, k - 1), Runs(w, stimulus, t0, k - 1), p, sig)
    ensures Shadows(Run(v, stimulus, s0, k), Run(w, stimulus, t0, k), p, sig)
    ensures k > 0 ==> Get(Run(w, stimulus, t0, k), p) == Get(Run(v, stimulus, s0, k - 1), p)
  {
    if k > 0 {
      RunFollows(w, stimulus, t0, k);
    }
  }

  /**
   In every run and every delta cycle k the new design holds what the old one does on every
   signal but the port, the shadow holds the port's value, and the new port holds the value the
   old one had one cycle earlier.
   */
  lemma {:induction false} ShadowRun(v: View, p: Name, sig: Name, stimulus: nat -> Store, s0: Store, t0: Store, k: nat)
    requires Comparable(v, p, sig, stimulus, s0, t0)
    ensures Shadows(Run(v, stimulus, s0, k), Run(Shadowed(v, p, sig), stimulus, t0, k), p, sig)
    ensures k > 0 ==> Get(Run(Shadowed(v, p, sig), stimulus, t0, k), p) == Get(Run(v, stimulus, s0, k - 1), p)
  {
    AllInStep(v, p, sig, stimulus, s0, t0, k);
    if k > 0 {
      AllInStep(v, p, sig, stimulus, s0, t0, k - 1);
    }
    RunsInStep(v, Shadowed(v, p, sig), p, sig, stimulus, s0, t0, k);
  }

  /** The new port shows the old port's value exactly when that value has not just changed. */
  lemma PortShowsWhenQuiet(v: View, p: Name, sig: Name, stimulus: nat -> Store, s0: Store, t0: Store, k: nat)
    requires Comparable(v, p, sig, stimulus, s0, t0) && k > 0
    ensures Get(Run(Shadowed(v, p, sig), stimulus, t0, k), p) == Get(Run(v, stimulus, s0, k), p)
            <==> Get(Run(v, stimulus, s0, k), p) == Get(Run(v, stimulus, s0, k - 1), p)
  {
    ShadowRun(v, p, sig, stimulus, s0, t0, k);
  }

  // ---------------------------------------------------------------- all the ports of a view

  lemma {:induction false} RenReads(e: Expr, p: Name, sig: Name)
    ensures Reads(RenExpr(e, p, sig)) <= Reads(e) + {sig}
  {
    match e
    case Lit(_) =>
    case Ref(_) =>
    case Index(_, i) => RenReads(i, p, sig);
    case EdgeCall(_, _) =>
    case Unary(_, e1) => RenReads(e1, p, sig);
    case Binary(_, l, r) =>
      RenReads(l, p, sig);
      RenReads(r, p, sig);
  }

  lemma {:induction false} RenMentions(ss: seq<Stmt>, p: Name, sig: Name)
    ensures Mentions(RenSeq(ss, p, sig)) <= Mentions(ss) + {sig}
    decreases ss, 0
  {
    if |ss| != 0 {
      RenMentionsOf(ss[0], p, sig);
      RenMentions(ss[1..], p, sig);
      assert RenSeq(ss, p, sig)[1..] == RenSeq(ss[1..], p, sig);
    }
  }

  lemma {:induction false} RenMentionsOf(s: Stmt, p: Name, sig: Name)
    ensures MentionsOf(RenStmt(s, p, sig)) <= MentionsOf(s) + {sig}
    decreases s, 1
  {
    match s
    case Assign(t, rhs) =>
      RenReads(rhs, p, sig);
      if t.Element? {
        RenReads(t.i, p, sig);
      }
    case If(alts, els) =>
      RenMentionsInAlts(alts, p, sig);
      RenMentions(els, p, sig);
  }

  lemma {:induction false} RenMentionsInAlts(alts: seq<IfAlt>, p: Name, sig: Name)
    ensures MentionsInAlts(RenAlts(alts, p, sig)) <= MentionsInAlts(alts) + {sig}
    decreases alts, 0
  {
    if |alts| != 0 {
      RenReads(alts[0].cond, p, sig);
      RenMentions(alts[0].actions, p, sig);
      RenMentionsInAlts(alts[1..], p, sig);
      assert RenAlts(alts, p, sig)[1..] == RenAlts(alts[1..], p, sig);
    }
  }

  lemma RenReading(es: seq<Expr>, p: Name, sig: Name, n: Name)
    requires n != sig && !Reading(es, n)
    ensures !Reading(RenList(es, p, sig), n)
  {
    forall k | 0 <= k < |es|
      ensures n !in Reads(RenList(es, p, sig)[k])
    {
      RenReads(es[k], p, sig);
    }
  }

  lemma RenUnused(q: Process, p: Name, sig: Name, n: Name)
    requires n != sig && !MentionedBy(q, n)
    ensures !MentionedBy(RenProcess(q, p, sig), n)
  {
    RenReading(q.sensitivity, p, sig, n);
    RenReading(q.sensitivityPos, p, sig, n);
    RenReading(q.sensitivityNeg, p, sig, n);
    RenMentions(q.body, p, sig);
  }

  lemma {:induction false} RenUnusedByAll(ps: seq<Process>, p: Name, sig: Name, n: Name)
    requires n != sig && UnusedBy(ps, n)
    ensures UnusedBy(RenProcesses(ps, p, sig), n)
  {
    if |ps| != 0 {
      RenUnused(ps[0], p, sig, n);
      assert forall k :: 0 <= k < |ps[1..]| ==> ps[1..][k] == ps[k + 1];
      RenUnusedByAll(ps[1..], p, sig, n);
    }
  }

  lemma MirrorUnused(p: Name, sig: Name, n: Name)
    requires n != p && n != sig
    ensures !MentionedBy(Mirror(p, sig), n)
  {
    var names := SensitivityNames(Assign(Whole(p), Ref(sig)));
    assert names == [sig] && names[1..] == [] && RefsTo(names[1..]) == [];
    assert Mirror(p, sig).sensitivity == RefsTo(names) == [Ref(sig)];
    var body := Mirror(p, sig).body;
    assert body[1..] == [];
    assert Mentions(body) == {p, sig};
  }

  lemma ShadowedUnused(v: View, p: Name, sig: Name, n: Name)
    requires AssignsOnly(v.globals) && n != p && n != sig && UnusedBy(AllProcesses(v), n)
    ensures UnusedBy(AllProcesses(Shadowed(v, p, sig)), n)
  {
    ShadowedProcesses(v, p, sig);
    RenUnusedByAll(AllProcesses(v), p, sig, n);
    MirrorUnused(p, sig, n);
  }

  /** The out ports that the view reads get a shadow. */
  predicate IsFixed(v: View, p: Port) {
    p.dir == Out && ReadIn(v, p.name)
  }

  lemma FixPortIf(v: View, p: Port, sig: Name)
    ensures FixPort(v, p, sig) == if IsFixed(v, p) then Shadowed(v, p.name, sig) else v
  {
    ReadsCounted(v, p.name);
  }

  /** The name that holds, after the pass, what n held before it. */
  function NewName(v: View, ports: seq<Port>, shadow: Name -> Name, n: Name): Name
    decreases |ports|
  {
    if |ports| == 0 then n
    else
      var p, sig := ports[0], shadow(ports[0].name);
      NewName(FixPort(v, p, sig), ports[1..], shadow, if IsFixed(v, p) then RenName(n, p.name, sig) else n)
  }

  /** A port, its fresh name, and what the design and its surroundings leave alone. */
  ghost predicate Fresh(v: View, p: Name, sig: Name, stimulus: nat -> Store)
    requires AssignsOnly(v.globals)
  {
    p != sig && !IsVariable(v.decls, p) && UnusedBy(AllProcesses(v), sig) && DrivesNeither(stimulus, p, sig)
      && sig !in v.initial && sig !in v.decls && sig !in MentionedInActuals(v.portAssigns)
  }

  function MentionedInActuals(pas: seq<PortAssign>): set<Name> {
    if |pas| == 0 then {} else Reads(pas[0].actual) + MentionedInActuals(pas[1..])
  }

  ghost predicate AllFresh(v: View, ports: seq<Port>, shadow: Name -> Name, stimulus: nat -> Store)
  {
    && AssignsOnly(v.globals) && ShadowsAreNew(ports, shadow)
    && (forall k :: 0 <= k < |ports| && ports[k].dir.Out? ==>
      Fresh(v, ports[k].name, shadow(ports[k].name), stimulus))
    && (forall j, k :: 0 <= j < k < |ports| ==>
         ports[j].name != ports[k].name && shadow(ports[j].name) != shadow(ports[k].name))
  }

  predicate IsShadow(ports: seq<Port>, shadow: Name -> Name, n: Name) {
    exists k :: 0 <= k < |ports| && shadow(ports[k].name) == n
  }

  lemma {:induction false} RenMentionedInActuals(pas: seq<PortAssign>, p: Name, sig: Name, n: Name)
    requires n != sig && n !in MentionedInActuals(pas)
    ensures n !in MentionedInActuals(RenPortAssigns(pas, p, sig))
  {
    if |pas| != 0 {
      RenReads(pas[0].actual, p, sig);
      RenMentionedInActuals(pas[1..], p, sig, n);
      assert RenPortAssigns(pas, p, sig)[1..] == RenPortAssigns(pas[1..], p, sig);
    }
  }

  lemma FreshAfter(v: View, p: Name, sig: Name, q: Name, sig2: Name, stimulus: nat -> Store)
    requires AssignsOnly(v.globals) && Fresh(v, q, sig2, stimulus)
    requires p != sig2 && sig != sig2 && sig != q
    ensures Fresh(Shadowed(v, p, sig), q, sig2, stimulus)
  {
    ShadowedUnused(v, p, sig, sig2);
    RenMentionedInActuals(v.portAssigns, p, sig, sig2);
  }

  lemma {:induction false} AllFreshAfter(v: View, ports: seq<Port>, shadow: Name -> Name, stimulus: nat -> Store)
    requires AllFresh(v, ports, shadow, stimulus) && |ports| > 0
    ensures AllFresh(FixPort(v, ports[0], shadow(ports[0].name)), ports[1..], shadow, stimulus)
  {
    var p, sig, rest := ports[0], shadow(ports[0].name), ports[1..];
    assert forall k :: 0 <= k < |rest| ==> rest[k] == ports[k + 1];
    FixPortIf(v, p, sig);
    if IsFixed(v, p) {
      forall k | 0 <= k < |rest| && rest[k].dir.Out?
        ensures Fresh(Shadowed(v, p.name, sig), rest[k].name, shadow(rest[k].name), stimulus)
      {
        assert rest[k] == ports[k + 1];
        FreshAfter(v, p.name, sig, rest[k].name, shadow(rest[k].name), stimulus);
      }
    }
  }

  /** The store after delta cycle k, from the initial values. */
  function Simulated(v: View, stimulus: nat -> Store, k: nat): Store
    requires AssignsOnly(v.globals)
  {
    Run(v, stimulus, v.initial, k)
  }

  /** One port of the pass, from its initial values. */
  lemma OnePortRuns(v: View, p: Port, sig: Name, stimulus: nat -> Store, k: nat)
    requires AssignsOnly(v.globals) && (p.dir.Out? ==> Fresh(v, p.name, sig, stimulus)) && IsFixed(v, p)
    ensures Shadows(Simulated(v, stimulus, k), Simulated(Shadowed(v, p.name, sig), stimulus, k), p.name, sig)
  {
    var t0 := WithShadow(v.initial, p.name, sig);
    assert Shadows(v.initial, t0, p.name, sig);
    ShadowRun(v, p.name, sig, stimulus, v.initial, t0, k);
  }

  /**
   The whole pass: in every delta cycle of every run from the initial values each name holds what it
   held, a port that was fixed through its shadow.
   */
  lemma {:induction false} AllPortsRun(v: View, ports: seq<Port>, shadow: Name -> Name, stimulus: nat -> Store,
                                       n: Name, k: nat)
    requires AllFresh(v, ports, shadow, stimulus) && !IsShadow(ports, shadow, n)
    ensures Cell(Simulated(FixPorts(v, ports, shadow), stimulus, k), NewName(v, ports, shadow, n))
         == Cell(Simulated(v, stimulus, k), n)
    decreases |ports|
  {
    if |ports| != 0 {
      var p, sig, rest := ports[0], shadow(ports[0].name), ports[1..];
      var n1 := if IsFixed(v, p) then RenName(n, p.name, sig) else n;
      FixPortIf(v, p, sig);
      AllFreshAfter(v, ports, shadow, stimulus);
      NotAShadow(ports, shadow, n, n1);
      AllPortsRun(FixPort(v, p, sig), rest, shadow, stimulus, n1, k);
      if IsFixed(v, p) {
        OnePortRuns(v, p, sig, stimulus, k);
      }
    }
  }

  lemma NotAShadow(ports: seq<Port>, shadow: Name -> Name, n: Name, n1: Name)
    requires |ports| > 0 && !IsShadow(ports, shadow, n) && (n1 == n || n1 == shadow(ports[0].name))
    requires forall j, k :: 0 <= j < k < |ports| ==> shadow(ports[j].name) != shadow(ports[k].name)
    ensures !IsShadow(ports[1..], shadow, n1)
  {
    assert forall k :: 0 <= k < |ports[1..]| ==> ports[1..][k] == ports[k + 1];
  }

  // ---------------------------------------------------------------- what the pass declares and connects

  lemma {:induction false} NotAPort(v: View, ports: seq<Port>, shadow: Name -> Name, n: Name)
    requires forall k :: 0 <= k < |ports| ==> ports[k].name != n
    ensures NewName(v, ports, shadow, n) == n
    decreases |ports|
  {
    if |ports| != 0 {
      assert forall k :: 0 <= k < |ports[1..]| ==> ports[1..][k] == ports[k + 1];
      NotAPort(FixPort(v, ports[0], shadow(ports[0].name)), ports[1..], shadow, n);
    }
  }

  /** Exactly the out ports that the view reads get another name. */
  lemma {:induction false} NewNameIs(v: View, ports: seq<Port>, shadow: Name -> Name, n: Name)
    requires ShadowsAreNew(ports, shadow) && !IsShadow(ports, shadow, n)
    requires forall j, k :: 0 <= j < k < |ports| ==> ports[j].name != ports[k].name
    ensures NewName(v, ports, shadow, n) == if IsOutPort(ports, n) && ReadIn(v, n) then shadow(n) else n
    decreases |ports|
  {
    if |ports| != 0 {
      var p, sig, rest := ports[0], shadow(ports[0].name), ports[1..];
      assert forall k :: 0 <= k < |rest| ==> rest[k] == ports[k + 1];
      FirstOutPort(ports, n);
      FixPortReads(v, p, sig, n);
      if p.name == n {
        NotAPort(FixPort(v, p, sig), rest, shadow, if IsFixed(v, p) then sig else n);
        assert IsOutPort(ports, n) ==> p.dir == Out;
      } else {
        NewNameIs(FixPort(v, p, sig), rest, shadow, n);
      }
    }
  }

  /** Port q gets a shadow: declared as a signal, started at the port's value, and driving the port. */
  predicate HasShadow(v: View, w: View, q: Name, sig: Name) {
    && sig in w.decls && w.decls[sig] == SignalDecl
    && Cell(w.initial, sig) == Cell(v.initial, q)
    && Assign(Whole(q), Ref(sig)) in w.globals
  }

  lemma {:induction false} OthersKept(ss: seq<Stmt>, p: Name, sig: Name, s: Stmt)
    requires s in ss && RenStmt(s, p, sig) == s
    ensures s in RenSeq(ss, p, sig)
  {
    if ss[0] == s {
      assert RenSeq(ss, p, sig)[0] == s;
    } else {
      OthersKept(ss[1..], p, sig, s);
      assert RenSeq(ss, p, sig)[1..] == RenSeq(ss[1..], p, sig);
    }
  }

  lemma {:induction false} ShadowStays(v: View, w: View, ports: seq<Port>, shadow: Name -> Name, q: Name, sig: Name)
    requires HasShadow(v, w, q, sig) && q != sig
    requires forall k :: 0 <= k < |ports| ==>
      ports[k].name != q && ports[k].name != sig && shadow(ports[k].name) != sig
    ensures HasShadow(v, FixPorts(w, ports, shadow), q, sig)
    decreases |ports|
  {
    if |ports| != 0 {
      var p, s := ports[0].name, shadow(ports[0].name);
      FixPortIf(w, ports[0], s);
      if IsFixed(w, ports[0]) {
        OthersKept(w.globals, p, s, Assign(Whole(q), Ref(sig)));
      }
      assert forall k :: 0 <= k < |ports[1..]| ==> ports[1..][k] == ports[k + 1];
      ShadowStays(v, FixPort(w, ports[0], s), ports[1..], shadow, q, sig);
    }
  }

  ghost predicate Apart(ports: seq<Port>, shadow: Name -> Name) {
    && ShadowsAreNew(ports, shadow)
    && forall j, k :: 0 <= j < k < |ports| ==>
      ports[j].name != ports[k].name && shadow(ports[j].name) != shadow(ports[k].name)
  }

  /** Every out port that the view reads has its shadow after the pass. */
  lemma {:induction false} ShadowsMade(v: View, ports: seq<Port>, shadow: Name -> Name, q: Name)
    requires Apart(ports, shadow) && IsOutPort(ports, q) && ReadIn(v, q)
    requires forall k :: 0 <= k < |ports| ==> shadow(ports[k].name) !in v.initial
    ensures HasShadow(v, FixPorts(v, ports, shadow), q, shadow(q))
    decreases |ports|
  {
    var p, sig, rest := ports[0], shadow(ports[0].name), ports[1..];
    var v1 := FixPort(v, p, sig);
    assert forall k :: 0 <= k < |rest| ==> rest[k] == ports[k + 1];
    FixPortIf(v, p, sig);
    FirstOutPort(ports, q);
    if p.name == q {
      var m := Assign(Whole(q), Ref(sig));
      assert IsFixed(v, p) && v1.globals == RenSeq(v.globals, q, sig) + [m];
      assert v1.globals[|v1.globals| - 1] == m;
      ShadowStays(v, v1, rest, shadow, q, sig);
    } else {
      FixPortReads(v, p, sig, q);
      ShadowsMade(v1, rest, shadow, q);
    }
  }

  /** Nothing but the shadows of the out ports that the view reads is declared. */
  lemma {:induction false} NothingElseDeclared(v: View, ports: seq<Port>, shadow: Name -> Name, n: Name)
    requires Apart(ports, shadow)
    ensures n in FixPorts(v, ports, shadow).decls <==>
            n in v.decls || exists k :: 0 <= k < |ports| && IsFixed(v, ports[k]) && shadow(ports[k].name) == n
    ensures n in v.decls && !IsShadow(ports, shadow, n) ==> FixPorts(v, ports, shadow).decls[n] == v.decls[n]
    decreases |ports|
  {
    if |ports| != 0 {
      var p, sig, rest := ports[0], shadow(ports[0].name), ports[1..];
      var v1 := FixPort(v, p, sig);
      assert forall k :: 0 <= k < |rest| ==> rest[k] == ports[k + 1];
      FixPortIf(v, p, sig);
      NothingElseDeclared(v1, rest, shadow, n);
      forall k | 0 <= k < |rest|
        ensures IsFixed(v1, rest[k]) <==> IsFixed(v, ports[k + 1])
      {
        FixPortReads(v, p, sig, rest[k].name);
      }
      if k :| 1 <= k < |ports| && IsFixed(v, ports[k]) && shadow(ports[k].name) == n {
        assert IsFixed(v1, rest[k - 1]);
      }
    }
  }

  function RootOf(e: Expr): Option<Name> {
    match e
    case Ref(n) => Some(n)
    case Index(n, _) => Some(n)
    case _ => None
  }

  lemma {:induction false} MentionedAt(pas: seq<PortAssign>, j: nat)
    requires j < |pas|
    ensures Reads(pas[j].actual) <= MentionedInActuals(pas)
  {
    if j > 0 {
      MentionedAt(pas[1..], j - 1);
    }
  }

  /** The same formal, and actuals that hold the same value in two stores. */
  predicate SameConnection(a: PortAssign, b: PortAssign, s: Store, t: Store) {
    b.formal == a.formal && Eval(b.actual, t, t) == Eval(a.actual, s, s)
  }

  /** The root of an actual, if it has one, is the other's under its new name. */
  predicate RootMoves(a: Expr, b: Expr, v: View, ports: seq<Port>, shadow: Name -> Name) {
    match RootOf(a)
    case Some(n) => RootOf(b) == Some(NewName(v, ports, shadow, n))
    case None => RootOf(b) == None
  }

  function RenRoot(r: Option<Name>, p: Name, sig: Name): Option<Name> {
    if r == Some(p) then Some(sig) else r
  }

  lemma OneRootMoves(v: View, p: Port, sig: Name, j: nat)
    requires j < |v.portAssigns|
    ensures var v1 := FixPort(v, p, sig);
            && |v1.portAssigns| == |v.portAssigns|
            && RootOf(v1.portAssigns[j].actual)
               == if IsFixed(v, p) then RenRoot(RootOf(v.portAssigns[j].actual), p.name, sig)
                  else RootOf(v.portAssigns[j].actual)
  {
    FixPortIf(v, p, sig);
    RenPortAssignsAt(v.portAssigns, p.name, sig);
  }

  lemma {:induction false} RootsMove(v: View, ports: seq<Port>, shadow: Name -> Name, j: nat)
    requires j < |v.portAssigns|
    ensures |FixPorts(v, ports, shadow).portAssigns| == |v.portAssigns|
    ensures RootMoves(v.portAssigns[j].actual, FixPorts(v, ports, shadow).portAssigns[j].actual, v, ports, shadow)
    decreases |ports|
  {
    if |ports| != 0 {
      OneRootMoves(v, ports[0], shadow(ports[0].name), j);
      RootsMove(FixPort(v, ports[0], shadow(ports[0].name)), ports[1..], shadow, j);
    }
  }

  lemma OneFollows(v: View, p: Port, sig: Name, stimulus: nat -> Store, j: nat, k: nat)
    requires AssignsOnly(v.globals) && (p.dir.Out? ==> Fresh(v, p.name, sig, stimulus)) && j < |v.portAssigns|
    requires AssignsOnly(FixPort(v, p, sig).globals)
    ensures var v1 := FixPort(v, p, sig);
            |v1.portAssigns| == |v.portAssigns| && SameConnection(v.portAssigns[j], v1.portAssigns[j],
            Simulated(v, stimulus, k), Simulated(v1, stimulus, k))
  {
    FixPortIf(v, p, sig);
    RenPortAssignsAt(v.portAssigns, p.name, sig);
    if IsFixed(v, p) {
      var s, t := Simulated(v, stimulus, k), Simulated(FixPort(v, p, sig), stimulus, k);
      OnePortRuns(v, p, sig, stimulus, k);
      MentionedAt(v.portAssigns, j);
      RenEval(v.portAssigns[j].actual, s, s, t, t, p.name, sig);
    }
  }

  /** An instance's connections after the pass: the same formals, the actuals under their new names. */
  lemma {:induction false} ActualsFollow(v: View, ports: seq<Port>, shadow: Name -> Name, stimulus: nat -> Store,
                                         j: nat, k: nat)
    requires AllFresh(v, ports, shadow, stimulus) && j < |v.portAssigns|
    ensures var w := FixPorts(v, ports, shadow);
            && |w.portAssigns| == |v.portAssigns| && AssignsOnly(w.globals)
            && SameConnection(v.portAssigns[j], w.portAssigns[j],
                              Simulated(v, stimulus, k), Simulated(w, stimulus, k))
            && RootMoves(v.portAssigns[j].actual, w.portAssigns[j].actual, v, ports, shadow)
    decreases |ports|
  {
    RootsMove(v, ports, shadow, j);
    if |ports| != 0 {
      var p, sig := ports[0], shadow(ports[0].name);
      AllFreshAfter(v, ports, shadow, stimulus);
      OneFollows(v, p, sig, stimulus, j, k);
      ActualsFollow(FixPort(v, p, sig), ports[1..], shadow, stimulus, j, k);
    }
  }
}
