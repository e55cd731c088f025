/**
 Rebuilding a VHDL clocked process as an edge-sensitive Verilog one.

 hif-core's process analysis is an input (Infos). AcceptedIff says exactly which processes the
 pass rebuilds; what the rebuilt ones do is the subject of ClockedRuns.
 */
module ClockedProcess {
  import opened Hdl
  import opened Wrappers

  datatype ProcessKind = Synchronous | DerivedSynchronous | OtherKind
  datatype WorkingEdge = Rising | Falling | NoSingleEdge
  datatype ResetKind = NoReset | AsynchronousReset | SynchronousReset
  datatype ResetPhase = HighPhase | LowPhase

  /** The part of hif-core's process classification that the pass reads. */
  datatype Infos = Infos(
    kind: ProcessKind,
    workingEdge: WorkingEdge,
    clock: Option<Name>,
    resetKind: ResetKind,
    reset: Option<Name>,
    resetPhase: ResetPhase)

  /** The diagnostics with which the pass stops, in the order it checks them. */
  datatype Refusal =
    | EdgeQualifiedAndTested
    | UnsupportedForm
    | NotAnIfCondition
    | StatementsOutside
    | NotTheLastBranch
    | ResetDoesMore
    | ResetReadsState
    | OtherSensitivity

  datatype Outcome = Untouched | Rebuilt(p: Process) | Refused(why: Refusal)

  // ---------------------------------------------------------------- edge tests in a tree

  function EdgeCalls(e: Expr): nat {
    match e
    case Lit(_) => 0
    case Ref(_) => 0
    case Index(_, i) => EdgeCalls(i)
    case EdgeCall(_, _) => 1
    case Unary(_, e1) => EdgeCalls(e1)
    case Binary(_, l, r) => EdgeCalls(l) + EdgeCalls(r)
  }

  function EdgeCallsIn(ss: seq<Stmt>): nat
    decreases ss, 0
  {
    if |ss| == 0 then 0 else EdgeCallsOf(ss[0]) + EdgeCallsIn(ss[1..])
  }

  function EdgeCallsOf(s: Stmt): nat
    decreases s, 1
  {
    match s
    case Assign(t, rhs) => (if t.Element? then EdgeCalls(t.i) else 0) + EdgeCalls(rhs)
    case If(alts, els) => EdgeCallsInAlts(alts) + EdgeCallsIn(els)
  }

  function EdgeCallsInAlts(alts: seq<IfAlt>): nat
    decreases alts, 0
  {
    if |alts| == 0 then 0
    else EdgeCalls(alts[0].cond) + EdgeCallsIn(alts[0].actions) + EdgeCallsInAlts(alts[1..])
  }

  /** Edge tests that stand in the condition of some if alternative, at any depth. */
  function ConditionCallsIn(ss: seq<Stmt>): nat
    decreases ss, 0
  {
    if |ss| == 0 then 0
    else (match ss[0]
          case Assign(_, _) => 0
          case If(alts, els) => ConditionCallsInAlts(alts) + ConditionCallsIn(els))
         + ConditionCallsIn(ss[1..])
  }

  function ConditionCallsInAlts(alts: seq<IfAlt>): nat
    decreases alts, 0
  {
    if |alts| == 0 then 0
    else EdgeCalls(alts[0].cond) + ConditionCallsIn(alts[0].actions) + ConditionCallsInAlts(alts[1..])
  }

  // ---------------------------------------------------------------- the pass as a function

  predicate ReadsMutableState(e: Expr, d: Decls) {
    exists n :: n in Reads(e) && IsMutable(d, n)
  }

  /** First objection to re-running the reset branch, if any. */
  function ResetObjection(actions: seq<Stmt>, d: Decls): Option<Refusal> {
    if |actions| == 0 then None
    else if !actions[0].Assign? then Some(ResetDoesMore)
    else if ReadsMutableState(actions[0].rhs, d) then Some(ResetReadsState)
    else ResetObjection(actions[1..], d)
  }

  function RemoveFirst(list: seq<Expr>, n: Name): seq<Expr> {
    if |list| == 0 then []
    else if list[0] == Ref(n) then list[1..]
    else [list[0]] + RemoveFirst(list[1..], n)
  }

  function AddUnique(list: seq<Expr>, n: Name): seq<Expr> {
    if Ref(n) in list then list else list + [Ref(n)]
  }

  predicate HasAsyncReset(infos: Infos) {
    infos.resetKind.AsynchronousReset? && infos.reset.Some?
  }

  predicate SingleEdgeForm(p: Process, infos: Infos) {
    && (infos.kind.Synchronous? || infos.kind.DerivedSynchronous?)
    && !infos.workingEdge.NoSingleEdge?
    && infos.clock.Some?
    && EdgeCallsIn(p.body) == 1
  }

  /** The one statement of the body is an if, and the edge test is in one of its conditions. */
  predicate TestedByWholeBody(p: Process) {
    && |p.body| == 1
    && p.body[0].If?
    && exists i :: 0 <= i < |p.body[0].alts| && EdgeCalls(p.body[0].alts[i].cond) > 0
  }

  predicate TestedLast(s: Stmt)
    requires s.If?
  {
    |s.alts| > 0 && EdgeCalls(s.alts[|s.alts| - 1].cond) > 0 && s.els == []
  }

  /** Actions of the first alternative other than the clocked one, which is the last. */
  function AltForReset(s: Stmt): seq<Stmt>
    requires s.If?
  {
    if |s.alts| > 1 then s.alts[0].actions else []
  }

  /** The body once the edge test is dropped: the clocked branch becomes the default. */
  function DropEdgeTest(s: Stmt): seq<Stmt>
    requires s.If? && |s.alts| > 0
  {
    var clocked := s.els + s.alts[|s.alts| - 1].actions;
    if |s.alts| == 1 then clocked else [If(s.alts[..|s.alts| - 1], clocked)]
  }

  function NewPos(infos: Infos): seq<Expr>
    requires infos.clock.Some?
  {
    var l := if infos.workingEdge.Rising? then [Ref(infos.clock.value)] else [];
    if HasAsyncReset(infos) && infos.resetPhase.HighPhase? then AddUnique(l, infos.reset.value) else l
  }

  function NewNeg(infos: Infos): seq<Expr>
    requires infos.clock.Some?
  {
    var l := if infos.workingEdge.Rising? then [] else [Ref(infos.clock.value)];
    if HasAsyncReset(infos) && infos.resetPhase.LowPhase? then AddUnique(l, infos.reset.value) else l
  }

  function LeftLevels(p: Process, infos: Infos): seq<Expr>
    requires infos.clock.Some?
  {
    var l := RemoveFirst(p.sensitivity, infos.clock.value);
    if HasAsyncReset(infos) then RemoveFirst(l, infos.reset.value) else l
  }

  /** First objection to the shape of a process that tests an edge, if any. */
  function ShapeObjection(p: Process, infos: Infos): Option<Refusal> {
    if p.sensitivityPos != [] || p.sensitivityNeg != [] then Some(EdgeQualifiedAndTested)
    else if !SingleEdgeForm(p, infos) then Some(UnsupportedForm)
    else if ConditionCallsIn(p.body) == 0 then Some(NotAnIfCondition)
    else if !TestedByWholeBody(p) then Some(StatementsOutside)
    else if !TestedLast(p.body[0]) then Some(NotTheLastBranch)
    else None
  }

  function Rebuild(p: Process, isProcess: bool, infos: Infos, d: Decls): Outcome {
    if !isProcess || EdgeCallsIn(p.body) == 0 then Untouched
    else if ShapeObjection(p, infos).Some? then Refused(ShapeObjection(p, infos).value)
    else
      var objection := if HasAsyncReset(infos) then ResetObjection(AltForReset(p.body[0]), d) else None;
      if objection.Some? then Refused(objection.value)
      else if LeftLevels(p, infos) != [] then Refused(OtherSensitivity)
      else Rebuilt(Process([], NewPos(infos), NewNeg(infos), DropEdgeTest(p.body[0])))
  }

  // ---------------------------------------------------------------- the pass in place

  method AddSensitivity(list: seq<Expr>, decl: Name) returns (r: seq<Expr>)
    ensures r == AddUnique(list, decl)
    ensures forall e :: e in r <==> e in list || e == Ref(decl)
    ensures list <= r && |r| <= |list| + 1 && (Ref(decl) in list ==> r == list)
  {
    r := list;
    if Ref(decl) !in list {
      r := r + [Ref(decl)];
    }
  }

  lemma {:induction false} RemoveFirstSplit(list: seq<Expr>, n: Name, i: nat)
    requires i <= |list| && Ref(n) !in list[..i]
    ensures RemoveFirst(list, n) == list[..i] + RemoveFirst(list[i..], n)
  {
    if i > 0 {
      assert list[..i][0] == list[0];
      assert list[..i][1..] == list[1..][..i - 1];
      RemoveFirstSplit(list[1..], n, i - 1);
      assert list[..i] == [list[0]] + list[1..][..i - 1];
    }
  }

  method RemoveSensitivity(list: seq<Expr>, decl: Name) returns (r: seq<Expr>, found: bool)
    ensures r == RemoveFirst(list, decl)
    ensures found <==> Ref(decl) in list
  {
    var i := 0;
    while i < |list|
      invariant 0 <= i <= |list|
      invariant Ref(decl) !in list[..i]
    {
      if list[i] == Ref(decl) {
        RemoveFirstSplit(list, decl, i);
        return list[..i] + list[i + 1..], true;
      }
      i := i + 1;
    }
    RemoveFirstSplit(list, decl, i);
    return list, false;
  }

  method ResetBranch(s: Stmt, edgeAlt: nat) returns (actions: seq<Stmt>)
    requires s.If? && edgeAlt == |s.alts| - 1
    ensures actions == AltForReset(s)
  {
    for i := 0 to |s.alts|
      invariant i > 0 ==> edgeAlt == 0
    {
      if i != edgeAlt {
        return s.alts[i].actions;
      }
    }
    return [];
  }

  method CheckReset(actions: seq<Stmt>, d: Decls) returns (objection: Option<Refusal>)
    ensures objection == ResetObjection(actions, d)
    ensures objection.None? <==> forall i :: 0 <= i < |actions| ==> AssignsSettled(actions[i], d)
    ensures forall k :: FirstUnsettled(actions, d, k) ==>
              objection == Some(if actions[k].Assign? then ResetReadsState else ResetDoesMore)
  {
    ObjectionIs(actions, d);
    for i := 0 to |actions|
      invariant ResetObjection(actions, d) == ResetObjection(actions[i..], d)
    {
      if !actions[i].Assign? {
        return Some(ResetDoesMore);
      }
      var rhs := actions[i].rhs;
      if exists n | n in Reads(rhs) :: IsMutable(d, n) {
        return Some(ResetReadsState);
      }
    }
    return None;
  }

  /** A process whose lists and body the visitor updates in place. */
  class StateTable {
    const isProcess: bool
    var sensitivity: seq<Expr>
    var sensitivityPos: seq<Expr>
    var sensitivityNeg: seq<Expr>
    var actions: seq<Stmt>

    constructor (p: Process, isProcess: bool)
      ensures Tree() == p && this.isProcess == isProcess
    {
      this.isProcess := isProcess;
      sensitivity, sensitivityPos, sensitivityNeg := p.sensitivity, p.sensitivityPos, p.sensitivityNeg;
      actions := p.body;
    }

    function Tree(): Process
      reads this
    {
      Process(sensitivity, sensitivityPos, sensitivityNeg, actions)
    }

    method CheckShape(infos: Infos) returns (objection: Option<Refusal>)
      ensures objection == ShapeObjection(Tree(), infos)
      ensures objection.None? <==> SoleTestLast(Tree(), infos)
    {
      ShapeAcceptedIff(Tree(), infos);
      if sensitivityPos != [] || sensitivityNeg != [] {
        return Some(EdgeQualifiedAndTested);
      }
      if !SingleEdgeForm(Tree(), infos) {
        return Some(UnsupportedForm);
      }
      if ConditionCallsIn(actions) == 0 {
        return Some(NotAnIfCondition);
      }
      if !TestedByWholeBody(Tree()) {
        return Some(StatementsOutside);
      }
      if !TestedLast(actions[0]) {
        return Some(NotTheLastBranch);
      }
      return None;
    }

    /** Moves the clock from the level list to the list of its edge. */
    method MoveClock(infos: Infos)
      requires infos.clock.Some? && !infos.workingEdge.NoSingleEdge?
      requires sensitivityPos == [] && sensitivityNeg == []
      modifies this`sensitivity, this`sensitivityPos, this`sensitivityNeg
      ensures sensitivity == RemoveFirst(old(sensitivity), infos.clock.value)
      ensures sensitivityPos == if infos.workingEdge.Rising? then [Ref(infos.clock.value)] else []
      ensures sensitivityNeg == if infos.workingEdge.Rising? then [] else [Ref(infos.clock.value)]
    {
      if infos.workingEdge.Rising? {
        sensitivityPos := AddSensitivity(sensitivityPos, infos.clock.value);
      } else {
        sensitivityNeg := AddSensitivity(sensitivityNeg, infos.clock.value);
      }
      var found;
      sensitivity, found := RemoveSensitivity(sensitivity, infos.clock.value);
    }

    /** Moves the clock and an asynchronous reset from the level list to the edge lists. */
    method MoveEdges(infos: Infos, d: Decls, resetActions: seq<Stmt>) returns (objection: Option<Refusal>)
      requires infos.clock.Some? && !infos.workingEdge.NoSingleEdge?
      requires sensitivityPos == [] && sensitivityNeg == []
      modifies this`sensitivity, this`sensitivityPos, this`sensitivityNeg
      ensures objection == if HasAsyncReset(infos) then ResetObjection(resetActions, d) else None
      ensures objection.None? ==>
        sensitivity == old(LeftLevels(Tree(), infos)) && sensitivityPos == NewPos(infos)
          && sensitivityNeg == NewNeg(infos)
    {
      MoveClock(infos);
      if infos.resetKind.AsynchronousReset? && infos.reset.Some? {
        objection := CheckReset(resetActions, d);
        if objection.Some? {
          return objection;
        }
        if infos.resetPhase.LowPhase? {
          sensitivityNeg := AddSensitivity(sensitivityNeg, infos.reset.value);
        } else {
          sensitivityPos := AddSensitivity(sensitivityPos, infos.reset.value);
        }
        var found;
        sensitivity, found := RemoveSensitivity(sensitivity, infos.reset.value);
      }
      return None;
    }

    /** The clocked branch becomes the default; with nothing left, it becomes the body. */
    method DropTest(ifStm: Stmt)
      requires ifStm.If? && |ifStm.alts| > 0
      modifies this`actions
      ensures actions == DropEdgeTest(ifStm)
      ensures ifStm.els == [] ==> forall d: Decls, cur: Store, prev: Store ::
        Writes(actions, d, cur, prev) == Writes([TestedTrue(ifStm)], d, cur, prev)
    {
      if ifStm.els == [] {
        forall d: Decls, cur: Store, prev: Store
          ensures Writes(DropEdgeTest(ifStm), d, cur, prev) == Writes([TestedTrue(ifStm)], d, cur, prev)
        {
          DroppedTestHolds(ifStm, d, cur, prev);
        }
      }
      var last := |ifStm.alts| - 1;
      var clocked := ifStm.els + ifStm.alts[last].actions;
      var alts := ifStm.alts[..last];
      if alts == [] {
        actions := clocked;
      } else {
        actions := [If(alts, clocked)];
      }
    }

    /** Visits the process; a refusal ends the program. */
    method VisitStateTable(infos: Infos, d: Decls) returns (refusal: Option<Refusal>)
      modifies this
      ensures match Rebuild(old(Tree()), isProcess, infos, d)
              case Untouched => refusal.None? && Tree() == old(Tree())
              case Rebuilt(q) => refusal.None? && Tree() == q
              case Refused(why) => refusal == Some(why)
    {
      if !isProcess || EdgeCallsIn(actions) == 0 {
        return None;
      }
      refusal := CheckShape(infos);
      if refusal.Some? {
        return;
      }
      var ifStm := actions[0];
      var branch := ResetBranch(ifStm, |ifStm.alts| - 1);
      refusal := MoveEdges(infos, d, branch);
      if refusal.Some? {
        return;
      }
      if sensitivity != [] {
        return Some(OtherSensitivity);
      }
      DropTest(ifStm);
    }
  }

  // ---------------------------------------------------------------- which processes are accepted

  /** An expression and every expression inside it. */
  function Parts(e: Expr): seq<Expr> {
    [e] + match e
          case Index(_, i) => Parts(i)
          case Unary(_, e1) => Parts(e1)
          case Binary(_, l, r) => Parts(l) + Parts(r)
          case _ => []
  }

  /** Every expression inside a body, at any depth, or those inside the conditions of its ifs. */
  function PartsIn(ss: seq<Stmt>, conditionsOnly: bool): seq<Expr>
    decreases ss, 0
  {
    if |ss| == 0 then [] else PartsOf(ss[0], conditionsOnly) + PartsIn(ss[1..], conditionsOnly)
  }

  function PartsOf(s: Stmt, conditionsOnly: bool): seq<Expr>
    decreases s, 1
  {
    match s
    case Assign(t, rhs) => if conditionsOnly then [] else (if t.Element? then Parts(t.i) else []) + Parts(rhs)
    case If(alts, els) => PartsInAlts(alts, conditionsOnly) + PartsIn(els, conditionsOnly)
  }

  function PartsInAlts(alts: seq<IfAlt>, conditionsOnly: bool): seq<Expr>
    decreases alts, 0
  {
    if |alts| == 0 then []
    else Parts(alts[0].cond) + PartsIn(alts[0].actions, conditionsOnly) + PartsInAlts(alts[1..], conditionsOnly)
  }

  /** How many of the expressions are edge tests. */
  function Tests(es: seq<Expr>): nat {
    if |es| == 0 then 0 else (if es[0].EdgeCall? then 1 else 0) + Tests(es[1..])
  }

  lemma {:induction false} TestsConcat(a: seq<Expr>, b: seq<Expr>)
    ensures Tests(a + b) == Tests(a) + Tests(b)
  {
    if |a| == 0 {
      assert a + b == b;
    } else {
      TestsConcat(a[1..], b);
      assert (a + b)[1..] == a[1..] + b;
    }
  }

  lemma {:induction false} EdgeCallsCounted(e: Expr)
    ensures EdgeCalls(e) == Tests(Parts(e))
  {
    match e
    case Index(_, i) => EdgeCallsCounted(i);
    case Unary(_, e1) => EdgeCallsCounted(e1);
    case Binary(_, l, r) =>
      EdgeCallsCounted(l);
      EdgeCallsCounted(r);
      TestsConcat(Parts(l), Parts(r));
    case _ =>
  }

  /** The pass's counts are the numbers of edge tests anywhere and in conditions. */
  lemma {:induction false} TestsCounted(ss: seq<Stmt>)
    ensures EdgeCallsIn(ss) == Tests(PartsIn(ss, false)) && ConditionCallsIn(ss) == Tests(PartsIn(ss, true))
    decreases ss, 0
  {
    if |ss| != 0 {
      TestsCountedOne(ss[0]);
      TestsCounted(ss[1..]);
      TestsConcat(PartsOf(ss[0], false), PartsIn(ss[1..], false));
      TestsConcat(PartsOf(ss[0], true), PartsIn(ss[1..], true));
    }
  }

  function ConditionCallsOf(s: Stmt): nat {
    if s.If? then ConditionCallsInAlts(s.alts) + ConditionCallsIn(s.els) else 0
  }

  lemma {:induction false} TestsCountedOne(s: Stmt)
    ensures EdgeCallsOf(s) == Tests(PartsOf(s, false)) && ConditionCallsOf(s) == Tests(PartsOf(s, true))
    decreases s, 1
  {
    match s
    case Assign(t, rhs) =>
      EdgeCallsCounted(rhs);
      if t.Element? {
        EdgeCallsCounted(t.i);
      }
      TestsConcat(if t.Element? then Parts(t.i) else [], Parts(rhs));
    case If(alts, els) =>
      TestsCountedIn(alts);
      TestsCounted(els);
      TestsConcat(PartsInAlts(alts, false), PartsIn(els, false));
      TestsConcat(PartsInAlts(alts, true), PartsIn(els, true));
  }

  lemma {:induction false} TestsCountedIn(alts: seq<IfAlt>)
    ensures EdgeCallsInAlts(alts) == Tests(PartsInAlts(alts, false))
    ensures ConditionCallsInAlts(alts) == Tests(PartsInAlts(alts, true))
    decreases alts, 0
  {
    if |alts| != 0 {
      EdgeCallsCounted(alts[0].cond);
      TestsCounted(alts[0].actions);
      TestsCountedIn(alts[1..]);
      JoinTests(Parts(alts[0].cond), PartsIn(alts[0].actions, false), PartsInAlts(alts[1..], false));
      JoinTests(Parts(alts[0].cond), PartsIn(alts[0].actions, true), PartsInAlts(alts[1..], true));
    }
  }

  lemma JoinTests(a: seq<Expr>, b: seq<Expr>, c: seq<Expr>)
    ensures Tests(a + b + c) == Tests(a) + Tests(b) + Tests(c)
  {
    TestsConcat(a + b, c);
    TestsConcat(a, b);
  }

  /** A single edge of a single clock. */
  predicate SingleEdge(infos: Infos) {
    && (infos.kind == Synchronous || infos.kind == DerivedSynchronous)
    && infos.workingEdge != NoSingleEdge && infos.clock.Some?
  }

  /**
   The body is one if without an else; its last condition holds the only edge test of the process;
   the classification is a single edge of a single clock.
   */
  predicate SoleTestLast(p: Process, infos: Infos) {
    && p.sensitivityPos == p.sensitivityNeg == [] && SingleEdge(infos)
    && |p.body| == 1 && p.body[0].If? && p.body[0].els == [] && |p.body[0].alts| > 0
    && var alts := p.body[0].alts;
    && Tests(Parts(alts[|alts| - 1].cond)) == 1 && Tests(PartsIn(alts[|alts| - 1].actions, false)) == 0
    && Tests(PartsInAlts(alts[..|alts| - 1], false)) == 0
  }

  lemma SoleTestCounts(p: Process, infos: Infos)
    requires |p.body| == 1 && p.body[0].If? && |p.body[0].alts| > 0
    ensures var alts := p.body[0].alts;
            SoleTestLast(p, infos) <==>
            && p.sensitivityPos == p.sensitivityNeg == [] && SingleEdge(infos) && p.body[0].els == []
            && EdgeCalls(alts[|alts| - 1].cond) == 1 && EdgeCallsIn(alts[|alts| - 1].actions) == 0
            && EdgeCallsInAlts(alts[..|alts| - 1]) == 0
  {
    var alts := p.body[0].alts;
    EdgeCallsCounted(alts[|alts| - 1].cond);
    TestsCounted(alts[|alts| - 1].actions);
    TestsCountedIn(alts[..|alts| - 1]);
  }

  lemma {:induction false} EdgeCallsPrefix(alts: seq<IfAlt>)
    requires |alts| > 0
    ensures var last := alts[|alts| - 1];
            EdgeCallsInAlts(alts) == EdgeCallsInAlts(alts[..|alts| - 1]) + EdgeCalls(last.cond)
              + EdgeCallsIn(last.actions)
  {
    if |alts| == 1 {
      assert alts[..0] == [] && alts[1..] == [];
    } else {
      EdgeCallsPrefix(alts[1..]);
      assert alts[1..][|alts| - 2] == alts[|alts| - 1];
      assert alts[..|alts| - 1][1..] == alts[1..][..|alts| - 2];
    }
  }

  lemma {:induction false} ConditionCallsCounted(alts: seq<IfAlt>, k: nat)
    requires k < |alts|
    ensures ConditionCallsInAlts(alts) >= EdgeCalls(alts[k].cond)
  {
    if k > 0 {
      ConditionCallsCounted(alts[1..], k - 1);
    }
  }

  lemma {:induction false} ShapeAcceptedIff(p: Process, infos: Infos)
    ensures ShapeObjection(p, infos).None? <==> SoleTestLast(p, infos)
  {
    if |p.body| == 1 && p.body[0].If? && |p.body[0].alts| > 0 {
      var alts := p.body[0].alts;
      SoleTestCounts(p, infos);
      EdgeCallsPrefix(alts);
      ConditionCallsCounted(alts, |alts| - 1);
      assert p.body[1..] == [];
      assert EdgeCallsIn(p.body) == EdgeCallsOf(p.body[0]) + EdgeCallsIn(p.body[1..]);
      assert ConditionCallsIn(p.body)
             == ConditionCallsInAlts(alts) + ConditionCallsIn(p.body[0].els) + ConditionCallsIn(p.body[1..]);
      if SoleTestLast(p, infos) {
        assert EdgeCalls(alts[|alts| - 1].cond) > 0;
      }
    }
  }

  /** An expression that reads no signal, port or variable. */
  predicate Settled(e: Expr, d: Decls) {
    forall n :: n in Reads(e) && n in d ==> d[n] != SignalDecl && d[n] != PortDecl && d[n] != VariableDecl
  }

  predicate AssignsSettled(a: Stmt, d: Decls) {
    a.Assign? && Settled(a.rhs, d)
  }

  /** The first action of a branch that does more than assign a settled value, if any, is action k. */
  predicate FirstUnsettled(actions: seq<Stmt>, d: Decls, k: int) {
    0 <= k < |actions| && !AssignsSettled(actions[k], d) && forall i :: 0 <= i < k ==> AssignsSettled(actions[i], d)
  }

  /** The refusal of a reset branch: none for settled assignments, else by what its first other action does. */
  lemma {:induction false} ObjectionIs(actions: seq<Stmt>, d: Decls)
    ensures ResetObjection(actions, d).None? <==> forall i :: 0 <= i < |actions| ==> AssignsSettled(actions[i], d)
    ensures forall k :: FirstUnsettled(actions, d, k) ==>
              ResetObjection(actions, d) == Some(if actions[k].Assign? then ResetReadsState else ResetDoesMore)
  {
    if |actions| != 0 {
      ObjectionIs(actions[1..], d);
      assert forall i :: 0 < i < |actions| ==> actions[i] == actions[1..][i - 1];
      assert forall i :: 0 <= i < |actions| - 1 ==> actions[1..][i] == actions[i + 1];
      assert AssignsSettled(actions[0], d) <==> actions[0].Assign? && !ReadsMutableState(actions[0].rhs, d);
      forall k | FirstUnsettled(actions, d, k)
        ensures ResetObjection(actions, d) == Some(if actions[k].Assign? then ResetReadsState else ResetDoesMore)
      {
        if k > 0 {
          assert AssignsSettled(actions[0], d) && FirstUnsettled(actions[1..], d, k - 1);
        }
      }
    }
  }

  /** What the level list may hold: the clock once and an asynchronous reset once. */
  function EdgeEntries(infos: Infos): multiset<Expr>
    requires infos.clock.Some?
  {
    match infos.reset
    case Some(rst) =>
      if infos.resetKind == AsynchronousReset then multiset{Ref(infos.clock.value), Ref(rst)}
      else multiset{Ref(infos.clock.value)}
    case None => multiset{Ref(infos.clock.value)}
  }

  lemma {:induction false} RemoveFirstCounts(l: seq<Expr>, n: Name)
    ensures multiset(RemoveFirst(l, n)) == multiset(l) - multiset{Ref(n)}
  {
    if |l| != 0 {
      assert l == [l[0]] + l[1..];
      if l[0] != Ref(n) {
        RemoveFirstCounts(l[1..], n);
      }
    }
  }

  lemma TakenOut(m: multiset<Expr>, a: Expr, b: Expr)
    ensures m - multiset{a} - multiset{b} == m - multiset{a, b}
  {
  }

  lemma BothRemoved(l: seq<Expr>, n: Name, m: Name)
    ensures multiset(RemoveFirst(RemoveFirst(l, n), m)) == multiset(l) - multiset{Ref(n), Ref(m)}
  {
    RemoveFirstCounts(l, n);
    RemoveFirstCounts(RemoveFirst(l, n), m);
    TakenOut(multiset(l), Ref(n), Ref(m));
  }

  lemma EmptyIffWithin(left: seq<Expr>, m: multiset<Expr>, e: multiset<Expr>)
    requires multiset(left) == m - e
    ensures left == [] <==> m <= e
  {
    if left != [] {
      assert left[0] in multiset(left);
    } else {
      forall x: Expr ensures m[x] <= e[x] {
        assert (m - e)[x] == multiset(left)[x] == 0;
      }
    }
  }

  lemma LeftCounts(p: Process, infos: Infos)
    requires infos.clock.Some?
    ensures multiset(LeftLevels(p, infos)) == multiset(p.sensitivity) - EdgeEntries(infos)
  {
    if HasAsyncReset(infos) {
      BothRemoved(p.sensitivity, infos.clock.value, infos.reset.value);
    } else {
      RemoveFirstCounts(p.sensitivity, infos.clock.value);
    }
  }

  lemma NothingLeft(p: Process, infos: Infos)
    requires infos.clock.Some?
    ensures LeftLevels(p, infos) == [] <==> multiset(p.sensitivity) <= EdgeEntries(infos)
  {
    LeftCounts(p, infos);
    EmptyIffWithin(LeftLevels(p, infos), multiset(p.sensitivity), EdgeEntries(infos));
  }

  /**
   Exactly which state tables are left alone and which are rebuilt. Processes only, those that test
   an edge; of the accepted shape, with nothing but settled assignments in the branch of an
   asynchronous reset, and sensitive to nothing but clock and reset.
   */
  lemma {:induction false} AcceptedIff(p: Process, isProcess: bool, infos: Infos, d: Decls)
    ensures Rebuild(p, isProcess, infos, d).Untouched? <==> !isProcess || Tests(PartsIn(p.body, false)) == 0
    ensures Rebuild(p, isProcess, infos, d).Rebuilt? <==>
            && isProcess && SoleTestLast(p, infos)
            && (infos.resetKind == AsynchronousReset && infos.reset.Some? && |p.body[0].alts| > 1 ==>
                  forall i :: 0 <= i < |p.body[0].alts[0].actions| ==> AssignsSettled(p.body[0].alts[0].actions[i], d))
            && multiset(p.sensitivity) <= EdgeEntries(infos)
  {
    TestsCounted(p.body);
    ShapeAcceptedIff(p, infos);
    if SoleTestLast(p, infos) {
      SoleTestCounted(p, infos);
      ObjectionIs(AltForReset(p.body[0]), d);
      NothingLeft(p, infos);
    }
  }

  /** The one statement of the body is an if with an edge test in one of its conditions. */
  predicate TestsInSoleIf(p: Process) {
    && |p.body| == 1 && p.body[0].If?
    && exists i :: 0 <= i < |p.body[0].alts| && Tests(Parts(p.body[0].alts[i].cond)) > 0
  }

  predicate TestsInLast(f: Stmt)
    requires f.If?
  {
    f.els == [] && |f.alts| > 0 && Tests(Parts(f.alts[|f.alts| - 1].cond)) > 0
  }

  /** An asynchronous reset has its branch ahead of the clocked one, and it does more than assign settled values. */
  predicate ResetUnsettled(f: Stmt, infos: Infos, d: Decls)
    requires f.If?
  {
    && infos.resetKind == AsynchronousReset && infos.reset.Some? && |f.alts| > 1
    && exists i :: 0 <= i < |f.alts[0].actions| && !AssignsSettled(f.alts[0].actions[i], d)
  }

  lemma TestsInConditions(f: Stmt)
    requires f.If?
    ensures forall i :: 0 <= i < |f.alts| ==> EdgeCalls(f.alts[i].cond) == Tests(Parts(f.alts[i].cond))
  {
    forall i | 0 <= i < |f.alts|
      ensures EdgeCalls(f.alts[i].cond) == Tests(Parts(f.alts[i].cond))
    {
      EdgeCallsCounted(f.alts[i].cond);
    }
  }

  lemma PlacesCounted(p: Process)
    ensures TestedByWholeBody(p) <==> TestsInSoleIf(p)
    ensures TestsInSoleIf(p) ==> (TestedLast(p.body[0]) <==> TestsInLast(p.body[0]))
  {
    if |p.body| == 1 && p.body[0].If? {
      TestsInConditions(p.body[0]);
    }
  }

  /** The diagnostic for the shape of a process, if any. */
  lemma ShapeDecision(p: Process, infos: Infos)
    requires Tests(PartsIn(p.body, false)) > 0
    ensures ShapeObjection(p, infos)
         == if p.sensitivityPos != [] || p.sensitivityNeg != [] then Some(EdgeQualifiedAndTested)
            else if !SingleEdge(infos) || Tests(PartsIn(p.body, false)) > 1 then Some(UnsupportedForm)
            else if Tests(PartsIn(p.body, true)) == 0 then Some(NotAnIfCondition)
            else if !TestsInSoleIf(p) then Some(StatementsOutside)
            else if !TestsInLast(p.body[0]) then Some(NotTheLastBranch)
            else None
  {
    TestsCounted(p.body);
    PlacesCounted(p);
  }

  /** A branch that is not all settled assignments has a first action that is not one. */
  lemma {:induction false} FirstUnsettledIs(actions: seq<Stmt>, d: Decls)
    ensures (exists i :: 0 <= i < |actions| && !AssignsSettled(actions[i], d))
            <==> exists k :: FirstUnsettled(actions, d, k)
  {
    if |actions| != 0 && AssignsSettled(actions[0], d) {
      var rest := actions[1..];
      FirstUnsettledIs(rest, d);
      assert forall i :: 0 < i < |actions| ==> actions[i] == rest[i - 1];
      if k :| FirstUnsettled(rest, d, k) {
        assert FirstUnsettled(actions, d, k + 1);
      }
    } else if |actions| != 0 {
      assert FirstUnsettled(actions, d, 0);
    }
  }

  /** The diagnostic for a process of the accepted shape, if any. */
  lemma RestDecision(p: Process, infos: Infos, d: Decls)
    requires Tests(PartsIn(p.body, false)) > 0 && SingleEdge(infos) && ShapeObjection(p, infos).None?
    ensures var r, f := Rebuild(p, true, infos, d), p.body[0];
            if ResetUnsettled(f, infos, d) then
              forall k :: FirstUnsettled(f.alts[0].actions, d, k) ==>
                r == Refused(if f.alts[0].actions[k].Assign? then ResetReadsState else ResetDoesMore)
            else if !(multiset(p.sensitivity) <= EdgeEntries(infos)) then r == Refused(OtherSensitivity)
            else r.Rebuilt?
  {
    TestsCounted(p.body);
    ObjectionIs(AltForReset(p.body[0]), d);
    FirstUnsettledIs(AltForReset(p.body[0]), d);
    NothingLeft(p, infos);
  }

  /** What becomes of every process that tests an edge: which diagnostic stops it, or that it is rebuilt. */
  lemma DecisionIs(p: Process, infos: Infos, d: Decls)
    requires Tests(PartsIn(p.body, false)) > 0
    ensures var r := Rebuild(p, true, infos, d);
            if p.sensitivityPos != [] || p.sensitivityNeg != [] then r == Refused(EdgeQualifiedAndTested)
            else if !SingleEdge(infos) || Tests(PartsIn(p.body, false)) > 1 then r == Refused(UnsupportedForm)
            else if Tests(PartsIn(p.body, true)) == 0 then r == Refused(NotAnIfCondition)
            else if !TestsInSoleIf(p) then r == Refused(StatementsOutside)
            else if !TestsInLast(p.body[0]) then r == Refused(NotTheLastBranch)
            else if ResetUnsettled(p.body[0], infos, d) then
              forall k :: FirstUnsettled(p.body[0].alts[0].actions, d, k) ==>
                r == Refused(if p.body[0].alts[0].actions[k].Assign? then ResetReadsState else ResetDoesMore)
            else if !(multiset(p.sensitivity) <= EdgeEntries(infos)) then r == Refused(OtherSensitivity)
            else r.Rebuilt?
  {
    TestsCounted(p.body);
    ShapeDecision(p, infos);
    if ShapeObjection(p, infos).None? {
      RestDecision(p, infos, d);
    }
  }

  lemma SoleTestCounted(p: Process, infos: Infos)
    requires SoleTestLast(p, infos)
    ensures EdgeCallsIn(p.body) != 0
  {
    SoleTestCounts(p, infos);
    EdgeCallsPrefix(p.body[0].alts);
    assert p.body[1..] == [];
    assert EdgeCallsIn(p.body) == EdgeCallsOf(p.body[0]) + EdgeCallsIn(p.body[1..]);
  }

  lemma {:induction false} RemoveFirstOnly(l: seq<Expr>, n: Name, e: Expr)
    requires e in l && e != Ref(n)
    ensures e in RemoveFirst(l, n)
  {
    if l[0] != Ref(n) && l[0] != e {
      RemoveFirstOnly(l[1..], n, e);
    }
  }

  /** An accepted process lists nothing but its clock and asynchronous reset. */
  lemma AcceptedSensitivity(p: Process, infos: Infos, d: Decls, q: Process, e: Expr)
    requires Rebuild(p, true, infos, d) == Rebuilt(q)
    requires e in p.sensitivity
    ensures e == Ref(infos.clock.value) || (HasAsyncReset(infos) && e == Ref(infos.reset.value))
  {
    var clk := infos.clock.value;
    if e != Ref(clk) {
      RemoveFirstOnly(p.sensitivity, clk, e);
      var l := RemoveFirst(p.sensitivity, clk);
      if HasAsyncReset(infos) && e != Ref(infos.reset.value) {
        RemoveFirstOnly(l, infos.reset.value, e);
      }
    }
  }

  /** No edge test survives, and visiting the rebuilt process again leaves it alone. */
  lemma RebuildIsFinal(p: Process, infos: Infos, d: Decls, q: Process, again: Infos)
    requires Rebuild(p, true, infos, d) == Rebuilt(q)
    ensures EdgeCallsIn(q.body) == 0
    ensures Rebuild(q, true, again, d) == Untouched
  {
    var f := p.body[0];
    EdgeCallsPrefix(f.alts);
    assert p.body[1..] == [];
    assert EdgeCallsIn(p.body) == EdgeCallsOf(f) == EdgeCallsInAlts(f.alts);
    var clocked := f.els + f.alts[|f.alts| - 1].actions;
    assert clocked == f.alts[|f.alts| - 1].actions;
    if |f.alts| > 1 {
      assert q.body[1..] == [];
    }
  }

  lemma SingleIfWrites(s: Stmt, d: Decls, cur: Store, prev: Store)
    requires s.If?
    ensures Writes([s], d, cur, prev) == Writes(Chosen(s.alts, s.els, cur, prev), d, cur, prev)
  {
    assert [s][1..] == [];
    assert cur + map[] == cur;
    var branch := Chosen(s.alts, s.els, cur, prev);
    assert ExecSeq([s], d, cur, prev, EMPTY_FRAME) == Exec(s, d, cur, prev, EMPTY_FRAME);
  }

  /** The if with its last condition replaced by one that always holds. */
  function TestedTrue(s: Stmt): Stmt
    requires s.If? && |s.alts| > 0
  {
    var last := |s.alts| - 1;
    If(s.alts[..last] + [IfAlt(Lit(ONE), s.alts[last].actions)], [])
  }

  lemma {:induction false} ChosenOfTestedTrue(alts: seq<IfAlt>, clocked: seq<Stmt>, cur: Store, prev: Store)
    ensures Chosen(alts + [IfAlt(Lit(ONE), clocked)], [], cur, prev) == Chosen(alts, clocked, cur, prev)
  {
    var all := alts + [IfAlt(Lit(ONE), clocked)];
    if |alts| == 0 {
      assert all[0].cond == Lit(ONE);
    } else {
      assert all[0] == alts[0] && all[1..] == alts[1..] + [IfAlt(Lit(ONE), clocked)];
      ChosenOfTestedTrue(alts[1..], clocked, cur, prev);
    }
  }

  /** Without its edge test the body runs as if the test held. */
  lemma {:induction false} DroppedTestHolds(s: Stmt, d: Decls, cur: Store, prev: Store)
    requires s.If? && |s.alts| > 0 && s.els == []
    ensures Writes(DropEdgeTest(s), d, cur, prev) == Writes([TestedTrue(s)], d, cur, prev)
  {
    var last := |s.alts| - 1;
    var clocked := s.alts[last].actions;
    assert [] + clocked == clocked;
    SingleIfWrites(TestedTrue(s), d, cur, prev);
    ChosenOfTestedTrue(s.alts[..last], clocked, cur, prev);
    if last > 0 {
      SingleIfWrites(If(s.alts[..last], clocked), d, cur, prev);
    }
  }
}
