/**
 What a clocked process and its edge-sensitive form do, run after run.

 Paired relates the two forms, whichever pass made one of the other. PairedRuns says when they
 hold equal stores from one start under one environment; PairedIff says exactly for which reset
 branches and clock conditions they do so from every settled start under every environment.
 SameRuns and RebuiltIff are these results for ClockedProcess.Rebuild.
 */
module ClockedRuns {
  import opened Hdl
  import opened Wrappers
  import opened ClockedProcess

  // ---------------------------------------------------------------- what the pass takes for granted

  predicate TwoValued(s: Store, n: Name) {
    Get(s, n) == ZERO || Get(s, n) == ONE
  }

  predicate IsWorkingEdge(infos: Infos, clk: Name, prev: Store, cur: Store) {
    Get(cur, clk) != Get(prev, clk) && (Truthy(Get(cur, clk)) <==> infos.workingEdge.Rising?)
  }

  /** The condition is true exactly on the working edge of the clock. */
  ghost predicate TestsWorkingEdge(cond: Expr, infos: Infos, clk: Name) {
    forall cur: Store, prev: Store :: TwoValued(cur, clk) && TwoValued(prev, clk) ==>
      (Truthy(Eval(cond, cur, prev)) <==> IsWorkingEdge(infos, clk, prev, cur))
  }

  /** Whether the condition holds on a working edge into the store. */
  predicate GateOpen(cond: Expr, infos: Infos, clk: Name, s: Store) {
    Truthy(Eval(cond, s, s[clk := if infos.workingEdge.Rising? then ZERO else ONE]))
  }

  /** The condition holds only on the working edge of the clock, and depends on nothing else of the past. */
  ghost predicate TestsGatedEdge(cond: Expr, infos: Infos, clk: Name) {
    forall cur: Store, prev: Store :: TwoValued(cur, clk) && TwoValued(prev, clk) ==>
      (Truthy(Eval(cond, cur, prev)) <==> IsWorkingEdge(infos, clk, prev, cur) && GateOpen(cond, infos, clk, cur))
  }

  predicate ResetActive(infos: Infos, s: Store) {
    HasAsyncReset(infos) && (Truthy(Get(s, infos.reset.value)) <==> infos.resetPhase.HighPhase?)
  }

  /** The condition is true exactly while the reset is at its active level. */
  ghost predicate TestsReset(cond: Expr, infos: Infos) {
    HasAsyncReset(infos) &&
    forall cur: Store, prev: Store :: TwoValued(cur, infos.reset.value) ==>
      (Truthy(Eval(cond, cur, prev)) <==> ResetActive(infos, cur))
  }

  /**
   What the pass relies on and does not check: the clock and the asynchronous reset are in the
   sensitivity list and not written here, the clocked condition holds only on the working edge, and
   the asynchronous reset is the only other alternative.
   */
  ghost predicate Classified(p: Process, infos: Infos, d: Decls) {
    && |p.body| == 1 && p.body[0].If? && infos.clock.Some?
    && var s := p.body[0];
    && var clk := infos.clock.value;
    && Ref(clk) in p.sensitivity
    && clk !in Assigned(p.body)
    && (forall n :: n in Assigned(p.body) ==> IsMutable(d, n))
    && |s.alts| == (if HasAsyncReset(infos) then 2 else 1)
    && TestsGatedEdge(s.alts[|s.alts| - 1].cond, infos, clk)
    && (HasAsyncReset(infos) ==>
      && infos.reset.value != clk
      && Ref(infos.reset.value) in p.sensitivity
      && infos.reset.value !in Assigned(p.body)
      && TestsReset(s.alts[0].cond, infos))
  }

  /**
   A step of the surroundings: it drives two-valued clock and reset and leaves this process's
   targets, constants and generics alone.
   */
  ghost predicate Surroundings(p: Process, infos: Infos, d: Decls, s: Store, t: Store)
    requires infos.clock.Some?
  {
    && TwoValued(t, infos.clock.value)
    && (HasAsyncReset(infos) ==> TwoValued(t, infos.reset.value))
    && (forall n :: n in Assigned(p.body) || !IsMutable(d, n) ==>
      (n in s <==> n in t) && Get(s, n) == Get(t, n))
  }

  /** The other processes and the stimulus, reacting to the store of this process. */
  type Environment = (nat, Store) -> Store

  ghost predicate Respects(env: Environment, p: Process, infos: Infos, d: Decls)
    requires infos.clock.Some?
  {
    forall k: nat, s: Store :: Surroundings(p, infos, d, s, env(k, s))
  }

  function Iterated(step: (nat, Store) -> Store, s: Store, k: nat): Store {
    if k == 0 then s else step(k - 1, Iterated(step, s, k - 1))
  }

  /** The store after k changes of the surroundings, the process reacting to each. */
  function VerilogRun(p: Process, d: Decls, env: Environment, s0: Store, k: nat): Store {
    Iterated((i: nat, s: Store) => Activate(p, d, s, env(i, s)), s0, k)
  }

  /** A VHDL process runs once at initialisation, with no event. */
  function VhdlRun(p: Process, d: Decls, env: Environment, s0: Store, k: nat): Store {
    Iterated((i: nat, s: Store) => Activate(p, d, s, env(i, s)), s0 + Writes(p.body, d, s0, s0), k)
  }

  /** While the reset is asserted, assigning its values again changes nothing. */
  predicate ResetSettled(p: Process, infos: Infos, d: Decls, s: Store)
    requires |p.body| == 1 && p.body[0].If?
  {
    ResetActive(infos, s) ==> s + Writes(AltForReset(p.body[0]), d, s, s) == s
  }

  // ---------------------------------------------------------------- the two forms

  function ClockedBranch(p: Process): seq<Stmt>
    requires |p.body| == 1 && p.body[0].If? && |p.body[0].alts| > 0
  {
    p.body[0].alts[|p.body[0].alts| - 1].actions
  }

  /** q is the edge-sensitive form of p; p is sensitive to clock and asynchronous reset only. */
  predicate Paired(p: Process, infos: Infos, q: Process)
    requires |p.body| == 1 && p.body[0].If? && |p.body[0].alts| > 0 && infos.clock.Some?
  {
    && !infos.workingEdge.NoSingleEdge?
    && p.body[0].els == [] && EdgeCallsIn(AltForReset(p.body[0])) == EdgeCallsIn(ClockedBranch(p)) == 0
    && p.sensitivityPos == p.sensitivityNeg == []
    && (forall k :: 0 <= k < |p.sensitivity| ==>
         p.sensitivity[k] == Ref(infos.clock.value)
           || (HasAsyncReset(infos) && p.sensitivity[k] == Ref(infos.reset.value)))
    && q == Process([], NewPos(infos), NewNeg(infos), DropEdgeTest(p.body[0]))
  }

  /** A process and its rebuilt form are paired. */
  lemma {:induction false} RebuiltIsPaired(p: Process, infos: Infos, d: Decls, q: Process)
    requires Rebuild(p, true, infos, d) == Rebuilt(q) && Classified(p, infos, d)
    ensures Paired(p, infos, q)
    ensures HasAsyncReset(infos) ==> ResetObjection(AltForReset(p.body[0]), d).None?
  {
    ShapeAcceptedIff(p, infos);
    SoleTestCounts(p, infos);
    forall k | 0 <= k < |p.sensitivity|
      ensures p.sensitivity[k] == Ref(infos.clock.value)
              || (HasAsyncReset(infos) && p.sensitivity[k] == Ref(infos.reset.value))
    {
      AcceptedSensitivity(p, infos, d, q, p.sensitivity[k]);
    }
    var alts := p.body[0].alts;
    if |alts| == 2 {
      assert alts[..1] == [alts[0]] && alts[..1][1..] == [];
      assert EdgeCallsInAlts(alts[..1])
             == EdgeCalls(alts[0].cond) + EdgeCallsIn(alts[0].actions) + EdgeCallsInAlts(alts[..1][1..]);
    }
  }

  // ---------------------------------------------------------------- what a branch without edge tests does

  lemma {:induction false} PrevIrrelevant(e: Expr, c: Store, o1: Store, o2: Store)
    requires EdgeCalls(e) == 0
    ensures Eval(e, c, o1) == Eval(e, c, o2)
  {
    match e
    case Lit(_) =>
    case Ref(_) =>
    case Index(_, i) => PrevIrrelevant(i, c, o1, o2);
    case Unary(_, e1) => PrevIrrelevant(e1, c, o1, o2);
    case Binary(_, l, r) =>
      PrevIrrelevant(l, c, o1, o2);
      PrevIrrelevant(r, c, o1, o2);
    case EdgeCall(_, _) =>
  }

  lemma {:induction false} ChosenWithoutEvents(alts: seq<IfAlt>, els: seq<Stmt>, c: Store, o1: Store, o2: Store)
    requires EdgeCallsInAlts(alts) == 0 && EdgeCallsIn(els) == 0
    ensures Chosen(alts, els, c, o1) == Chosen(alts, els, c, o2)
    ensures EdgeCallsIn(Chosen(alts, els, c, o1)) == 0
  {
    if |alts| != 0 {
      PrevIrrelevant(alts[0].cond, c, o1, o2);
      ChosenWithoutEvents(alts[1..], els, c, o1, o2);
    }
  }

  lemma {:induction false} ExecWithoutEvents(ss: seq<Stmt>, d: Decls, c: Store, o1: Store, o2: Store, f: Frame)
    requires EdgeCallsIn(ss) == 0
    ensures ExecSeq(ss, d, c, o1, f) == ExecSeq(ss, d, c, o2, f)
    decreases ss, 0
  {
    if |ss| != 0 {
      ExecOneWithoutEvents(ss[0], d, c, o1, o2, f);
      ExecWithoutEvents(ss[1..], d, c, o1, o2, Exec(ss[0], d, c, o1, f));
    }
  }

  lemma {:induction false} ExecOneWithoutEvents(s: Stmt, d: Decls, c: Store, o1: Store, o2: Store, f: Frame)
    requires EdgeCallsOf(s) == 0
    ensures Exec(s, d, c, o1, f) == Exec(s, d, c, o2, f)
    decreases s, 1
  {
    match s
    case Assign(t, rhs) =>
      PrevIrrelevant(rhs, c + f.vars, o1, o2);
      if t.Element? {
        PrevIrrelevant(t.i, c + f.vars, o1, o2);
      }
    case If(alts, els) =>
      ChosenWithoutEvents(alts, els, c + f.vars, o1, o2);
      var branch := Chosen(alts, els, c + f.vars, o1);
      assert branch == els || exists i :: 0 <= i < |alts| && branch == alts[i].actions;
      ExecWithoutEvents(branch, d, c, o1, o2, f);
  }

  /** What the reset branch writes in a store; no edge test in it, so what came before does not matter. */
  function ResetWrites(p: Process, d: Decls, t: Store): Store
    requires |p.body| == 1 && p.body[0].If?
  {
    Writes(AltForReset(p.body[0]), d, t, t)
  }

  /** What the clocked branch writes in a store. */
  function ClockedWrites(p: Process, d: Decls, t: Store): Store
    requires |p.body| == 1 && p.body[0].If? && |p.body[0].alts| > 0
  {
    Writes(ClockedBranch(p), d, t, t)
  }

  /** Whether what the condition tests besides the edge lets the clocked branch run. */
  predicate Gate(p: Process, infos: Infos, t: Store)
    requires |p.body| == 1 && p.body[0].If? && |p.body[0].alts| > 0 && infos.clock.Some?
  {
    GateOpen(p.body[0].alts[|p.body[0].alts| - 1].cond, infos, infos.clock.value, t)
  }

  lemma ClockedWritesAnyway(p: Process, d: Decls, s: Store, t: Store)
    requires |p.body| == 1 && p.body[0].If? && |p.body[0].alts| > 0 && EdgeCallsIn(ClockedBranch(p)) == 0
    ensures Writes(ClockedBranch(p), d, t, s) == ClockedWrites(p, d, t)
  {
    ExecWithoutEvents(ClockedBranch(p), d, t, s, t, EMPTY_FRAME);
  }

  lemma ResetWritesAnyway(p: Process, d: Decls, s: Store, t: Store)
    requires |p.body| == 1 && p.body[0].If? && EdgeCallsIn(AltForReset(p.body[0])) == 0
    ensures Writes(AltForReset(p.body[0]), d, t, s) == ResetWrites(p, d, t)
  {
    ExecWithoutEvents(AltForReset(p.body[0]), d, t, s, t, EMPTY_FRAME);
  }

  /** The names the if's branches assign are among those the body assigns. */
  lemma BranchAssigned(p: Process)
    requires |p.body| == 1 && p.body[0].If? && p.body[0].els == [] && 1 <= |p.body[0].alts| <= 2
    ensures Assigned(p.body[0].alts[0].actions) <= Assigned(p.body)
    ensures Assigned(AltForReset(p.body[0])) <= Assigned(p.body)
    ensures Assigned(p.body[0].alts[|p.body[0].alts| - 1].actions) <= Assigned(p.body)
  {
    var alts := p.body[0].alts;
    assert p.body[1..] == [];
    assert Assigned(p.body) == AssignedBy(p.body[0]) == AssignedInAlts(alts);
    assert AssignedInAlts(alts) == Assigned(alts[0].actions) + AssignedInAlts(alts[1..]);
    if |alts| == 2 {
      assert AssignedInAlts(alts[1..]) == Assigned(alts[1].actions) + AssignedInAlts(alts[1..][1..]);
    }
  }

  /** The branch each form of the body takes, by cause. */
  lemma BranchTaken(p: Process, infos: Infos, d: Decls, s: Store, t: Store)
    requires Classified(p, infos, d) && p.body[0].els == []
    requires TwoValued(s, infos.clock.value) && TwoValued(t, infos.clock.value)
    requires HasAsyncReset(infos) ==> TwoValued(t, infos.reset.value)
    ensures Chosen(p.body[0].alts, [], t, s) ==
            if ResetActive(infos, t) then AltForReset(p.body[0])
            else if IsWorkingEdge(infos, infos.clock.value, s, t) && Gate(p, infos, t) then ClockedBranch(p) else []
  {
    var alts := p.body[0].alts;
    var clk := infos.clock.value;
    assert Truthy(Eval(alts[|alts| - 1].cond, t, s)) <==> IsWorkingEdge(infos, clk, s, t) && Gate(p, infos, t);
    if HasAsyncReset(infos) {
      assert alts[1..][0] == alts[1] && alts[1..][1..] == [];
      assert Truthy(Eval(alts[0].cond, t, s)) <==> ResetActive(infos, t);
    } else {
      assert alts[1..] == [];
    }
  }

  lemma VhdlWrites(p: Process, infos: Infos, d: Decls, s: Store, t: Store)
    requires Classified(p, infos, d) && p.body[0].els == []
    requires TwoValued(s, infos.clock.value) && TwoValued(t, infos.clock.value)
    requires HasAsyncReset(infos) ==> TwoValued(t, infos.reset.value)
    ensures Writes(p.body, d, t, s) ==
            if ResetActive(infos, t) then Writes(AltForReset(p.body[0]), d, t, s)
            else if IsWorkingEdge(infos, infos.clock.value, s, t) && Gate(p, infos, t)
              then Writes(ClockedBranch(p), d, t, s)
            else map[]
  {
    SingleIfWrites(p.body[0], d, t, s);
    assert p.body == [p.body[0]];
    assert Writes([], d, t, s) == map[];
    BranchTaken(p, infos, d, s, t);
  }

  lemma VerilogWrites(p: Process, infos: Infos, d: Decls, s: Store, t: Store)
    requires Classified(p, infos, d) && p.body[0].els == []
    requires HasAsyncReset(infos) ==> TwoValued(t, infos.reset.value)
    ensures Writes(DropEdgeTest(p.body[0]), d, t, s) ==
            if ResetActive(infos, t) then Writes(AltForReset(p.body[0]), d, t, s)
            else Writes(ClockedBranch(p), d, t, s)
  {
    var f := p.body[0];
    assert f.els + ClockedBranch(p) == ClockedBranch(p);
    if HasAsyncReset(infos) {
      var g := If(f.alts[..1], ClockedBranch(p));
      SingleIfWrites(g, d, t, s);
      assert g.alts[0] == f.alts[0] && g.alts[1..] == [];
      assert Truthy(Eval(f.alts[0].cond, t, s)) <==> ResetActive(infos, t);
    }
  }

  lemma EdgeOfName(n: Name, s: Store, t: Store)
    ensures PosEdge(Ref(n), s, t) <==> !Truthy(Get(s, n)) && Truthy(Get(t, n))
    ensures NegEdge(Ref(n), s, t) <==> Truthy(Get(s, n)) && !Truthy(Get(t, n))
  {
  }

  /** The edge lists of the rebuilt form: the clock under its edge, the reset under its assertion. */
  lemma NewLists(infos: Infos)
    requires infos.clock.Some? && !infos.workingEdge.NoSingleEdge?
    requires HasAsyncReset(infos) ==> infos.reset != infos.clock
    ensures forall e :: e in NewPos(infos) <==>
              (infos.workingEdge.Rising? && e == Ref(infos.clock.value)) ||
              (HasAsyncReset(infos) && infos.resetPhase.HighPhase? && e == Ref(infos.reset.value))
    ensures forall e :: e in NewNeg(infos) <==>
              (infos.workingEdge.Falling? && e == Ref(infos.clock.value)) ||
              (HasAsyncReset(infos) && infos.resetPhase.LowPhase? && e == Ref(infos.reset.value))
  {
  }

  lemma EdgeListWakes(pos: seq<Expr>, neg: seq<Expr>, body: seq<Stmt>, s: Store, t: Store)
    ensures Wakes(Process([], pos, neg, body), s, t) <==>
            (exists e :: e in pos && PosEdge(e, s, t)) || (exists e :: e in neg && NegEdge(e, s, t))
  {
    if e :| e in pos && PosEdge(e, s, t) {
      var i :| 0 <= i < |pos| && pos[i] == e;
      assert PosEdge(pos[i], s, t);
    }
    if e :| e in neg && NegEdge(e, s, t) {
      var i :| 0 <= i < |neg| && neg[i] == e;
      assert NegEdge(neg[i], s, t);
    }
  }

  /** When the rebuilt form is activated. */
  lemma RebuiltWakes(infos: Infos, body: seq<Stmt>, s: Store, t: Store)
    requires infos.clock.Some? && !infos.workingEdge.NoSingleEdge?
    requires TwoValued(s, infos.clock.value) && TwoValued(t, infos.clock.value)
    requires HasAsyncReset(infos) ==> infos.reset != infos.clock
    requires HasAsyncReset(infos) ==> TwoValued(s, infos.reset.value) && TwoValued(t, infos.reset.value)
    ensures Wakes(Process([], NewPos(infos), NewNeg(infos), body), s, t) <==>
            IsWorkingEdge(infos, infos.clock.value, s, t) || (ResetActive(infos, t) && !ResetActive(infos, s))
  {
    NewLists(infos);
    EdgeListWakes(NewPos(infos), NewNeg(infos), body, s, t);
    EdgeOfName(infos.clock.value, s, t);
    var c := Ref(infos.clock.value);
    assert infos.workingEdge.Rising? ==> c in NewPos(infos);
    assert infos.workingEdge.Falling? ==> c in NewNeg(infos);
    if HasAsyncReset(infos) {
      EdgeOfName(infos.reset.value, s, t);
      var r := Ref(infos.reset.value);
      assert infos.resetPhase.HighPhase? ==> r in NewPos(infos);
      assert infos.resetPhase.LowPhase? ==> r in NewNeg(infos);
    }
  }

  /** The clock or the asynchronous reset has changed. */
  predicate Changed(infos: Infos, s: Store, t: Store)
    requires infos.clock.Some?
  {
    || Get(s, infos.clock.value) != Get(t, infos.clock.value)
    || (HasAsyncReset(infos) && Get(s, infos.reset.value) != Get(t, infos.reset.value))
  }

  /** A process listing its clock and asynchronous reset alone is activated by their changes. */
  lemma VhdlWakes(p: Process, infos: Infos, s: Store, t: Store)
    requires infos.clock.Some? && p.sensitivityPos == p.sensitivityNeg == []
    requires Ref(infos.clock.value) in p.sensitivity
    requires HasAsyncReset(infos) ==> Ref(infos.reset.value) in p.sensitivity
    requires forall k :: 0 <= k < |p.sensitivity| ==>
      p.sensitivity[k] == Ref(infos.clock.value) || (HasAsyncReset(infos) && p.sensitivity[k] == Ref(infos.reset.value))
    ensures Wakes(p, s, t) <==> Changed(infos, s, t)
  {
    if Changed(infos, s, t) {
      var n := if Get(s, infos.clock.value) != Get(t, infos.clock.value) then infos.clock.value else infos.reset.value;
      var i :| 0 <= i < |p.sensitivity| && p.sensitivity[i] == Ref(n);
      assert Level(p.sensitivity[i], s, t);
    }
  }

  /** Clock and asynchronous reset are at one of two values. */
  predicate Driven(infos: Infos, s: Store)
    requires infos.clock.Some?
  {
    TwoValued(s, infos.clock.value) && (HasAsyncReset(infos) ==> TwoValued(s, infos.reset.value))
  }

  /** The clock is at the level its working edge leads to. */
  predicate ClockActive(infos: Infos, s: Store)
    requires infos.clock.Some?
  {
    Truthy(Get(s, infos.clock.value)) <==> infos.workingEdge.Rising?
  }

  /** The edge-sensitive form has a cause to run: a working edge, or the reset's assertion. */
  predicate Cause(infos: Infos, s: Store, t: Store)
    requires infos.clock.Some?
  {
    IsWorkingEdge(infos, infos.clock.value, s, t) || (ResetActive(infos, t) && !ResetActive(infos, s))
  }

  /** The rebuilt form wakes exactly when something is to be done, and the VHDL form then wakes too. */
  lemma {:induction false} WakesAgree(p: Process, infos: Infos, d: Decls, q: Process, s: Store, t: Store)
    requires Classified(p, infos, d) && Paired(p, infos, q) && Driven(infos, s) && Driven(infos, t)
    ensures Wakes(q, s, t) <==> Cause(infos, s, t)
    ensures Wakes(p, s, t) <==> Changed(infos, s, t)
    ensures Wakes(q, s, t) ==> Wakes(p, s, t)
  {
    RebuiltWakes(infos, q.body, s, t);
    VhdlWakes(p, infos, s, t);
    CauseMoves(infos, s, t);
  }

  lemma CauseMoves(infos: Infos, s: Store, t: Store)
    requires infos.clock.Some? && Driven(infos, s) && Driven(infos, t)
    ensures Cause(infos, s, t) ==> Changed(infos, s, t)
  {
  }

  // ---------------------------------------------------------------- one step

  /** What the edge-sensitive form writes when it runs for a cause. */
  function CauseWrites(p: Process, infos: Infos, d: Decls, s: Store, t: Store): Store
    requires |p.body| == 1 && p.body[0].If? && |p.body[0].alts| > 0 && infos.clock.Some?
  {
    if ResetActive(infos, t) then ResetWrites(p, d, t)
    else if IsWorkingEdge(infos, infos.clock.value, s, t) then ClockedWrites(p, d, t)
    else map[]
  }

  /** A working edge on which the dropped part of the condition keeps the clocked branch from running. */
  predicate ShutOut(p: Process, infos: Infos, s: Store, t: Store)
    requires |p.body| == 1 && p.body[0].If? && |p.body[0].alts| > 0 && infos.clock.Some?
  {
    !ResetActive(infos, t) && IsWorkingEdge(infos, infos.clock.value, s, t) && !Gate(p, infos, t)
  }

  lemma {:induction false} VhdlReacts(p: Process, infos: Infos, d: Decls, q: Process, s: Store, t: Store)
    requires Classified(p, infos, d) && Paired(p, infos, q) && Driven(infos, s) && Driven(infos, t)
    ensures Activate(p, d, s, t)
            == t + if Changed(infos, s, t) && !ShutOut(p, infos, s, t) then CauseWrites(p, infos, d, s, t) else map[]
  {
    WakesAgree(p, infos, d, q, s, t);
    VhdlWrites(p, infos, d, s, t);
    ResetWritesAnyway(p, d, s, t);
    ClockedWritesAnyway(p, d, s, t);
    ReactsBy(p, d, s, t, if ShutOut(p, infos, s, t) then map[] else CauseWrites(p, infos, d, s, t));
  }

  lemma ReactsBy(p: Process, d: Decls, s: Store, t: Store, w: Store)
    requires Wakes(p, s, t) ==> Writes(p.body, d, t, s) == w
    ensures Activate(p, d, s, t) == t + if Wakes(p, s, t) then w else map[]
  {
  }

  lemma {:induction false} VerilogReacts(p: Process, infos: Infos, d: Decls, q: Process, s: Store, t: Store)
    requires Classified(p, infos, d) && Paired(p, infos, q) && Driven(infos, s) && Driven(infos, t)
    ensures Activate(q, d, s, t) == t + if Cause(infos, s, t) then CauseWrites(p, infos, d, s, t) else map[]
  {
    VerilogWrites(p, infos, d, s, t);
    WakesAgree(p, infos, d, q, s, t);
    ResetWritesAnyway(p, d, s, t);
    ClockedWritesAnyway(p, d, s, t);
    ReactsBy(q, d, s, t, CauseWrites(p, infos, d, s, t));
  }

  /** Only the VHDL form runs, and it runs the reset branch: the clock left its active level under reset. */
  predicate RunsAlone(infos: Infos, s: Store, t: Store)
    requires infos.clock.Some?
  {
    ResetActive(infos, s) && ResetActive(infos, t) && ClockActive(infos, s) && !ClockActive(infos, t)
  }

  /** When the clock or the reset changes without a cause, there is nothing to do or the reset branch. */
  lemma ChangeCases(infos: Infos, s: Store, t: Store)
    requires infos.clock.Some? && Driven(infos, s) && Driven(infos, t)
    ensures RunsAlone(infos, s, t) ==> Changed(infos, s, t) && !Cause(infos, s, t)
    ensures Changed(infos, s, t) && !Cause(infos, s, t) && ResetActive(infos, t) ==> RunsAlone(infos, s, t)
    ensures IsWorkingEdge(infos, infos.clock.value, s, t) ==> ClockActive(infos, t)
    ensures ResetActive(infos, t) && ClockActive(infos, t) && !Cause(infos, s, t) ==>
              ResetActive(infos, s) && ClockActive(infos, s)
  {
  }

  lemma StepCases(p: Process, infos: Infos, d: Decls, s: Store, t: Store, u: Store, w: Store)
    requires |p.body| == 1 && p.body[0].If? && |p.body[0].alts| > 0 && infos.clock.Some?
    requires Driven(infos, s) && Driven(infos, t)
    requires u == t + if Changed(infos, s, t) && !ShutOut(p, infos, s, t) then CauseWrites(p, infos, d, s, t) else map[]
    requires w == t + if Cause(infos, s, t) then CauseWrites(p, infos, d, s, t) else map[]
    ensures u == w <==>
            && (RunsAlone(infos, s, t) ==> t + ResetWrites(p, d, t) == t)
            && (ShutOut(p, infos, s, t) ==> t + ClockedWrites(p, d, t) == t)
  {
    ChangeCases(infos, s, t);
    CauseMoves(infos, s, t);
    assert t + map[] == t;
  }

  /**
   One step: the two forms leave the same store exactly when the reset branch changes nothing, if it
   is the VHDL form's alone to run, and the clocked branch changes nothing, if it is shut out of it.
   */
  lemma {:induction false} StepAgreesIff(p: Process, infos: Infos, d: Decls, q: Process, s: Store, t: Store)
    requires Classified(p, infos, d) && Paired(p, infos, q) && Driven(infos, s) && Driven(infos, t)
    ensures Activate(p, d, s, t) == Activate(q, d, s, t) <==>
            && (RunsAlone(infos, s, t) ==> t + ResetWrites(p, d, t) == t)
            && (ShutOut(p, infos, s, t) ==> t + ClockedWrites(p, d, t) == t)
    ensures Activate(q, d, s, t) == t + if Cause(infos, s, t) then CauseWrites(p, infos, d, s, t) else map[]
  {
    VhdlReacts(p, infos, d, q, s, t);
    VerilogReacts(p, infos, d, q, s, t);
    StepCases(p, infos, d, s, t, Activate(p, d, s, t), Activate(q, d, s, t));
  }

  lemma Reacts(p: Process, d: Decls, s: Store, t: Store, w: Store)
    requires Wakes(p, s, t) ==> Writes(p.body, d, t, s) == w
    requires !Wakes(p, s, t) ==> t + w == t
    ensures Activate(p, d, s, t) == t + w
  {
    assert t + map[] == t;
  }

  // ---------------------------------------------------------------- every step

  /** Leaving the active level under reset changes nothing, whatever the surroundings did meanwhile. */
  ghost predicate StaysFrom(p: Process, infos: Infos, d: Decls, s: Store)
    requires |p.body| == 1 && p.body[0].If? && infos.clock.Some?
  {
    forall v: Store :: Surroundings(p, infos, d, s, v) && ResetActive(infos, v) && !ClockActive(infos, v) ==>
      v + ResetWrites(p, d, v) == v
  }

  /**
   The reset values stay put: once the branch has run under an active clock, running it again under
   an inactive one changes nothing, however signals, ports and variables the process does not
   assign have moved.
   */
  ghost predicate ResetStays(p: Process, infos: Infos, d: Decls)
    requires |p.body| == 1 && p.body[0].If? && infos.clock.Some?
  {
    forall t: Store :: Driven(infos, t) && ResetActive(infos, t) && ClockActive(infos, t) ==>
      StaysFrom(p, infos, d, t + ResetWrites(p, d, t))
  }

  /**
   The dropped part of the condition does not matter: with it false and the reset inactive, the
   clocked branch changes nothing under an active clock.
   */
  ghost predicate GateHarmless(p: Process, infos: Infos, d: Decls)
    requires |p.body| == 1 && p.body[0].If? && |p.body[0].alts| > 0 && infos.clock.Some?
  {
    forall t: Store :: Driven(infos, t) && !ResetActive(infos, t) && ClockActive(infos, t) && !Gate(p, infos, t) ==>
      t + ClockedWrites(p, d, t) == t
  }

  /** An exact edge test drops nothing that matters. */
  lemma ExactIsGated(cond: Expr, infos: Infos, clk: Name)
    requires TestsWorkingEdge(cond, infos, clk) && !infos.workingEdge.NoSingleEdge?
    ensures TestsGatedEdge(cond, infos, clk)
    ensures forall t: Store :: TwoValued(t, clk) && (Truthy(Get(t, clk)) <==> infos.workingEdge.Rising?) ==>
              GateOpen(cond, infos, clk, t)
  {
    forall t: Store | TwoValued(t, clk) && (Truthy(Get(t, clk)) <==> infos.workingEdge.Rising?)
      ensures GateOpen(cond, infos, clk, t)
    {
      var prev := t[clk := if infos.workingEdge.Rising? then ZERO else ONE];
      assert TwoValued(prev, clk) && IsWorkingEdge(infos, clk, prev, t);
    }
  }

  lemma ExactIsHarmless(p: Process, infos: Infos, d: Decls)
    requires |p.body| == 1 && p.body[0].If? && |p.body[0].alts| > 0 && infos.clock.Some?
    requires !infos.workingEdge.NoSingleEdge?
    requires TestsWorkingEdge(p.body[0].alts[|p.body[0].alts| - 1].cond, infos, infos.clock.value)
    ensures GateHarmless(p, infos, d)
  {
    ExactIsGated(p.body[0].alts[|p.body[0].alts| - 1].cond, infos, infos.clock.value);
  }

  /** The invariant both runs keep. */
  ghost predicate RunInvariant(p: Process, infos: Infos, d: Decls, s: Store)
    requires |p.body| == 1 && p.body[0].If? && infos.clock.Some?
  {
    Driven(infos, s) && (ResetActive(infos, s) && ClockActive(infos, s) ==> StaysFrom(p, infos, d, s))
  }

  lemma StaysOn(p: Process, infos: Infos, d: Decls, s: Store, t: Store)
    requires |p.body| == 1 && p.body[0].If? && infos.clock.Some?
    requires StaysFrom(p, infos, d, s) && Surroundings(p, infos, d, s, t)
    ensures StaysFrom(p, infos, d, t)
  {
    forall v: Store | Surroundings(p, infos, d, t, v) && ResetActive(infos, v) && !ClockActive(infos, v)
      ensures v + ResetWrites(p, d, v) == v
    {
      assert Surroundings(p, infos, d, s, v);
    }
  }

  lemma {:induction false} ClockAndResetKept(p: Process, infos: Infos, d: Decls, s: Store, t: Store)
    requires infos.clock.Some? && infos.clock.value !in Assigned(p.body) && Driven(infos, t)
    requires HasAsyncReset(infos) ==> infos.reset.value !in Assigned(p.body)
    ensures var u := Activate(p, d, s, t);
            && Driven(infos, u) && (ResetActive(infos, u) <==> ResetActive(infos, t))
            && (ClockActive(infos, u) <==> ClockActive(infos, t))
  {
    WritesOnlyAssigned(p.body, d, t, s);
    var u := Activate(p, d, s, t);
    assert Get(u, infos.clock.value) == Get(t, infos.clock.value);
    assert HasAsyncReset(infos) ==> Get(u, infos.reset.value) == Get(t, infos.reset.value);
  }

  /** The invariant silences the reset branch, and a harmless gate the clocked one. */
  lemma NothingChanges(p: Process, infos: Infos, d: Decls, s: Store, t: Store)
    requires |p.body| == 1 && p.body[0].If? && |p.body[0].alts| > 0 && infos.clock.Some?
    requires GateHarmless(p, infos, d) && RunInvariant(p, infos, d, s) && Surroundings(p, infos, d, s, t)
    ensures RunsAlone(infos, s, t) ==> t + ResetWrites(p, d, t) == t
    ensures ShutOut(p, infos, s, t) ==> t + ClockedWrites(p, d, t) == t
  {
    ChangeCases(infos, s, t);
  }

  /** One step: both forms react alike. */
  lemma {:induction false} StepAgrees(p: Process, infos: Infos, d: Decls, q: Process, s: Store, t: Store)
    requires Classified(p, infos, d) && Paired(p, infos, q) && GateHarmless(p, infos, d)
    requires RunInvariant(p, infos, d, s) && Surroundings(p, infos, d, s, t)
    ensures Activate(p, d, s, t) == Activate(q, d, s, t)
  {
    NothingChanges(p, infos, d, s, t);
    StepAgreesIff(p, infos, d, q, s, t);
  }

  lemma InvariantCases(p: Process, infos: Infos, d: Decls, s: Store, t: Store, u: Store)
    requires |p.body| == 1 && p.body[0].If? && |p.body[0].alts| > 0 && infos.clock.Some?
    requires ResetStays(p, infos, d) && RunInvariant(p, infos, d, s) && Surroundings(p, infos, d, s, t)
    requires u == t + if Cause(infos, s, t) then CauseWrites(p, infos, d, s, t) else map[]
    requires Driven(infos, u) && (ResetActive(infos, u) <==> ResetActive(infos, t))
    requires ClockActive(infos, u) <==> ClockActive(infos, t)
    ensures RunInvariant(p, infos, d, u)
  {
    ChangeCases(infos, s, t);
    if ResetActive(infos, t) && ClockActive(infos, t) && !Cause(infos, s, t) {
      assert t + map[] == t;
      StaysOn(p, infos, d, s, t);
    }
  }

  /** One step keeps the invariant. */
  lemma {:induction false} StepKeepsInvariant(p: Process, infos: Infos, d: Decls, q: Process, s: Store, t: Store)
    requires Classified(p, infos, d) && Paired(p, infos, q)
    requires ResetStays(p, infos, d) && GateHarmless(p, infos, d)
    requires RunInvariant(p, infos, d, s) && Surroundings(p, infos, d, s, t)
    ensures RunInvariant(p, infos, d, Activate(p, d, s, t))
  {
    StepAgreesIff(p, infos, d, q, s, t);
    NothingChanges(p, infos, d, s, t);
    ClockAndResetKept(p, infos, d, s, t);
    InvariantCases(p, infos, d, s, t, Activate(p, d, s, t));
  }

  /** Two steppers that agree, and keep an invariant, agree forever. */
  lemma {:induction false} AgreeForever(step: (nat, Store) -> Store, other: (nat, Store) -> Store, inv: Store -> bool,
                                        s: Store, k: nat)
    requires inv(s)
    requires forall i: nat, t: Store :: inv(t) ==> step(i, t) == other(i, t) && inv(step(i, t))
    ensures Iterated(step, s, k) == Iterated(other, s, k) && inv(Iterated(step, s, k))
  {
    if k != 0 {
      AgreeForever(step, other, inv, s, k - 1);
    }
  }

  lemma {:induction false} RunsAgreeFrom(p: Process, infos: Infos, d: Decls, q: Process, env: Environment, s0: Store,
                                         k: nat)
    requires Classified(p, infos, d) && Paired(p, infos, q)
    requires ResetStays(p, infos, d) && GateHarmless(p, infos, d)
    requires Respects(env, p, infos, d) && RunInvariant(p, infos, d, s0)
    requires s0 + Writes(p.body, d, s0, s0) == s0
    ensures VhdlRun(p, d, env, s0, k) == VerilogRun(q, d, env, s0, k)
  {
    var step := (i: nat, s: Store) => Activate(p, d, s, env(i, s));
    var other := (i: nat, s: Store) => Activate(q, d, s, env(i, s));
    var inv := s => RunInvariant(p, infos, d, s);
    forall i: nat, s: Store | inv(s)
      ensures step(i, s) == other(i, s) && inv(step(i, s))
    {
      assert Surroundings(p, infos, d, s, env(i, s));
      StepAgrees(p, infos, d, q, s, env(i, s));
      StepKeepsInvariant(p, infos, d, q, s, env(i, s));
    }
    AgreeForever(step, other, inv, s0, k);
  }

  lemma {:induction false} InitialWrites(p: Process, infos: Infos, d: Decls, q: Process, s0: Store)
    requires Classified(p, infos, d) && Paired(p, infos, q) && Driven(infos, s0)
    ensures Writes(p.body, d, s0, s0) == if ResetActive(infos, s0) then ResetWrites(p, d, s0) else map[]
  {
    VhdlWrites(p, infos, d, s0, s0);
  }

  /**
   Main result for one run. If the reset values stay put and the dropped condition does not matter,
   the two forms hold equal stores after every step if and only if the start has the reset inactive
   or its values in place.
   */
  lemma {:induction false} PairedRuns(p: Process, infos: Infos, d: Decls, q: Process, env: Environment, s0: Store)
    requires Classified(p, infos, d) && Paired(p, infos, q)
    requires ResetStays(p, infos, d) && GateHarmless(p, infos, d)
    requires Respects(env, p, infos, d) && Driven(infos, s0)
    ensures (forall k: nat :: VhdlRun(p, d, env, s0, k) == VerilogRun(q, d, env, s0, k))
            <==> ResetSettled(p, infos, d, s0)
  {
    SettledStart(p, infos, d, q, s0);
    if ResetSettled(p, infos, d, s0) {
      forall k: nat
        ensures VhdlRun(p, d, env, s0, k) == VerilogRun(q, d, env, s0, k)
      {
        RunsAgreeFrom(p, infos, d, q, env, s0, k);
      }
    } else {
      assert VhdlRun(p, d, env, s0, 0) != VerilogRun(q, d, env, s0, 0);
    }
  }

  /** A start is settled when the initial run leaves it, and then the invariant holds. */
  lemma {:induction false} SettledStart(p: Process, infos: Infos, d: Decls, q: Process, s0: Store)
    requires Classified(p, infos, d) && Paired(p, infos, q) && ResetStays(p, infos, d) && Driven(infos, s0)
    ensures ResetSettled(p, infos, d, s0) <==> s0 + Writes(p.body, d, s0, s0) == s0
    ensures ResetSettled(p, infos, d, s0) ==> RunInvariant(p, infos, d, s0)
  {
    InitialWrites(p, infos, d, q, s0);
    assert s0 + map[] == s0;
    if ResetActive(infos, s0) && ClockActive(infos, s0) {
      assert StaysFrom(p, infos, d, s0 + ResetWrites(p, d, s0));
    }
  }

  // ---------------------------------------------------------------- exactly which processes

  /** The two forms hold equal stores forever, from every settled start, under every environment. */
  ghost predicate RunAlike(p: Process, infos: Infos, d: Decls, q: Process)
    requires |p.body| == 1 && p.body[0].If? && infos.clock.Some?
  {
    forall env: Environment, s0: Store, k: nat ::
      Respects(env, p, infos, d) && Driven(infos, s0) && ResetSettled(p, infos, d, s0) ==>
      VhdlRun(p, d, env, s0, k) == VerilogRun(q, d, env, s0, k)
  }

  /** Clock and asynchronous reset are signals or ports: the surroundings can move them. */
  predicate Movable(infos: Infos, d: Decls)
    requires infos.clock.Some?
  {
    IsMutable(d, infos.clock.value) && (HasAsyncReset(infos) ==> IsMutable(d, infos.reset.value))
  }

  predicate Fixed(p: Process, d: Decls, n: Name) {
    n in Assigned(p.body) || !IsMutable(d, n)
  }

  /** The names the surroundings may move take t's values, the others keep those of s. */
  function MovedTo(p: Process, d: Decls, s: Store, t: Store): Store {
    map n | n in s.Keys + t.Keys && (if Fixed(p, d, n) then n in s else n in t) :: if Fixed(p, d, n) then s[n] else t[n]
  }

  lemma {:induction false} MovesLawfully(p: Process, infos: Infos, d: Decls, s: Store, t: Store)
    requires Classified(p, infos, d) && Movable(infos, d) && Driven(infos, t)
    ensures Surroundings(p, infos, d, s, MovedTo(p, d, s, t))
    ensures Get(MovedTo(p, d, s, t), infos.clock.value) == Get(t, infos.clock.value)
    ensures HasAsyncReset(infos) ==> Get(MovedTo(p, d, s, t), infos.reset.value) == Get(t, infos.reset.value)
  {
    assert !Fixed(p, d, infos.clock.value);
    assert HasAsyncReset(infos) ==> !Fixed(p, d, infos.reset.value);
  }

  lemma {:induction false} MovesExactly(p: Process, infos: Infos, d: Decls, s: Store, t: Store)
    requires Classified(p, infos, d) && Surroundings(p, infos, d, s, t)
    ensures MovedTo(p, d, s, t) == t
  {
    forall n | Fixed(p, d, n)
      ensures n in s <==> n in t
      ensures n in s ==> s[n] == t[n]
    {
      assert Get(s, n) == Get(t, n);
    }
  }

  /** The surroundings that assert the reset and then leave the clock's active level. */
  function TwoMoves(p: Process, d: Decls, t: Store, v: Store): Environment {
    (i: nat, s: Store) => MovedTo(p, d, s, if i == 0 then t else v)
  }

  lemma {:induction false} TwoMovesRespect(p: Process, infos: Infos, d: Decls, t: Store, v: Store)
    requires Classified(p, infos, d) && Movable(infos, d) && Driven(infos, t) && Driven(infos, v)
    ensures Respects(TwoMoves(p, d, t, v), p, infos, d)
  {
    forall i: nat, s: Store
      ensures Surroundings(p, infos, d, s, TwoMoves(p, d, t, v)(i, s))
    {
      MovesLawfully(p, infos, d, s, if i == 0 then t else v);
    }
  }

  /** The reset's other level. */
  function Released(infos: Infos): Value {
    if infos.resetPhase.HighPhase? then ZERO else ONE
  }

  lemma {:induction false} TwoSteps(p: Process, d: Decls, env: Environment, s0: Store, s1: Store)
    requires s1 == Activate(p, d, s0, env(0, s0))
    ensures VerilogRun(p, d, env, s0, 2) == Activate(p, d, s1, env(1, s1))
    ensures s0 + Writes(p.body, d, s0, s0) == s0 ==> VhdlRun(p, d, env, s0, 2) == Activate(p, d, s1, env(1, s1))
  {
    var step := (i: nat, s: Store) => Activate(p, d, s, env(i, s));
    assert Iterated(step, s0, 1) == step(0, Iterated(step, s0, 0)) == s1;
    assert Iterated(step, s0, 2) == step(1, Iterated(step, s0, 1));
  }

  /** A reset branch whose values move makes some run part. */
  lemma {:induction false} MovedResetParts(p: Process, infos: Infos, d: Decls, q: Process, t: Store, v: Store)
    requires Classified(p, infos, d) && Paired(p, infos, q) && Movable(infos, d)
    requires Driven(infos, t) && ResetActive(infos, t) && ClockActive(infos, t)
    requires Surroundings(p, infos, d, t + ResetWrites(p, d, t), v) && ResetActive(infos, v) && !ClockActive(infos, v)
    requires v + ResetWrites(p, d, v) != v
    ensures !RunAlike(p, infos, d, q)
  {
    var s0 := t[infos.reset.value := Released(infos)];
    var u := t + ResetWrites(p, d, t);
    var env := TwoMoves(p, d, t, v);
    TwoMovesRespect(p, infos, d, t, v);
    StartsReleased(p, infos, d, q, t);
    MovesExactly(p, infos, d, s0, t);
    MovesExactly(p, infos, d, u, v);
    SecondStepUnderReset(p, infos, d, q, t, v);
    PartsAfterTwo(p, infos, d, q, env, s0, u);
  }

  /** The store before the reset is asserted. */
  lemma {:induction false} StartsReleased(p: Process, infos: Infos, d: Decls, q: Process, t: Store)
    requires Classified(p, infos, d) && Paired(p, infos, q) && Movable(infos, d) && Driven(infos, t)
             && ResetActive(infos, t)
    ensures var s0 := t[infos.reset.value := Released(infos)];
            && Driven(infos, s0) && ResetSettled(p, infos, d, s0) && Surroundings(p, infos, d, s0, t)
            && s0 + Writes(p.body, d, s0, s0) == s0
            && Activate(p, d, s0, t) == Activate(q, d, s0, t) == t + ResetWrites(p, d, t)
  {
    var s0 := t[infos.reset.value := Released(infos)];
    assert Get(s0, infos.clock.value) == Get(t, infos.clock.value);
    InitialWrites(p, infos, d, q, s0);
    assert s0 + map[] == s0;
    FirstStepUnderReset(p, infos, d, q, s0, t);
  }

  lemma {:induction false} PartsAfterTwo(p: Process, infos: Infos, d: Decls, q: Process, env: Environment, s0: Store,
                                         u: Store)
    requires |p.body| == 1 && p.body[0].If? && infos.clock.Some?
    requires Respects(env, p, infos, d) && Driven(infos, s0) && ResetSettled(p, infos, d, s0)
    requires s0 + Writes(p.body, d, s0, s0) == s0
    requires Activate(p, d, s0, env(0, s0)) == Activate(q, d, s0, env(0, s0)) == u
    requires Activate(p, d, u, env(1, u)) != Activate(q, d, u, env(1, u))
    ensures !RunAlike(p, infos, d, q)
  {
    TwoSteps(p, d, env, s0, u);
    TwoSteps(q, d, env, s0, u);
    assert VhdlRun(p, d, env, s0, 2) != VerilogRun(q, d, env, s0, 2);
  }

  lemma {:induction false} FirstStepUnderReset(p: Process, infos: Infos, d: Decls, q: Process, s0: Store, t: Store)
    requires Classified(p, infos, d) && Paired(p, infos, q) && Driven(infos, s0) && Driven(infos, t)
    requires ResetActive(infos, t) && !ResetActive(infos, s0)
    ensures Activate(p, d, s0, t) == Activate(q, d, s0, t) == t + ResetWrites(p, d, t)
  {
    StepAgreesIff(p, infos, d, q, s0, t);
    WakesAgree(p, infos, d, q, s0, t);
  }

  lemma {:induction false} SecondStepUnderReset(p: Process, infos: Infos, d: Decls, q: Process, t: Store, v: Store)
    requires Classified(p, infos, d) && Paired(p, infos, q)
    requires Driven(infos, t) && ResetActive(infos, t) && ClockActive(infos, t)
    requires Driven(infos, v) && ResetActive(infos, v) && !ClockActive(infos, v)
    requires v + ResetWrites(p, d, v) != v
    ensures var u := t + ResetWrites(p, d, t);
            Activate(p, d, u, v) != Activate(q, d, u, v)
  {
    var u := t + ResetWrites(p, d, t);
    WritesOnlyAssigned(AltForReset(p.body[0]), d, t, t);
    BranchAssigned(p);
    assert Get(u, infos.clock.value) == Get(t, infos.clock.value);
    assert Get(u, infos.reset.value) == Get(t, infos.reset.value);
    StepAgreesIff(p, infos, d, q, u, v);
  }

  /** A dropped condition that matters makes some run part, on its first working edge. */
  lemma {:induction false} ShutOutParts(p: Process, infos: Infos, d: Decls, q: Process, t: Store)
    requires Classified(p, infos, d) && Paired(p, infos, q) && Movable(infos, d)
    requires Driven(infos, t) && !ResetActive(infos, t) && ClockActive(infos, t) && !Gate(p, infos, t)
    requires t + ClockedWrites(p, d, t) != t
    ensures !RunAlike(p, infos, d, q)
  {
    var clk := infos.clock.value;
    var s0 := t[clk := if infos.workingEdge.Rising? then ZERO else ONE];
    var env := TwoMoves(p, d, t, t);
    TwoMovesRespect(p, infos, d, t, t);
    assert HasAsyncReset(infos) ==> Get(s0, infos.reset.value) == Get(t, infos.reset.value);
    assert Surroundings(p, infos, d, s0, t);
    MovesExactly(p, infos, d, s0, t);
    InitialWrites(p, infos, d, q, s0);
    assert s0 + map[] == s0;
    StepAgreesIff(p, infos, d, q, s0, t);
    PartsAfterOne(p, infos, d, q, env, s0);
  }

  lemma {:induction false} PartsAfterOne(p: Process, infos: Infos, d: Decls, q: Process, env: Environment, s0: Store)
    requires |p.body| == 1 && p.body[0].If? && infos.clock.Some?
    requires Respects(env, p, infos, d) && Driven(infos, s0) && ResetSettled(p, infos, d, s0)
    requires s0 + Writes(p.body, d, s0, s0) == s0
    requires Activate(p, d, s0, env(0, s0)) != Activate(q, d, s0, env(0, s0))
    ensures !RunAlike(p, infos, d, q)
  {
    var step := (i: nat, s: Store) => Activate(p, d, s, env(i, s));
    var other := (i: nat, s: Store) => Activate(q, d, s, env(i, s));
    assert Iterated(step, s0, 1) == step(0, Iterated(step, s0, 0));
    assert Iterated(other, s0, 1) == other(0, Iterated(other, s0, 0));
    assert VhdlRun(p, d, env, s0, 1) != VerilogRun(q, d, env, s0, 1);
  }

  /**
   Main result. The two forms run alike, from every settled start and under every environment, if
   and only if the reset values stay put and the dropped part of the clocked condition does not
   matter.
   */
  lemma {:induction false} PairedIff(p: Process, infos: Infos, d: Decls, q: Process)
    requires Classified(p, infos, d) && Paired(p, infos, q) && Movable(infos, d)
    ensures RunAlike(p, infos, d, q) <==> ResetStays(p, infos, d) && GateHarmless(p, infos, d)
  {
    if !GateHarmless(p, infos, d) {
      var t: Store :| Driven(infos, t) && !ResetActive(infos, t) && ClockActive(infos, t) && !Gate(p, infos, t)
                      && t + ClockedWrites(p, d, t) != t;
      ShutOutParts(p, infos, d, q, t);
    } else if ResetStays(p, infos, d) {
      forall env: Environment, s0: Store, k: nat | Respects(env, p, infos, d) && Driven(infos, s0)
        && ResetSettled(p, infos, d, s0)
        ensures VhdlRun(p, d, env, s0, k) == VerilogRun(q, d, env, s0, k)
      {
        PairedRuns(p, infos, d, q, env, s0);
      }
    } else {
      MovingResetParts(p, infos, d, q);
    }
  }

  lemma {:induction false} MovingResetParts(p: Process, infos: Infos, d: Decls, q: Process)
    requires Classified(p, infos, d) && Paired(p, infos, q) && Movable(infos, d) && !ResetStays(p, infos, d)
    ensures !RunAlike(p, infos, d, q)
  {
    var t: Store :| Driven(infos, t) && ResetActive(infos, t) && ClockActive(infos, t)
      && !StaysFrom(p, infos, d, t + ResetWrites(p, d, t));
    var v: Store :| Surroundings(p, infos, d, t + ResetWrites(p, d, t), v) && ResetActive(infos, v)
      && !ClockActive(infos, v) && v + ResetWrites(p, d, v) != v;
    MovedResetParts(p, infos, d, q, t, v);
  }

  // ---------------------------------------------------------------- settled branches stay

  /** An indexed target stays where it is: its index reads nothing that can change. */
  predicate SettledTargets(actions: seq<Stmt>, d: Decls) {
    forall i :: 0 <= i < |actions| && actions[i].Assign? && actions[i].target.Element? ==>
      Settled(actions[i].target.i, d)
  }

  predicate SettledAction(a: Stmt, d: Decls) {
    a.Assign? && Settled(a.rhs, d) && (a.target.Element? ==> Settled(a.target.i, d))
  }

  predicate SettledActions(actions: seq<Stmt>, d: Decls) {
    |actions| != 0 ==> SettledAction(actions[0], d) && SettledActions(actions[1..], d)
  }

  lemma {:induction false} AllSettled(actions: seq<Stmt>, d: Decls)
    requires SettledTargets(actions, d) && forall i :: 0 <= i < |actions| ==> AssignsSettled(actions[i], d)
    ensures SettledActions(actions, d)
  {
    if |actions| != 0 {
      var rest := actions[1..];
      assert forall i :: 0 <= i < |rest| ==> rest[i] == actions[i + 1];
      assert SettledTargets(rest, d) by {
        forall i | 0 <= i < |rest| && rest[i].Assign? && rest[i].target.Element?
          ensures Settled(rest[i].target.i, d)
        {
          assert rest[i] == actions[i + 1];
        }
      }
      AllSettled(rest, d);
    }
  }

  /** Agreement on everything that cannot change. */
  ghost predicate SameConstants(d: Decls, s: Store, t: Store) {
    forall n :: !IsMutable(d, n) ==> Get(s, n) == Get(t, n)
  }

  /** What one settled assignment makes of the value b held by n. */
  function Effect(a: Stmt, n: Name, c: Store, p: Store, b: Value): Value
    requires a.Assign?
  {
    if a.target.n != n then b
    else match a.target
      case Whole(_) => Eval(a.rhs, c, p)
      case Element(_, i) =>
        var k := IntOf(Eval(i, c, p));
        if 0 <= k < |b| then b[k := IntOf(Eval(a.rhs, c, p))] else b
  }

  function Fold(actions: seq<Stmt>, n: Name, d: Decls, c: Store, p: Store, b: Value): Value
    requires SettledActions(actions, d)
  {
    if |actions| == 0 then b else Fold(actions[1..], n, d, c, p, Effect(actions[0], n, c, p, b))
  }

  lemma SettledEval(e: Expr, d: Decls, c1: Store, p1: Store, c2: Store, p2: Store)
    requires Settled(e, d) && SameConstants(d, c1, c2) && SameConstants(d, p1, p2)
    ensures Eval(e, c1, p1) == Eval(e, c2, p2)
  {
    forall n | n in Reads(e)
      ensures Get(c1, n) == Get(c2, n) && Get(p1, n) == Get(p2, n)
    {
      assert !IsMutable(d, n);
    }
    EvalFrame(e, c1, p1, c2, p2);
  }

  lemma {:induction false} FoldFrame(actions: seq<Stmt>, n: Name, d: Decls, c1: Store, p1: Store, c2: Store,
                                     p2: Store, b: Value)
    requires SettledActions(actions, d) && SameConstants(d, c1, c2) && SameConstants(d, p1, p2)
    ensures Fold(actions, n, d, c1, p1, b) == Fold(actions, n, d, c2, p2, b)
  {
    if |actions| != 0 {
      var a := actions[0];
      SettledEval(a.rhs, d, c1, p1, c2, p2);
      if a.target.Element? {
        SettledEval(a.target.i, d, c1, p1, c2, p2);
      }
      FoldFrame(actions[1..], n, d, c1, p1, c2, p2, Effect(a, n, c1, p1, b));
    }
  }

  /** Variables are written at once and everything else is pending. */
  ghost predicate ProperFrame(d: Decls, f: Frame) {
    && (forall n :: n in f.vars ==> IsVariable(d, n))
    && (forall n :: n in f.pending ==> !IsVariable(d, n))
  }

  function Written(f: Frame): set<Name> {
    f.vars.Keys + f.pending.Keys
  }

  lemma SettledOperands(a: Stmt, d: Decls, c: Store, p: Store, f: Frame)
    requires SettledAction(a, d) && ProperFrame(d, f)
    ensures Eval(a.rhs, c + f.vars, p) == Eval(a.rhs, c, p)
    ensures a.target.Element? ==> Eval(a.target.i, c + f.vars, p) == Eval(a.target.i, c, p)
  {
    assert SameConstants(d, c + f.vars, c);
    SettledEval(a.rhs, d, c + f.vars, p, c, p);
    if a.target.Element? {
      SettledEval(a.target.i, d, c + f.vars, p, c, p);
    }
  }

  lemma WriteThenBase(m: Name, v: Value, d: Decls, c: Store, f: Frame, n: Name)
    requires ProperFrame(d, f)
    ensures ProperFrame(d, Write(m, v, d, f))
    ensures Base(n, d, c, Write(m, v, d, f)) == if n == m then v else Base(n, d, c, f)
    ensures Written(Write(m, v, d, f)) == Written(f) + {m}
  {
  }

  lemma SettledStep(a: Stmt, d: Decls, c: Store, p: Store, f: Frame, n: Name)
    requires SettledAction(a, d) && ProperFrame(d, f)
    ensures var g := Exec(a, d, c, p, f);
            && ProperFrame(d, g)
            && Base(n, d, c, g) == Effect(a, n, c, p, Base(n, d, c, f))
            && Written(g) == Written(f) + {a.target.n}
  {
    SettledOperands(a, d, c, p, f);
    var m := a.target.n;
    var v := Effect(a, m, c, p, Base(m, d, c, f));
    assert Exec(a, d, c, p, f) == ExecAssign(a.target, a.rhs, d, c, p, f) == Write(m, v, d, f);
    WriteThenBase(m, v, d, c, f, n);
  }

  lemma {:induction false} SettledExec(actions: seq<Stmt>, d: Decls, c: Store, p: Store, f: Frame, n: Name)
    requires SettledActions(actions, d) && ProperFrame(d, f)
    ensures var g := ExecSeq(actions, d, c, p, f);
            && ProperFrame(d, g)
            && Base(n, d, c, g) == Fold(actions, n, d, c, p, Base(n, d, c, f))
            && Written(g) == Written(f) + Assigned(actions)
  {
    if |actions| != 0 {
      SettledStep(actions[0], d, c, p, f, n);
      SettledExec(actions[1..], d, c, p, Exec(actions[0], d, c, p, f), n);
      assert AssignedBy(actions[0]) == {actions[0].target.n};
    }
  }

  /** The writes of a settled branch, name by name. */
  lemma SettledWrites(actions: seq<Stmt>, d: Decls, c: Store, p: Store, n: Name)
    requires SettledActions(actions, d)
    ensures n in Writes(actions, d, c, p) <==> n in Assigned(actions)
    ensures n in Assigned(actions) ==> Writes(actions, d, c, p)[n] == Fold(actions, n, d, c, p, Get(c, n))
  {
    SettledExec(actions, d, c, p, EMPTY_FRAME, n);
    assert Base(n, d, c, EMPTY_FRAME) == Get(c, n) by {
      assert c + EMPTY_FRAME.vars == c;
    }
    assert n in Assigned(actions) <==> n in Written(ExecSeq(actions, d, c, p, EMPTY_FRAME));
  }

  predicate WritesWhole(actions: seq<Stmt>, n: Name, d: Decls)
    requires SettledActions(actions, d)
  {
    |actions| != 0 && (actions[0].target == Whole(n) || WritesWhole(actions[1..], n, d))
  }

  predicate WritesAt(actions: seq<Stmt>, n: Name, k: int, d: Decls, c: Store, p: Store)
    requires SettledActions(actions, d)
  {
    |actions| != 0 &&
    ((actions[0].target.Element? && actions[0].target.n == n && IntOf(Eval(actions[0].target.i, c, p)) == k)
     || WritesAt(actions[1..], n, k, d, c, p))
  }

  /** Values that differ only where the branch writes are sent to the same value. */
  lemma {:induction false} FoldForgets(actions: seq<Stmt>, n: Name, d: Decls, c: Store, p: Store, b: Value, x: Value)
    requires SettledActions(actions, d)
    requires WritesWhole(actions, n, d) ||
             (|b| == |x| && forall k :: 0 <= k < |b| ==> b[k] == x[k] || WritesAt(actions, n, k, d, c, p))
    ensures Fold(actions, n, d, c, p, b) == Fold(actions, n, d, c, p, x)
  {
    if |actions| == 0 {
      assert b == x;
    } else {
      FoldForgets(actions[1..], n, d, c, p, Effect(actions[0], n, c, p, b), Effect(actions[0], n, c, p, x));
    }
  }

  lemma {:induction false} FoldChanges(actions: seq<Stmt>, n: Name, d: Decls, c: Store, p: Store, b: Value)
    requires SettledActions(actions, d) && !WritesWhole(actions, n, d)
    ensures var x := Fold(actions, n, d, c, p, b);
            |x| == |b| && forall k :: 0 <= k < |b| ==> b[k] == x[k] || WritesAt(actions, n, k, d, c, p)
  {
    if |actions| != 0 {
      FoldChanges(actions[1..], n, d, c, p, Effect(actions[0], n, c, p, b));
    }
  }

  lemma FoldIdempotent(actions: seq<Stmt>, n: Name, d: Decls, c: Store, p: Store, b: Value)
    requires SettledActions(actions, d)
    ensures var x := Fold(actions, n, d, c, p, b);
            Fold(actions, n, d, c, p, x) == x
  {
    if !WritesWhole(actions, n, d) {
      FoldChanges(actions, n, d, c, p, b);
    }
    FoldForgets(actions, n, d, c, p, b, Fold(actions, n, d, c, p, b));
  }

  /** A branch of settled values at settled places stays put. */
  lemma {:induction false} SettledStays(p: Process, infos: Infos, d: Decls, q: Process)
    requires Classified(p, infos, d) && Paired(p, infos, q) && SettledActions(AltForReset(p.body[0]), d)
    ensures ResetStays(p, infos, d)
  {
    forall t: Store, v: Store | Surroundings(p, infos, d, t + ResetWrites(p, d, t), v)
      ensures v + ResetWrites(p, d, v) == v
    {
      SettledAgain(p, infos, d, q, t, v);
    }
  }

  lemma {:induction false} SettledAgain(p: Process, infos: Infos, d: Decls, q: Process, t: Store, v: Store)
    requires Classified(p, infos, d) && Paired(p, infos, q) && SettledActions(AltForReset(p.body[0]), d)
    requires Surroundings(p, infos, d, t + ResetWrites(p, d, t), v)
    ensures v + ResetWrites(p, d, v) == v
  {
    var reset := AltForReset(p.body[0]);
    BranchAssigned(p);
    WritesOnlyAssigned(reset, d, t, t);
    WritesOnlyAssigned(reset, d, v, v);
    var u := t + ResetWrites(p, d, t);
    ConstantsKept(p, infos, d, t, ResetWrites(p, d, t), v);
    forall n | n in ResetWrites(p, d, v)
      ensures n in v && v[n] == ResetWrites(p, d, v)[n]
    {
      SettledAt(reset, n, d, t, v);
      assert Get(v, n) == Get(u, n);
    }
    NothingNew(v, ResetWrites(p, d, v));
  }

  lemma NothingNew(v: Store, w: Store)
    requires forall n :: n in w ==> n in v && v[n] == w[n]
    ensures v + w == v
  {
  }

  lemma ConstantsKept(p: Process, infos: Infos, d: Decls, t: Store, w: Store, v: Store)
    requires Classified(p, infos, d) && w.Keys <= Assigned(p.body) && Surroundings(p, infos, d, t + w, v)
    ensures SameConstants(d, t, v)
  {
    forall n | !IsMutable(d, n)
      ensures Get(t, n) == Get(v, n)
    {
      assert n !in w;
      assert Get(t + w, n) == Get(t, n);
    }
  }

  /** Started from what the branch made of n in t, the branch in v makes the same of it. */
  lemma {:induction false} SettledAt(reset: seq<Stmt>, n: Name, d: Decls, t: Store, v: Store)
    requires SettledActions(reset, d) && SameConstants(d, t, v) && n in Writes(reset, d, v, v)
    ensures n in Writes(reset, d, t, t)
    ensures Get(v, n) == Writes(reset, d, t, t)[n] ==> Writes(reset, d, v, v)[n] == Get(v, n)
  {
    SettledWrites(reset, d, t, t, n);
    SettledWrites(reset, d, v, v, n);
    FoldFrame(reset, n, d, t, t, v, v, Get(v, n));
    FoldIdempotent(reset, n, d, t, t, Get(t, n));
  }

  // ---------------------------------------------------------------- moving assignments do not

  /** Action j is the branch's only one for n, and reads nothing the process assigns. */
  predicate SoleWriter(p: Process, j: nat, n: Name)
    requires |p.body| == 1 && p.body[0].If?
  {
    var ss := AltForReset(p.body[0]);
    && j < |ss| && (forall k :: 0 <= k < |ss| ==> ss[k].Assign? && (ss[k].target.n == n <==> k == j))
    && (forall m :: m in Reads(ss[j].rhs) ==> m !in Assigned(p.body))
    && (ss[j].target.Element? ==> forall m :: m in Reads(ss[j].target.i) ==> m !in Assigned(p.body))
  }

  /** What assignments to other names leave of n. */
  lemma {:induction false} OthersKeep(ss: seq<Stmt>, n: Name, d: Decls, c: Store, o: Store, f: Frame)
    requires forall k :: 0 <= k < |ss| ==> ss[k].Assign? && ss[k].target.n != n
    requires ProperFrame(d, f)
    ensures var g := ExecSeq(ss, d, c, o, f);
            ProperFrame(d, g) && Base(n, d, c, g) == Base(n, d, c, f) && (n in Written(g) <==> n in Written(f))
  {
    if |ss| != 0 {
      OtherKeeps(ss[0], n, d, c, o, f);
      OthersKeep(ss[1..], n, d, c, o, Exec(ss[0], d, c, o, f));
    }
  }

  lemma {:induction false} OtherKeeps(a: Stmt, n: Name, d: Decls, c: Store, o: Store, f: Frame)
    requires a.Assign? && a.target.n != n && ProperFrame(d, f)
    ensures var g := Exec(a, d, c, o, f);
            && ProperFrame(d, g) && Base(n, d, c, g) == Base(n, d, c, f) && (n in Written(g) <==> n in Written(f))
            && Written(g) == Written(f) + {a.target.n}
  {
    var m := a.target.n;
    var v := Eval(a.rhs, c + f.vars, o);
    if a.target.Element? {
      var k := IntOf(Eval(a.target.i, c + f.vars, o));
      var b := Base(m, d, c, f);
      WriteThenBase(m, if 0 <= k < |b| then b[k := IntOf(v)] else b, d, c, f, n);
    } else {
      WriteThenBase(m, v, d, c, f, n);
    }
  }

  /** The operands of an assignment that reads nothing written so far. */
  lemma {:induction false} OperandsFromStart(e: Expr, d: Decls, c: Store, o: Store, f: Frame)
    requires forall m :: m in Reads(e) ==> m !in Written(f)
    ensures Eval(e, c + f.vars, o) == Eval(e, c, o)
  {
    EvalFrame(e, c + f.vars, o, c, o);
  }

  lemma {:induction false} SoleStep(a: Stmt, d: Decls, c: Store, o: Store, f: Frame)
    requires a.Assign? && ProperFrame(d, f)
    requires forall m :: m in Reads(a.rhs) ==> m !in Written(f)
    requires a.target.Element? ==> forall m :: m in Reads(a.target.i) ==> m !in Written(f)
    ensures var g := Exec(a, d, c, o, f);
            && ProperFrame(d, g) && a.target.n in Written(g)
            && Base(a.target.n, d, c, g) == Effect(a, a.target.n, c, o, Base(a.target.n, d, c, f))
  {
    OperandsFromStart(a.rhs, d, c, o, f);
    var m := a.target.n;
    var v := Effect(a, m, c, o, Base(m, d, c, f));
    if a.target.Element? {
      OperandsFromStart(a.target.i, d, c, o, f);
    }
    assert Exec(a, d, c, o, f) == Write(m, v, d, f);
    WriteThenBase(m, v, d, c, f, m);
  }

  lemma {:induction false} AssignedBefore(ss: seq<Stmt>, j: nat, d: Decls, c: Store, o: Store, f: Frame)
    requires j <= |ss| && forall k :: 0 <= k < |ss| ==> ss[k].Assign?
    ensures ExecSeq(ss, d, c, o, f) == ExecSeq(ss[j..], d, c, o, ExecSeq(ss[..j], d, c, o, f))
  {
    if j > 0 {
      assert ss[..j][1..] == ss[1..][..j - 1] && ss[1..][j - 1..] == ss[j..];
      AssignedBefore(ss[1..], j - 1, d, c, o, Exec(ss[0], d, c, o, f));
    } else {
      assert ss[..0] == [] && ss[0..] == ss;
    }
  }

  /** The branch gives n the value its one assignment makes of the old one. */
  lemma {:induction false} SoleWrites(p: Process, j: nat, n: Name, d: Decls, c: Store)
    requires |p.body| == 1 && p.body[0].If? && p.body[0].els == [] && 1 <= |p.body[0].alts| <= 2 && SoleWriter(p, j, n)
    ensures var w := ResetWrites(p, d, c);
            n in w && w[n] == Effect(AltForReset(p.body[0])[j], n, c, c, Get(c, n))
  {
    var ss := AltForReset(p.body[0]);
    var before := ss[..j];
    var f := ExecSeq(before, d, c, c, EMPTY_FRAME);
    AssignedBefore(ss, j, d, c, c, EMPTY_FRAME);
    OthersKeep(before, n, d, c, c, EMPTY_FRAME);
    ExecWritesOnlyAssigned(before, d, c, c, EMPTY_FRAME);
    PrefixAssigned(ss, j);
    BranchAssigned(p);
    SoleStep(ss[j], d, c, c, f);
    assert c + EMPTY_FRAME.vars == c;
    var after := ss[j..][1..];
    assert forall k :: 0 <= k < |after| ==> after[k] == ss[j + 1 + k];
    OthersKeep(after, n, d, c, c, Exec(ss[j], d, c, c, f));
    var g := ExecSeq(ss, d, c, c, EMPTY_FRAME);
    assert g == ExecSeq(after, d, c, c, Exec(ss[j], d, c, c, f));
    assert (g.vars + g.pending)[n] == Base(n, d, c, g);
  }

  lemma {:induction false} PrefixAssigned(ss: seq<Stmt>, j: nat)
    requires j <= |ss|
    ensures Assigned(ss[..j]) <= Assigned(ss)
  {
    if j > 0 {
      assert ss[..j][0] == ss[0] && ss[..j][1..] == ss[1..][..j - 1];
      PrefixAssigned(ss[1..], j - 1);
    }
  }

  /**
   An assignment whose effect moves: from some value of its name, running it in a and then in b
   leaves something else than running it in a. Nothing the process assigns enters the effect.
   */
  ghost predicate MovingAssignment(p: Process, infos: Infos, d: Decls, j: nat, n: Name, a: Store, b: Store)
    requires |p.body| == 1 && p.body[0].If? && infos.clock.Some?
  {
    && SoleWriter(p, j, n) && SameConstants(d, a, b)
    && Driven(infos, a) && ResetActive(infos, a) && ClockActive(infos, a)
    && Driven(infos, b) && ResetActive(infos, b) && !ClockActive(infos, b)
    && var action := AltForReset(p.body[0])[j];
    && exists x: Value :: var y := Effect(action, n, a, a, x); Effect(action, n, b, b, y) != y
  }

  /** For every process with such an assignment the reset values do not stay put. */
  lemma {:induction false} MovingResetDiverges(p: Process, infos: Infos, d: Decls, q: Process, j: nat, n: Name,
                                               a: Store, b: Store)
    requires Classified(p, infos, d) && Paired(p, infos, q) && Movable(infos, d)
             && MovingAssignment(p, infos, d, j, n, a, b)
    ensures !ResetStays(p, infos, d) && !RunAlike(p, infos, d, q)
  {
    var action := AltForReset(p.body[0])[j];
    var x: Value :| Effect(action, n, b, b, Effect(action, n, a, a, x)) != Effect(action, n, a, a, x);
    SoleWriterAssigns(p, j, n);
    var t := a[n := x];
    var u := t + ResetWrites(p, d, t);
    MovingStart(p, infos, d, q, j, n, a, x);
    MovingNext(p, infos, d, q, j, n, a, b, u, x);
    ResetMoves(p, infos, d, t, MovedTo(p, d, u, b));
    PairedIff(p, infos, d, q);
  }

  lemma ResetMoves(p: Process, infos: Infos, d: Decls, t: Store, v: Store)
    requires |p.body| == 1 && p.body[0].If? && infos.clock.Some?
    requires Driven(infos, t) && ResetActive(infos, t) && ClockActive(infos, t)
    requires Surroundings(p, infos, d, t + ResetWrites(p, d, t), v) && ResetActive(infos, v) && !ClockActive(infos, v)
    requires v + ResetWrites(p, d, v) != v
    ensures !ResetStays(p, infos, d)
  {
    assert !StaysFrom(p, infos, d, t + ResetWrites(p, d, t));
  }

  /** The reset runs from a value of the witness's choosing. */
  lemma {:induction false} MovingStart(p: Process, infos: Infos, d: Decls, q: Process, j: nat, n: Name, a: Store,
                                       x: Value)
    requires Classified(p, infos, d) && Paired(p, infos, q) && SoleWriter(p, j, n) && n in Assigned(p.body)
    requires Driven(infos, a) && ResetActive(infos, a) && ClockActive(infos, a)
    ensures var t := a[n := x];
            var u := t + ResetWrites(p, d, t);
            && Driven(infos, t) && ResetActive(infos, t) && ClockActive(infos, t)
            && n in u && u[n] == Effect(AltForReset(p.body[0])[j], n, a, a, x)
            && forall m :: m !in Assigned(p.body) ==> Get(u, m) == Get(a, m)
  {
    var t := a[n := x];
    EffectElsewhere(p, j, n, d, t, a, x);
    SoleWrites(p, j, n, d, t);
    WritesOnlyAssigned(AltForReset(p.body[0]), d, t, t);
    BranchAssigned(p);
    assert Get(t, infos.clock.value) == Get(a, infos.clock.value);
    assert Get(t, infos.reset.value) == Get(a, infos.reset.value);
  }

  /** The surroundings move on, the clock leaves its active level, and the reset run again differs. */
  lemma {:induction false} MovingNext(p: Process, infos: Infos, d: Decls, q: Process, j: nat, n: Name, a: Store,
                                      b: Store, u: Store, x: Value)
    requires Classified(p, infos, d) && Paired(p, infos, q) && Movable(infos, d)
    requires SoleWriter(p, j, n) && n in Assigned(p.body) && SameConstants(d, a, b)
    requires Driven(infos, b) && ResetActive(infos, b) && !ClockActive(infos, b)
    requires var action := AltForReset(p.body[0])[j];
             var y := Effect(action, n, a, a, x);
             n in u && u[n] == y && Effect(action, n, b, b, y) != y
    requires forall m :: m !in Assigned(p.body) ==> Get(u, m) == Get(a, m)
    ensures var v := MovedTo(p, d, u, b);
            Surroundings(p, infos, d, u, v) && ResetActive(infos, v) && !ClockActive(infos, v)
              && v + ResetWrites(p, d, v) != v
  {
    var v := MovedTo(p, d, u, b);
    MovesLawfully(p, infos, d, u, b);
    EffectMoved(p, infos, d, j, n, a, b, u, x);
    SoleWrites(p, j, n, d, v);
    assert (v + ResetWrites(p, d, v))[n] != v[n];
  }

  lemma {:induction false} SoleWriterAssigns(p: Process, j: nat, n: Name)
    requires |p.body| == 1 && p.body[0].If? && p.body[0].els == [] && 1 <= |p.body[0].alts| <= 2 && SoleWriter(p, j, n)
    ensures n in Assigned(p.body)
  {
    BranchAssigned(p);
    AssignedAt(AltForReset(p.body[0]), j);
  }

  lemma {:induction false} AssignedAt(ss: seq<Stmt>, j: nat)
    requires j < |ss| && ss[j].Assign?
    ensures ss[j].target.n in Assigned(ss)
  {
    if j > 0 {
      AssignedAt(ss[1..], j - 1);
    }
  }

  /** The effect is the same in two stores that agree on what it reads. */
  lemma {:induction false} EffectElsewhere(p: Process, j: nat, n: Name, d: Decls, c: Store, c': Store, x: Value)
    requires |p.body| == 1 && p.body[0].If? && SoleWriter(p, j, n)
    requires forall m :: m !in Assigned(p.body) ==> Get(c, m) == Get(c', m)
    ensures Effect(AltForReset(p.body[0])[j], n, c, c, x) == Effect(AltForReset(p.body[0])[j], n, c', c', x)
  {
    var action := AltForReset(p.body[0])[j];
    EvalFrame(action.rhs, c, c, c', c');
    if action.target.Element? {
      EvalFrame(action.target.i, c, c, c', c');
    }
  }

  /** The surroundings move what the effect reads from its values in a to those in b. */
  lemma {:induction false} EffectMoved(p: Process, infos: Infos, d: Decls, j: nat, n: Name, a: Store, b: Store,
                                       u: Store, x: Value)
    requires Classified(p, infos, d) && SoleWriter(p, j, n) && SameConstants(d, a, b) && n in Assigned(p.body)
    requires n in u && u[n] == Effect(AltForReset(p.body[0])[j], n, a, a, x)
    requires forall m :: m !in Assigned(p.body) ==> Get(u, m) == Get(a, m)
    ensures var v := MovedTo(p, d, u, b);
            && n in v && v[n] == u[n]
            && Effect(AltForReset(p.body[0])[j], n, v, v, v[n]) == Effect(AltForReset(p.body[0])[j], n, b, b, u[n])
  {
    var v := MovedTo(p, d, u, b);
    forall m | m !in Assigned(p.body)
      ensures Get(v, m) == Get(b, m)
    {
      assert Get(u, m) == Get(a, m);
      assert !IsMutable(d, m) ==> Get(a, m) == Get(b, m);
    }
    EffectElsewhere(p, j, n, d, v, b, u[n]);
  }

  /** An index that takes two in-range values moves its assignment. */
  lemma {:induction false} MovingIndex(p: Process, infos: Infos, d: Decls, j: nat, n: Name, a: Store, b: Store)
    requires |p.body| == 1 && p.body[0].If? && infos.clock.Some? && SoleWriter(p, j, n) && SameConstants(d, a, b)
    requires Driven(infos, a) && ResetActive(infos, a) && ClockActive(infos, a)
    requires Driven(infos, b) && ResetActive(infos, b) && !ClockActive(infos, b)
    requires var action := AltForReset(p.body[0])[j];
             && action.target.Element?
             && 0 <= IntOf(Eval(action.target.i, a, a)) && 0 <= IntOf(Eval(action.target.i, b, b))
             && IntOf(Eval(action.target.i, a, a)) != IntOf(Eval(action.target.i, b, b))
    ensures MovingAssignment(p, infos, d, j, n, a, b)
  {
    var action := AltForReset(p.body[0])[j];
    var ka, kb := IntOf(Eval(action.target.i, a, a)), IntOf(Eval(action.target.i, b, b));
    var other := IntOf(Eval(action.rhs, b, b)) + 1;
    var x: Value := seq(ka + kb + 1, _ => other);
    var y := Effect(action, n, a, a, x);
    assert y[kb] == other;
    assert Effect(action, n, b, b, y)[kb] == IntOf(Eval(action.rhs, b, b));
  }

  /** So does a right-hand side that takes two values. */
  lemma {:induction false} MovingValue(p: Process, infos: Infos, d: Decls, j: nat, n: Name, a: Store, b: Store)
    requires |p.body| == 1 && p.body[0].If? && infos.clock.Some? && SoleWriter(p, j, n) && SameConstants(d, a, b)
    requires Driven(infos, a) && ResetActive(infos, a) && ClockActive(infos, a)
    requires Driven(infos, b) && ResetActive(infos, b) && !ClockActive(infos, b)
    requires var action := AltForReset(p.body[0])[j];
             action.target.Whole? && Eval(action.rhs, a, a) != Eval(action.rhs, b, b)
    ensures MovingAssignment(p, infos, d, j, n, a, b)
  {
    var action := AltForReset(p.body[0])[j];
    var x: Value := [];
    assert Effect(action, n, b, b, Effect(action, n, a, a, x)) != Effect(action, n, a, a, x);
  }

  // ---------------------------------------------------------------- the rebuilt process

  /**
   Main result for the rebuild. A process and its rebuilt form hold equal stores after every step,
   from every settled start and under every environment, if and only if the reset values stay put
   and what the clocked condition tests besides the edge does not matter.
   */
  lemma {:induction false} RebuiltIff(p: Process, infos: Infos, d: Decls, q: Process)
    requires Rebuild(p, true, infos, d) == Rebuilt(q) && Classified(p, infos, d) && Movable(infos, d)
    ensures RunAlike(p, infos, d, q) <==> ResetStays(p, infos, d) && GateHarmless(p, infos, d)
    ensures SettledTargets(AltForReset(p.body[0]), d) ==> ResetStays(p, infos, d)
    ensures TestsWorkingEdge(p.body[0].alts[|p.body[0].alts| - 1].cond, infos, infos.clock.value) ==>
              GateHarmless(p, infos, d)
  {
    RebuiltIsPaired(p, infos, d, q);
    PairedIff(p, infos, d, q);
    if TestsWorkingEdge(p.body[0].alts[|p.body[0].alts| - 1].cond, infos, infos.clock.value) {
      ExactIsHarmless(p, infos, d);
    }
    if SettledTargets(AltForReset(p.body[0]), d) {
      RebuiltStays(p, infos, d, q);
    }
  }

  lemma {:induction false} RebuiltStays(p: Process, infos: Infos, d: Decls, q: Process)
    requires Rebuild(p, true, infos, d) == Rebuilt(q) && Classified(p, infos, d)
    requires SettledTargets(AltForReset(p.body[0]), d)
    ensures ResetStays(p, infos, d)
  {
    RebuiltIsPaired(p, infos, d, q);
    if HasAsyncReset(infos) {
      ObjectionIs(AltForReset(p.body[0]), d);
      AllSettled(AltForReset(p.body[0]), d);
    }
    SettledStays(p, infos, d, q);
  }

  /**
   One run of a rebuilt process whose reset targets are settled and whose condition drops nothing that
   matters: equal stores after every step if and only if the start has the reset inactive or its
   values in place.
   */
  lemma {:induction false} SameRuns(p: Process, infos: Infos, d: Decls, q: Process, env: Environment, s0: Store)
    requires Rebuild(p, true, infos, d) == Rebuilt(q) && Classified(p, infos, d)
    requires SettledTargets(AltForReset(p.body[0]), d) && GateHarmless(p, infos, d)
    requires Respects(env, p, infos, d) && Driven(infos, s0)
    ensures (forall k: nat :: VhdlRun(p, d, env, s0, k) == VerilogRun(q, d, env, s0, k))
            <==> ResetSettled(p, infos, d, s0)
  {
    RebuiltIsPaired(p, infos, d, q);
    RebuiltStays(p, infos, d, q);
    PairedRuns(p, infos, d, q, env, s0);
  }

  /**
   The pass checks what a reset assignment reads, not where it writes: every accepted process with
   a reset target whose index takes two in-range values parts from its rebuilt form.
   */
  lemma {:induction false} IndexedTargetDiverges(p: Process, infos: Infos, d: Decls, q: Process, j: nat, n: Name,
                                                 a: Store, b: Store)
    requires Rebuild(p, true, infos, d) == Rebuilt(q) && Classified(p, infos, d) && Movable(infos, d)
    requires SoleWriter(p, j, n) && SameConstants(d, a, b)
    requires Driven(infos, a) && ResetActive(infos, a) && ClockActive(infos, a)
    requires Driven(infos, b) && ResetActive(infos, b) && !ClockActive(infos, b)
    requires var action := AltForReset(p.body[0])[j];
             && action.target.Element?
             && 0 <= IntOf(Eval(action.target.i, a, a)) && 0 <= IntOf(Eval(action.target.i, b, b))
             && IntOf(Eval(action.target.i, a, a)) != IntOf(Eval(action.target.i, b, b))
    ensures !RunAlike(p, infos, d, q)
  {
    RebuiltIsPaired(p, infos, d, q);
    MovingIndex(p, infos, d, j, n, a, b);
    MovingResetDiverges(p, infos, d, q, j, n, a, b);
  }

  // ---------------------------------------------------------------- around the main results

  /** The spellings of an edge test that VHDL sources use are exact. */
  lemma EdgeSpellings(infos: Infos, clk: Name)
    requires !infos.workingEdge.NoSingleEdge?
    ensures var level := if infos.workingEdge.Rising? then ONE else ZERO;
            var fn := if infos.workingEdge.Rising? then RisingEdge else FallingEdge;
            && TestsWorkingEdge(EdgeCall(fn, clk), infos, clk)
            && TestsWorkingEdge(Binary(And, EdgeCall(Event, clk), Binary(Eq, Ref(clk), Lit(level))), infos, clk)
            && TestsWorkingEdge(Binary(And, Binary(Eq, Ref(clk), Lit(level)), EdgeCall(Event, clk)), infos, clk)
  {
    var level := if infos.workingEdge.Rising? then ONE else ZERO;
    var event, atLevel := EdgeCall(Event, clk), Binary(Eq, Ref(clk), Lit(level));
    forall cur: Store, prev: Store | TwoValued(cur, clk) && TwoValued(prev, clk)
      ensures Truthy(Eval(Binary(And, event, atLevel), cur, prev)) <==> IsWorkingEdge(infos, clk, prev, cur)
      ensures Truthy(Eval(Binary(And, atLevel, event), cur, prev)) <==> IsWorkingEdge(infos, clk, prev, cur)
    {
      assert Truthy(Eval(event, cur, prev)) <==> Get(cur, clk) != Get(prev, clk);
      assert Truthy(Eval(atLevel, cur, prev)) <==> Get(cur, clk) == level;
    }
  }

  /** So is an edge test and something else; the gate is then the something else. */
  lemma {:induction false} GatedSpelling(edge: Expr, e: Expr, infos: Infos, clk: Name)
    requires !infos.workingEdge.NoSingleEdge? && TestsWorkingEdge(edge, infos, clk) && EdgeCalls(e) == 0
    ensures TestsGatedEdge(Binary(And, edge, e), infos, clk)
    ensures forall t: Store :: TwoValued(t, clk) && (Truthy(Get(t, clk)) <==> infos.workingEdge.Rising?) ==>
              (GateOpen(Binary(And, edge, e), infos, clk, t) <==> Truthy(Eval(e, t, t)))
  {
    var cond := Binary(And, edge, e);
    ExactIsGated(edge, infos, clk);
    forall t: Store | TwoValued(t, clk) && (Truthy(Get(t, clk)) <==> infos.workingEdge.Rising?)
      ensures GateOpen(cond, infos, clk, t) <==> Truthy(Eval(e, t, t))
    {
      PrevIrrelevant(e, t, t[clk := if infos.workingEdge.Rising? then ZERO else ONE], t);
      assert GateOpen(edge, infos, clk, t);
    }
    forall cur: Store, prev: Store | TwoValued(cur, clk) && TwoValued(prev, clk)
      ensures Truthy(Eval(cond, cur, prev)) <==> IsWorkingEdge(infos, clk, prev, cur) && GateOpen(cond, infos, clk, cur)
    {
      PrevIrrelevant(e, cur, prev, cur);
    }
  }

  /**
   The pass looks for the edge test anywhere in the condition and drops all of it. An accepted
   process whose condition is an edge test and an enable parts from its rebuilt form wherever the
   clocked branch does something while the enable is off.
   */
  lemma {:induction false} DroppedEnableDiverges(p: Process, infos: Infos, d: Decls, q: Process, edge: Expr, e: Expr,
                                                 t: Store)
    requires Rebuild(p, true, infos, d) == Rebuilt(q) && Classified(p, infos, d) && Movable(infos, d)
    requires p.body[0].alts[|p.body[0].alts| - 1].cond == Binary(And, edge, e)
    requires TestsWorkingEdge(edge, infos, infos.clock.value) && EdgeCalls(e) == 0
    requires Driven(infos, t) && !ResetActive(infos, t) && ClockActive(infos, t)
    requires !Truthy(Eval(e, t, t)) && t + ClockedWrites(p, d, t) != t
    ensures !RunAlike(p, infos, d, q)
  {
    RebuiltIsPaired(p, infos, d, q);
    GatedSpelling(edge, e, infos, infos.clock.value);
    PairedIff(p, infos, d, q);
  }

  // ---------------------------------------------------------------- instances

  /** if rst then q(i) <= '0' elsif rising_edge(clk) ..., with i a signal. */
  const INDEXED_BODY: seq<Stmt> := [If([
    IfAlt(Ref("rst"), [Assign(Element("q", Ref("i")), Lit(ZERO))]),
    IfAlt(EdgeCall(RisingEdge, "clk"), [])], [])]
  const INDEXED: Process := Process([Ref("clk"), Ref("rst")], [], [], INDEXED_BODY)
  const INDEXED_INFOS: Infos :=
    Infos(Synchronous, Rising, Some("clk"), AsynchronousReset, Some("rst"), HighPhase)
  const INDEXED_DECLS: Decls :=
    map["clk" := SignalDecl, "rst" := SignalDecl, "i" := SignalDecl, "q" := SignalDecl]

  lemma IndexedIsRebuilt()
    ensures Rebuild(INDEXED, true, INDEXED_INFOS, INDEXED_DECLS)
            == Rebuilt(Process([], [Ref("clk"), Ref("rst")], [], DropEdgeTest(INDEXED_BODY[0])))
  {
    var f := INDEXED_BODY[0];
    assert f.alts[1..] == [f.alts[1]] && f.alts[1..][1..] == [];
    assert EdgeCallsIn(f.alts[0].actions) == 0 && ConditionCallsIn(f.alts[0].actions) == 0;
    assert EdgeCallsInAlts([f.alts[1]]) == 1 && ConditionCallsInAlts([f.alts[1]]) == 1;
    assert EdgeCallsInAlts(f.alts) == 1 && ConditionCallsInAlts(f.alts) == 1;
    assert INDEXED_BODY[1..] == [];
    assert EdgeCallsIn(INDEXED_BODY) == 1 && ConditionCallsIn(INDEXED_BODY) == 1;
    assert EdgeCalls(f.alts[1].cond) == 1;
    assert f.alts[0].actions[1..] == [];
    assert ResetObjection(f.alts[0].actions, INDEXED_DECLS).None?;
    assert RemoveFirst(INDEXED.sensitivity, "clk") == [Ref("rst")];
  }

  lemma IndexedIsClassified()
    ensures Assigned(INDEXED_BODY) == {"q"}
    ensures Classified(INDEXED, INDEXED_INFOS, INDEXED_DECLS) && Movable(INDEXED_INFOS, INDEXED_DECLS)
    ensures AltForReset(INDEXED_BODY[0]) == [Assign(Element("q", Ref("i")), Lit(ZERO))]
  {
    var f := INDEXED_BODY[0];
    assert INDEXED_BODY[1..] == [] && f.alts[1..] == [f.alts[1]] && f.alts[1..][1..] == []
           && f.alts[0].actions[1..] == [];
    assert Assigned(f.alts[0].actions) == AssignedBy(f.alts[0].actions[0]) + Assigned([]) == {"q"};
    assert Assigned(f.alts[1].actions) == {} && AssignedInAlts([]) == {};
    assert AssignedInAlts([f.alts[1]]) == Assigned(f.alts[1].actions) + AssignedInAlts([]) == {};
    assert AssignedInAlts(f.alts) == {"q"};
    EdgeSpellings(INDEXED_INFOS, "clk");
    assert INDEXED.sensitivity[0] == Ref("clk") && INDEXED.sensitivity[1] == Ref("rst");
  }

  /** The process is accepted and its rebuilt form parts from it. */
  lemma {:induction false} IndexedParts()
    ensures var r := Rebuild(INDEXED, true, INDEXED_INFOS, INDEXED_DECLS);
            r.Rebuilt? && !RunAlike(INDEXED, INDEXED_INFOS, INDEXED_DECLS, r.p)
  {
    IndexedIsRebuilt();
    var q := Rebuild(INDEXED, true, INDEXED_INFOS, INDEXED_DECLS).p;
    IndexedIsClassified();
    var a: Store := map["clk" := ONE, "rst" := ONE, "i" := [0]];
    var b: Store := map["clk" := ZERO, "rst" := ONE, "i" := [1]];
    var ss := AltForReset(INDEXED.body[0]);
    assert Reads(ss[0].rhs) == {} && Reads(ss[0].target.i) == {"i"};
    assert SoleWriter(INDEXED, 0, "q");
    assert SameConstants(INDEXED_DECLS, a, b);
    IndexedTargetDiverges(INDEXED, INDEXED_INFOS, INDEXED_DECLS, q, 0, "q", a, b);
  }

  /** if rising_edge(clk) and en then q <= d. */
  const ENABLED_BODY: seq<Stmt> := [If([
    IfAlt(Binary(And, EdgeCall(RisingEdge, "clk"), Ref("en")), [Assign(Whole("q"), Ref("d"))])], [])]
  const ENABLED: Process := Process([Ref("clk")], [], [], ENABLED_BODY)
  const ENABLED_INFOS: Infos := Infos(Synchronous, Rising, Some("clk"), NoReset, None, HighPhase)
  const ENABLED_DECLS: Decls := map["clk" := SignalDecl, "en" := SignalDecl, "d" := SignalDecl, "q" := SignalDecl]

  lemma EnabledIsRebuilt()
    ensures Rebuild(ENABLED, true, ENABLED_INFOS, ENABLED_DECLS)
            == Rebuilt(Process([], [Ref("clk")], [], [Assign(Whole("q"), Ref("d"))]))
  {
    var f := ENABLED_BODY[0];
    var clocked := f.alts[0].actions;
    assert f.alts[1..] == [] && ENABLED_BODY[1..] == [] && clocked[1..] == [];
    assert EdgeCalls(f.alts[0].cond) == 1 && EdgeCallsIn(clocked) == 0 && ConditionCallsIn(clocked) == 0;
    assert EdgeCallsInAlts(f.alts) == 1 && ConditionCallsInAlts(f.alts) == 1;
    assert EdgeCallsIn(ENABLED_BODY) == 1 && ConditionCallsIn(ENABLED_BODY) == 1;
    assert [] + clocked == clocked;
    assert RemoveFirst(ENABLED.sensitivity, "clk") == [];
  }

  lemma EnabledIsClassified()
    ensures Classified(ENABLED, ENABLED_INFOS, ENABLED_DECLS) && Movable(ENABLED_INFOS, ENABLED_DECLS)
  {
    var f := ENABLED_BODY[0];
    var clocked := f.alts[0].actions;
    assert ENABLED_BODY[1..] == [] && f.alts[1..] == [] && clocked[1..] == [];
    assert Assigned(clocked) == AssignedBy(clocked[0]) + Assigned([]) == {"q"};
    assert AssignedInAlts(f.alts) == Assigned(clocked) + AssignedInAlts([]) == {"q"};
    assert Assigned(ENABLED_BODY) == {"q"};
    EdgeSpellings(ENABLED_INFOS, "clk");
    GatedSpelling(EdgeCall(RisingEdge, "clk"), Ref("en"), ENABLED_INFOS, "clk");
    assert ENABLED.sensitivity[0] == Ref("clk");
  }

  /** A working edge with the enable off. */
  lemma EnabledState() returns (t: Store)
    ensures Driven(ENABLED_INFOS, t) && !ResetActive(ENABLED_INFOS, t) && ClockActive(ENABLED_INFOS, t)
    ensures !Truthy(Eval(Ref("en"), t, t)) && t + ClockedWrites(ENABLED, ENABLED_DECLS, t) != t
  {
    t := map["clk" := ONE, "en" := ZERO, "d" := ONE, "q" := ZERO];
    var clocked := ClockedBranch(ENABLED);
    assert clocked[1..] == [];
    assert t + EMPTY_FRAME.vars == t;
    assert ExecSeq(clocked, ENABLED_DECLS, t, t, EMPTY_FRAME) == Frame(map[], map["q" := ONE]);
    assert (t + ClockedWrites(ENABLED, ENABLED_DECLS, t))["q"] == ONE;
  }

  /** The enable is lost: the process is accepted and its rebuilt form parts from it. */
  lemma {:induction false} EnabledParts()
    ensures var r := Rebuild(ENABLED, true, ENABLED_INFOS, ENABLED_DECLS);
            r.Rebuilt? && !RunAlike(ENABLED, ENABLED_INFOS, ENABLED_DECLS, r.p)
  {
    EnabledIsRebuilt();
    EnabledIsClassified();
    EdgeSpellings(ENABLED_INFOS, "clk");
    var t := EnabledState();
    DroppedEnableDiverges(ENABLED, ENABLED_INFOS, ENABLED_DECLS, Rebuild(ENABLED, true, ENABLED_INFOS, ENABLED_DECLS).p,
                          EdgeCall(RisingEdge, "clk"), Ref("en"), t);
  }
}
