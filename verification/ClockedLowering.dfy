/**
 Lowering an edge-qualified process to the VHDL form, the mirror of ClockedProcess.

 OutcomeIs says which processes are lowered and LoweredBodyRuns what the lowered body does, style by
 style. RoundTrip says when rebuilding a lowered process returns it; LoweringIff says exactly for which
 reset branches the lowered process runs like the one it came from. The lowering checks no reset
 branch, and SampledResetDiverges names the ones that part.
 */
module ClockedLowering {
  import opened Hdl
  import opened Wrappers
  import opened ClockedProcess
  import opened ClockedRuns

  datatype LoweringKind = AsynchronousProcess | SynchronousProcess | MixedProcess | UnknownProcess
  datatype Style = NoStyle | Style1 | Style2 | Style3 | Style4 | Style5 | Style6

  /** The part of hif-core's classification that the lowering reads. */
  datatype Analysis = Analysis(
    kind: LoweringKind,
    style: Style,
    clock: Option<Name>,
    reset: Option<Name>,
    sensitivity: seq<Name>,
    rising: seq<Name>,
    falling: seq<Name>)

  datatype Lowering =
    | Unchanged
    | Lowered(p: Process)
    | Stopped          // a diagnostic ends the program
    | NoCondition      // nothing to test: the tree would hold an if without a condition

  // ---------------------------------------------------------------- the pass as a function

  /** The test for one reference; the clock's test also asks for its event. */
  function Test(n: Name, clock: Option<Name>, isRising: bool): Expr {
    var level := if isRising then Ref(n) else Unary(Not, Ref(n));
    if clock == Some(n) then Binary(And, EdgeCall(Event, n), level) else level
  }

  /** Joins the tests of refs to expr, left to right, leaving out one reset. */
  function SensitivityCondition(
    expr: Option<Expr>, refs: seq<Name>, clock: Option<Name>, skip: Option<Name>, isRising: bool): Option<Expr>
    decreases |refs|
  {
    if |refs| == 0 then expr
    else
      var rest := if skip == Some(refs[0]) then expr else
                    var v := Test(refs[0], clock, isRising);
                    if expr.None? then Some(v) else Some(Binary(Or, expr.value, v));
      SensitivityCondition(rest, refs[1..], clock, skip, isRising)
  }

  function AndExpression(a: Analysis, skipReset: bool): Option<Expr> {
    var skip := if skipReset then a.reset else None;
    var e1 := SensitivityCondition(None, a.sensitivity, a.clock, skip, true);
    var e2 := SensitivityCondition(e1, a.sensitivity, a.clock, skip, false);
    var e3 := SensitivityCondition(e2, a.rising, a.clock, skip, true);
    SensitivityCondition(e3, a.falling, a.clock, skip, false)
  }

  function Wrapped(body: seq<Stmt>, cond: Expr): seq<Stmt> {
    [If([IfAlt(cond, body)], [])]
  }

  /** A body whose first statement is an if with one alternative: the else becomes an elsif. */
  function Nested(body: seq<Stmt>, cond: Expr): seq<Stmt>
    requires |body| > 0 && body[0].If?
  {
    [If(body[0].alts + [IfAlt(cond, body[0].els)], [])] + body[1..]
  }

  function Moved(p: Process, body: seq<Stmt>): Process {
    Process(p.sensitivity + p.sensitivityPos + p.sensitivityNeg, [], [], body)
  }

  function LowerBody(body: seq<Stmt>, a: Analysis): Lowering {
    match a.kind
    case AsynchronousProcess =>
      var c := AndExpression(a, false);
      if c.None? then NoCondition else Lowered(Process([], [], [], Wrapped(body, c.value)))
    case SynchronousProcess =>
      (match a.style
       case Style1 => Lowered(Process([], [], [], body))
       case Style2 => Lowered(Process([], [], [], body))
       case Style3 =>
         var c := AndExpression(a, false);
         if c.None? then NoCondition else Lowered(Process([], [], [], Wrapped(body, c.value)))
       case Style5 =>
         var c := AndExpression(a, false);
         if c.None? then NoCondition else Lowered(Process([], [], [], Wrapped(body, c.value)))
       case Style6 =>
         if |body| == 0 || !body[0].If? || |body[0].alts| != 1 then Stopped
         else
           var c := AndExpression(a, true);
           if c.None? then NoCondition else Lowered(Process([], [], [], Nested(body, c.value)))
       case NoStyle => Stopped
       case Style4 => Stopped)
    case MixedProcess => Stopped
    case UnknownProcess => Stopped
  }

  function Lower(p: Process, isProcess: bool, a: Analysis): Lowering {
    if !isProcess || (p.sensitivityNeg == [] && p.sensitivityPos == []) then Unchanged
    else
      match LowerBody(p.body, a)
      case Lowered(b) => Lowered(Moved(p, b.body))
      case other => other
  }

  // ---------------------------------------------------------------- the pass in place

  method BuildSensitivityCondition(
    expr: Option<Expr>, refs: seq<Name>, clock: Option<Name>, skip: Option<Name>, isRising: bool)
    returns (r: Option<Expr>)
    ensures r == SensitivityCondition(expr, refs, clock, skip, isRising)
  {
    r := expr;
    for i := 0 to |refs|
      invariant SensitivityCondition(expr, refs, clock, skip, isRising)
             == SensitivityCondition(r, refs[i..], clock, skip, isRising)
    {
      if skip == Some(refs[i]) {
        continue;
      }
      var v := if isRising then Ref(refs[i]) else Unary(Not, Ref(refs[i]));
      if clock == Some(refs[i]) {
        v := Binary(And, EdgeCall(Event, refs[i]), v);
      }
      if r.None? {
        r := Some(v);
        continue;
      }
      r := Some(Binary(Or, r.value, v));
    }
  }

  /** What the test of one reference asks. */
  predicate TestHolds(n: Name, clock: Option<Name>, isRising: bool, cur: Store, prev: Store) {
    (Truthy(Get(cur, n)) <==> isRising) && (clock == Some(n) ==> Get(cur, n) != Get(prev, n))
  }

  predicate SomeTestHolds(refs: seq<Name>, clock: Option<Name>, skip: Option<Name>, isRising: bool, cur: Store,
                          prev: Store) {
    exists k :: 0 <= k < |refs| && skip != Some(refs[k]) && TestHolds(refs[k], clock, isRising, cur, prev)
  }

  predicate AllSkipped(refs: seq<Name>, skip: Option<Name>) {
    forall k :: 0 <= k < |refs| ==> skip == Some(refs[k])
  }

  predicate Holds(e: Option<Expr>, cur: Store, prev: Store) {
    e.Some? && Truthy(Eval(e.value, cur, prev))
  }

  lemma {:induction false} TestMeans(n: Name, clock: Option<Name>, isRising: bool, cur: Store, prev: Store)
    ensures Truthy(Eval(Test(n, clock, isRising), cur, prev)) <==> TestHolds(n, clock, isRising, cur, prev)
  {
    var level := if isRising then Ref(n) else Unary(Not, Ref(n));
    assert Truthy(Eval(level, cur, prev)) <==> (Truthy(Get(cur, n)) <==> isRising);
    assert Truthy(Eval(EdgeCall(Event, n), cur, prev)) <==> Get(cur, n) != Get(prev, n);
  }

  /** A list adds the disjunction of its tests. */
  lemma {:induction false} ConditionMeans(expr: Option<Expr>, refs: seq<Name>, clock: Option<Name>, skip: Option<Name>,
                                          isRising: bool, cur: Store, prev: Store)
    ensures var r := SensitivityCondition(expr, refs, clock, skip, isRising);
            && (r.None? <==> expr.None? && AllSkipped(refs, skip))
            && (Holds(r, cur, prev) <==>
                Holds(expr, cur, prev) || SomeTestHolds(refs, clock, skip, isRising, cur, prev))
    decreases |refs|
  {
    if |refs| != 0 {
      var v := Test(refs[0], clock, isRising);
      var rest := if skip == Some(refs[0]) then expr else if expr.None? then Some(v)
        else Some(Binary(Or, expr.value, v));
      TestMeans(refs[0], clock, isRising, cur, prev);
      JoinMeans(expr, v, cur, prev);
      ConditionMeans(rest, refs[1..], clock, skip, isRising, cur, prev);
      FirstTest(refs, clock, skip, isRising, cur, prev);
      FirstSkipped(refs, skip);
    }
  }

  lemma JoinMeans(expr: Option<Expr>, v: Expr, cur: Store, prev: Store)
    ensures Holds(if expr.None? then Some(v) else Some(Binary(Or, expr.value, v)), cur, prev)
            <==> Holds(expr, cur, prev) || Truthy(Eval(v, cur, prev))
  {
  }

  lemma FirstTest(refs: seq<Name>, clock: Option<Name>, skip: Option<Name>, isRising: bool, cur: Store, prev: Store)
    requires |refs| > 0
    ensures SomeTestHolds(refs, clock, skip, isRising, cur, prev) <==>
            (skip != Some(refs[0]) && TestHolds(refs[0], clock, isRising, cur, prev))
            || SomeTestHolds(refs[1..], clock, skip, isRising, cur, prev)
  {
    var rest := refs[1..];
    if SomeTestHolds(refs, clock, skip, isRising, cur, prev) {
      var k :| 0 <= k < |refs| && skip != Some(refs[k]) && TestHolds(refs[k], clock, isRising, cur, prev);
      assert k > 0 ==> rest[k - 1] == refs[k];
    }
    RestTest(refs, clock, skip, isRising, cur, prev);
  }

  lemma RestTest(refs: seq<Name>, clock: Option<Name>, skip: Option<Name>, isRising: bool, cur: Store, prev: Store)
    requires |refs| > 0
    ensures SomeTestHolds(refs[1..], clock, skip, isRising, cur, prev) ==>
              SomeTestHolds(refs, clock, skip, isRising, cur, prev)
  {
    var rest := refs[1..];
    if SomeTestHolds(rest, clock, skip, isRising, cur, prev) {
      var k :| 0 <= k < |rest| && skip != Some(rest[k]) && TestHolds(rest[k], clock, isRising, cur, prev);
      assert refs[k + 1] == rest[k];
    }
  }

  lemma FirstSkipped(refs: seq<Name>, skip: Option<Name>)
    requires |refs| > 0
    ensures AllSkipped(refs, skip) <==> skip == Some(refs[0]) && AllSkipped(refs[1..], skip)
  {
    assert forall k :: 0 < k < |refs| ==> refs[k] == refs[1..][k - 1];
    assert forall k :: 0 <= k < |refs[1..]| ==> refs[1..][k] == refs[k + 1];
  }

  /** Some listed name's test holds: level names either way, edge names at the level of their edge. */
  predicate ListedTestHolds(a: Analysis, skip: Option<Name>, cur: Store, prev: Store) {
    || SomeTestHolds(a.sensitivity, a.clock, skip, true, cur, prev)
    || SomeTestHolds(a.sensitivity, a.clock, skip, false, cur, prev)
    || SomeTestHolds(a.rising, a.clock, skip, true, cur, prev)
    || SomeTestHolds(a.falling, a.clock, skip, false, cur, prev)
  }

  /** The condition holds exactly when a listed test does, and is missing when nothing is listed. */
  lemma {:induction false} AndExpressionMeans(a: Analysis, skipReset: bool, cur: Store, prev: Store)
    ensures var skip := if skipReset then a.reset else None;
            && (AndExpression(a, skipReset).None? <==>
                AllSkipped(a.sensitivity, skip) && AllSkipped(a.rising, skip) && AllSkipped(a.falling, skip))
            && (Holds(AndExpression(a, skipReset), cur, prev) <==> ListedTestHolds(a, skip, cur, prev))
  {
    var skip := if skipReset then a.reset else None;
    var e1 := SensitivityCondition(None, a.sensitivity, a.clock, skip, true);
    var e2 := SensitivityCondition(e1, a.sensitivity, a.clock, skip, false);
    var e3 := SensitivityCondition(e2, a.rising, a.clock, skip, true);
    ConditionMeans(None, a.sensitivity, a.clock, skip, true, cur, prev);
    ConditionMeans(e1, a.sensitivity, a.clock, skip, false, cur, prev);
    ConditionMeans(e2, a.rising, a.clock, skip, true, cur, prev);
    ConditionMeans(e3, a.falling, a.clock, skip, false, cur, prev);
  }

  method BuildAndExpression(a: Analysis, skipReset: bool) returns (r: Option<Expr>)
    ensures r == AndExpression(a, skipReset)
    ensures forall cur: Store, prev: Store ::
      Holds(r, cur, prev) <==> ListedTestHolds(a, if skipReset then a.reset else None, cur, prev)
  {
    forall cur: Store, prev: Store
      ensures Holds(AndExpression(a, skipReset), cur, prev)
              <==> ListedTestHolds(a, if skipReset then a.reset else None, cur, prev)
    {
      AndExpressionMeans(a, skipReset, cur, prev);
    }
    var rst := None;
    if skipReset {
      rst := a.reset;
    }
    r := None;
    r := BuildSensitivityCondition(r, a.sensitivity, a.clock, rst, true);
    r := BuildSensitivityCondition(r, a.sensitivity, a.clock, rst, false);
    r := BuildSensitivityCondition(r, a.rising, a.clock, rst, true);
    r := BuildSensitivityCondition(r, a.falling, a.clock, rst, false);
  }

  /** A process whose lists and body the visitor updates in place. */
  class EdgeProcess {
    const isProcess: bool
    var sensitivity: seq<Expr>
    var sensitivityPos: seq<Expr>
    var sensitivityNeg: seq<Expr>
    var actions: seq<Stmt>

    constructor (p: Process, isProcess: bool)
      ensures Tree() == p && this.isProcess == isProcess
    {
      this.isProcess := isProcess;
      sensitivity, sensitivityPos, sensitivityNeg := p.sensitivity, p.sensitivityPos, p.sensitivityNeg;
      actions := p.body;
    }

    function Tree(): Process
      reads this
    {
      Process(sensitivity, sensitivityPos, sensitivityNeg, actions)
    }

    method MoveSensitivities()
      modifies this`sensitivity, this`sensitivityPos, this`sensitivityNeg
      ensures Tree() == Moved(old(Tree()), actions)
    {
      while sensitivityPos != []
        invariant sensitivity + sensitivityPos == old(sensitivity) + old(sensitivityPos)
        invariant sensitivityNeg == old(sensitivityNeg)
        decreases |sensitivityPos|
      {
        var v := sensitivityPos[0];
        sensitivityPos := sensitivityPos[1..];
        sensitivity := sensitivity + [v];
      }
      assert sensitivity == old(sensitivity) + old(sensitivityPos) by {
        assert sensitivity + [] == sensitivity;
      }
      while sensitivityNeg != []
        invariant sensitivity + sensitivityNeg == old(sensitivity) + old(sensitivityPos) + old(sensitivityNeg)
        invariant sensitivityPos == []
        decreases |sensitivityNeg|
      {
        var v := sensitivityNeg[0];
        sensitivityNeg := sensitivityNeg[1..];
        sensitivity := sensitivity + [v];
      }
    }

    method FixProcess(a: Analysis) returns (outcome: Lowering)
      modifies this`actions
      ensures var r := LowerBody(old(actions), a);
              && (r.Lowered? <==> outcome.Lowered?)
              && (r.Lowered? ==> actions == r.p.body)
              && (!r.Lowered? ==> outcome == r)
    {
      if a.kind.SynchronousProcess? && (a.style.Style1? || a.style.Style2?) {
        return Lowered(Process([], [], [], actions));
      }
      if a.kind.AsynchronousProcess? || (a.kind.SynchronousProcess? && (a.style.Style3? || a.style.Style5?)) {
        var expr := BuildAndExpression(a, false);
        if expr.None? {
          return NoCondition;
        }
        actions := [If([IfAlt(expr.value, actions)], [])];
        return Lowered(Process([], [], [], actions));
      }
      if a.kind.SynchronousProcess? && a.style.Style6? {
        if |actions| == 0 || !actions[0].If? || |actions[0].alts| != 1 {
          return Stopped;
        }
        var ifStm := actions[0];
        var expr := BuildAndExpression(a, true);
        if expr.None? {
          return NoCondition;
        }
        var ifa := IfAlt(expr.value, ifStm.els);
        actions := [If(ifStm.alts + [ifa], [])] + actions[1..];
        return Lowered(Process([], [], [], actions));
      }
      return Stopped;
    }

    method VisitStateTable(a: Analysis) returns (outcome: Lowering)
      modifies this
      ensures match Lower(old(Tree()), isProcess, a)
              case Unchanged => outcome.Unchanged? && Tree() == old(Tree())
              case Lowered(q) => outcome.Lowered? && Tree() == q
              case other => outcome == other
    {
      if !isProcess || (sensitivityNeg == [] && sensitivityPos == []) {
        return Unchanged;
      }
      outcome := FixProcess(a);
      if outcome.Lowered? {
        MoveSensitivities();
      }
    }
  }

  // ---------------------------------------------------------------- what the lowering makes

  /** The whole body runs under the built condition: no clock, or the clock and its synchronous reset. */
  predicate TestsWholeBody(a: Analysis) {
    a.kind.AsynchronousProcess? || (a.kind.SynchronousProcess? && (a.style.Style3? || a.style.Style5?))
  }

  /** The else of the body's first if runs under the built condition. */
  predicate TestsElse(a: Analysis) {
    a.kind.SynchronousProcess? && a.style.Style6?
  }

  /** The edges are already tested in the body. */
  predicate TestsNothing(a: Analysis) {
    a.kind.SynchronousProcess? && (a.style.Style1? || a.style.Style2?)
  }

  /** An if with one alternative comes first. */
  predicate Nestable(body: seq<Stmt>) {
    |body| > 0 && body[0].If? && |body[0].alts| == 1
  }

  /** The program goes on: a supported style, and for an asynchronous reset an if of one alternative. */
  predicate Supported(body: seq<Stmt>, a: Analysis) {
    TestsWholeBody(a) || TestsNothing(a) || (TestsElse(a) && Nestable(body))
  }

  /** A name to test: any listed name or, where the reset has its own branch, any but the reset. */
  ghost predicate SomethingToTest(a: Analysis) {
    exists n :: (n in a.sensitivity || n in a.rising || n in a.falling) && !(TestsElse(a) && a.reset == Some(n))
  }

  /** Which processes the lowering leaves alone, stops at, leaves without a condition, or lowers. */
  lemma {:induction false} OutcomeIs(p: Process, isProcess: bool, a: Analysis)
    ensures var r := Lower(p, isProcess, a);
            var touched := isProcess && (p.sensitivityPos != [] || p.sensitivityNeg != []);
            var tests := TestsWholeBody(a) || TestsElse(a);
            && (r.Unchanged? <==> !touched)
            && (r.Stopped? <==> touched && !Supported(p.body, a))
            && (r.NoCondition? <==> touched && Supported(p.body, a) && tests && !SomethingToTest(a))
            && (r.Lowered? ==> r.p.sensitivity == p.sensitivity + p.sensitivityPos + p.sensitivityNeg
                               && r.p.sensitivityPos == [] && r.p.sensitivityNeg == [])
  {
    AndExpressionMeans(a, TestsElse(a), map[], map[]);
    NothingSkipped(a);
  }

  lemma NothingSkipped(a: Analysis)
    ensures var skip := if TestsElse(a) then a.reset else None;
            AllSkipped(a.sensitivity, skip) && AllSkipped(a.rising, skip) && AllSkipped(a.falling, skip)
            <==> !SomethingToTest(a)
  {
    var skip := if TestsElse(a) then a.reset else None;
    SkippedNames(a.sensitivity, skip);
    SkippedNames(a.rising, skip);
    SkippedNames(a.falling, skip);
  }

  lemma SkippedNames(refs: seq<Name>, skip: Option<Name>)
    ensures AllSkipped(refs, skip) <==> forall n :: n in refs ==> skip == Some(n)
  {
  }

  /** The branch the lowered if takes: the reset's when it is active, the else when a listed test holds. */
  function Taken(f: Stmt, a: Analysis, cur: Store, prev: Store): seq<Stmt>
    requires f.If? && |f.alts| == 1
  {
    if Truthy(Eval(f.alts[0].cond, cur, prev)) then f.alts[0].actions
    else if ListedTestHolds(a, a.reset, cur, prev) then f.els else []
  }

  /** What a run of the lowered body does, in every style and for every change of the store. */
  lemma {:induction false} LoweredBodyRuns(p: Process, isProcess: bool, a: Analysis, d: Decls, cur: Store, prev: Store)
    requires Lower(p, isProcess, a).Lowered?
    ensures var q := Lower(p, isProcess, a).p;
            && (TestsNothing(a) ==> q.body == p.body)
            && (TestsWholeBody(a) ==>
                  Writes(q.body, d, cur, prev)
                  == if ListedTestHolds(a, None, cur, prev) then Writes(p.body, d, cur, prev) else map[])
            && (TestsElse(a) ==>
                  Nestable(p.body)
                  && var taken := ExecSeq(Taken(p.body[0], a, cur, prev), d, cur, prev, EMPTY_FRAME);
                  ExecSeq(q.body, d, cur, prev, EMPTY_FRAME) == ExecSeq(p.body[1..], d, cur, prev, taken))
  {
    AndExpressionMeans(a, TestsElse(a), cur, prev);
    var c := AndExpression(a, TestsElse(a));
    if TestsWholeBody(a) {
      WrappedRuns(p.body, c.value, d, cur, prev);
    } else if TestsElse(a) {
      NestedRuns(p.body, c.value, d, cur, prev);
    }
  }

  lemma WrappedRuns(body: seq<Stmt>, cond: Expr, d: Decls, cur: Store, prev: Store)
    ensures Writes(Wrapped(body, cond), d, cur, prev)
            == if Truthy(Eval(cond, cur, prev)) then Writes(body, d, cur, prev) else map[]
  {
    var w := Wrapped(body, cond);
    var f := w[0];
    assert cur + EMPTY_FRAME.vars == cur;
    assert f.alts[1..] == [] && w[1..] == [];
    var branch := Chosen(f.alts, f.els, cur + EMPTY_FRAME.vars, prev);
    assert branch == if Truthy(Eval(cond, cur, prev)) then body else [];
    var r := Exec(f, d, cur, prev, EMPTY_FRAME);
    assert r == ExecSeq(branch, d, cur, prev, EMPTY_FRAME);
    assert r == if Truthy(Eval(cond, cur, prev)) then ExecSeq(body, d, cur, prev, EMPTY_FRAME) else EMPTY_FRAME;
    assert ExecSeq(w, d, cur, prev, EMPTY_FRAME) == r by {
      assert ExecSeq(w[1..], d, cur, prev, r) == r;
    }
    assert EMPTY_FRAME.vars + EMPTY_FRAME.pending == map[];
  }

  lemma NestedRuns(body: seq<Stmt>, cond: Expr, d: Decls, cur: Store, prev: Store)
    requires Nestable(body)
    ensures var f := body[0];
            var taken := if Truthy(Eval(f.alts[0].cond, cur, prev)) then f.alts[0].actions
                         else if Truthy(Eval(cond, cur, prev)) then f.els else [];
            ExecSeq(Nested(body, cond), d, cur, prev, EMPTY_FRAME)
            == ExecSeq(body[1..], d, cur, prev, ExecSeq(taken, d, cur, prev, EMPTY_FRAME))
  {
    var w := Nested(body, cond);
    var f := w[0];
    assert cur + EMPTY_FRAME.vars == cur;
    assert f.alts[1..] == [IfAlt(cond, body[0].els)] && f.alts[1..][1..] == [] && w[1..] == body[1..];
    assert Chosen(f.alts[1..], [], cur, prev) == if Truthy(Eval(cond, cur, prev)) then body[0].els else [];
  }

  // ---------------------------------------------------------------- round trip and runs

  /** The lowering's classification and the rebuild's describe the same clock, edge and reset. */
  predicate SameClassification(a: Analysis, infos: Infos) {
    && a.kind.SynchronousProcess?
    && (infos.kind.Synchronous? || infos.kind.DerivedSynchronous?)
    && infos.clock.Some? && a.clock == infos.clock && a.reset == infos.reset
    && !infos.workingEdge.NoSingleEdge?
    && (infos.reset.Some? ==> infos.reset != infos.clock)
    && a.sensitivity == []
    && (a.style.Style6? <==> HasAsyncReset(infos))
    && (a.style.Style3? || a.style.Style5? || a.style.Style6?)
  }

  function Refs(names: seq<Name>): seq<Expr> {
    seq(|names|, i requires 0 <= i < |names| => Ref(names[i]))
  }

  /** A single-clock process, edge-qualified: its lists hold the clock and, for style 6, the reset. */
  predicate EdgeQualified(p: Process, a: Analysis, infos: Infos)
    requires infos.clock.Some?
  {
    && p.sensitivity == []
    && multiset(p.sensitivityPos) == multiset(NewPos(infos)) == multiset(Refs(a.rising))
    && multiset(p.sensitivityNeg) == multiset(NewNeg(infos)) == multiset(Refs(a.falling))
  }

  /** No edge test in the body; style 6 is one if with an else. */
  predicate LowerableBody(p: Process, infos: Infos) {
    EdgeCallsIn(p.body) == 0 && (HasAsyncReset(infos) ==> |p.body| == 1 && Nestable(p.body))
  }

  function WorkingEdgeTest(infos: Infos): Expr
    requires infos.clock.Some?
  {
    Test(infos.clock.value, infos.clock, infos.workingEdge.Rising?)
  }

  lemma ShortPermutation(l: seq<Expr>, m: seq<Expr>)
    requires multiset(l) == multiset(m) && |m| <= 2
    ensures l == m || (|m| == 2 && l == [m[1], m[0]])
  {
    assert |l| == |multiset(l)| == |m|;
    if |m| == 1 {
      assert l[0] in multiset(l);
      assert m == [m[0]];
    } else if |m| == 2 {
      assert m == [m[0], m[1]] && l == [l[0], l[1]];
      PairPermutation(l[0], l[1], m[0], m[1]);
    }
  }

  lemma PairPermutation(a: Expr, b: Expr, c: Expr, d: Expr)
    requires multiset{a, b} == multiset{c, d}
    ensures (a == c && b == d) || (a == d && b == c)
  {
    assert a in multiset{c, d};
    var other := if a == c then d else c;
    assert multiset{b} == multiset{a, b} - multiset{a} == multiset{other};
    assert b in multiset{other};
  }

  /** Names under an edge list, in one of the two orders. */
  lemma NamesOf(names: seq<Name>, m: seq<Name>)
    requires multiset(Refs(names)) == multiset(Refs(m)) && |m| <= 2
    ensures names == m || (|m| == 2 && names == [m[1], m[0]])
  {
    ShortPermutation(Refs(names), Refs(m));
    assert |names| == |Refs(names)| == |m|;
    forall i | 0 <= i < |names|
      ensures Refs(names)[i] == Ref(names[i]) && Refs(m)[i] == Ref(m[i])
    {
    }
    if Refs(names) == Refs(m) {
      forall i | 0 <= i < |names| ensures names[i] == m[i] {
        assert Refs(names)[i] == Refs(m)[i];
      }
    } else {
      assert Refs(names)[0] == Refs(m)[1] && Refs(names)[1] == Refs(m)[0];
    }
  }

  function PosNames(infos: Infos): seq<Name>
    requires infos.clock.Some?
  {
    (if infos.workingEdge.Rising? then [infos.clock.value] else [])
    + (if HasAsyncReset(infos) && infos.resetPhase.HighPhase? then [infos.reset.value] else [])
  }

  function NegNames(infos: Infos): seq<Name>
    requires infos.clock.Some?
  {
    (if infos.workingEdge.Rising? then [] else [infos.clock.value])
    + (if HasAsyncReset(infos) && infos.resetPhase.LowPhase? then [infos.reset.value] else [])
  }

  lemma ListNames(infos: Infos)
    requires infos.clock.Some? && (infos.reset.Some? ==> infos.reset != infos.clock)
    ensures NewPos(infos) == Refs(PosNames(infos)) && NewNeg(infos) == Refs(NegNames(infos))
  {
  }

  /** Skipping the reset, a list of at most the clock and the reset gives the clock's test alone. */
  lemma ClockTest(expr: Option<Expr>, names: seq<Name>, clk: Name, skip: Option<Name>, isRising: bool)
    requires names == [] || (skip != Some(clk) && (names == [clk] || (skip.Some? &&
             (names == [skip.value] || names == [clk, skip.value] || names == [skip.value, clk]))))
    ensures SensitivityCondition(expr, names, Some(clk), skip, isRising)
         == if clk !in names then expr
            else if expr.None? then Some(Test(clk, Some(clk), isRising))
            else Some(Binary(Or, expr.value, Test(clk, Some(clk), isRising)))
    decreases |names|
  {
    if |names| > 0 {
      var rest := if skip == Some(names[0]) then expr else
                    var v := Test(names[0], Some(clk), isRising);
                    if expr.None? then Some(v) else Some(Binary(Or, expr.value, v));
      assert SensitivityCondition(expr, names, Some(clk), skip, isRising)
          == SensitivityCondition(rest, names[1..], Some(clk), skip, isRising);
      ClockTest(rest, names[1..], clk, skip, isRising);
    }
  }

  lemma NameLists(a: Analysis, infos: Infos)
    requires SameClassification(a, infos)
    requires multiset(Refs(a.rising)) == multiset(NewPos(infos))
    requires multiset(Refs(a.falling)) == multiset(NewNeg(infos))
    ensures a.rising == PosNames(infos)
            || (|PosNames(infos)| == 2 && a.rising == [PosNames(infos)[1], PosNames(infos)[0]])
    ensures a.falling == NegNames(infos)
            || (|NegNames(infos)| == 2 && a.falling == [NegNames(infos)[1], NegNames(infos)[0]])
  {
    ListNames(infos);
    NamesOf(a.rising, PosNames(infos));
    NamesOf(a.falling, NegNames(infos));
  }

  /** The rising list gives the clock's test if the clock rises, and nothing otherwise. */
  lemma RisingNames(a: Analysis, infos: Infos)
    requires SameClassification(a, infos)
    requires a.rising == PosNames(infos)
             || (|PosNames(infos)| == 2 && a.rising == [PosNames(infos)[1], PosNames(infos)[0]])
    ensures SensitivityCondition(None, a.rising, infos.clock, if a.style.Style6? then a.reset else None, true)
            == if infos.workingEdge.Rising? then Some(WorkingEdgeTest(infos)) else None
  {
    ClockTest(None, a.rising, infos.clock.value, if a.style.Style6? then a.reset else None, true);
  }

  lemma FallingNames(a: Analysis, infos: Infos)
    requires SameClassification(a, infos)
    requires a.falling == NegNames(infos)
             || (|NegNames(infos)| == 2 && a.falling == [NegNames(infos)[1], NegNames(infos)[0]])
    ensures var e := if infos.workingEdge.Rising? then Some(WorkingEdgeTest(infos)) else None;
            SensitivityCondition(e, a.falling, infos.clock, if a.style.Style6? then a.reset else None, false)
            == Some(WorkingEdgeTest(infos))
  {
    var e := if infos.workingEdge.Rising? then Some(WorkingEdgeTest(infos)) else None;
    ClockTest(e, a.falling, infos.clock.value, if a.style.Style6? then a.reset else None, false);
  }

  /** The condition the lowering builds is the working-edge test of the clock. */
  lemma ConditionIsEdgeTest(a: Analysis, infos: Infos)
    requires SameClassification(a, infos)
    requires multiset(Refs(a.rising)) == multiset(NewPos(infos))
    requires multiset(Refs(a.falling)) == multiset(NewNeg(infos))
    ensures AndExpression(a, a.style.Style6?) == Some(WorkingEdgeTest(infos))
  {
    NameLists(a, infos);
    RisingNames(a, infos);
    FallingNames(a, infos);
    var skip := if a.style.Style6? then a.reset else None;
    assert SensitivityCondition(None, [], infos.clock, skip, true) == None;
    assert SensitivityCondition(None, [], infos.clock, skip, false) == None;
  }

  lemma EdgeTestHasOneCall(infos: Infos)
    requires infos.clock.Some?
    ensures EdgeCalls(WorkingEdgeTest(infos)) == 1
  {
    var clk := infos.clock.value;
    var level := if infos.workingEdge.Rising? then Ref(clk) else Unary(Not, Ref(clk));
    assert EdgeCalls(Ref(clk)) == 0 && EdgeCalls(level) == 0;
  }

  /** The lowered body holds exactly one edge test, in the last condition of its only if. */
  lemma LoweredBodyShape(p: Process, infos: Infos, d: Decls, cond: Expr, body: seq<Stmt>)
    requires LowerableBody(p, infos) && EdgeCalls(cond) == 1
    requires body == if HasAsyncReset(infos) then Nested(p.body, cond) else Wrapped(p.body, cond)
    ensures EdgeCallsIn(body) == 1 && ConditionCallsIn(body) >= 1
    ensures |body| == 1 && body[0].If? && body[0].els == [] && EdgeCalls(body[0].alts[|body[0].alts| - 1].cond) == 1
    ensures AltForReset(body[0]) == if HasAsyncReset(infos) then p.body[0].alts[0].actions else []
    ensures DropEdgeTest(body[0]) == p.body
  {
    var f := body[0];
    assert body[1..] == [];
    if HasAsyncReset(infos) {
      var g := p.body[0];
      assert p.body == [g] && p.body[1..] == [];
      assert EdgeCallsOf(g) == EdgeCallsInAlts(g.alts) + EdgeCallsIn(g.els);
      assert f.alts == [g.alts[0], IfAlt(cond, g.els)];
      assert g.alts == [g.alts[0]] && g.alts[1..] == [];
      assert f.alts[1..] == [IfAlt(cond, g.els)] && f.alts[1..][1..] == [];
      assert f.alts[..1] == g.alts;
      assert EdgeCallsIn(p.body) == EdgeCallsOf(g) + EdgeCallsIn(p.body[1..]);
      assert EdgeCallsInAlts(f.alts[1..]) == 1 + EdgeCallsIn(g.els);
      assert EdgeCallsInAlts(f.alts) == EdgeCallsInAlts(g.alts) + 1 + EdgeCallsIn(g.els);
      assert EdgeCallsIn(body) == EdgeCallsOf(f) + EdgeCallsIn(body[1..]);
      assert ConditionCallsInAlts(f.alts[1..]) >= 1;
      assert [] + g.els == g.els;
    } else {
      assert f.alts[1..] == [];
      assert EdgeCallsInAlts(f.alts) == 1 + EdgeCallsIn(p.body) + EdgeCallsInAlts(f.alts[1..]);
      assert EdgeCallsIn(body) == EdgeCallsOf(f) + EdgeCallsIn(body[1..]);
      assert [] + p.body == p.body;
    }
  }

  /** The clock and the asynchronous reset, in one of the two orders. */
  predicate ClockAndReset(l: seq<Expr>, infos: Infos)
    requires infos.clock.Some?
  {
    var clk := Ref(infos.clock.value);
    if HasAsyncReset(infos) then l == [clk, Ref(infos.reset.value)] || l == [Ref(infos.reset.value), clk]
    else l == [clk]
  }

  lemma ListCases(infos: Infos)
    requires infos.clock.Some? && (infos.reset.Some? ==> infos.reset != infos.clock)
    ensures var clk := Ref(infos.clock.value);
            if !HasAsyncReset(infos) then
              (NewPos(infos) == [clk] && NewNeg(infos) == []) || (NewPos(infos) == [] && NewNeg(infos) == [clk])
            else
              var rst := Ref(infos.reset.value);
              (NewPos(infos) == [clk, rst] && NewNeg(infos) == [])
                || (NewPos(infos) == [] && NewNeg(infos) == [clk, rst]) ||
              (NewPos(infos) == [clk] && NewNeg(infos) == [rst]) || (NewPos(infos) == [rst] && NewNeg(infos) == [clk])
  {
  }

  lemma JoinedPermutations(pos: seq<Expr>, neg: seq<Expr>, p: seq<Expr>, n: seq<Expr>)
    requires multiset(pos) == multiset(p) && multiset(neg) == multiset(n) && |p| + |n| <= 2
    ensures [] + pos + neg == p + n || (|p + n| == 2 && [] + pos + neg == [(p + n)[1], (p + n)[0]])
  {
    ShortPermutation(pos, p);
    ShortPermutation(neg, n);
  }

  lemma MovedList(pos: seq<Expr>, neg: seq<Expr>, infos: Infos)
    requires infos.clock.Some? && (infos.reset.Some? ==> infos.reset != infos.clock)
    requires multiset(pos) == multiset(NewPos(infos)) && multiset(neg) == multiset(NewNeg(infos))
    ensures ClockAndReset([] + pos + neg, infos)
  {
    var p, n := NewPos(infos), NewNeg(infos);
    ListCases(infos);
    JoinedPermutations(pos, neg, p, n);
    var clk := Ref(infos.clock.value);
    assert !HasAsyncReset(infos) ==> p + n == [clk];
    assert HasAsyncReset(infos) ==> p + n == [clk, Ref(infos.reset.value)] || p + n == [Ref(infos.reset.value), clk];
  }

  /** The levels left after the moves are none. */
  lemma NoLevelsLeft(l: seq<Expr>, infos: Infos)
    requires infos.clock.Some? && (infos.reset.Some? ==> infos.reset != infos.clock)
    requires ClockAndReset(l, infos)
    ensures LeftLevels(Process(l, [], [], []), infos) == []
  {
    var clk := Ref(infos.clock.value);
    if HasAsyncReset(infos) {
      var rst := Ref(infos.reset.value);
      assert l[1..] == [l[1]];
      assert RemoveFirst([clk], infos.clock.value) == [];
      assert RemoveFirst(l, infos.clock.value) == [rst];
    } else {
      assert l[1..] == [];
    }
  }

  /** The reset branch of an edge-qualified process, if it has an asynchronous reset. */
  function ResetActions(p: Process, infos: Infos): seq<Stmt>
    requires HasAsyncReset(infos) ==> |p.body| == 1 && Nestable(p.body)
  {
    if HasAsyncReset(infos) then p.body[0].alts[0].actions else []
  }

  /** The lowered process: its lists are one level list of clock and reset, and its shape is accepted. */
  lemma {:induction false} LoweredShapes(p: Process, a: Analysis, infos: Infos, d: Decls)
    requires SameClassification(a, infos) && EdgeQualified(p, a, infos) && LowerableBody(p, infos)
    ensures Lower(p, true, a).Lowered?
    ensures var v := Lower(p, true, a).p;
            && v.sensitivityPos == v.sensitivityNeg == [] && ClockAndReset(v.sensitivity, infos)
            && |v.body| == 1 && v.body[0].If? && v.body[0].els == [] && |v.body[0].alts| > 0
            && DropEdgeTest(v.body[0]) == p.body && AltForReset(v.body[0]) == ResetActions(p, infos)
            && EdgeCallsIn(v.body) == 1 && ShapeObjection(v, infos).None?
  {
    LoweredForm(p, a, infos, d);
    EdgeTestHasOneCall(infos);
    LoweredBodyShape(p, infos, d, WorkingEdgeTest(infos), Lower(p, true, a).p.body);
    MovedList(p.sensitivityPos, p.sensitivityNeg, infos);
    LoweredShape(Lower(p, true, a).p, infos);
  }

  /**
   Round trip: the rebuild accepts a lowered single-clock process exactly when it has no objection
   to the reset branch, and then returns its body, branches and lists, up to the order of an edge
   list.
   */
  lemma {:induction false} RoundTrip(p: Process, a: Analysis, infos: Infos, d: Decls)
    requires SameClassification(a, infos) && EdgeQualified(p, a, infos) && LowerableBody(p, infos)
    ensures Lower(p, true, a).Lowered?
    ensures var q := Rebuild(Lower(p, true, a).p, true, infos, d);
            && (q.Rebuilt? <==>
                forall i :: 0 <= i < |ResetActions(p, infos)| ==> AssignsSettled(ResetActions(p, infos)[i], d))
            && (q.Rebuilt? ==>
              && q.p.body == p.body
              && q.p.sensitivity == p.sensitivity
              && multiset(q.p.sensitivityPos) == multiset(p.sensitivityPos)
              && multiset(q.p.sensitivityNeg) == multiset(p.sensitivityNeg))
  {
    LoweredShapes(p, a, infos, d);
    var v := Lower(p, true, a).p;
    NoLevelsLeft(v.sensitivity, infos);
    ObjectionIs(ResetActions(p, infos), d);
    if ResetObjection(ResetActions(p, infos), d).None? {
      AcceptedShape(v, infos, d);
    } else {
      RefusedReset(v, infos, d);
    }
  }

  lemma RefusedReset(v: Process, infos: Infos, d: Decls)
    requires EdgeCallsIn(v.body) != 0 && ShapeObjection(v, infos).None?
    requires HasAsyncReset(infos) && ResetObjection(AltForReset(v.body[0]), d).Some?
    ensures !Rebuild(v, true, infos, d).Rebuilt?
  {
  }

  lemma AcceptedShape(v: Process, infos: Infos, d: Decls)
    requires EdgeCallsIn(v.body) != 0 && ShapeObjection(v, infos).None?
    requires HasAsyncReset(infos) ==> ResetObjection(AltForReset(v.body[0]), d).None?
    requires LeftLevels(Process(v.sensitivity, [], [], []), infos) == []
    ensures Rebuild(v, true, infos, d) == Rebuilt(Process([], NewPos(infos), NewNeg(infos), DropEdgeTest(v.body[0])))
  {
    assert LeftLevels(v, infos) == LeftLevels(Process(v.sensitivity, [], [], []), infos);
  }

  lemma LoweredShape(v: Process, infos: Infos)
    requires v.sensitivityPos == v.sensitivityNeg == []
    requires (infos.kind.Synchronous? || infos.kind.DerivedSynchronous?) && !infos.workingEdge.NoSingleEdge?
             && infos.clock.Some?
    requires EdgeCallsIn(v.body) == 1 && ConditionCallsIn(v.body) >= 1
    requires |v.body| == 1 && v.body[0].If? && v.body[0].els == [] && |v.body[0].alts| > 0
    requires EdgeCalls(v.body[0].alts[|v.body[0].alts| - 1].cond) == 1
    ensures ShapeObjection(v, infos).None?
  {
    assert TestedByWholeBody(v) by {
      assert EdgeCalls(v.body[0].alts[|v.body[0].alts| - 1].cond) > 0;
    }
  }

  lemma LoweredForm(p: Process, a: Analysis, infos: Infos, d: Decls)
    requires SameClassification(a, infos) && EdgeQualified(p, a, infos) && LowerableBody(p, infos)
    ensures Lower(p, true, a) == Lowered(Moved(p, if HasAsyncReset(infos) then Nested(p.body, WorkingEdgeTest(infos))
                                                  else Wrapped(p.body, WorkingEdgeTest(infos))))
  {
    EdgeTestHasOneCall(infos);
    ConditionIsEdgeTest(a, infos);
    HasEdges(p, a, infos);
  }

  lemma HasEdges(p: Process, a: Analysis, infos: Infos)
    requires SameClassification(a, infos) && EdgeQualified(p, a, infos)
    ensures |p.sensitivityPos| + |p.sensitivityNeg| > 0
  {
    assert |p.sensitivityPos| == |multiset(p.sensitivityPos)| == |NewPos(infos)|;
    assert |p.sensitivityNeg| == |multiset(p.sensitivityNeg)| == |NewNeg(infos)|;
    assert |NewPos(infos)| + |NewNeg(infos)| > 0;
  }

  // ---------------------------------------------------------------- runs

  /** The order of an edge list does not matter. */
  lemma SameWakes(pos1: seq<Expr>, neg1: seq<Expr>, pos2: seq<Expr>, neg2: seq<Expr>, body: seq<Stmt>, s: Store,
                  t: Store)
    requires multiset(pos1) == multiset(pos2) && multiset(neg1) == multiset(neg2)
    ensures Wakes(Process([], pos1, neg1, body), s, t) == Wakes(Process([], pos2, neg2, body), s, t)
  {
    EdgeListWakes(pos1, neg1, body, s, t);
    EdgeListWakes(pos2, neg2, body, s, t);
    forall e ensures (e in pos1 <==> e in pos2) && (e in neg1 <==> e in neg2) {
      assert e in pos1 <==> e in multiset(pos1);
      assert e in neg1 <==> e in multiset(neg1);
      assert e in pos2 <==> e in multiset(pos2);
      assert e in neg2 <==> e in multiset(neg2);
    }
  }

  predicate SameProcess(p: Process, q: Process) {
    && p.sensitivity == q.sensitivity == [] && p.body == q.body
    && multiset(p.sensitivityPos) == multiset(q.sensitivityPos)
    && multiset(p.sensitivityNeg) == multiset(q.sensitivityNeg)
  }

  lemma SameActivation(p: Process, q: Process, d: Decls, s: Store, t: Store)
    requires SameProcess(p, q)
    ensures Activate(p, d, s, t) == Activate(q, d, s, t)
  {
    SameWakes(p.sensitivityPos, p.sensitivityNeg, q.sensitivityPos, q.sensitivityNeg, p.body, s, t);
    assert p == Process([], p.sensitivityPos, p.sensitivityNeg, p.body);
    assert q == Process([], q.sensitivityPos, q.sensitivityNeg, p.body);
    var w := if Wakes(p, s, t) then Writes(p.body, d, t, s) else map[];
    assert t + map[] == t;
    Reacts(p, d, s, t, w);
    Reacts(q, d, s, t, w);
  }

  lemma SameVerilogRuns(p: Process, q: Process, d: Decls, env: Environment, s0: Store, k: nat)
    requires SameProcess(p, q)
    ensures VerilogRun(p, d, env, s0, k) == VerilogRun(q, d, env, s0, k)
  {
    var step := (i: nat, s: Store) => Activate(p, d, s, env(i, s));
    var other := (i: nat, s: Store) => Activate(q, d, s, env(i, s));
    forall i: nat, s: Store
      ensures step(i, s) == other(i, s)
    {
      SameActivation(p, q, d, s, env(i, s));
    }
    AgreeForever(step, other, s => true, s0, k);
  }

  lemma EdgeTestIsExact(infos: Infos)
    requires infos.clock.Some? && !infos.workingEdge.NoSingleEdge?
    ensures TestsWorkingEdge(WorkingEdgeTest(infos), infos, infos.clock.value)
  {
    var clk := infos.clock.value;
    var level := if infos.workingEdge.Rising? then Ref(clk) else Unary(Not, Ref(clk));
    forall cur: Store, prev: Store | TwoValued(cur, clk) && TwoValued(prev, clk)
      ensures Truthy(Eval(WorkingEdgeTest(infos), cur, prev)) <==> IsWorkingEdge(infos, clk, prev, cur)
    {
      assert Truthy(Eval(EdgeCall(Event, clk), cur, prev)) <==> Get(cur, clk) != Get(prev, clk);
      assert Truthy(Eval(level, cur, prev)) <==> (Truthy(Get(cur, clk)) <==> infos.workingEdge.Rising?);
    }
  }

  /** What a well-formed edge-qualified process guarantees about its own names. */
  ghost predicate WellFormed(p: Process, infos: Infos, d: Decls)
    requires infos.clock.Some?
  {
    && infos.clock.value !in Assigned(p.body)
    && (forall n :: n in Assigned(p.body) ==> IsMutable(d, n))
    && (HasAsyncReset(infos) ==>
      && |p.body| == 1 && Nestable(p.body)
      && infos.reset.value !in Assigned(p.body)
      && TestsReset(p.body[0].alts[0].cond, infos))
  }

  lemma LoweredAssigned(p: Process, infos: Infos, d: Decls, cond: Expr, body: seq<Stmt>)
    requires LowerableBody(p, infos)
    requires body == if HasAsyncReset(infos) then Nested(p.body, cond) else Wrapped(p.body, cond)
    ensures Assigned(body) == Assigned(p.body)
  {
    assert body[1..] == [];
    if HasAsyncReset(infos) {
      var g := p.body[0];
      assert p.body == [g] && p.body[1..] == [];
      assert g.alts == [g.alts[0]] && g.alts[1..] == [];
      var alts := body[0].alts;
      assert alts == [g.alts[0], IfAlt(cond, g.els)];
      assert alts[1..] == [IfAlt(cond, g.els)] && alts[1..][1..] == [];
      assert AssignedInAlts(alts[1..]) == Assigned(g.els);
      assert AssignedInAlts(alts) == AssignedInAlts(g.alts) + Assigned(g.els);
      assert Assigned(p.body) == AssignedBy(g) + Assigned(p.body[1..]);
      assert Assigned(body) == AssignedBy(body[0]) + Assigned(body[1..]);
    } else {
      assert body[0].alts[1..] == [];
      assert AssignedInAlts(body[0].alts) == Assigned(p.body) + AssignedInAlts(body[0].alts[1..]);
      assert Assigned(body) == AssignedBy(body[0]) + Assigned(body[1..]);
    }
  }

  /** The lowered process is classified as the run results need it, with nothing to check of its reset. */
  lemma {:induction false} LoweredIsClassified(p: Process, a: Analysis, infos: Infos, d: Decls)
    requires SameClassification(a, infos) && EdgeQualified(p, a, infos)
    requires LowerableBody(p, infos) && WellFormed(p, infos, d)
    ensures Lower(p, true, a).Lowered? && Classified(Lower(p, true, a).p, infos, d)
    ensures GateHarmless(Lower(p, true, a).p, infos, d)
  {
    LoweredForm(p, a, infos, d);
    var v := Lower(p, true, a).p;
    LoweredAssigned(p, infos, d, WorkingEdgeTest(infos), v.body);
    EdgeTestIsExact(infos);
    ExactIsGated(WorkingEdgeTest(infos), infos, infos.clock.value);
    var f := v.body[0];
    assert f.alts[|f.alts| - 1].cond == WorkingEdgeTest(infos);
    ExactIsHarmless(v, infos, d);
    MovedList(p.sensitivityPos, p.sensitivityNeg, infos);
    if HasAsyncReset(infos) {
      assert f.alts[0] == p.body[0].alts[0];
    }
  }

  /** The edge-qualified process, its lists in the order the rebuild gives them. */
  function Ordered(p: Process, infos: Infos): Process
    requires infos.clock.Some?
  {
    Process([], NewPos(infos), NewNeg(infos), p.body)
  }

  /** The lowered process and the one it came from are two forms of one another. */
  lemma {:induction false} LoweredIsPaired(p: Process, a: Analysis, infos: Infos, d: Decls)
    requires SameClassification(a, infos) && EdgeQualified(p, a, infos)
    requires LowerableBody(p, infos) && WellFormed(p, infos, d)
    ensures Lower(p, true, a).Lowered? && Classified(Lower(p, true, a).p, infos, d)
    ensures Paired(Lower(p, true, a).p, infos, Ordered(p, infos)) && SameProcess(p, Ordered(p, infos))
    ensures HasAsyncReset(infos) ==> AltForReset(Lower(p, true, a).p.body[0]) == ResetActions(p, infos)
    ensures GateHarmless(Lower(p, true, a).p, infos, d)
  {
    LoweredIsClassified(p, a, infos, d);
    LoweredShapes(p, a, infos, d);
    BranchesHaveNoTest(p, infos);
    LoweredForm(p, a, infos, d);
    ClockAndResetOnly(Lower(p, true, a).p.sensitivity, infos);
    SameAsOrdered(p, a, infos);
  }

  lemma ClockAndResetOnly(l: seq<Expr>, infos: Infos)
    requires infos.clock.Some? && ClockAndReset(l, infos)
    ensures forall k :: 0 <= k < |l| ==>
              l[k] == Ref(infos.clock.value) || (HasAsyncReset(infos) && l[k] == Ref(infos.reset.value))
  {
  }

  lemma SameAsOrdered(p: Process, a: Analysis, infos: Infos)
    requires infos.clock.Some? && EdgeQualified(p, a, infos)
    ensures SameProcess(p, Ordered(p, infos))
  {
  }

  lemma BranchesHaveNoTest(p: Process, infos: Infos)
    requires LowerableBody(p, infos)
    ensures EdgeCallsIn(ResetActions(p, infos)) == 0
    ensures HasAsyncReset(infos) ==> EdgeCallsIn(p.body[0].els) == 0
  {
    if HasAsyncReset(infos) {
      var g := p.body[0];
      assert EdgeCallsIn(p.body) == EdgeCallsOf(g) + EdgeCallsIn(p.body[1..]);
      assert EdgeCallsInAlts(g.alts)
             == EdgeCalls(g.alts[0].cond) + EdgeCallsIn(g.alts[0].actions) + EdgeCallsInAlts(g.alts[1..]);
    }
  }

  /** v is what the pass makes of p; its body is one if. */
  predicate LoweredTo(p: Process, a: Analysis, v: Process) {
    Lower(p, true, a) == Lowered(v) && |v.body| == 1 && v.body[0].If?
  }

  /**
   One run: if the reset values stay put, the VHDL process and the edge-qualified one it came from
   hold equal stores after every step exactly when the start has the reset values in place.
   */
  lemma {:induction false} LoweringKeepsRuns(p: Process, a: Analysis, v: Process, infos: Infos, d: Decls,
                                             env: Environment, s0: Store)
    requires SameClassification(a, infos) && EdgeQualified(p, a, infos)
    requires LowerableBody(p, infos) && WellFormed(p, infos, d)
    requires LoweredTo(p, a, v)
    requires ResetStays(v, infos, d)
    requires Respects(env, v, infos, d) && Driven(infos, s0)
    ensures (forall k: nat :: VhdlRun(v, d, env, s0, k) == VerilogRun(p, d, env, s0, k))
            <==> (ResetActive(infos, s0) ==> s0 + Writes(ResetActions(p, infos), d, s0, s0) == s0)
  {
    LoweredIsPaired(p, a, infos, d);
    var q := Ordered(p, infos);
    PairedRuns(v, infos, d, q, env, s0);
    forall k: nat
      ensures VerilogRun(p, d, env, s0, k) == VerilogRun(q, d, env, s0, k)
    {
      SameVerilogRuns(p, q, d, env, s0, k);
    }
  }

  /**
   Main result: the lowered process runs like the edge-qualified one from every settled start and
   under every environment if and only if the reset values stay put; those of settled assignments do.
   */
  lemma {:induction false} LoweringIff(p: Process, a: Analysis, v: Process, infos: Infos, d: Decls)
    requires SameClassification(a, infos) && EdgeQualified(p, a, infos)
    requires LowerableBody(p, infos) && WellFormed(p, infos, d) && Movable(infos, d)
    requires LoweredTo(p, a, v)
    ensures RunAlike(v, infos, d, p) <==> ResetStays(v, infos, d)
    ensures SettledActions(ResetActions(p, infos), d) ==> ResetStays(v, infos, d)
  {
    LoweredIsPaired(p, a, infos, d);
    var q := Ordered(p, infos);
    PairedIff(v, infos, d, q);
    SameRunAlike(v, infos, d, p, q);
    if SettledActions(ResetActions(p, infos), d) {
      SettledStays(v, infos, d, q);
    }
  }

  lemma {:induction false} SameRunAlike(v: Process, infos: Infos, d: Decls, p: Process, q: Process)
    requires |v.body| == 1 && v.body[0].If? && infos.clock.Some? && SameProcess(p, q)
    ensures RunAlike(v, infos, d, p) <==> RunAlike(v, infos, d, q)
  {
    forall env: Environment, s0: Store, k: nat
      ensures VerilogRun(p, d, env, s0, k) == VerilogRun(q, d, env, s0, k)
    {
      SameVerilogRuns(p, q, d, env, s0, k);
    }
  }

  /**
   The lowering checks no reset branch. Every process whose branch samples a moving value, such as
   `if (rst) q <= d`, is lowered, and parts from its VHDL form.
   */
  lemma {:induction false} SampledResetDiverges(p: Process, a: Analysis, v: Process, infos: Infos, d: Decls, j: nat,
                                                n: Name, x: Store, y: Store)
    requires SameClassification(a, infos) && EdgeQualified(p, a, infos)
    requires LowerableBody(p, infos) && WellFormed(p, infos, d) && Movable(infos, d)
    requires LoweredTo(p, a, v)
    requires SoleWriter(v, j, n) && SameConstants(d, x, y)
    requires Driven(infos, x) && ResetActive(infos, x) && ClockActive(infos, x)
    requires Driven(infos, y) && ResetActive(infos, y) && !ClockActive(infos, y)
    requires var action := AltForReset(v.body[0])[j];
             action.target.Whole? && Eval(action.rhs, x, x) != Eval(action.rhs, y, y)
    ensures !RunAlike(v, infos, d, p)
  {
    LoweredIsPaired(p, a, infos, d);
    var q := Ordered(p, infos);
    MovingValue(v, infos, d, j, n, x, y);
    MovingResetDiverges(v, infos, d, q, j, n, x, y);
    SameRunAlike(v, infos, d, p, q);
  }

  // ---------------------------------------------------------------- an instance

  /** always @(posedge clk or posedge rst) if (rst) q <= d; */
  const SAMPLED_BODY: seq<Stmt> := [If([IfAlt(Ref("rst"), [Assign(Whole("q"), Ref("d"))])], [])]
  const SAMPLED: Process := Process([], [Ref("clk"), Ref("rst")], [], SAMPLED_BODY)
  const SAMPLED_ANALYSIS: Analysis :=
    Analysis(SynchronousProcess, Style6, Some("clk"), Some("rst"), [], ["clk", "rst"], [])
  const SAMPLED_INFOS: Infos := Infos(Synchronous, Rising, Some("clk"), AsynchronousReset, Some("rst"), HighPhase)
  const SAMPLED_DECLS: Decls := map["clk" := SignalDecl, "rst" := SignalDecl, "d" := SignalDecl, "q" := SignalDecl]

  lemma SampledIsLowerable()
    ensures EdgeQualified(SAMPLED, SAMPLED_ANALYSIS, SAMPLED_INFOS) && LowerableBody(SAMPLED, SAMPLED_INFOS)
  {
    SampledHasNoTest();
    SampledLists();
  }

  lemma SampledLists()
    ensures Refs(SAMPLED_ANALYSIS.rising) == NewPos(SAMPLED_INFOS) == SAMPLED.sensitivityPos
    ensures Refs(SAMPLED_ANALYSIS.falling) == NewNeg(SAMPLED_INFOS) == []
  {
    assert Refs(SAMPLED_ANALYSIS.rising) == [Ref("clk"), Ref("rst")];
  }

  lemma SampledHasNoTest()
    ensures EdgeCallsIn(SAMPLED_BODY) == 0
  {
    var f := SAMPLED_BODY[0];
    var reset := f.alts[0].actions;
    assert SAMPLED_BODY[1..] == [] && f.alts[1..] == [] && reset[1..] == [];
    assert EdgeCallsIn(reset) == 0 && EdgeCallsInAlts(f.alts) == 0;
  }

  lemma SampledIsWellFormed()
    ensures WellFormed(SAMPLED, SAMPLED_INFOS, SAMPLED_DECLS) && Assigned(SAMPLED_BODY) == {"q"}
  {
    var f := SAMPLED_BODY[0];
    var reset := f.alts[0].actions;
    assert SAMPLED_BODY[1..] == [] && f.alts[1..] == [] && reset[1..] == [];
    assert Assigned(reset) == AssignedBy(reset[0]) + Assigned([]) == {"q"};
    assert AssignedInAlts(f.alts) == Assigned(reset) + AssignedInAlts([]) == {"q"};
    assert Assigned(SAMPLED_BODY) == {"q"};
  }

  function SampledLowered(): Process {
    Moved(SAMPLED, Nested(SAMPLED_BODY, WorkingEdgeTest(SAMPLED_INFOS)))
  }

  lemma {:induction false} SampledIsLowered()
    ensures LoweredTo(SAMPLED, SAMPLED_ANALYSIS, SampledLowered())
    ensures Assigned(SampledLowered().body) == {"q"}
  {
    SampledIsLowerable();
    SampledIsWellFormed();
    LoweredForm(SAMPLED, SAMPLED_ANALYSIS, SAMPLED_INFOS, SAMPLED_DECLS);
    LoweredAssigned(SAMPLED, SAMPLED_INFOS, SAMPLED_DECLS, WorkingEdgeTest(SAMPLED_INFOS), SampledLowered().body);
  }

  lemma SampledSole(v: Process)
    requires |v.body| == 1 && v.body[0].If? && Assigned(v.body) == {"q"}
    requires AltForReset(v.body[0]) == [Assign(Whole("q"), Ref("d"))]
    ensures SoleWriter(v, 0, "q")
  {
    assert Reads(AltForReset(v.body[0])[0].rhs) == {"d"};
  }

  /** The sampled value moves while the reset is held and the clock leaves its active level. */
  lemma SampledMoves() returns (x: Store, y: Store)
    ensures SameConstants(SAMPLED_DECLS, x, y) && Eval(Ref("d"), x, x) != Eval(Ref("d"), y, y)
    ensures Driven(SAMPLED_INFOS, x) && ResetActive(SAMPLED_INFOS, x) && ClockActive(SAMPLED_INFOS, x)
    ensures Driven(SAMPLED_INFOS, y) && ResetActive(SAMPLED_INFOS, y) && !ClockActive(SAMPLED_INFOS, y)
  {
    x := map["clk" := ONE, "rst" := ONE, "d" := [0]];
    y := map["clk" := ZERO, "rst" := ONE, "d" := [1]];
  }

  /** The process is lowered and parts from its VHDL form. */
  lemma {:induction false} SampledParts()
    ensures LoweredTo(SAMPLED, SAMPLED_ANALYSIS, SampledLowered())
    ensures !RunAlike(SampledLowered(), SAMPLED_INFOS, SAMPLED_DECLS, SAMPLED)
  {
    var x, y := SampledMoves();
    SampledIsLowerable();
    SampledIsWellFormed();
    SampledIsLowered();
    SampledSole(SampledLowered());
    SampledResetDiverges(SAMPLED, SAMPLED_ANALYSIS, SampledLowered(), SAMPLED_INFOS, SAMPLED_DECLS, 0, "q", x, y);
  }
}
