/**
 Dropping the labels of break and continue where C++'s own jumps already lead there.

 A labelled jump is printed as a goto; one whose label is cleared, as C++'s break or continue. The
 pass clears a label that names the nearest enclosing action that is not an if. OnlyRedundantGo says
 that exactly those labels go and nothing else changes; LabelsKeepRuns, that runs are unchanged, for
 every nest of loops, switches and ifs and every number of iterations.
 */
module BreakLabels {
  import opened Hdl
  import opened Wrappers

  const NO_NAME: Name := ""

  datatype Update = Update(n: Name, e: Expr)

  datatype Action =
    | Set(u: Update)
    | Break(dest: Name)
    | Continue(dest: Name)
    | IfAction(ifAlts: seq<Branch>, els: seq<Action>)
    | Loop(name: Name, testFirst: bool, cond: Expr, step: seq<Update>, body: seq<Action>)
    | Switch(name: Name, value: Expr, cases: seq<Branch>, defaults: seq<Action>)

  /** An alternative of an if or of a switch. */
  datatype Branch = Branch(guard: Expr, actions: seq<Action>)

  datatype Nest = Nest(name: Option<Name>, body: seq<Action>)

  // ---------------------------------------------------------------- the pass

  datatype Enclosing = InIf | InLoop(name: Name) | InSwitch(name: Name)

  /** The name of the nearest enclosing action that is not an if; the innermost comes first. */
  function Nearest(anc: seq<Enclosing>): Option<Name> {
    if |anc| == 0 then None
    else if anc[0].InIf? then Nearest(anc[1..])
    else Some(anc[0].name)
  }

  function Cleared(dest: Name, n: Name): Name {
    if n != NO_NAME && n == dest then NO_NAME else dest
  }

  /** Outside any action, a break may name its process. */
  function NewBreak(dest: Name, anc: seq<Enclosing>, process: Option<Name>): Name {
    match Nearest(anc)
    case Some(n) => Cleared(dest, n)
    case None => if process.Some? then Cleared(dest, process.value) else dest
  }

  function NewContinue(dest: Name, anc: seq<Enclosing>): Name {
    match Nearest(anc)
    case Some(n) => Cleared(dest, n)
    case None => dest
  }

  /**
   dest is the name of the nearest enclosing action that is not an if or, for a break inside no other
   action, of the process.
   */
  predicate Redundant(dest: Name, isBreak: bool, anc: seq<Enclosing>, process: Option<Name>) {
    || (exists k :: 0 <= k < |anc| && !anc[k].InIf? && anc[k].name == dest && forall j :: 0 <= j < k ==> anc[j].InIf?)
    || (isBreak && process == Some(dest) && forall j :: 0 <= j < |anc| ==> anc[j].InIf?)
  }

  lemma {:induction false} NearestIsFirst(anc: seq<Enclosing>)
    ensures Nearest(anc).None? <==> forall j :: 0 <= j < |anc| ==> anc[j].InIf?
    ensures Nearest(anc).Some? ==>
              exists k :: 0 <= k < |anc| && !anc[k].InIf? && anc[k].name == Nearest(anc).value
                          && forall j :: 0 <= j < k ==> anc[j].InIf?
  {
    if |anc| > 0 && anc[0].InIf? {
      var rest := anc[1..];
      NearestIsFirst(rest);
      assert forall j :: 0 < j < |anc| ==> anc[j] == rest[j - 1];
      if Nearest(anc).Some? {
        var k :| 0 <= k < |rest| && !rest[k].InIf? && rest[k].name == Nearest(rest).value
                 && forall j :: 0 <= j < k ==> rest[j].InIf?;
        assert anc[k + 1] == rest[k];
      } else {
        assert forall j :: 0 <= j < |rest| ==> rest[j] == anc[j + 1];
      }
    }
  }

  /** A label goes exactly when it is redundant. */
  lemma {:induction false} ClearedIff(dest: Name, anc: seq<Enclosing>, process: Option<Name>)
    ensures NewBreak(dest, anc, process) == if Redundant(dest, true, anc, process) then NO_NAME else dest
    ensures NewContinue(dest, anc) == if Redundant(dest, false, anc, process) then NO_NAME else dest
  {
    NearestIsFirst(anc);
    if Nearest(anc).Some? {
      var k :| 0 <= k < |anc| && !anc[k].InIf? && anc[k].name == Nearest(anc).value
               && forall j :: 0 <= j < k ==> anc[j].InIf?;
      forall i | 0 <= i < |anc| && !anc[i].InIf? && forall j :: 0 <= j < i ==> anc[j].InIf?
        ensures i == k
      {
      }
    }
  }

  class Jump {
    const isBreak: bool
    const ancestors: seq<Enclosing>
    const process: Option<Name>
    var name: Name

    constructor (isBreak: bool, ancestors: seq<Enclosing>, process: Option<Name>, name: Name)
      ensures this.isBreak == isBreak && this.ancestors == ancestors && this.process == process && this.name == name
    {
      this.isBreak := isBreak;
      this.ancestors := ancestors;
      this.process := process;
      this.name := name;
    }

    function Fixed(dest: Name): Name {
      if isBreak then NewBreak(dest, ancestors, process) else NewContinue(dest, ancestors)
    }

    /** The walk up the parents. */
    method NearestParent() returns (k: nat)
      ensures k <= |ancestors| && Nearest(ancestors) == if k == |ancestors| then None else Nearest(ancestors[k..])
      ensures k < |ancestors| ==> !ancestors[k].InIf?
    {
      k := 0;
      while k < |ancestors| && ancestors[k].InIf?
        invariant k <= |ancestors| && Nearest(ancestors) == Nearest(ancestors[k..])
      {
        assert ancestors[k..][1..] == ancestors[k + 1..];
        k := k + 1;
      }
    }

    method FixBreak()
      requires isBreak
      modifies this
      ensures name == Fixed(old(name))
      ensures name == if Redundant(old(name), true, ancestors, process) then NO_NAME else old(name)
    {
      ClearedIff(name, ancestors, process);
      if name == NO_NAME {
        return;
      }
      var k := NearestParent();
      var n: Name;
      if k == |ancestors| {
        if process.None? {
          return;
        }
        n := process.value;
      } else {
        n := ancestors[k].name;
      }
      if n == NO_NAME {
        return;
      }
      if n != name {
        return;
      }
      name := NO_NAME;
    }

    method VisitContinue()
      requires !isBreak
      modifies this
      ensures name == Fixed(old(name))
      ensures name == if Redundant(old(name), false, ancestors, process) then NO_NAME else old(name)
    {
      ClearedIff(name, ancestors, process);
      if name == NO_NAME {
        return;
      }
      var k := NearestParent();
      if k == |ancestors| {
        return;
      }
      var n := ancestors[k].name;
      if n == NO_NAME {
        return;
      }
      if n != name {
        return;
      }
      name := NO_NAME;
    }
  }

  method FixBreaks(res: seq<Jump>)
    requires forall k :: 0 <= k < |res| ==> res[k].isBreak
    requires forall j, k :: 0 <= j < k < |res| ==> res[j] != res[k]
    modifies res
    ensures forall k :: 0 <= k < |res| ==>
      res[k].name == if Redundant(old(res[k].name), true, res[k].ancestors, res[k].process) then NO_NAME
                     else old(res[k].name)
  {
    for i := 0 to |res|
      invariant forall k :: 0 <= k < i ==>
        res[k].name == if Redundant(old(res[k].name), true, res[k].ancestors, res[k].process) then NO_NAME
                       else old(res[k].name)
      invariant forall k :: i <= k < |res| ==> res[k].name == old(res[k].name)
    {
      res[i].FixBreak();
    }
  }

  /** The pass on a whole nest. */
  function Fix(a: seq<Action>, anc: seq<Enclosing>, process: Option<Name>): seq<Action>
    decreases a, 0
  {
    if |a| == 0 then [] else [FixOne(a[0], anc, process)] + Fix(a[1..], anc, process)
  }

  function FixOne(a: Action, anc: seq<Enclosing>, process: Option<Name>): Action
    decreases a, 1
  {
    match a
    case Set(_) => a
    case Break(l) => Break(NewBreak(l, anc, process))
    case Continue(l) => Continue(NewContinue(l, anc))
    case IfAction(alts, els) => IfAction(FixBranches(alts, [InIf] + anc, process), Fix(els, [InIf] + anc, process))
    case Loop(n, first, c, step, body) => Loop(n, first, c, step, Fix(body, [InLoop(n)] + anc, process))
    case Switch(n, v, cases, defaults) =>
      Switch(n, v, FixBranches(cases, [InSwitch(n)] + anc, process), Fix(defaults, [InSwitch(n)] + anc, process))
  }

  function FixBranches(bs: seq<Branch>, anc: seq<Enclosing>, process: Option<Name>): seq<Branch>
    decreases bs, 0
  {
    if |bs| == 0 then []
    else [Branch(bs[0].guard, Fix(bs[0].actions, anc, process))] + FixBranches(bs[1..], anc, process)
  }

  // ---------------------------------------------------------------- what the pass changes

  /** A jump of a nest, with the actions around it. */
  datatype Found = Found(isBreak: bool, dest: Name, anc: seq<Enclosing>)

  /** Every break and continue of a nest, in order. */
  function Jumps(a: seq<Action>, anc: seq<Enclosing>): seq<Found>
    decreases a, 0
  {
    if |a| == 0 then [] else JumpsOf(a[0], anc) + Jumps(a[1..], anc)
  }

  function JumpsOf(a: Action, anc: seq<Enclosing>): seq<Found>
    decreases a, 1
  {
    match a
    case Set(_) => []
    case Break(l) => [Found(true, l, anc)]
    case Continue(l) => [Found(false, l, anc)]
    case IfAction(alts, els) => JumpsIn(alts, [InIf] + anc) + Jumps(els, [InIf] + anc)
    case Loop(n, _, _, _, body) => Jumps(body, [InLoop(n)] + anc)
    case Switch(n, _, cases, defaults) => JumpsIn(cases, [InSwitch(n)] + anc) + Jumps(defaults, [InSwitch(n)] + anc)
  }

  function JumpsIn(bs: seq<Branch>, anc: seq<Enclosing>): seq<Found>
    decreases bs, 0
  {
    if |bs| == 0 then [] else Jumps(bs[0].actions, anc) + JumpsIn(bs[1..], anc)
  }

  /** The nest without any label on its jumps. */
  function Bare(a: seq<Action>): seq<Action>
    decreases a, 0
  {
    if |a| == 0 then [] else [BareOne(a[0])] + Bare(a[1..])
  }

  function BareOne(a: Action): Action
    decreases a, 1
  {
    match a
    case Set(_) => a
    case Break(_) => Break(NO_NAME)
    case Continue(_) => Continue(NO_NAME)
    case IfAction(alts, els) => IfAction(BareIn(alts), Bare(els))
    case Loop(n, first, c, step, body) => Loop(n, first, c, step, Bare(body))
    case Switch(n, v, cases, defaults) => Switch(n, v, BareIn(cases), Bare(defaults))
  }

  function BareIn(bs: seq<Branch>): seq<Branch>
    decreases bs, 0
  {
    if |bs| == 0 then [] else [Branch(bs[0].guard, Bare(bs[0].actions))] + BareIn(bs[1..])
  }

  /** js' are the jumps js, each with the redundant label gone and any other kept. */
  predicate LabelsFixed(js: seq<Found>, js': seq<Found>, process: Option<Name>) {
    && |js'| == |js|
    && forall k :: 0 <= k < |js| ==> LabelFixed(js[k], js'[k], process)
  }

  predicate LabelFixed(j: Found, j': Found, process: Option<Name>) {
    j' == j.(dest := if Redundant(j.dest, j.isBreak, j.anc, process) then NO_NAME else j.dest)
  }

  lemma JoinFixed(js: seq<Found>, js': seq<Found>, ks: seq<Found>, ks': seq<Found>, process: Option<Name>)
    requires LabelsFixed(js, js', process) && LabelsFixed(ks, ks', process)
    ensures LabelsFixed(js + ks, js' + ks', process)
  {
  }

  /** Exactly the redundant labels go, at every depth of the nest, and nothing else changes. */
  lemma {:induction false} OnlyRedundantGo(a: seq<Action>, anc: seq<Enclosing>, process: Option<Name>)
    ensures LabelsFixed(Jumps(a, anc), Jumps(Fix(a, anc, process), anc), process)
    ensures Bare(Fix(a, anc, process)) == Bare(a)
    decreases a, 0
  {
    if |a| != 0 {
      var f := Fix(a, anc, process);
      assert f[0] == FixOne(a[0], anc, process) && f[1..] == Fix(a[1..], anc, process);
      OnlyRedundantGoOne(a[0], anc, process);
      OnlyRedundantGo(a[1..], anc, process);
      JoinFixed(JumpsOf(a[0], anc), JumpsOf(f[0], anc), Jumps(a[1..], anc), Jumps(f[1..], anc), process);
    }
  }

  lemma {:induction false} OnlyRedundantGoOne(a: Action, anc: seq<Enclosing>, process: Option<Name>)
    ensures LabelsFixed(JumpsOf(a, anc), JumpsOf(FixOne(a, anc, process), anc), process)
    ensures BareOne(FixOne(a, anc, process)) == BareOne(a)
    decreases a, 1
  {
    match a
    case Set(_) =>
    case Break(l) => ClearedIff(l, anc, process);
    case Continue(l) => ClearedIff(l, anc, process);
    case IfAction(alts, els) =>
      var inner := [InIf] + anc;
      OnlyRedundantGoIn(alts, inner, process);
      OnlyRedundantGo(els, inner, process);
      JoinFixed(JumpsIn(alts, inner), JumpsIn(FixBranches(alts, inner, process), inner),
                Jumps(els, inner), Jumps(Fix(els, inner, process), inner), process);
    case Loop(n, _, _, _, body) => OnlyRedundantGo(body, [InLoop(n)] + anc, process);
    case Switch(n, _, cases, defaults) =>
      var inner := [InSwitch(n)] + anc;
      OnlyRedundantGoIn(cases, inner, process);
      OnlyRedundantGo(defaults, inner, process);
      JoinFixed(JumpsIn(cases, inner), JumpsIn(FixBranches(cases, inner, process), inner),
                Jumps(defaults, inner), Jumps(Fix(defaults, inner, process), inner), process);
  }

  lemma {:induction false} OnlyRedundantGoIn(bs: seq<Branch>, anc: seq<Enclosing>, process: Option<Name>)
    ensures LabelsFixed(JumpsIn(bs, anc), JumpsIn(FixBranches(bs, anc, process), anc), process)
    ensures BareIn(FixBranches(bs, anc, process)) == BareIn(bs)
    decreases bs, 0
  {
    if |bs| != 0 {
      var f := FixBranches(bs, anc, process);
      assert f[0].actions == Fix(bs[0].actions, anc, process) && f[1..] == FixBranches(bs[1..], anc, process);
      OnlyRedundantGo(bs[0].actions, anc, process);
      OnlyRedundantGoIn(bs[1..], anc, process);
      JoinFixed(Jumps(bs[0].actions, anc), Jumps(f[0].actions, anc), JumpsIn(bs[1..], anc), JumpsIn(f[1..], anc),
                process);
    }
  }

  // ---------------------------------------------------------------- runs

  datatype Outcome = Normal | Broke(dest: Name) | Continued(dest: Name) | StillRunning
  datatype Result = Result(store: Store, outcome: Outcome)

  function Apply(us: seq<Update>, s: Store): Store {
    if |us| == 0 then s else Apply(us[1..], s[us[0].n := Eval(us[0].e, s, s)])
  }

  function IfBranch(alts: seq<Branch>, els: seq<Action>, s: Store): (r: seq<Action>)
    ensures r == els || exists i :: 0 <= i < |alts| && r == alts[i].actions
  {
    if |alts| == 0 then els
    else if Truthy(Eval(alts[0].guard, s, s)) then alts[0].actions
    else IfBranch(alts[1..], els, s)
  }

  function SwitchBranch(v: Value, cases: seq<Branch>, defaults: seq<Action>, s: Store): (r: seq<Action>)
    ensures r == defaults || exists i :: 0 <= i < |cases| && r == cases[i].actions
  {
    if |cases| == 0 then defaults
    else if Eval(cases[0].guard, s, s) == v then cases[0].actions
    else SwitchBranch(v, cases[1..], defaults, s)
  }

  predicate Catches(dest: Name, loopName: Name) {
    dest == NO_NAME || dest == loopName
  }

  /** fuel bounds the iterations of each loop; a run that needs more is StillRunning. */
  function Exec(a: seq<Action>, fuel: nat, s: Store): Result
    decreases fuel, a, 0
  {
    if |a| == 0 then Result(s, Normal)
    else
      var r := ExecOne(a[0], fuel, s);
      if r.outcome == Normal then Exec(a[1..], fuel, r.store) else r
  }

  function ExecOne(a: Action, fuel: nat, s: Store): Result
    decreases fuel, a, 2
  {
    match a
    case Set(u) => Result(Apply([u], s), Normal)
    case Break(l) => Result(s, Broke(l))
    case Continue(l) => Result(s, Continued(l))
    case IfAction(alts, els) =>
      var branch := IfBranch(alts, els, s);
      assert branch == els || exists i :: 0 <= i < |alts| && branch == alts[i].actions;
      Exec(branch, fuel, s)
    case Loop(_, testFirst, c, _, _) =>
      if testFirst && !Truthy(Eval(c, s, s)) then Result(s, Normal) else Iterate(a, fuel, s)
    case Switch(_, e, cases, defaults) =>
      var branch := SwitchBranch(Eval(e, s, s), cases, defaults, s);
      assert branch == defaults || exists i :: 0 <= i < |cases| && branch == cases[i].actions;
      AfterSwitch(Exec(branch, fuel, s))
  }

  /** A plain break leaves the switch; any other jump passes through it. */
  function AfterSwitch(r: Result): Result {
    if r.outcome == Broke(NO_NAME) then Result(r.store, Normal) else r
  }

  /** The body once, then the step, then the test. */
  function Iterate(a: Action, fuel: nat, s: Store): Result
    requires a.Loop?
    decreases fuel, a, 1
  {
    var r := Exec(a.body, fuel, s);
    if r.outcome.Broke? && Catches(r.outcome.dest, a.name) then Result(r.store, Normal)
    else if r.outcome == Normal || (r.outcome.Continued? && Catches(r.outcome.dest, a.name)) then
      Again(a, fuel, Apply(a.step, r.store))
    else r
  }

  function Again(a: Action, fuel: nat, s: Store): Result
    requires a.Loop?
    decreases fuel, a, 0
  {
    if !Truthy(Eval(a.cond, s, s)) then Result(s, Normal)
    else if fuel == 0 then Result(s, StillRunning)
    else Iterate(a, fuel - 1, s)
  }

  /** A process ends its activation when its body does, or when a break names it. */
  function RunProcess(p: Nest, fuel: nat, s: Store): Result {
    var r := Exec(p.body, fuel, s);
    if r.outcome.Broke? && (r.outcome.dest == NO_NAME || p.name == Some(r.outcome.dest))
      then Result(r.store, Normal) else r
  }

  // ---------------------------------------------------------------- well-formed labels

  function LoopNames(anc: seq<Enclosing>): set<Name> {
    if |anc| == 0 then {}
    else (if anc[0].InLoop? then {anc[0].name} else {}) + LoopNames(anc[1..])
  }

  predicate BreakTarget(l: Name, anc: seq<Enclosing>, process: Option<Name>) {
    l == NO_NAME || l in LoopNames(anc) || process == Some(l)
  }

  predicate ContinueTarget(l: Name, anc: seq<Enclosing>) {
    l == NO_NAME || l in LoopNames(anc)
  }

  /** Labels name enclosing loops or the process, and a switch has none of those names. */
  predicate Labelled(a: seq<Action>, anc: seq<Enclosing>, process: Option<Name>)
    decreases a, 0
  {
    |a| == 0 || (LabelledOne(a[0], anc, process) && Labelled(a[1..], anc, process))
  }

  predicate LabelledOne(a: Action, anc: seq<Enclosing>, process: Option<Name>)
    decreases a, 1
  {
    match a
    case Set(_) => true
    case Break(l) => BreakTarget(l, anc, process)
    case Continue(l) => ContinueTarget(l, anc)
    case IfAction(alts, els) => LabelledIn(alts, [InIf] + anc, process) && Labelled(els, [InIf] + anc, process)
    case Loop(n, _, _, _, body) => Labelled(body, [InLoop(n)] + anc, process)
    case Switch(n, _, cases, defaults) =>
      && (n != NO_NAME ==> !BreakTarget(n, anc, process))
      && LabelledIn(cases, [InSwitch(n)] + anc, process) && Labelled(defaults, [InSwitch(n)] + anc, process)
  }

  predicate LabelledIn(bs: seq<Branch>, anc: seq<Enclosing>, process: Option<Name>)
    decreases bs, 0
  {
    |bs| == 0 || (Labelled(bs[0].actions, anc, process) && LabelledIn(bs[1..], anc, process))
  }

  /** A jump that leaves the nest leads somewhere. */
  predicate Leads(o: Outcome, anc: seq<Enclosing>, process: Option<Name>) {
    match o
    case Broke(l) => BreakTarget(l, anc, process)
    case Continued(l) => ContinueTarget(l, anc)
    case _ => true
  }

  function NewOutcome(o: Outcome, anc: seq<Enclosing>, process: Option<Name>): Outcome {
    match o
    case Broke(l) => Broke(NewBreak(l, anc, process))
    case Continued(l) => Continued(NewContinue(l, anc))
    case _ => o
  }

  /** The fixed nest ends as the original does, but for a label the pass clears here. */
  predicate Alike(r: Result, r': Result, anc: seq<Enclosing>, process: Option<Name>) {
    && r'.store == r.store && Leads(r.outcome, anc, process)
    && (r'.outcome == r.outcome || r'.outcome == NewOutcome(r.outcome, anc, process))
  }

  // ---------------------------------------------------------------- runs are kept

  lemma {:induction false} IfBranchFixed(alts: seq<Branch>, els: seq<Action>, s: Store, anc: seq<Enclosing>,
                                         process: Option<Name>)
    requires LabelledIn(alts, anc, process) && Labelled(els, anc, process)
    ensures IfBranch(FixBranches(alts, anc, process), Fix(els, anc, process), s)
            == Fix(IfBranch(alts, els, s), anc, process)
    ensures Labelled(IfBranch(alts, els, s), anc, process)
  {
    if |alts| != 0 {
      IfBranchFixed(alts[1..], els, s, anc, process);
      assert FixBranches(alts, anc, process)[1..] == FixBranches(alts[1..], anc, process);
    }
  }

  lemma {:induction false} SwitchBranchFixed(v: Value, cases: seq<Branch>, defaults: seq<Action>, s: Store,
                                             anc: seq<Enclosing>, process: Option<Name>)
    requires LabelledIn(cases, anc, process) && Labelled(defaults, anc, process)
    ensures SwitchBranch(v, FixBranches(cases, anc, process), Fix(defaults, anc, process), s)
            == Fix(SwitchBranch(v, cases, defaults, s), anc, process)
    ensures Labelled(SwitchBranch(v, cases, defaults, s), anc, process)
  {
    if |cases| != 0 {
      SwitchBranchFixed(v, cases[1..], defaults, s, anc, process);
      assert FixBranches(cases, anc, process)[1..] == FixBranches(cases[1..], anc, process);
    }
  }

  lemma ThroughIf(r: Result, r': Result, anc: seq<Enclosing>, process: Option<Name>)
    requires Alike(r, r', [InIf] + anc, process)
    ensures Alike(r, r', anc, process)
  {
    assert ([InIf] + anc)[1..] == anc;
  }

  lemma ThroughSwitch(r: Result, r': Result, n: Name, anc: seq<Enclosing>, process: Option<Name>)
    requires Alike(r, r', [InSwitch(n)] + anc, process) && (n != NO_NAME ==> !BreakTarget(n, anc, process))
    ensures Alike(AfterSwitch(r), AfterSwitch(r'), anc, process)
  {
    assert ([InSwitch(n)] + anc)[1..] == anc;
    assert LoopNames([InSwitch(n)] + anc) == LoopNames(anc);
  }

  lemma {:induction false} FixKeeps(a: seq<Action>, anc: seq<Enclosing>, process: Option<Name>, fuel: nat, s: Store)
    requires Labelled(a, anc, process)
    ensures Alike(Exec(a, fuel, s), Exec(Fix(a, anc, process), fuel, s), anc, process)
    decreases fuel, a, 0
  {
    if |a| != 0 {
      var f := Fix(a, anc, process);
      assert f[0] == FixOne(a[0], anc, process) && f[1..] == Fix(a[1..], anc, process);
      FixKeepsOne(a[0], anc, process, fuel, s);
      var r := ExecOne(a[0], fuel, s);
      if r.outcome == Normal {
        FixKeeps(a[1..], anc, process, fuel, r.store);
      }
    }
  }

  lemma {:induction false} FixKeepsOne(a: Action, anc: seq<Enclosing>, process: Option<Name>, fuel: nat, s: Store)
    requires LabelledOne(a, anc, process)
    ensures Alike(ExecOne(a, fuel, s), ExecOne(FixOne(a, anc, process), fuel, s), anc, process)
    decreases fuel, a, 2
  {
    match a
    case Set(_) =>
    case Break(_) =>
    case Continue(_) =>
    case IfAction(alts, els) =>
      var inner := [InIf] + anc;
      IfBranchFixed(alts, els, s, inner, process);
      var branch := IfBranch(alts, els, s);
      assert branch == els || exists i :: 0 <= i < |alts| && branch == alts[i].actions;
      FixKeeps(branch, inner, process, fuel, s);
      ThroughIf(Exec(branch, fuel, s), Exec(Fix(branch, inner, process), fuel, s), anc, process);
    case Loop(_, testFirst, c, _, _) =>
      if !(testFirst && !Truthy(Eval(c, s, s))) {
        FixKeepsIterate(a, anc, process, fuel, s);
      }
    case Switch(n, e, cases, defaults) =>
      var inner := [InSwitch(n)] + anc;
      var v := Eval(e, s, s);
      SwitchBranchFixed(v, cases, defaults, s, inner, process);
      var branch := SwitchBranch(v, cases, defaults, s);
      assert branch == defaults || exists i :: 0 <= i < |cases| && branch == cases[i].actions;
      FixKeeps(branch, inner, process, fuel, s);
      ThroughSwitch(Exec(branch, fuel, s), Exec(Fix(branch, inner, process), fuel, s), n, anc, process);
  }

  /** A loop ends the same way on alike results of its body. */
  lemma LeavesLoop(r: Result, r': Result, n: Name, anc: seq<Enclosing>, process: Option<Name>)
    requires Alike(r, r', [InLoop(n)] + anc, process)
    ensures r.outcome.Broke? && Catches(r.outcome.dest, n) <==> r'.outcome.Broke? && Catches(r'.outcome.dest, n)
    ensures r.outcome.Continued? && Catches(r.outcome.dest, n) <==> r'.outcome.Continued? && Catches(r'.outcome.dest, n)
    ensures r.outcome == Normal <==> r'.outcome == Normal
    ensures (r.outcome.Broke? || r.outcome.Continued?) && !Catches(r.outcome.dest, n) ==> Alike(r, r', anc, process)
  {
    assert ([InLoop(n)] + anc)[1..] == anc;
    assert LoopNames([InLoop(n)] + anc) == {n} + LoopNames(anc);
  }

  lemma {:induction false} FixKeepsIterate(a: Action, anc: seq<Enclosing>, process: Option<Name>, fuel: nat, s: Store)
    requires a.Loop? && LabelledOne(a, anc, process)
    ensures Alike(Iterate(a, fuel, s), Iterate(FixOne(a, anc, process), fuel, s), anc, process)
    decreases fuel, a, 1
  {
    var inner := [InLoop(a.name)] + anc;
    FixKeeps(a.body, inner, process, fuel, s);
    var r, r' := Exec(a.body, fuel, s), Exec(Fix(a.body, inner, process), fuel, s);
    LeavesLoop(r, r', a.name, anc, process);
    var next := Apply(a.step, r.store);
    if Truthy(Eval(a.cond, next, next)) && fuel > 0 {
      FixKeepsIterate(a, anc, process, fuel - 1, next);
    }
  }

  function FixProcess(p: Nest): Nest {
    Nest(p.name, Fix(p.body, [], p.name))
  }

  /** Every run of a process, cut off after any number of iterations, is the same with fewer labels. */
  lemma LabelsKeepRuns(p: Nest, fuel: nat, s: Store)
    requires Labelled(p.body, [], p.name)
    ensures RunProcess(FixProcess(p), fuel, s) == RunProcess(p, fuel, s)
  {
    FixKeeps(p.body, [], p.name, fuel, s);
  }

  // ---------------------------------------------------------------- the pass is final

  lemma {:induction false} FixTwice(a: seq<Action>, anc: seq<Enclosing>, process: Option<Name>)
    ensures Fix(Fix(a, anc, process), anc, process) == Fix(a, anc, process)
    decreases a, 0
  {
    if |a| != 0 {
      FixTwiceOne(a[0], anc, process);
      FixTwice(a[1..], anc, process);
      assert Fix(a, anc, process)[1..] == Fix(a[1..], anc, process);
    }
  }

  lemma {:induction false} FixTwiceOne(a: Action, anc: seq<Enclosing>, process: Option<Name>)
    ensures FixOne(FixOne(a, anc, process), anc, process) == FixOne(a, anc, process)
    decreases a, 1
  {
    match a
    case Set(_) =>
    case Break(_) =>
    case Continue(_) =>
    case IfAction(alts, els) =>
      FixTwiceIn(alts, [InIf] + anc, process);
      FixTwice(els, [InIf] + anc, process);
    case Loop(n, _, _, _, body) => FixTwice(body, [InLoop(n)] + anc, process);
    case Switch(n, _, cases, defaults) =>
      FixTwiceIn(cases, [InSwitch(n)] + anc, process);
      FixTwice(defaults, [InSwitch(n)] + anc, process);
  }

  lemma {:induction false} FixTwiceIn(bs: seq<Branch>, anc: seq<Enclosing>, process: Option<Name>)
    ensures FixBranches(FixBranches(bs, anc, process), anc, process) == FixBranches(bs, anc, process)
    decreases bs, 0
  {
    if |bs| != 0 {
      FixTwice(bs[0].actions, anc, process);
      FixTwiceIn(bs[1..], anc, process);
      assert FixBranches(bs, anc, process)[1..] == FixBranches(bs[1..], anc, process);
    }
  }
}
