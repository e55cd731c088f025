/**
 Giving a procedurally driven inout port a reg to be driven through.

 The pass declares a driver reg, moves the targets of the process's assignments to it, and drives
 the port continuously from it. LoweredPortsAreNets, RegsDeclared and LoweringIsFinal are about what
 it leaves; what the designs do is the subject of InoutRuns.
 */
module InoutPorts {
  import opened Logic

  /** A name of the source, or a fresh one made from another name. */
  datatype Name = Source(s: string) | Generated(base: Name, n: nat)

  datatype Expr =
    | Ref(n: Name)
    | Lit(v: Bits)
    | Select(e: Expr, i: Expr)
    | Bnot(e: Expr)
    | Band(l: Expr, r: Expr)

  datatype Target =
    | Whole(n: Name)
    | BitOf(t: Target, i: Expr)
    | PartOf(t: Target, high: int, low: int)

  /**
   An assignment, under the conjunction of the conditions of the ifs around it; a process or
   subprogram encloses it unless it is a global action. Processes are numbered; a subprogram's
   assignments belong to the process that calls it.
   */
  datatype Assign = Assign(guard: Expr, target: Target, rhs: Expr, procedural: bool, process: nat)

  datatype Direction = In | Out | Inout
  datatype Port = Port(name: Name, dir: Direction, width: nat)

  datatype Declaration = Declaration(name: Name, width: nat, init: Bits)

  /** A continuous assignment of a whole signal to a whole port. */
  datatype Continuous = Continuous(port: Name, driver: Name)

  datatype Contents = Contents(
    assigns: seq<Assign>,
    declarations: seq<Declaration>,
    continuous: seq<Continuous>,
    next: nat)

  // ---------------------------------------------------------------- the pass as a function

  /** The name at the root of a target: a bit or part select of a port still drives the port. */
  function TerminalPrefix(t: Target): Name {
    match t
    case Whole(n) => n
    case BitOf(t1, _) => TerminalPrefix(t1)
    case PartOf(t1, _, _) => TerminalPrefix(t1)
  }

  function Retarget(t: Target, n: Name): Target {
    match t
    case Whole(_) => Whole(n)
    case BitOf(t1, i) => BitOf(Retarget(t1, n), i)
    case PartOf(t1, h, l) => PartOf(Retarget(t1, n), h, l)
  }

  predicate Drives(a: Assign, port: Name) {
    a.procedural && TerminalPrefix(a.target) == port
  }

  predicate DrivenByProcess(assigns: seq<Assign>, port: Name) {
    exists k :: 0 <= k < |assigns| && Drives(assigns[k], port)
  }

  function MoveTarget(a: Assign, port: Name, driver: Name): Assign {
    if Drives(a, port) then a.(target := Retarget(a.target, driver)) else a
  }

  function MoveTargets(assigns: seq<Assign>, port: Name, driver: Name): (r: seq<Assign>)
    ensures |r| == |assigns| && forall k :: 0 <= k < |r| ==> r[k] == MoveTarget(assigns[k], port, driver)
  {
    seq(|assigns|, k requires 0 <= k < |assigns| => MoveTarget(assigns[k], port, driver))
  }

  /** init gives the default value of a type of some width. */
  function LowerPort(c: Contents, p: Port, init: nat -> Bits): Contents {
    if !p.dir.Inout? || !DrivenByProcess(c.assigns, p.name) then c
    else
      var driver := Generated(p.name, c.next);
      Contents(
        MoveTargets(c.assigns, p.name, driver),
        c.declarations + [Declaration(driver, p.width, init(p.width))],
        c.continuous + [Continuous(p.name, driver)],
        c.next + 1)
  }

  function LowerPorts(c: Contents, ports: seq<Port>, init: nat -> Bits): Contents
    decreases |ports|
  {
    if |ports| == 0 then c else LowerPorts(LowerPort(c, ports[0], init), ports[1..], init)
  }

  // ---------------------------------------------------------------- the pass in place

  class View {
    const ports: seq<Port>
    var assigns: seq<Assign>
    var declarations: seq<Declaration>
    var continuous: seq<Continuous>
    var next: nat

    constructor (ports: seq<Port>, c: Contents)
      ensures this.ports == ports && Tree() == c
    {
      this.ports := ports;
      assigns, declarations, continuous, next := c.assigns, c.declarations, c.continuous, c.next;
    }

    function Tree(): Contents
      reads this
    {
      Contents(assigns, declarations, continuous, next)
    }

    /** Positions of the assignments inside processes and subprograms that drive the port. */
    method CollectProceduralAssigns(port: Name) returns (result: seq<nat>)
      ensures forall k :: k in result <==>
        0 <= k < |assigns| && assigns[k].procedural && TerminalPrefix(assigns[k].target) == port
    {
      result := [];
      for k := 0 to |assigns|
        invariant forall j :: j in result <==> 0 <= j < k && Drives(assigns[j], port)
      {
        if !assigns[k].procedural {
          continue;
        }
        if TerminalPrefix(assigns[k].target) == port {
          result := result + [k];
        }
      }
    }

    method LowerInout(p: Port, init: nat -> Bits)
      modifies this
      ensures Tree() == LowerPort(old(Tree()), p, init)
    {
      if !p.dir.Inout? {
        return;
      }
      var procedural := CollectProceduralAssigns(p.name);
      if procedural == [] {
        return;
      }
      assert procedural[0] in procedural;
      var driver := Generated(p.name, next);
      next := next + 1;
      declarations := declarations + [Declaration(driver, p.width, init(p.width))];
      for j := 0 to |procedural|
        invariant |assigns| == |old(assigns)|
        invariant forall k :: 0 <= k < |assigns| ==>
          assigns[k] == old(assigns)[k] || assigns[k] == MoveTarget(old(assigns)[k], p.name, driver)
        invariant forall k :: k in procedural[..j] ==>
          k < |assigns| && assigns[k] == MoveTarget(old(assigns)[k], p.name, driver)
        invariant continuous == old(continuous) && next == old(next) + 1
        invariant declarations == old(declarations) + [Declaration(driver, p.width, init(p.width))]
      {
        var k := procedural[j];
        assert k in procedural;
        RetargetTwice(old(assigns)[k].target, driver, driver);
        assert procedural[..j + 1] == procedural[..j] + [k];
        assigns := assigns[k := assigns[k].(target := Retarget(assigns[k].target, driver))];
      }
      assert assigns == MoveTargets(old(assigns), p.name, driver) by {
        forall k | 0 <= k < |assigns|
          ensures assigns[k] == MoveTarget(old(assigns)[k], p.name, driver)
        {
          if Drives(old(assigns)[k], p.name) {
            assert k in procedural;
          }
        }
      }
      continuous := continuous + [Continuous(p.name, driver)];
    }

    method VisitView(init: nat -> Bits)
      modifies this
      ensures Tree() == LowerPorts(old(Tree()), ports, init)
    {
      for i := 0 to |ports|
        invariant LowerPorts(old(Tree()), ports, init) == LowerPorts(Tree(), ports[i..], init)
      {
        LowerInout(ports[i], init);
        assert ports[i..][1..] == ports[i + 1..];
      }
    }
  }

  lemma {:induction false} RetargetTwice(t: Target, n: Name, m: Name)
    ensures Retarget(Retarget(t, n), m) == Retarget(t, m)
    ensures TerminalPrefix(Retarget(t, n)) == n
  {
    match t
    case Whole(_) =>
    case BitOf(t1, _) => RetargetTwice(t1, n, m);
    case PartOf(t1, _, _) => RetargetTwice(t1, n, m);
  }

  // ---------------------------------------------------------------- shape afterwards

  function Age(n: Name): nat {
    match n
    case Source(_) => 0
    case Generated(_, k) => k + 1
  }

  /** The fresh-name table is ahead of the names of the ports. */
  predicate Older(ports: seq<Port>, next: nat) {
    forall k :: 0 <= k < |ports| ==> Age(ports[k].name) <= next
  }

  predicate NotDriven(assigns: seq<Assign>, ports: seq<Port>) {
    forall k :: 0 <= k < |ports| && ports[k].dir.Inout? ==> !DrivenByProcess(assigns, ports[k].name)
  }

  lemma LowerPortUndrives(c: Contents, p: Port, init: nat -> Bits, q: Name)
    requires Age(q) <= c.next && Age(p.name) <= c.next
    ensures q == p.name && p.dir.Inout? ==> !DrivenByProcess(LowerPort(c, p, init).assigns, q)
    ensures !DrivenByProcess(c.assigns, q) ==> !DrivenByProcess(LowerPort(c, p, init).assigns, q)
  {
    var r := LowerPort(c, p, init);
    var driver := Generated(p.name, c.next);
    forall k | 0 <= k < |c.assigns|
      ensures TerminalPrefix(MoveTarget(c.assigns[k], p.name, driver).target)
           == if Drives(c.assigns[k], p.name) then driver else TerminalPrefix(c.assigns[k].target)
    {
      RetargetTwice(c.assigns[k].target, driver, driver);
    }
    assert q != driver;
    if r != c && DrivenByProcess(r.assigns, q) {
      var k :| 0 <= k < |r.assigns| && Drives(r.assigns[k], q);
      assert r.assigns[k] == MoveTarget(c.assigns[k], p.name, driver);
      assert Drives(c.assigns[k], q);
    }
  }

  lemma {:induction false} LowerPortsUndrives(c: Contents, ports: seq<Port>, init: nat -> Bits, q: Name)
    requires Older(ports, c.next) && Age(q) <= c.next
    ensures (exists k :: 0 <= k < |ports| && ports[k].dir.Inout? && ports[k].name == q)
            || !DrivenByProcess(c.assigns, q)
            ==> !DrivenByProcess(LowerPorts(c, ports, init).assigns, q)
    decreases |ports|
  {
    if |ports| != 0 {
      var c1 := LowerPort(c, ports[0], init);
      LowerPortUndrives(c, ports[0], init, q);
      assert Older(ports[1..], c1.next);
      LowerPortsUndrives(c1, ports[1..], init, q);
      if k :| 0 < k < |ports| && ports[k].dir.Inout? && ports[k].name == q {
        assert ports[1..][k - 1] == ports[k];
      }
    }
  }

  /** Afterwards no procedural assignment targets an inout port. */
  lemma LoweredPortsAreNets(c: Contents, ports: seq<Port>, init: nat -> Bits)
    requires Older(ports, c.next)
    ensures NotDriven(LowerPorts(c, ports, init).assigns, ports)
  {
    forall k | 0 <= k < |ports| && ports[k].dir.Inout?
      ensures !DrivenByProcess(LowerPorts(c, ports, init).assigns, ports[k].name)
    {
      LowerPortsUndrives(c, ports, init, ports[k].name);
    }
  }

  predicate IsInoutPort(ports: seq<Port>, n: Name) {
    exists k :: 0 <= k < |ports| && ports[k].dir.Inout? && ports[k].name == n
  }

  /** An assignment in a process or subprogram whose target is an inout port, or part of one. */
  predicate MustMove(a: Assign, ports: seq<Port>) {
    a.procedural && IsInoutPort(ports, TerminalPrefix(a.target))
  }

  lemma InoutPortHead(ports: seq<Port>, n: Name)
    requires |ports| > 0
    ensures IsInoutPort(ports, n) <==> (ports[0].dir.Inout? && ports[0].name == n) || IsInoutPort(ports[1..], n)
  {
    assert forall k :: 0 <= k < |ports[1..]| ==> ports[1..][k] == ports[k + 1];
    assert forall k :: 0 < k < |ports| ==> ports[k] == ports[1..][k - 1];
  }

  lemma LowerPortMoves(c: Contents, p: Port, init: nat -> Bits, k: nat)
    requires k < |c.assigns|
    ensures var l := LowerPort(c, p, init);
            && |l.assigns| == |c.assigns|
            && l.assigns[k] == c.assigns[k].(target := l.assigns[k].target)
            && if c.assigns[k].procedural && p.dir.Inout? && TerminalPrefix(c.assigns[k].target) == p.name
               then TerminalPrefix(l.assigns[k].target) == Generated(p.name, c.next)
               else l.assigns[k].target == c.assigns[k].target
  {
    RetargetTwice(c.assigns[k].target, Generated(p.name, c.next), p.name);
  }

  /** Exactly the procedural assignments to inout ports get another target, a reg's; nothing else of any changes. */
  lemma {:induction false} OnlyProceduralMove(c: Contents, ports: seq<Port>, init: nat -> Bits, k: nat)
    requires Older(ports, c.next) && k < |c.assigns|
    ensures var l := LowerPorts(c, ports, init);
            && |l.assigns| == |c.assigns|
            && l.assigns[k] == c.assigns[k].(target := l.assigns[k].target)
            && if MustMove(c.assigns[k], ports)
               then var n := TerminalPrefix(l.assigns[k].target);
                    n.Generated? && n.base == TerminalPrefix(c.assigns[k].target) && Age(n) > c.next
               else l.assigns[k].target == c.assigns[k].target
    decreases |ports|
  {
    if |ports| != 0 {
      var c1 := LowerPort(c, ports[0], init);
      LowerPortMoves(c, ports[0], init, k);
      InoutPortHead(ports, TerminalPrefix(c.assigns[k].target));
      assert forall j :: 0 <= j < |ports[1..]| ==> Age(ports[1..][j].name) <= c.next;
      OnlyProceduralMove(c1, ports[1..], init, k);
    }
  }

  lemma {:induction false} NotDrivenUnchanged(c: Contents, ports: seq<Port>, init: nat -> Bits)
    requires NotDriven(c.assigns, ports)
    ensures LowerPorts(c, ports, init) == c
    decreases |ports|
  {
    if |ports| != 0 {
      assert ports[0].dir.Inout? ==> !DrivenByProcess(c.assigns, ports[0].name);
      forall k | 0 <= k < |ports[1..]| && ports[1..][k].dir.Inout?
        ensures !DrivenByProcess(c.assigns, ports[1..][k].name)
      {
        assert ports[1..][k] == ports[k + 1];
      }
      NotDrivenUnchanged(c, ports[1..], init);
    }
  }

  /** A second pass changes nothing. */
  lemma LoweringIsFinal(c: Contents, ports: seq<Port>, init: nat -> Bits)
    requires Older(ports, c.next)
    ensures LowerPorts(LowerPorts(c, ports, init), ports, init) == LowerPorts(c, ports, init)
  {
    LoweredPortsAreNets(c, ports, init);
    NotDrivenUnchanged(LowerPorts(c, ports, init), ports, init);
  }

  // ---------------------------------------------------------------- declarations

  function Declarations(ds: seq<Declaration>, n: Name): nat {
    if |ds| == 0 then 0 else (if ds[0].name == n then 1 else 0) + Declarations(ds[1..], n)
  }

  lemma {:induction false} DeclarationsAppended(ds: seq<Declaration>, d: Declaration, n: Name)
    ensures Declarations(ds + [d], n) == Declarations(ds, n) + if d.name == n then 1 else 0
  {
    if |ds| == 0 {
      assert ds + [d] == [d] && [d][1..] == [];
    } else {
      assert (ds + [d])[1..] == ds[1..] + [d];
      DeclarationsAppended(ds[1..], d, n);
    }
  }

  lemma {:induction false} NotDeclared(ds: seq<Declaration>, n: Name)
    requires forall j :: 0 <= j < |ds| ==> ds[j].name != n
    ensures Declarations(ds, n) == 0
  {
    if |ds| != 0 {
      NotDeclared(ds[1..], n);
    }
  }

  /** Every name in use was made before the fresh ones. */
  predicate NamesBefore(c: Contents) {
    && (forall j :: 0 <= j < |c.declarations| ==> Age(c.declarations[j].name) <= c.next)
    && (forall j :: 0 <= j < |c.assigns| ==> Age(TerminalPrefix(c.assigns[j].target)) <= c.next)
    && (forall j :: 0 <= j < |c.continuous| ==> Age(c.continuous[j].driver) <= c.next)
  }

  /** The port's reg is declared once, with the port's width and the default value of its type. */
  predicate DeclaredFor(c: Contents, ports: seq<Port>, init: nat -> Bits, link: Continuous) {
    && Declarations(c.declarations, link.driver) == 1
    && exists p ::
      p in ports && p.name == link.port && Declaration(link.driver, p.width, init(p.width)) in c.declarations
  }

  /** Every name made after the first ones, and used, is declared. */
  predicate AllDeclared(c: Contents, ports: seq<Port>, init: nat -> Bits, first: nat) {
    && (forall j :: 0 <= j < |c.continuous| && Age(c.continuous[j].driver) > first ==>
         DeclaredFor(c, ports, init, c.continuous[j]))
    && (forall j :: 0 <= j < |c.assigns| && Age(TerminalPrefix(c.assigns[j].target)) > first ==>
         Declarations(c.declarations, TerminalPrefix(c.assigns[j].target)) == 1)
  }

  lemma {:induction false} LowerPortDeclares(c: Contents, p: Port, ports: seq<Port>, init: nat -> Bits, first: nat)
    requires p in ports && NamesBefore(c) && first <= c.next && AllDeclared(c, ports, init, first)
    ensures NamesBefore(LowerPort(c, p, init)) && AllDeclared(LowerPort(c, p, init), ports, init, first)
    ensures LowerPort(c, p, init).next >= c.next
  {
    var l := LowerPort(c, p, init);
    if l != c {
      var driver := Generated(p.name, c.next);
      var d := Declaration(driver, p.width, init(p.width));
      NotDeclared(c.declarations, driver);
      forall n: Name
        ensures Declarations(l.declarations, n) == Declarations(c.declarations, n) + if n == driver then 1 else 0
      {
        DeclarationsAppended(c.declarations, d, n);
      }
      assert d in l.declarations;
      forall j | 0 <= j < |l.continuous| && Age(l.continuous[j].driver) > first
        ensures DeclaredFor(l, ports, init, l.continuous[j])
      {
        if j < |c.continuous| {
          assert DeclaredFor(c, ports, init, c.continuous[j]);
        }
      }
      forall j | 0 <= j < |l.assigns|
        ensures TerminalPrefix(l.assigns[j].target)
             == if Drives(c.assigns[j], p.name) then driver else TerminalPrefix(c.assigns[j].target)
      {
        assert l.assigns[j] == MoveTarget(c.assigns[j], p.name, driver);
        RetargetTwice(c.assigns[j].target, driver, driver);
      }
    }
  }

  lemma {:induction false} LowerPortsDeclare(c: Contents, rest: seq<Port>, ports: seq<Port>, init: nat -> Bits,
                                             first: nat)
    requires (forall k :: 0 <= k < |rest| ==> rest[k] in ports) && NamesBefore(c) && first <= c.next
    requires AllDeclared(c, ports, init, first)
    ensures AllDeclared(LowerPorts(c, rest, init), ports, init, first)
    decreases |rest|
  {
    if |rest| != 0 {
      LowerPortDeclares(c, rest[0], ports, init, first);
      LowerPortsDeclare(LowerPort(c, rest[0], init), rest[1..], ports, init, first);
    }
  }

  /** Every reg the pass makes is declared exactly once, with its port's width and default value. */
  lemma RegsDeclared(c: Contents, ports: seq<Port>, init: nat -> Bits)
    requires NamesBefore(c)
    ensures AllDeclared(LowerPorts(c, ports, init), ports, init, c.next)
  {
    LowerPortsDeclare(c, ports, ports, init, c.next);
  }
}
