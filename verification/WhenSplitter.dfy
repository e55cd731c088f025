/**
 Splitting conditionals nested deeper than a bound into parameterless functions.

 The visitor replaces a When met at the bound by a call to a fresh function, declares that
 function at the front of the enclosing scope, and splits its body again from depth zero.
 SplitKeepsValue, SplitBounds and SplitDeclaresBeforeUse are the main results.
 */
module WhenSplitter {
  type Name = string
  type Store = map<Name, int>

  /** The value of an operator, a library call and so on: the split does not look inside. */
  type Meaning = (string, seq<int>) -> int

  datatype Expr =
    | Leaf(n: Name)
    | Op(op: string, args: Exprs)
    | When(alts: Alts)
    | Static(e: Expr)       // under a range, a template value or type, or a define: never split
    | Call(id: nat)         // a call to a generated function
  datatype Exprs = Nil | Cons(head: Expr, tail: Exprs)
  datatype Alts = Default(value: Expr) | Alt(cond: Expr, value: Expr, rest: Alts)

  /** A generated function: no parameters, one return statement. */
  datatype Func = Func(id: nat, body: Expr)

  // ---------------------------------------------------------------- meaning

  function Find(id: nat, fs: seq<Func>): (i: nat)
    ensures i <= |fs| && (i < |fs| ==> fs[i].id == id)
    ensures forall j :: 0 <= j < i ==> fs[j].id != id
  {
    if |fs| == 0 then 0
    else if fs[0].id == id then 0
    else
      var k := Find(id, fs[1..]);
      assert forall j :: 1 <= j < 1 + k ==> fs[j] == fs[1..][j - 1];
      1 + k
  }

  /** A call runs the body of the function, which sees only the functions declared before it. */
  function Eval(e: Expr, s: Store, m: Meaning, fs: seq<Func>): int
    decreases |fs|, e
  {
    match e
    case Leaf(n) => if n in s then s[n] else 0
    case Op(op, args) => m(op, EvalArgs(args, s, m, fs))
    case When(alts) => EvalAlts(alts, s, m, fs)
    case Static(e1) => Eval(e1, s, m, fs)
    case Call(id) =>
      var i := Find(id, fs);
      if i < |fs| then Eval(fs[i].body, s, m, fs[..i]) else 0
  }

  function EvalArgs(args: Exprs, s: Store, m: Meaning, fs: seq<Func>): seq<int>
    decreases |fs|, args
  {
    match args
    case Nil => []
    case Cons(e, rest) => [Eval(e, s, m, fs)] + EvalArgs(rest, s, m, fs)
  }

  function EvalAlts(alts: Alts, s: Store, m: Meaning, fs: seq<Func>): int
    decreases |fs|, alts
  {
    match alts
    case Default(v) => Eval(v, s, m, fs)
    case Alt(c, v, rest) => if Eval(c, s, m, fs) != 0 then Eval(v, s, m, fs) else EvalAlts(rest, s, m, fs)
  }

  // ---------------------------------------------------------------- measures on trees

  function Max(a: nat, b: nat): nat {
    if a < b then b else a
  }

  /** Nesting depth of the Whens that are not in a constant scope. */
  function Nest(e: Expr): nat {
    match e
    case Leaf(_) => 0
    case Op(_, args) => NestArgs(args)
    case When(alts) => 1 + NestAlts(alts)
    case Static(_) => 0
    case Call(_) => 0
  }

  function NestArgs(args: Exprs): nat {
    match args
    case Nil => 0
    case Cons(e, rest) => Max(Nest(e), NestArgs(rest))
  }

  function NestAlts(alts: Alts): nat {
    match alts
    case Default(v) => Nest(v)
    case Alt(c, v, rest) => Max(Max(Nest(c), Nest(v)), NestAlts(rest))
  }

  function Calls(e: Expr): set<nat> {
    match e
    case Leaf(_) => {}
    case Op(_, args) => CallsArgs(args)
    case When(alts) => CallsAlts(alts)
    case Static(e1) => Calls(e1)
    case Call(id) => {id}
  }

  function CallsArgs(args: Exprs): set<nat> {
    match args
    case Nil => {}
    case Cons(e, rest) => Calls(e) + CallsArgs(rest)
  }

  function CallsAlts(alts: Alts): set<nat> {
    match alts
    case Default(v) => Calls(v)
    case Alt(c, v, rest) => Calls(c) + Calls(v) + CallsAlts(rest)
  }

  // ---------------------------------------------------------------- the split as a function

  /** The rewritten tree, the functions pushed in front of the scope's list, and the next fresh name. */
  datatype Splitting<T> = Splitting(tree: T, decls: seq<Func>, next: nat)

  function Split(e: Expr, depth: nat, maxDepth: nat, next: nat): Splitting<Expr>
    requires maxDepth >= 1
    decreases e, if depth < maxDepth then 0 else 1
  {
    match e
    case Leaf(_) => Splitting(e, [], next)
    case Op(op, args) =>
      var r := SplitArgs(args, depth, maxDepth, next);
      Splitting(Op(op, r.tree), r.decls, r.next)
    case When(alts) =>
      if depth < maxDepth then
        var r := SplitAlts(alts, depth + 1, maxDepth, next);
        Splitting(When(r.tree), r.decls, r.next)
      else
        var r := Split(e, 0, maxDepth, next + 1);
        Splitting(Call(next), r.decls + [Func(next, r.tree)], r.next)
    case Static(_) => Splitting(e, [], next)
    case Call(_) => Splitting(e, [], next)
  }

  function SplitArgs(args: Exprs, depth: nat, maxDepth: nat, next: nat): Splitting<Exprs>
    requires maxDepth >= 1
    decreases args, 0
  {
    match args
    case Nil => Splitting(Nil, [], next)
    case Cons(e, rest) =>
      var r1 := Split(e, depth, maxDepth, next);
      var r2 := SplitArgs(rest, depth, maxDepth, r1.next);
      Splitting(Cons(r1.tree, r2.tree), r2.decls + r1.decls, r2.next)
  }

  function SplitAlts(alts: Alts, depth: nat, maxDepth: nat, next: nat): Splitting<Alts>
    requires maxDepth >= 1
    decreases alts, 0
  {
    match alts
    case Default(v) =>
      var r := Split(v, depth, maxDepth, next);
      Splitting(Default(r.tree), r.decls, r.next)
    case Alt(c, v, rest) =>
      var r1 := Split(c, depth, maxDepth, next);
      var r2 := Split(v, depth, maxDepth, r1.next);
      var r3 := SplitAlts(rest, depth, maxDepth, r2.next);
      Splitting(Alt(r1.tree, r2.tree, r3.tree), r3.decls + (r2.decls + r1.decls), r3.next)
  }

  // ---------------------------------------------------------------- the visitor

  /** What encloses the visited tree: nothing, a scope the split rejects, none to declare in, or a usable one. */
  datatype Site = Global | Rejected | NoScope | Usable

  /** The enclosing scope's declarations and the table of fresh names. */
  class Scope {
    var decls: seq<Func>
    var next: nat

    constructor (next: nat)
      ensures decls == [] && this.next == next
    {
      decls := [];
      this.next := next;
    }
  }

  class Visitor {
    const maxDepth: nat
    const site: Site
    const scope: Scope
    var depth: nat
    var hasSplit: bool

    constructor (maxDepth: nat, site: Site, scope: Scope)
      ensures this.maxDepth == maxDepth && this.site == site && this.scope == scope
      ensures depth == 0 && !hasSplit
    {
      this.maxDepth := maxDepth;
      this.site := site;
      this.scope := scope;
      depth := 0;
      hasSplit := false;
    }

    /** The effect of visiting part of a tree: decls and next are the split's, ok is false when it stops. */
    twostate predicate Effect(ok: bool, decls: seq<Func>, next: nat, deep: bool)
      reads this, scope
    {
      && (site.Usable? ==> ok && scope.decls == decls + old(scope.decls) && scope.next == next
                           && hasSplit == (old(hasSplit) || decls != []))
      && (site.NoScope? ==> ok)
      && (!site.Usable? && !site.NoScope? ==> (ok <==> !deep))
      && (!site.Usable? ==> scope.decls == old(scope.decls) && scope.next == old(scope.next)
                            && hasSplit == old(hasSplit))
      && (ok ==> depth == old(depth))
    }

    method Visit(e: Expr) returns (ok: bool, r: Expr)
      requires maxDepth >= 1 && depth <= maxDepth
      modifies this, scope
      ensures var sp := old(Split(e, depth, maxDepth, scope.next));
              && Effect(ok, sp.decls, sp.next, old(depth) + Nest(e) > maxDepth)
              && (ok ==> r == if site.Usable? then sp.tree else e)
      decreases e, if depth < maxDepth then 0 else 1
    {
      match e
      case Leaf(_) => return true, e;
      case Static(_) => return true, e;
      case Call(_) => return true, e;
      case Op(op, args) =>
        var args';
        ok, args' := VisitArgs(args);
        return ok, Op(op, args');
      case When(alts) =>
        if depth < maxDepth {
          depth := depth + 1;
          var alts';
          ok, alts' := VisitAlts(alts);
          if !ok {
            return false, e;
          }
          depth := depth - 1;
          return true, When(alts');
        }
        ok, r := SplitHere(e);
    }

    /** A When at the bound: replaced by a call, or left alone, or rejected. */
    method SplitHere(e: Expr) returns (ok: bool, r: Expr)
      requires maxDepth >= 1 && depth == maxDepth && e.When?
      modifies this, scope
      ensures var sp := old(Split(e, depth, maxDepth, scope.next));
              && Effect(ok, sp.decls, sp.next, true)
              && (ok ==> r == if site.Usable? then sp.tree else e)
      decreases e, 1, 0
    {
      if site.Global? || site.Rejected? {
        return false, e;
      }
      if site.NoScope? {
        return true, e;
      }
      hasSplit := true;
      var before := |scope.decls|;
      var fname := scope.next;
      scope.next := scope.next + 1;
      scope.decls := [Func(fname, e)] + scope.decls;
      var ws := new Visitor(maxDepth, Usable, scope);
      var body;
      ok, body := ws.Visit(e);
      var at := |scope.decls| - before - 1;
      scope.decls := scope.decls[at := Func(fname, body)];
      return true, Call(fname);
    }

    method VisitArgs(args: Exprs) returns (ok: bool, r: Exprs)
      requires maxDepth >= 1 && depth <= maxDepth
      modifies this, scope
      ensures var sp := old(SplitArgs(args, depth, maxDepth, scope.next));
              && Effect(ok, sp.decls, sp.next, old(depth) + NestArgs(args) > maxDepth)
              && (ok ==> r == if site.Usable? then sp.tree else args)
      decreases args, 0
    {
      match args
      case Nil => return true, args;
      case Cons(e, rest) =>
        var e', rest';
        ok, e' := Visit(e);
        if !ok {
          return false, args;
        }
        ok, rest' := VisitArgs(rest);
        return ok, Cons(e', rest');
    }

    method VisitAlts(alts: Alts) returns (ok: bool, r: Alts)
      requires maxDepth >= 1 && depth <= maxDepth
      modifies this, scope
      ensures var sp := old(SplitAlts(alts, depth, maxDepth, scope.next));
              && Effect(ok, sp.decls, sp.next, old(depth) + NestAlts(alts) > maxDepth)
              && (ok ==> r == if site.Usable? then sp.tree else alts)
      decreases alts, 1
    {
      match alts
      case Default(v) =>
        var v';
        ok, v' := Visit(v);
        return ok, Default(v');
      case Alt(c, v, rest) =>
        var c', v', rest';
        ok, c', v' := VisitAlt(c, v, alts);
        if !ok {
          return false, alts;
        }
        ok, rest' := VisitAlts(rest);
        if site.Usable? {
          assert scope.decls == old(SplitAlts(alts, depth, maxDepth, scope.next).decls) + old(scope.decls);
        }
        return ok, Alt(c', v', rest');
    }

    /** One alternative: its condition, then its value. */
    method VisitAlt(c: Expr, v: Expr, ghost alts: Alts) returns (ok: bool, c': Expr, v': Expr)
      requires maxDepth >= 1 && depth <= maxDepth
      requires alts.Alt? && alts.cond == c && alts.value == v
      modifies this, scope
      ensures var sc := old(Split(c, depth, maxDepth, scope.next));
              var sv := old(Split(v, depth, maxDepth, sc.next));
              && Effect(ok, sv.decls + sc.decls, sv.next, old(depth) + Max(Nest(c), Nest(v)) > maxDepth)
              && (ok ==> c' == (if site.Usable? then sc.tree else c) && v' == (if site.Usable? then sv.tree else v))
      decreases alts, 0
    {
      ok, c' := Visit(c);
      if !ok {
        return false, c, v;
      }
      ok, v' := Visit(v);
    }
  }

  // ---------------------------------------------------------------- what the split guarantees

  function Ids(fs: seq<Func>): set<nat> {
    set i | 0 <= i < |fs| :: fs[i].id
  }

  /** Every body calls only functions declared before it. */
  ghost predicate DeclaredBeforeUse(fs: seq<Func>) {
    forall i :: 0 <= i < |fs| ==> Calls(fs[i].body) <= Ids(fs[..i])
  }

  ghost predicate InRange(fs: seq<Func>, lo: nat, hi: nat) {
    forall i :: 0 <= i < |fs| ==> lo <= fs[i].id < hi
  }

  ghost predicate Distinct(fs: seq<Func>) {
    forall i, j :: 0 <= i < j < |fs| ==> fs[i].id != fs[j].id
  }

  /** A list of generated functions that uses the fresh names lo..hi and stands on its own. */
  ghost predicate GoodDecls(fs: seq<Func>, lo: nat, hi: nat) {
    lo <= hi && InRange(fs, lo, hi) && Distinct(fs) && DeclaredBeforeUse(fs)
  }

  lemma IdsConcat(a: seq<Func>, b: seq<Func>)
    ensures Ids(a + b) == Ids(a) + Ids(b)
  {
    forall x | x in Ids(a) + Ids(b)
      ensures x in Ids(a + b)
    {
      if x in Ids(a) {
        var i :| 0 <= i < |a| && a[i].id == x;
        assert (a + b)[i].id == x;
      } else {
        var i :| 0 <= i < |b| && b[i].id == x;
        assert (a + b)[|a| + i].id == x;
      }
    }
  }

  /** Later declarations go in front of earlier ones. */
  lemma GoodConcat(later: seq<Func>, earlier: seq<Func>, lo: nat, mid: nat, hi: nat)
    requires GoodDecls(earlier, lo, mid) && GoodDecls(later, mid, hi)
    ensures GoodDecls(later + earlier, lo, hi)
  {
    var fs := later + earlier;
    forall i | 0 <= i < |fs|
      ensures Calls(fs[i].body) <= Ids(fs[..i])
    {
      if i < |later| {
        assert fs[..i] == later[..i];
      } else {
        assert fs[..i] == later + earlier[..i - |later|];
        IdsConcat(later, earlier[..i - |later|]);
      }
    }
  }

  /** Looking a name up is not disturbed by declarations of other names around it. */
  lemma FindAmid(id: nat, x: seq<Func>, fs: seq<Func>, y: seq<Func>)
    requires id in Ids(fs) && id !in Ids(x)
    ensures Find(id, fs) < |fs|
    ensures Find(id, x + fs + y) == |x| + Find(id, fs)
  {
    var j :| 0 <= j < |fs| && fs[j].id == id;
    var k := Find(id, fs);
    var all := x + fs + y;
    assert all[|x| + k] == fs[k];
    forall i | 0 <= i < |x| + k
      ensures all[i].id != id
    {
      if i < |x| {
        assert all[i] == x[i] && x[i].id in Ids(x);
      } else {
        assert all[i] == fs[i - |x|];
      }
    }
  }

  /** Nor is the value of a tree whose calls are all declared in fs. */
  lemma {:induction false} EvalAmid(e: Expr, s: Store, m: Meaning, x: seq<Func>, fs: seq<Func>, y: seq<Func>)
    requires Calls(e) <= Ids(fs) && DeclaredBeforeUse(fs) && Ids(x) !! Ids(fs)
    ensures Eval(e, s, m, x + fs + y) == Eval(e, s, m, fs)
    decreases |fs|, e
  {
    match e
    case Leaf(_) =>
    case Op(_, args) => EvalAmidArgs(args, s, m, x, fs, y);
    case When(alts) => EvalAmidAlts(alts, s, m, x, fs, y);
    case Static(e1) => EvalAmid(e1, s, m, x, fs, y);
    case Call(id) =>
      FindAmid(id, x, fs, y);
      var i := Find(id, fs);
      var all := x + fs + y;
      assert all[|x| + i] == fs[i];
      assert all[..|x| + i] == x + fs[..i] + [];
      PrefixDeclared(fs, i);
      EvalAmid(fs[i].body, s, m, x, fs[..i], []);
  }

  lemma PrefixDeclared(fs: seq<Func>, i: nat)
    requires DeclaredBeforeUse(fs) && i <= |fs|
    ensures DeclaredBeforeUse(fs[..i]) && Ids(fs[..i]) <= Ids(fs)
  {
    forall j | 0 <= j < i
      ensures Calls(fs[..i][j].body) <= Ids(fs[..i][..j])
    {
      assert fs[..i][..j] == fs[..j];
    }
    assert fs == fs[..i] + fs[i..];
    IdsConcat(fs[..i], fs[i..]);
  }

  lemma {:induction false} EvalAmidArgs(args: Exprs, s: Store, m: Meaning, x: seq<Func>, fs: seq<Func>, y: seq<Func>)
    requires CallsArgs(args) <= Ids(fs) && DeclaredBeforeUse(fs) && Ids(x) !! Ids(fs)
    ensures EvalArgs(args, s, m, x + fs + y) == EvalArgs(args, s, m, fs)
    decreases |fs|, args
  {
    if args.Cons? {
      EvalAmid(args.head, s, m, x, fs, y);
      EvalAmidArgs(args.tail, s, m, x, fs, y);
    }
  }

  lemma {:induction false} EvalAmidAlts(alts: Alts, s: Store, m: Meaning, x: seq<Func>, fs: seq<Func>, y: seq<Func>)
    requires CallsAlts(alts) <= Ids(fs) && DeclaredBeforeUse(fs) && Ids(x) !! Ids(fs)
    ensures EvalAlts(alts, s, m, x + fs + y) == EvalAlts(alts, s, m, fs)
    decreases |fs|, alts
  {
    EvalAmid(alts.value, s, m, x, fs, y);
    if alts.Alt? {
      EvalAmid(alts.cond, s, m, x, fs, y);
      EvalAmidAlts(alts.rest, s, m, x, fs, y);
    }
  }

  /** The new function follows those its own body needed. */
  lemma GoodAppend(fs: seq<Func>, id: nat, body: Expr, hi: nat)
    requires GoodDecls(fs, id + 1, hi) && Calls(body) <= Ids(fs)
    ensures GoodDecls(fs + [Func(id, body)], id, hi)
    ensures Ids(fs + [Func(id, body)]) == Ids(fs) + {id}
  {
    var all := fs + [Func(id, body)];
    IdsConcat(fs, [Func(id, body)]);
    assert [Func(id, body)][0].id == id;
    assert Ids([Func(id, body)]) == {id};
    forall i | 0 <= i < |all|
      ensures Calls(all[i].body) <= Ids(all[..i])
    {
      assert all[..i] == fs[..i];
      assert i == |fs| ==> fs[..i] == fs;
    }
  }

  /**
   The declarations a split adds stand on their own: their names are fresh and distinct, every
   function is declared before the functions and the tree that call it, so no call is circular.
   */
  lemma {:induction false} SplitDeclaresBeforeUse(e: Expr, depth: nat, maxDepth: nat, next: nat)
    requires maxDepth >= 1 && Calls(e) == {}
    ensures var r := Split(e, depth, maxDepth, next);
            GoodDecls(r.decls, next, r.next) && Calls(r.tree) <= Ids(r.decls)
    decreases e, if depth < maxDepth then 0 else 1
  {
    match e
    case Leaf(_) =>
    case Op(_, args) => SplitArgsDeclares(args, depth, maxDepth, next);
    case When(alts) =>
      if depth < maxDepth {
        SplitAltsDeclares(alts, depth + 1, maxDepth, next);
      } else {
        SplitDeclaresBeforeUse(e, 0, maxDepth, next + 1);
        var r := Split(e, 0, maxDepth, next + 1);
        GoodAppend(r.decls, next, r.tree, r.next);
      }
    case Static(_) =>
  }

  lemma {:induction false} SplitArgsDeclares(args: Exprs, depth: nat, maxDepth: nat, next: nat)
    requires maxDepth >= 1 && CallsArgs(args) == {}
    ensures var r := SplitArgs(args, depth, maxDepth, next);
            GoodDecls(r.decls, next, r.next) && CallsArgs(r.tree) <= Ids(r.decls)
    decreases args, 0
  {
    if args.Cons? {
      SplitDeclaresBeforeUse(args.head, depth, maxDepth, next);
      var r1 := Split(args.head, depth, maxDepth, next);
      SplitArgsDeclares(args.tail, depth, maxDepth, r1.next);
      var r2 := SplitArgs(args.tail, depth, maxDepth, r1.next);
      GoodConcat(r2.decls, r1.decls, next, r1.next, r2.next);
      IdsConcat(r2.decls, r1.decls);
    }
  }

  lemma {:induction false} SplitAltsDeclares(alts: Alts, depth: nat, maxDepth: nat, next: nat)
    requires maxDepth >= 1 && CallsAlts(alts) == {}
    ensures var r := SplitAlts(alts, depth, maxDepth, next);
            GoodDecls(r.decls, next, r.next) && CallsAlts(r.tree) <= Ids(r.decls)
    decreases alts, 0
  {
    match alts
    case Default(v) => SplitDeclaresBeforeUse(v, depth, maxDepth, next);
    case Alt(c, v, rest) =>
      SplitDeclaresBeforeUse(c, depth, maxDepth, next);
      var r1 := Split(c, depth, maxDepth, next);
      SplitDeclaresBeforeUse(v, depth, maxDepth, r1.next);
      var r2 := Split(v, depth, maxDepth, r1.next);
      SplitAltsDeclares(rest, depth, maxDepth, r2.next);
      var r3 := SplitAlts(rest, depth, maxDepth, r2.next);
      GoodConcat(r2.decls, r1.decls, next, r1.next, r2.next);
      GoodConcat(r3.decls, r2.decls + r1.decls, next, r2.next, r3.next);
      IdsConcat(r2.decls, r1.decls);
      IdsConcat(r3.decls, r2.decls + r1.decls);
  }

  lemma RangesDisjoint(a: seq<Func>, b: seq<Func>, lo: nat, mid: nat, hi: nat)
    requires InRange(a, mid, hi) && InRange(b, lo, mid)
    ensures Ids(a) !! Ids(b)
  {
  }

  /**
   The split keeps the value of the tree in every store and for every meaning of the operators,
   whatever the enclosing scope already declares.
   */
  lemma {:induction false} SplitKeepsValue(e: Expr, depth: nat, maxDepth: nat, next: nat, s: Store, m: Meaning,
                                           scope: seq<Func>)
    requires maxDepth >= 1 && Calls(e) == {}
    ensures var r := Split(e, depth, maxDepth, next);
            Eval(r.tree, s, m, r.decls + scope) == Eval(e, s, m, [])
  {
    SplitKeepsOwnValue(e, depth, maxDepth, next, s, m);
    SplitDeclaresBeforeUse(e, depth, maxDepth, next);
    var r := Split(e, depth, maxDepth, next);
    EvalAmid(r.tree, s, m, [], r.decls, scope);
    assert [] + r.decls + scope == r.decls + scope;
  }

  lemma {:induction false} SplitKeepsOwnValue(e: Expr, depth: nat, maxDepth: nat, next: nat, s: Store, m: Meaning)
    requires maxDepth >= 1 && Calls(e) == {}
    ensures var r := Split(e, depth, maxDepth, next);
            Eval(r.tree, s, m, r.decls) == Eval(e, s, m, [])
    decreases e, if depth < maxDepth then 0 else 1
  {
    match e
    case Leaf(_) =>
    case Op(_, args) => SplitArgsKeeps(args, depth, maxDepth, next, s, m);
    case When(alts) =>
      if depth < maxDepth {
        SplitAltsKeeps(alts, depth + 1, maxDepth, next, s, m);
      } else {
        SplitKeepsOwnValue(e, 0, maxDepth, next + 1, s, m);
        SplitDeclaresBeforeUse(e, 0, maxDepth, next + 1);
        var r := Split(e, 0, maxDepth, next + 1);
        var all := r.decls + [Func(next, r.tree)];
        assert next !in Ids(r.decls);
        assert all[|r.decls|].id == next;
        assert Find(next, all) == |r.decls|;
        assert all[..|r.decls|] == r.decls;
      }
    case Static(_) =>
  }

  lemma {:induction false} SplitArgsKeeps(args: Exprs, depth: nat, maxDepth: nat, next: nat, s: Store, m: Meaning)
    requires maxDepth >= 1 && CallsArgs(args) == {}
    ensures var r := SplitArgs(args, depth, maxDepth, next);
            EvalArgs(r.tree, s, m, r.decls) == EvalArgs(args, s, m, [])
    decreases args, 0
  {
    if args.Cons? {
      var r1 := Split(args.head, depth, maxDepth, next);
      var r2 := SplitArgs(args.tail, depth, maxDepth, r1.next);
      SplitKeepsOwnValue(args.head, depth, maxDepth, next, s, m);
      SplitArgsKeeps(args.tail, depth, maxDepth, r1.next, s, m);
      SplitDeclaresBeforeUse(args.head, depth, maxDepth, next);
      SplitArgsDeclares(args.tail, depth, maxDepth, r1.next);
      RangesDisjoint(r2.decls, r1.decls, next, r1.next, r2.next);
      EvalAmid(r1.tree, s, m, r2.decls, r1.decls, []);
      EvalAmidArgs(r2.tree, s, m, [], r2.decls, r1.decls);
      assert r2.decls + r1.decls + [] == r2.decls + r1.decls == [] + r2.decls + r1.decls;
    }
  }

  lemma {:induction false} SplitAltsKeeps(alts: Alts, depth: nat, maxDepth: nat, next: nat, s: Store, m: Meaning)
    requires maxDepth >= 1 && CallsAlts(alts) == {}
    ensures var r := SplitAlts(alts, depth, maxDepth, next);
            EvalAlts(r.tree, s, m, r.decls) == EvalAlts(alts, s, m, [])
    decreases alts, 0
  {
    match alts
    case Default(v) => SplitKeepsOwnValue(v, depth, maxDepth, next, s, m);
    case Alt(c, v, rest) =>
      var r1 := Split(c, depth, maxDepth, next);
      var r2 := Split(v, depth, maxDepth, r1.next);
      var r3 := SplitAlts(rest, depth, maxDepth, r2.next);
      SplitKeepsOwnValue(c, depth, maxDepth, next, s, m);
      SplitKeepsOwnValue(v, depth, maxDepth, r1.next, s, m);
      SplitAltsKeeps(rest, depth, maxDepth, r2.next, s, m);
      SplitDeclaresBeforeUse(c, depth, maxDepth, next);
      SplitDeclaresBeforeUse(v, depth, maxDepth, r1.next);
      SplitAltsDeclares(rest, depth, maxDepth, r2.next);
      AltKeeps(r1, r2, r3, next, s, m);
  }

  lemma AltKeeps(r1: Splitting<Expr>, r2: Splitting<Expr>, r3: Splitting<Alts>, next: nat, s: Store, m: Meaning)
    requires GoodDecls(r1.decls, next, r1.next) && Calls(r1.tree) <= Ids(r1.decls)
    requires GoodDecls(r2.decls, r1.next, r2.next) && Calls(r2.tree) <= Ids(r2.decls)
    requires GoodDecls(r3.decls, r2.next, r3.next) && CallsAlts(r3.tree) <= Ids(r3.decls)
    ensures var all := r3.decls + (r2.decls + r1.decls);
            && Eval(r1.tree, s, m, all) == Eval(r1.tree, s, m, r1.decls)
            && Eval(r2.tree, s, m, all) == Eval(r2.tree, s, m, r2.decls)
            && EvalAlts(r3.tree, s, m, all) == EvalAlts(r3.tree, s, m, r3.decls)
  {
    var all := r3.decls + (r2.decls + r1.decls);
    RangesDisjoint(r3.decls, r2.decls, r1.next, r2.next, r3.next);
    GoodConcat(r3.decls, r2.decls, r1.next, r2.next, r3.next);
    RangesDisjoint(r3.decls + r2.decls, r1.decls, next, r1.next, r3.next);
    EvalAmid(r1.tree, s, m, r3.decls + r2.decls, r1.decls, []);
    EvalAmid(r2.tree, s, m, r3.decls, r2.decls, r1.decls);
    EvalAmidAlts(r3.tree, s, m, [], r3.decls, r2.decls + r1.decls);
    assert r3.decls + r2.decls + r1.decls == all;
    assert r3.decls + r2.decls + r1.decls + [] == all;
    assert [] + r3.decls + (r2.decls + r1.decls) == all;
  }

  ghost predicate BodiesWithin(fs: seq<Func>, maxDepth: nat) {
    forall i :: 0 <= i < |fs| ==> Nest(fs[i].body) <= maxDepth
  }

  /** Afterwards no tree, main or generated, nests its Whens deeper than the bound. */
  lemma {:induction false} SplitBounds(e: Expr, depth: nat, maxDepth: nat, next: nat)
    requires maxDepth >= 1 && depth <= maxDepth
    ensures var r := Split(e, depth, maxDepth, next);
            depth + Nest(r.tree) <= maxDepth && BodiesWithin(r.decls, maxDepth)
    decreases e, if depth < maxDepth then 0 else 1
  {
    match e
    case Leaf(_) =>
    case Op(_, args) => SplitArgsBounds(args, depth, maxDepth, next);
    case When(alts) =>
      if depth < maxDepth {
        SplitAltsBounds(alts, depth + 1, maxDepth, next);
      } else {
        SplitBounds(e, 0, maxDepth, next + 1);
      }
    case Static(_) =>
    case Call(_) =>
  }

  lemma {:induction false} SplitArgsBounds(args: Exprs, depth: nat, maxDepth: nat, next: nat)
    requires maxDepth >= 1 && depth <= maxDepth
    ensures var r := SplitArgs(args, depth, maxDepth, next);
            depth + NestArgs(r.tree) <= maxDepth && BodiesWithin(r.decls, maxDepth)
    decreases args, 0
  {
    if args.Cons? {
      SplitBounds(args.head, depth, maxDepth, next);
      SplitArgsBounds(args.tail, depth, maxDepth, Split(args.head, depth, maxDepth, next).next);
    }
  }

  lemma {:induction false} SplitAltsBounds(alts: Alts, depth: nat, maxDepth: nat, next: nat)
    requires maxDepth >= 1 && depth <= maxDepth
    ensures var r := SplitAlts(alts, depth, maxDepth, next);
            depth + NestAlts(r.tree) <= maxDepth && BodiesWithin(r.decls, maxDepth)
    decreases alts, 0
  {
    match alts
    case Default(v) => SplitBounds(v, depth, maxDepth, next);
    case Alt(c, v, rest) =>
      SplitBounds(c, depth, maxDepth, next);
      var r1 := Split(c, depth, maxDepth, next);
      SplitBounds(v, depth, maxDepth, r1.next);
      var r2 := Split(v, depth, maxDepth, r1.next);
      SplitAltsBounds(rest, depth, maxDepth, r2.next);
  }

  /** The split acts exactly on the trees that nest deeper than the bound, and settles in one pass. */
  lemma {:induction false} SplitActsWhenNeeded(e: Expr, depth: nat, maxDepth: nat, next: nat)
    requires maxDepth >= 1 && depth <= maxDepth
    ensures var r := Split(e, depth, maxDepth, next);
            && (r.decls != [] <==> depth + Nest(e) > maxDepth)
            && (r.decls == [] ==> r == Splitting(e, [], next))
    decreases e, if depth < maxDepth then 0 else 1
  {
    match e
    case Leaf(_) =>
    case Op(_, args) => SplitArgsActs(args, depth, maxDepth, next);
    case When(alts) =>
      if depth < maxDepth {
        SplitAltsActs(alts, depth + 1, maxDepth, next);
      }
    case Static(_) =>
    case Call(_) =>
  }

  lemma {:induction false} SplitArgsActs(args: Exprs, depth: nat, maxDepth: nat, next: nat)
    requires maxDepth >= 1 && depth <= maxDepth
    ensures var r := SplitArgs(args, depth, maxDepth, next);
            && (r.decls != [] <==> depth + NestArgs(args) > maxDepth)
            && (r.decls == [] ==> r == Splitting(args, [], next))
    decreases args, 0
  {
    if args.Cons? {
      SplitActsWhenNeeded(args.head, depth, maxDepth, next);
      SplitArgsActs(args.tail, depth, maxDepth, Split(args.head, depth, maxDepth, next).next);
    }
  }

  lemma {:induction false} SplitAltsActs(alts: Alts, depth: nat, maxDepth: nat, next: nat)
    requires maxDepth >= 1 && depth <= maxDepth
    ensures var r := SplitAlts(alts, depth, maxDepth, next);
            && (r.decls != [] <==> depth + NestAlts(alts) > maxDepth)
            && (r.decls == [] ==> r == Splitting(alts, [], next))
    decreases alts, 0
  {
    match alts
    case Default(v) => SplitActsWhenNeeded(v, depth, maxDepth, next);
    case Alt(c, v, rest) =>
      SplitActsWhenNeeded(c, depth, maxDepth, next);
      var r1 := Split(c, depth, maxDepth, next);
      SplitActsWhenNeeded(v, depth, maxDepth, r1.next);
      var r2 := Split(v, depth, maxDepth, r1.next);
      SplitAltsActs(rest, depth, maxDepth, r2.next);
  }

  /** Splitting the result again, or any generated body, changes nothing. */
  lemma SplitIsFinal(e: Expr, maxDepth: nat, next: nat, again: nat)
    requires maxDepth >= 1
    ensures var r := Split(e, 0, maxDepth, next);
            && Split(r.tree, 0, maxDepth, again) == Splitting(r.tree, [], again)
            && forall i :: 0 <= i < |r.decls| ==>
                 Split(r.decls[i].body, 0, maxDepth, again) == Splitting(r.decls[i].body, [], again)
  {
    var r := Split(e, 0, maxDepth, next);
    SplitBounds(e, 0, maxDepth, next);
    SplitActsWhenNeeded(r.tree, 0, maxDepth, again);
    forall i | 0 <= i < |r.decls|
      ensures Split(r.decls[i].body, 0, maxDepth, again) == Splitting(r.decls[i].body, [], again)
    {
      SplitActsWhenNeeded(r.decls[i].body, 0, maxDepth, again);
    }
  }
}
