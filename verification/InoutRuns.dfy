/**
 The nets of a design with driver regs in place of the processes' drivers of its inout ports.

 In VHDL each process has a driver, from elaboration, for every bit of the longest static prefix of
 each of its targets (section 14.7.2 of IEEE 1076-2008), holding the port's initial value until it
 is written; PrefixDrivers gives those drivers and RunKeepsPrefix shows that runs write nothing
 outside them. The pass puts one reg in their place. AgreeIffLastShows says exactly for which designs
 the nets of both agree forever. NetsAgreeIff says from which starts they do if no bit has two
 processes driving it, AgreeByPrefix says it in terms of the port's initial value and the reg's
 declared one, and SharedParts shows that a bit with two may part.
 */
module InoutRuns {
  import opened InoutPorts
  import opened Logic
  import Resolution

  // ---------------------------------------------------------------- simulation

  type Values = map<Name, Bits>

  /** One process's driver of a port: the bits it drives, with what it drives them to. */
  type Driver = map<int, Logic>

  /** Values of nets and signals, and each process's driver of each inout port. */
  datatype State = State(vals: Values, drivers: map<Name, seq<Driver>>)

  /** Values that other drivers put on each bit of each net. */
  type Others = map<Name, seq<Bits>>

  /** The other drivers react to the nets of the ports. */
  type Environment = (nat, Values) -> Others

  datatype Write = Write(n: Name, process: nat, low: nat, bits: Bits)

  function Get(vals: Values, n: Name): Bits {
    if n in vals then vals[n] else []
  }

  /** The unsigned number a vector of 0s and 1s stands for, or -1. */
  function ToIndex(v: Bits): int {
    if |v| == 0 then 0
    else
      var high := ToIndex(v[..|v| - 1]);
      var last := v[|v| - 1];
      if high < 0 || Unknown(last) then -1 else 2 * high + (if last.L1? then 1 else 0)
  }

  function Eval(e: Expr, vals: Values): Bits {
    match e
    case Ref(n) => Get(vals, n)
    case Lit(v) => v
    case Select(e1, i) =>
      var v := Eval(e1, vals);
      var k := ToIndex(Eval(i, vals));
      if 0 <= k < |v| then [v[k]] else [X]
    case Bnot(e1) =>
      var v := Eval(e1, vals);
      seq(|v|, k requires 0 <= k < |v| => Not(v[k]))
    case Band(l, r) =>
      var v, w := Eval(l, vals), Eval(r, vals);
      if |v| != |w| then [] else seq(|v|, k requires 0 <= k < |v| == |w| => And(v[k], w[k]))
  }

  /** First bit and width of a target, or width -1 when an index is out of range or unknown. */
  datatype Extent = Extent(low: nat, width: int)

  function ExtentOf(t: Target, vals: Values): (x: Extent)
    ensures x.width >= 0 ==> x.low + x.width <= |Get(vals, TerminalPrefix(t))|
  {
    match t
    case Whole(n) => Extent(0, |Get(vals, n)|)
    case BitOf(t1, i) =>
      var x := ExtentOf(t1, vals);
      var k := ToIndex(Eval(i, vals));
      if 0 <= k < x.width then Extent(x.low + k, 1) else Extent(0, -1)
    case PartOf(t1, high, low) =>
      var x := ExtentOf(t1, vals);
      if 0 <= low <= high < x.width then Extent(x.low + low, high - low + 1) else Extent(0, -1)
  }

  /** What a procedural assignment writes; one not reached, mismatched or out of range writes nothing. */
  function WriteOf(a: Assign, vals: Values): seq<Write> {
    var x := ExtentOf(a.target, vals);
    var v := Eval(a.rhs, vals);
    if a.procedural && Eval(a.guard, vals) == [L1] && x.width >= 0 && |v| == x.width
    then [Write(TerminalPrefix(a.target), a.process, x.low, v)]
    else []
  }

  function WritesOf(assigns: seq<Assign>, vals: Values): seq<Write> {
    if |assigns| == 0 then [] else WriteOf(assigns[0], vals) + WritesOf(assigns[1..], vals)
  }

  /** The write goes to a signal of that name, if it fits. */
  function Put(w: Write, n: Name, v: Bits): (r: Bits)
    ensures |r| == |v|
  {
    if w.n == n && w.low + |w.bits| <= |v| then v[..w.low] + w.bits + v[w.low + |w.bits|..] else v
  }

  function ToSignal(ws: seq<Write>, n: Name, v: Bits): (r: Bits)
    ensures |r| == |v|
  {
    if |ws| == 0 then v else ToSignal(ws[1..], n, Put(ws[0], n, v))
  }

  /** The bits of a write, each at its place. */
  function Placed(low: nat, bits: Bits): (d: Driver)
    ensures forall k :: k in d <==> low <= k < low + |bits|
    ensures forall k :: k in d ==> d[k] == bits[k - low]
  {
    if |bits| == 0 then map[]
    else
      var last := |bits| - 1;
      Placed(low, bits[..last])[low + last := bits[last]]
  }

  /** The write goes to the driver its process has for that name, if it fits. */
  function PutBits(w: Write, n: Name, q: nat, width: nat, d: Driver): Driver {
    if w.n == n && w.process == q && w.low + |w.bits| <= width then d + Placed(w.low, w.bits) else d
  }

  function ToDriver(ws: seq<Write>, n: Name, q: nat, width: nat, d: Driver): Driver {
    if |ws| == 0 then d else ToDriver(ws[1..], n, q, width, PutBits(ws[0], n, q, width, d))
  }

  function ToDrivers(ws: seq<Write>, n: Name, width: nat, ds: seq<Driver>): (r: seq<Driver>)
    ensures |r| == |ds|
  {
    seq(|ds|, q requires 0 <= q < |ds| => ToDriver(ws, n, q, width, ds[q]))
  }

  /** What the processes drive bit k to, one value for each that drives it. */
  function DriverBits(ds: seq<Driver>, k: nat): Bits {
    if |ds| == 0 then [] else (if k in ds[0] then [ds[0][k]] else []) + DriverBits(ds[1..], k)
  }

  /** Drivers of one bit of a net: the processes' own, the continuous assignments, the others. */
  function OwnBits(drivers: map<Name, seq<Driver>>, n: Name, k: nat): Bits {
    if n in drivers then DriverBits(drivers[n], k) else []
  }

  function LinkBits(c: Continuous, signals: Values, n: Name, k: nat): Bits {
    if c.port == n && k < |Get(signals, c.driver)| then [Get(signals, c.driver)[k]] else []
  }

  function ContinuousBits(cs: seq<Continuous>, signals: Values, n: Name, k: nat): Bits {
    if |cs| == 0 then [] else LinkBits(cs[0], signals, n, k) + ContinuousBits(cs[1..], signals, n, k)
  }

  function OtherBits(others: Others, n: Name, k: nat): Bits {
    if n in others && k < |others[n]| then others[n][k] else []
  }

  /** An in or inout port is a net, which others drive as well. */
  predicate IsNet(ports: seq<Port>, n: Name) {
    exists k :: 0 <= k < |ports| && ports[k].name == n && !ports[k].dir.Out?
  }

  function DriversAfter(ws: seq<Write>, st: State): map<Name, seq<Driver>> {
    map n | n in st.drivers :: ToDrivers(ws, n, |Get(st.vals, n)|, st.drivers[n])
  }

  function SignalsAfter(ws: seq<Write>, ports: seq<Port>, st: State): Values {
    map n | n in st.vals :: if IsNet(ports, n) then st.vals[n] else ToSignal(ws, n, st.vals[n])
  }

  function NetBit(cs: seq<Continuous>, drivers: map<Name, seq<Driver>>, signals: Values, others: Others, n: Name,
                  k: nat): Logic {
    Resolution.Resolve(OwnBits(drivers, n, k) + ContinuousBits(cs, signals, n, k) + OtherBits(others, n, k))
  }

  function Settled(cs: seq<Continuous>, ports: seq<Port>, drivers: map<Name, seq<Driver>>, signals: Values,
                   others: Others): Values {
    map n | n in signals ::
      if IsNet(ports, n) then seq(|signals[n]|, k requires 0 <= k => NetBit(cs, drivers, signals, others, n, k))
      else signals[n]
  }

  /** One settled step: the processes run, the signals take their values, the nets resolve. */
  function Step(c: Contents, ports: seq<Port>, st: State, others: Others): State {
    var ws := WritesOf(c.assigns, st.vals);
    var drivers := DriversAfter(ws, st);
    State(Settled(c.continuous, ports, drivers, SignalsAfter(ws, ports, st), others), drivers)
  }

  /** What the surroundings see: the nets of the ports. */
  function Nets(ports: seq<Port>, vals: Values): Values {
    map n | n in vals && IsNet(ports, n) :: vals[n]
  }

  /** Step k of a run, the other drivers reacting to the nets they see. */
  function Reacting(c: Contents, ports: seq<Port>, env: Environment, k: nat, s: State): State {
    Step(c, ports, s, env(k, Nets(ports, s.vals)))
  }

  function Iterated(step: (nat, State) -> State, st: State, k: nat): State {
    if k == 0 then st else step(k - 1, Iterated(step, st, k - 1))
  }

  function Run(c: Contents, ports: seq<Port>, env: Environment, st: State, k: nat): State {
    Iterated((i: nat, s: State) => Reacting(c, ports, env, i, s), st, k)
  }

  // ---------------------------------------------------------------- which process drives a bit

  /** The longest static prefix of a target, and whether it is all of it. */
  datatype Prefix = Prefix(extent: Extent, whole: bool)

  function StaticPrefix(t: Target, width: nat): (x: Prefix)
    ensures x.extent.width >= 0 && x.extent.low + x.extent.width <= width
  {
    match t
    case Whole(_) => Prefix(Extent(0, width), true)
    case BitOf(t1, i) =>
      var x := StaticPrefix(t1, width);
      if x.whole && i.Lit? && 0 <= ToIndex(i.v) < x.extent.width
        then Prefix(Extent(x.extent.low + ToIndex(i.v), 1), true)
      else x.(whole := false)
    case PartOf(t1, high, low) =>
      var x := StaticPrefix(t1, width);
      if x.whole && 0 <= low <= high < x.extent.width then Prefix(Extent(x.extent.low + low, high - low + 1), true)
      else x.(whole := false)
  }

  predicate InExtent(x: Extent, k: int) {
    x.low <= k < x.low + x.width
  }

  /** What is written lies within the longest static prefix. */
  lemma {:induction false} WithinPrefix(t: Target, vals: Values, k: int)
    requires ExtentOf(t, vals).width >= 0 && InExtent(ExtentOf(t, vals), k)
    ensures InExtent(StaticPrefix(t, |Get(vals, TerminalPrefix(t))|).extent, k)
    ensures StaticPrefix(t, |Get(vals, TerminalPrefix(t))|).whole ==>
              ExtentOf(t, vals) == StaticPrefix(t, |Get(vals, TerminalPrefix(t))|).extent
  {
    match t
    case Whole(_) =>
    case BitOf(t1, i) => WithinPrefix(t1, vals, k);
    case PartOf(t1, _, _) => WithinPrefix(t1, vals, k);
  }

  /** Process q drives bit k of the port: it is in the longest static prefix of one of its targets. */
  predicate InPrefixOf(assigns: seq<Assign>, p: Name, q: nat, width: nat, k: int) {
    exists j :: 0 <= j < |assigns| && Drives(assigns[j], p) && assigns[j].process == q
      && InExtent(StaticPrefix(assigns[j].target, width).extent, k)
  }

  /** The write reaches bit k of the port. */
  predicate Covers(w: Write, p: Name, width: nat, k: int) {
    w.n == p && w.low <= k < w.low + |w.bits| <= width
  }

  predicate WritesBit(ws: seq<Write>, p: Name, width: nat, k: int) {
    exists j :: 0 <= j < |ws| && Covers(ws[j], p, width, k)
  }

  predicate WrittenBy(ws: seq<Write>, p: Name, q: nat, width: nat, k: int) {
    exists j :: 0 <= j < |ws| && Covers(ws[j], p, width, k) && ws[j].process == q
  }

  predicate OnlyFrom(ws: seq<Write>, p: Name, q: nat, width: nat, k: int) {
    forall j :: 0 <= j < |ws| && Covers(ws[j], p, width, k) ==> ws[j].process == q
  }

  /** Bit k of the port is process q's alone. */
  ghost predicate Owns(assigns: seq<Assign>, p: Name, ds: seq<Driver>, width: nat, k: nat, q: nat) {
    && q < |ds|
    && (forall r: nat :: InPrefixOf(assigns, p, r, width, k) ==> r == q)
    && (forall r :: 0 <= r < |ds| && r != q ==> k !in ds[r])
  }

  ghost predicate HasOwner(assigns: seq<Assign>, p: Name, ds: seq<Driver>, width: nat, k: nat) {
    exists q: nat :: Owns(assigns, p, ds, width, k, q)
  }

  /** No bit of the port has two processes driving it. */
  ghost predicate Owned(assigns: seq<Assign>, p: Name, ds: seq<Driver>, width: nat) {
    forall k: nat :: k < width ==> HasOwner(assigns, p, ds, width, k)
  }

  lemma {:induction false} WritesWithinPrefixes(assigns: seq<Assign>, vals: Values, p: Name, j: nat, k: int)
    requires j < |WritesOf(assigns, vals)| && Covers(WritesOf(assigns, vals)[j], p, |Get(vals, p)|, k)
    ensures InPrefixOf(assigns, p, WritesOf(assigns, vals)[j].process, |Get(vals, p)|, k)
  {
    var here := WriteOf(assigns[0], vals);
    if j < |here| {
      WithinPrefix(assigns[0].target, vals, k);
      assert Drives(assigns[0], p);
    } else {
      WritesWithinPrefixes(assigns[1..], vals, p, j - |here|, k);
      var q := WritesOf(assigns, vals)[j].process;
      var i :| 0 <= i < |assigns[1..]| && Drives(assigns[1..][i], p) && assigns[1..][i].process == q
               && InExtent(StaticPrefix(assigns[1..][i].target, |Get(vals, p)|).extent, k);
      assert assigns[i + 1] == assigns[1..][i];
    }
  }

  lemma OwnerWrites(assigns: seq<Assign>, vals: Values, p: Name, ds: seq<Driver>, k: nat, q: nat)
    requires Owns(assigns, p, ds, |Get(vals, p)|, k, q)
    ensures OnlyFrom(WritesOf(assigns, vals), p, q, |Get(vals, p)|, k)
  {
    var ws := WritesOf(assigns, vals);
    forall j | 0 <= j < |ws| && Covers(ws[j], p, |Get(vals, p)|, k)
      ensures ws[j].process == q
    {
      WritesWithinPrefixes(assigns, vals, p, j, k);
    }
  }

  lemma Split(ws: seq<Write>, p: Name, q: nat, width: nat, k: int)
    requires |ws| > 0
    ensures WritesBit(ws, p, width, k) <==> Covers(ws[0], p, width, k) || WritesBit(ws[1..], p, width, k)
    ensures WrittenBy(ws, p, q, width, k) <==>
            (Covers(ws[0], p, width, k) && ws[0].process == q) || WrittenBy(ws[1..], p, q, width, k)
    ensures OnlyFrom(ws, p, q, width, k) <==>
            (Covers(ws[0], p, width, k) ==> ws[0].process == q) && OnlyFrom(ws[1..], p, q, width, k)
  {
    assert forall j :: 0 < j < |ws| ==> ws[j] == ws[1..][j - 1];
    assert forall j :: 0 <= j < |ws[1..]| ==> ws[1..][j] == ws[j + 1];
  }

  lemma {:induction false} DriverGrowsBy(ws: seq<Write>, p: Name, q: nat, width: nat, d: Driver, k: int)
    ensures k in ToDriver(ws, p, q, width, d) <==> k in d || WrittenBy(ws, p, q, width, k)
  {
    if |ws| != 0 {
      DriverGrowsBy(ws[1..], p, q, width, PutBits(ws[0], p, q, width, d), k);
      Split(ws, p, q, width, k);
    }
  }

  /** A run leaves a bit to its process. */
  lemma OwnerStays(assigns: seq<Assign>, vals: Values, p: Name, ds: seq<Driver>, k: nat, q: nat)
    requires Owns(assigns, p, ds, |Get(vals, p)|, k, q)
    ensures Owns(assigns, p, ToDrivers(WritesOf(assigns, vals), p, |Get(vals, p)|, ds), |Get(vals, p)|, k, q)
  {
    var ws := WritesOf(assigns, vals);
    OwnerWrites(assigns, vals, p, ds, k, q);
    forall r: nat | r < |ds| && r != q
      ensures k !in ToDriver(ws, p, r, |Get(vals, p)|, ds[r])
    {
      DriverGrowsBy(ws, p, r, |Get(vals, p)|, ds[r], k);
    }
  }

  lemma {:induction false} OwnedStays(assigns: seq<Assign>, vals: Values, p: Name, ds: seq<Driver>)
    requires Owned(assigns, p, ds, |Get(vals, p)|)
    ensures Owned(assigns, p, ToDrivers(WritesOf(assigns, vals), p, |Get(vals, p)|, ds), |Get(vals, p)|)
  {
    forall k: nat | k < |Get(vals, p)|
      ensures HasOwner(assigns, p, ToDrivers(WritesOf(assigns, vals), p, |Get(vals, p)|, ds), |Get(vals, p)|, k)
    {
      assert HasOwner(assigns, p, ds, |Get(vals, p)|, k);
      var q: nat :| Owns(assigns, p, ds, |Get(vals, p)|, k, q);
      OwnerStays(assigns, vals, p, ds, k, q);
    }
  }

  /** What one driver shows on bit k. */
  function Shown(d: Driver, k: int): Logic {
    if k in d then d[k] else Z
  }

  lemma {:induction false} NoneShows(ds: seq<Driver>, k: nat)
    requires forall r :: 0 <= r < |ds| ==> k !in ds[r]
    ensures DriverBits(ds, k) == []
  {
    if |ds| != 0 {
      NoneShows(ds[1..], k);
    }
  }

  /** A bit with one driver shows it. */
  lemma {:induction false} OwnerShows(ds: seq<Driver>, k: nat, q: nat)
    requires q < |ds| && forall r :: 0 <= r < |ds| && r != q ==> k !in ds[r]
    ensures Resolution.Resolve(DriverBits(ds, k)) == Shown(ds[q], k)
  {
    if q == 0 {
      NoneShows(ds[1..], k);
    } else {
      OwnerShows(ds[1..], k, q - 1);
      assert [] + DriverBits(ds[1..], k) == DriverBits(ds[1..], k);
    }
  }

  // ---------------------------------------------------------------- the lowered design simulates the original

  /** The reg that puts on the net what the drivers do together: high impedance where there is none. */
  function RegOf(ds: seq<Driver>, width: nat): Bits {
    seq(width, k requires 0 <= k < width => Resolution.Resolve(DriverBits(ds, k)))
  }

  predicate Mentions(e: Expr, n: Name) {
    match e
    case Ref(m) => m == n
    case Lit(_) => false
    case Select(e1, i) => Mentions(e1, n) || Mentions(i, n)
    case Bnot(e1) => Mentions(e1, n)
    case Band(l, r) => Mentions(l, n) || Mentions(r, n)
  }

  predicate TargetMentions(t: Target, n: Name) {
    match t
    case Whole(m) => m == n
    case BitOf(t1, i) => TargetMentions(t1, n) || Mentions(i, n)
    case PartOf(t1, _, _) => TargetMentions(t1, n)
  }

  predicate UnusedIn(a: Assign, n: Name) {
    !Mentions(a.guard, n) && !Mentions(a.rhs, n) && !TargetMentions(a.target, n)
  }

  /** The name occurs nowhere in the design. */
  predicate Unused(c: Contents, n: Name) {
    && (forall k :: 0 <= k < |c.assigns| ==> UnusedIn(c.assigns[k], n))
    && (forall k :: 0 <= k < |c.continuous| ==> c.continuous[k].driver != n)
  }

  /** Every fresh name still to come is unused. */
  ghost predicate FreshAhead(c: Contents) {
    forall n: Name :: Age(n) > c.next ==> Unused(c, n)
  }

  /** Drivers that drive nothing. */
  function Released(n: nat): seq<Driver> {
    seq(n, _ => map[])
  }

  /** The two states agree, but for the port's drivers in one and the driver reg in the other. */
  ghost predicate Follows(p: Name, driver: Name, st: State, lt: State, reg: Bits) {
    && p in st.vals && p in st.drivers && driver !in st.vals && driver !in st.drivers
    && |reg| == |st.vals[p]| && lt.vals == st.vals[driver := reg]
    && lt.drivers == st.drivers[p := Released(|st.drivers[p]|)]
  }

  /** The reg puts on the net what the drivers do. */
  ghost predicate Simulates(p: Name, driver: Name, st: State, lt: State) {
    p in st.vals && p in st.drivers && Follows(p, driver, st, lt, RegOf(st.drivers[p], |st.vals[p]|))
  }

  lemma {:induction false} EvalIgnores(e: Expr, n: Name, vals: Values, v: Bits)
    requires !Mentions(e, n)
    ensures Eval(e, vals[n := v]) == Eval(e, vals)
  {
    match e
    case Ref(_) =>
    case Lit(_) =>
    case Select(e1, i) =>
      EvalIgnores(e1, n, vals, v);
      EvalIgnores(i, n, vals, v);
    case Bnot(e1) => EvalIgnores(e1, n, vals, v);
    case Band(l, r) =>
      EvalIgnores(l, n, vals, v);
      EvalIgnores(r, n, vals, v);
  }

  lemma {:induction false} ExtentIgnores(t: Target, n: Name, vals: Values, v: Bits)
    requires !TargetMentions(t, n)
    ensures ExtentOf(t, vals[n := v]) == ExtentOf(t, vals)
  {
    match t
    case Whole(_) =>
    case BitOf(t1, i) =>
      ExtentIgnores(t1, n, vals, v);
      EvalIgnores(i, n, vals, v);
    case PartOf(t1, _, _) => ExtentIgnores(t1, n, vals, v);
  }

  /** A retargeted target has the extent of the original, the reg being as wide as the port. */
  lemma {:induction false} ExtentRetargeted(t: Target, n: Name, vals: Values, v: Bits)
    requires !TargetMentions(t, n) && |v| == |Get(vals, TerminalPrefix(t))|
    ensures ExtentOf(Retarget(t, n), vals[n := v]) == ExtentOf(t, vals)
  {
    match t
    case Whole(_) =>
    case BitOf(t1, i) =>
      ExtentRetargeted(t1, n, vals, v);
      EvalIgnores(i, n, vals, v);
    case PartOf(t1, _, _) => ExtentRetargeted(t1, n, vals, v);
  }

  lemma {:induction false} PrefixMentioned(t: Target)
    ensures TargetMentions(t, TerminalPrefix(t))
  {
    match t
    case Whole(_) =>
    case BitOf(t1, _) => PrefixMentioned(t1);
    case PartOf(t1, _, _) => PrefixMentioned(t1);
  }

  function Renamed(w: Write, p: Name, driver: Name): Write {
    if w.n == p then w.(n := driver) else w
  }

  function Redirect(ws: seq<Write>, p: Name, driver: Name): seq<Write> {
    if |ws| == 0 then [] else [Renamed(ws[0], p, driver)] + Redirect(ws[1..], p, driver)
  }

  predicate NoWriteTo(ws: seq<Write>, n: Name) {
    forall k :: 0 <= k < |ws| ==> ws[k].n != n
  }

  lemma {:induction false} WriteRedirected(a: Assign, p: Name, driver: Name, vals: Values, v: Bits)
    requires UnusedIn(a, driver) && p in vals && |v| == |vals[p]|
    ensures WriteOf(MoveTarget(a, p, driver), vals[driver := v]) == Redirect(WriteOf(a, vals), p, driver)
    ensures NoWriteTo(WriteOf(a, vals), driver)
  {
    PrefixMentioned(a.target);
    EvalIgnores(a.rhs, driver, vals, v);
    EvalIgnores(a.guard, driver, vals, v);
    ExtentIgnores(a.target, driver, vals, v);
    if Drives(a, p) {
      ExtentRetargeted(a.target, driver, vals, v);
      RetargetTwice(a.target, driver, driver);
    }
    if |WriteOf(a, vals)| == 1 {
      assert WriteOf(a, vals)[1..] == [];
    }
  }

  lemma {:induction false} WritesRedirected(assigns: seq<Assign>, p: Name, driver: Name, vals: Values, v: Bits)
    requires forall k :: 0 <= k < |assigns| ==> UnusedIn(assigns[k], driver)
    requires p in vals && |v| == |vals[p]|
    ensures WritesOf(MoveTargets(assigns, p, driver), vals[driver := v]) == Redirect(WritesOf(assigns, vals), p, driver)
    ensures NoWriteTo(WritesOf(assigns, vals), driver)
  {
    if |assigns| != 0 {
      assert MoveTargets(assigns, p, driver)[1..] == MoveTargets(assigns[1..], p, driver);
      WriteRedirected(assigns[0], p, driver, vals, v);
      WritesRedirected(assigns[1..], p, driver, vals, v);
      RedirectConcat(WriteOf(assigns[0], vals), WritesOf(assigns[1..], vals), p, driver);
    }
  }

  lemma {:induction false} RedirectConcat(a: seq<Write>, b: seq<Write>, p: Name, driver: Name)
    ensures Redirect(a + b, p, driver) == Redirect(a, p, driver) + Redirect(b, p, driver)
  {
    if |a| == 0 {
      assert a + b == b;
    } else {
      assert (a + b)[1..] == a[1..] + b;
      RedirectConcat(a[1..], b, p, driver);
    }
  }

  /** Every other name takes the same writes as before. */
  lemma {:induction false} OthersFollow(ws: seq<Write>, p: Name, driver: Name, n: Name, v: Bits)
    requires n != p && n != driver
    ensures ToSignal(Redirect(ws, p, driver), n, v) == ToSignal(ws, n, v)
  {
    if |ws| != 0 {
      OthersFollow(ws[1..], p, driver, n, Put(ws[0], n, v));
    }
  }

  lemma {:induction false} DriverFollows(ws: seq<Write>, p: Name, driver: Name, n: Name, q: nat, width: nat, d: Driver)
    requires n != p && n != driver
    ensures ToDriver(Redirect(ws, p, driver), n, q, width, d) == ToDriver(ws, n, q, width, d)
  {
    if |ws| != 0 {
      DriverFollows(ws[1..], p, driver, n, q, width, PutBits(ws[0], n, q, width, d));
    }
  }

  lemma DriversFollow(ws: seq<Write>, p: Name, driver: Name, n: Name, width: nat, ds: seq<Driver>)
    requires n != p && n != driver
    ensures ToDrivers(Redirect(ws, p, driver), n, width, ds) == ToDrivers(ws, n, width, ds)
  {
    forall q: nat | q < |ds|
      ensures ToDriver(Redirect(ws, p, driver), n, q, width, ds[q]) == ToDriver(ws, n, q, width, ds[q])
    {
      DriverFollows(ws, p, driver, n, q, width, ds[q]);
    }
  }

  /** The continuous assignments the port had do not see its new reg. */
  lemma {:induction false} ContinuousUnchanged(cs: seq<Continuous>, s1: Values, driver: Name, v: Bits, n: Name, k: nat)
    requires forall j :: 0 <= j < |cs| ==> cs[j].driver != driver
    ensures ContinuousBits(cs, s1[driver := v], n, k) == ContinuousBits(cs, s1, n, k)
  {
    if |cs| != 0 {
      ContinuousUnchanged(cs[1..], s1, driver, v, n, k);
    }
  }

  lemma Regroup(a: Bits, b: Bits, c: Bits)
    ensures a + (b + c) == a + b + c
  {
  }

  lemma {:induction false} ContinuousAppended(cs: seq<Continuous>, c: Continuous, signals: Values, n: Name, k: nat)
    ensures ContinuousBits(cs + [c], signals, n, k) == ContinuousBits(cs, signals, n, k) + LinkBits(c, signals, n, k)
  {
    var last := LinkBits(c, signals, n, k);
    if |cs| == 0 {
      assert cs + [c] == [c] && [c][1..] == [];
      assert last + [] == [] + last;
    } else {
      assert (cs + [c])[1..] == cs[1..] + [c] && (cs + [c])[0] == cs[0];
      ContinuousAppended(cs[1..], c, signals, n, k);
      Regroup(LinkBits(cs[0], signals, n, k), ContinuousBits(cs[1..], signals, n, k), last);
    }
  }

  /** A bit resolved from the reg is the bit resolved from the drivers. */
  lemma NetBitAgrees(own: Bits, before: Bits, reg: Logic, others: Bits)
    requires reg == Resolution.Resolve(own)
    ensures Resolution.Resolve([] + (before + [reg]) + others) == Resolution.Resolve(own + before + others)
  {
    var rest := before + others;
    assert multiset([] + (before + [reg]) + others) == multiset([reg] + rest);
    Resolution.ResolvePermuted([] + (before + [reg]) + others, [reg] + rest);
    assert own + before + others == own + rest;
    Resolution.ResolveGrouped([reg], rest);
    Resolution.ResolveGrouped(own, rest);
  }

  /** What a lowered port's design and its states look like to the simulation lemmas. */
  ghost predicate Lowerable(c: Contents, ports: seq<Port>, p: Port) {
    && p.dir.Inout? && DrivenByProcess(c.assigns, p.name) && IsNet(ports, p.name)
    && Older(ports, c.next) && Age(p.name) <= c.next
    && Unused(c, Generated(p.name, c.next))
  }

  lemma {:induction false} PortNoLongerWritten(ws: seq<Write>, p: Name, driver: Name, q: nat, width: nat, d: Driver)
    requires p != driver
    ensures ToDriver(Redirect(ws, p, driver), p, q, width, d) == d
  {
    if |ws| != 0 {
      PortNoLongerWritten(ws[1..], p, driver, q, width, d);
    }
  }

  lemma PortReleased(ws: seq<Write>, p: Name, driver: Name, width: nat, processes: nat)
    requires p != driver
    ensures ToDrivers(Redirect(ws, p, driver), p, width, Released(processes)) == Released(processes)
  {
    forall q: nat | q < processes
      ensures ToDriver(Redirect(ws, p, driver), p, q, width, map[]) == map[]
    {
      PortNoLongerWritten(ws, p, driver, q, width, map[]);
    }
  }

  lemma DriverRedirected(ws: seq<Write>, p: Name, driver: Name, st: State, lt: State, reg: Bits, n: Name)
    requires p != driver && p in st.drivers && driver !in st.drivers && n in st.drivers
    requires lt.drivers == st.drivers[p := Released(|st.drivers[p]|)] && lt.vals == st.vals[driver := reg]
    ensures DriversAfter(Redirect(ws, p, driver), lt)[n]
         == if n == p then Released(|st.drivers[p]|) else DriversAfter(ws, st)[n]
  {
    if n == p {
      PortReleased(ws, p, driver, |Get(st.vals, p)|, |st.drivers[p]|);
    } else {
      DriversFollow(ws, p, driver, n, |Get(st.vals, n)|, st.drivers[n]);
    }
  }

  lemma SameMaps<K, V>(a: map<K, V>, b: map<K, V>)
    requires a.Keys == b.Keys && forall k :: k in a ==> a[k] == b[k]
    ensures a == b
  {
  }

  lemma UpdatedAt<K, V>(a: map<K, V>, b: map<K, V>, k: K, v: V)
    requires a.Keys == b.Keys && k in b && forall n :: n in a ==> a[n] == if n == k then v else b[n]
    ensures a == b[k := v]
  {
  }

  lemma DriversRedirected(ws: seq<Write>, p: Name, driver: Name, st: State, lt: State, reg: Bits)
    requires p != driver && p in st.drivers && driver !in st.drivers
    requires lt.drivers == st.drivers[p := Released(|st.drivers[p]|)] && lt.vals == st.vals[driver := reg]
    ensures DriversAfter(Redirect(ws, p, driver), lt) == DriversAfter(ws, st)[p := Released(|st.drivers[p]|)]
  {
    forall n | n in st.drivers
      ensures DriversAfter(Redirect(ws, p, driver), lt)[n]
           == if n == p then Released(|st.drivers[p]|) else DriversAfter(ws, st)[n]
    {
      DriverRedirected(ws, p, driver, st, lt, reg, n);
    }
    UpdatedAt(DriversAfter(Redirect(ws, p, driver), lt), DriversAfter(ws, st), p, Released(|st.drivers[p]|));
  }

  lemma {:induction false} SignalsRedirected(ws: seq<Write>, ports: seq<Port>, p: Name, driver: Name, st: State,
                                             lt: State, reg: Bits)
    requires p != driver && Follows(p, driver, st, lt, reg)
    requires IsNet(ports, p) && !IsNet(ports, driver)
    ensures SignalsAfter(Redirect(ws, p, driver), ports, lt)
         == SignalsAfter(ws, ports, st)[driver := ToSignal(Redirect(ws, p, driver), driver, reg)]
  {
    var lws := Redirect(ws, p, driver);
    forall n | n in st.vals && !IsNet(ports, n)
      ensures ToSignal(lws, n, lt.vals[n]) == ToSignal(ws, n, st.vals[n])
    {
      OthersFollow(ws, p, driver, n, st.vals[n]);
    }
  }

  /** The nets of one step agree bit by bit. */
  lemma NetBitRedirected(cs: seq<Continuous>, p: Name, driver: Name, drivers: map<Name, seq<Driver>>, signals: Values,
                         others: Others, n: Name, k: nat)
    requires forall j :: 0 <= j < |cs| ==> cs[j].driver != driver
    requires p in drivers && p in signals && k < |Get(signals, n)|
    ensures NetBit(cs + [Continuous(p, driver)], drivers[p := Released(|drivers[p]|)],
            signals[driver := RegOf(drivers[p], |signals[p]|)], others, n, k)
         == NetBit(cs, drivers, signals, others, n, k)
  {
    var link := Continuous(p, driver);
    var reg := RegOf(drivers[p], |signals[p]|);
    var ls := signals[driver := reg];
    ContinuousAppended(cs, link, ls, n, k);
    ContinuousUnchanged(cs, signals, driver, reg, n, k);
    var before := ContinuousBits(cs, signals, n, k);
    assert LinkBits(link, ls, n, k) == if n == p && k < |reg| then [reg[k]] else [];
    if n == p {
      NoneShows(Released(|drivers[p]|), k);
      NetBitAgrees(OwnBits(drivers, n, k), before, reg[k], OtherBits(others, n, k));
    } else {
      assert before + [] == before;
    }
  }

  lemma {:induction false} NetsRedirected(cs: seq<Continuous>, ports: seq<Port>, p: Name, driver: Name,
                                          drivers: map<Name, seq<Driver>>,
                       signals: Values, others: Others)
    requires forall j :: 0 <= j < |cs| ==> cs[j].driver != driver
    requires p in drivers && p in signals && driver !in signals && !IsNet(ports, driver)
    ensures var reg := RegOf(drivers[p], |signals[p]|);
            Settled(cs + [Continuous(p, driver)], ports, drivers[p := Released(|drivers[p]|)],
                    signals[driver := reg], others)
            == Settled(cs, ports, drivers, signals, others)[driver := reg]
  {
    var reg := RegOf(drivers[p], |signals[p]|);
    var r := Settled(cs, ports, drivers, signals, others);
    var lr := Settled(cs + [Continuous(p, driver)], ports, drivers[p := Released(|drivers[p]|)],
                    signals[driver := reg], others);
    forall n | n in signals
      ensures lr[n] == r[n]
    {
      forall k | 0 <= k < |signals[n]| && IsNet(ports, n)
        ensures lr[n][k] == r[n][k]
      {
        NetBitRedirected(cs, p, driver, drivers, signals, others, n, k);
      }
    }
  }

  lemma FreshDriver(ports: seq<Port>, next: nat, base: Name)
    requires Older(ports, next)
    ensures !IsNet(ports, Generated(base, next))
  {
    assert Age(Generated(base, next)) > next;
  }

  /** The reg after the processes have run once. */
  function NextReg(c: Contents, p: Name, driver: Name, st: State, reg: Bits): Bits {
    ToSignal(Redirect(WritesOf(c.assigns, st.vals), p, driver), driver, reg)
  }

  /** The port's drivers after the processes have run once. */
  function NextDrivers(c: Contents, p: Name, st: State): seq<Driver>
    requires p in st.vals && p in st.drivers
  {
    ToDrivers(WritesOf(c.assigns, st.vals), p, |st.vals[p]|, st.drivers[p])
  }

  /** What the lowered design's processes write, and the drivers and signals they leave. */
  lemma {:induction false} LoweredWrites(c: Contents, ports: seq<Port>, p: Port, init: nat -> Bits, st: State,
                                         lt: State, reg: Bits)
    requires Lowerable(c, ports, p)
    requires Follows(p.name, Generated(p.name, c.next), st, lt, reg)
    ensures var driver := Generated(p.name, c.next);
            var ws := WritesOf(c.assigns, st.vals);
            var lws := WritesOf(LowerPort(c, p, init).assigns, lt.vals);
            && lws == Redirect(ws, p.name, driver)
            && DriversAfter(lws, lt) == DriversAfter(ws, st)[p.name := Released(|st.drivers[p.name]|)]
            && SignalsAfter(lws, ports, lt)
               == SignalsAfter(ws, ports, st)[driver := NextReg(c, p.name, driver, st, reg)]
  {
    var driver := Generated(p.name, c.next);
    var ws := WritesOf(c.assigns, st.vals);
    FreshDriver(ports, c.next, p.name);
    WritesRedirected(c.assigns, p.name, driver, st.vals, reg);
    DriversRedirected(ws, p.name, driver, st, lt, reg);
    SignalsRedirected(ws, ports, p.name, driver, st, lt, reg);
  }

  /** One step: if reg and drivers drive alike once the processes have run, the states agree after it. */
  lemma {:induction false} StepFollows(c: Contents, ports: seq<Port>, p: Port, init: nat -> Bits, st: State,
                                       lt: State, reg: Bits, others: Others)
    requires Lowerable(c, ports, p)
    requires Follows(p.name, Generated(p.name, c.next), st, lt, reg)
    requires NextReg(c, p.name, Generated(p.name, c.next), st, reg)
             == RegOf(NextDrivers(c, p.name, st), |st.vals[p.name]|)
    ensures Simulates(p.name, Generated(p.name, c.next), Step(c, ports, st, others),
            Step(LowerPort(c, p, init), ports, lt, others))
  {
    var driver := Generated(p.name, c.next);
    var ws := WritesOf(c.assigns, st.vals);
    FreshDriver(ports, c.next, p.name);
    LoweredWrites(c, ports, p, init, st, lt, reg);
    NetsRedirected(c.continuous, ports, p.name, driver, DriversAfter(ws, st), SignalsAfter(ws, ports, st), others);
    StepParts(c, ports, p.name, driver, LowerPort(c, p, init), st, lt, others, ws);
  }

  /** The states agree, and each bit of the port is one process's. */
  ghost predicate InStep(c: Contents, p: Name, driver: Name, st: State, lt: State) {
    Simulates(p, driver, st, lt) && Owned(c.assigns, p, st.drivers[p], |st.vals[p]|)
  }

  /** One step keeps the simulation. */
  lemma {:induction false} StepSimulates(c: Contents, ports: seq<Port>, p: Port, init: nat -> Bits, st: State,
                                         lt: State, others: Others)
    requires Lowerable(c, ports, p)
    requires InStep(c, p.name, Generated(p.name, c.next), st, lt)
    ensures InStep(c, p.name, Generated(p.name, c.next), Step(c, ports, st, others),
            Step(LowerPort(c, p, init), ports, lt, others))
  {
    var reg := RegOf(st.drivers[p.name], |st.vals[p.name]|);
    AlikeAfterFirst(c, p.name, Generated(p.name, c.next), st, reg);
    StepFollows(c, ports, p, init, st, lt, reg, others);
    StepKeepsOwned(c, ports, p.name, st, others);
  }

  lemma {:induction false} StepKeepsOwned(c: Contents, ports: seq<Port>, p: Name, st: State, others: Others)
    requires p in st.vals && p in st.drivers && IsNet(ports, p)
    requires Owned(c.assigns, p, st.drivers[p], |st.vals[p]|)
    ensures var r := Step(c, ports, st, others);
            p in r.vals && p in r.drivers && Owned(c.assigns, p, r.drivers[p], |r.vals[p]|)
  {
    OwnedStays(c.assigns, st.vals, p, st.drivers[p]);
    assert |SignalsAfter(WritesOf(c.assigns, st.vals), ports, st)[p]| == |st.vals[p]|;
  }

  /** The parts of a step, put together. */
  lemma {:induction false} StepParts(c: Contents, ports: seq<Port>, p: Name, driver: Name, l: Contents, st: State,
                                     lt: State, others: Others, ws: seq<Write>)
    requires p in st.drivers && p in st.vals && driver !in st.vals && driver !in st.drivers && IsNet(ports, p)
    requires ws == WritesOf(c.assigns, st.vals) && WritesOf(l.assigns, lt.vals) == Redirect(ws, p, driver)
    requires l.continuous == c.continuous + [Continuous(p, driver)]
    requires DriversAfter(Redirect(ws, p, driver), lt) == DriversAfter(ws, st)[p := Released(|st.drivers[p]|)]
    requires SignalsAfter(Redirect(ws, p, driver), ports, lt)
          == SignalsAfter(ws, ports, st)[driver := RegOf(DriversAfter(ws, st)[p], |st.vals[p]|)]
    requires var signals, drivers := SignalsAfter(ws, ports, st), DriversAfter(ws, st);
             var reg := RegOf(drivers[p], |signals[p]|);
             Settled(c.continuous + [Continuous(p, driver)], ports, drivers[p := Released(|drivers[p]|)],
                    signals[driver := reg], others)
             == Settled(c.continuous, ports, drivers, signals, others)[driver := reg]
    ensures Simulates(p, driver, Step(c, ports, st, others), Step(l, ports, lt, others))
  {
    var r := Step(c, ports, st, others);
    assert |r.vals[p]| == |SignalsAfter(ws, ports, st)[p]| == |st.vals[p]|;
  }

  lemma SameNets(ports: seq<Port>, p: Name, driver: Name, st: State, lt: State, reg: Bits)
    requires Follows(p, driver, st, lt, reg) && !IsNet(ports, driver)
    ensures Nets(ports, st.vals) == Nets(ports, lt.vals)
  {
  }

  lemma {:induction false} StepTogether(c: Contents, ports: seq<Port>, p: Port, init: nat -> Bits, env: Environment,
                                        s: State, ls: State, k: nat)
    requires Lowerable(c, ports, p)
    requires InStep(c, p.name, Generated(p.name, c.next), s, ls)
    ensures InStep(c, p.name, Generated(p.name, c.next), Reacting(c, ports, env, k, s),
            Reacting(LowerPort(c, p, init), ports, env, k, ls))
  {
    FreshDriver(ports, c.next, p.name);
    SameNets(ports, p.name, Generated(p.name, c.next), s, ls, RegOf(s.drivers[p.name], |s.vals[p.name]|));
    StepSimulates(c, ports, p, init, s, ls, env(k, Nets(ports, s.vals)));
  }

  /** Two steppers keep a relation from their first step on, if that step gets there. */
  lemma {:induction false} IteratedTogether(step: (nat, State) -> State, lstep: (nat, State) -> State,
                                            rel: (State, State) -> bool, st: State, lt: State, k: nat)
    requires forall i: nat, s: State, ls: State :: rel(s, ls) ==> rel(step(i, s), lstep(i, ls))
    requires rel(step(0, st), lstep(0, lt)) && k > 0
    ensures rel(Iterated(step, st, k), Iterated(lstep, lt, k))
  {
    if k == 1 {
      assert Iterated(step, st, 0) == st && Iterated(lstep, lt, 0) == lt;
    } else {
      IteratedTogether(step, lstep, rel, st, lt, k - 1);
    }
  }

  /** Bit by bit: the first run writes it, or reg and drivers start alike there. */
  predicate StartsAlike(c: Contents, p: Name, st: State, reg: Bits)
    requires p in st.vals && p in st.drivers && |reg| == |st.vals[p]|
  {
    forall k :: 0 <= k < |reg| ==>
      || WritesBit(WritesOf(c.assigns, st.vals), p, |reg|, k)
      || reg[k] == RegOf(st.drivers[p], |reg|)[k]
  }

  lemma {:induction false} BitAfter(ws: seq<Write>, p: Name, q: nat, driver: Name, reg: Bits, d: Driver, k: nat)
    requires p != driver && NoWriteTo(ws, driver) && k < |reg| && OnlyFrom(ws, p, q, |reg|, k)
    ensures var r := ToSignal(Redirect(ws, p, driver), driver, reg);
            var e := Shown(ToDriver(ws, p, q, |reg|, d), k);
            |r| == |reg| && (r[k] == e <==> WritesBit(ws, p, |reg|, k) || reg[k] == Shown(d, k))
  {
    if |ws| != 0 {
      var w := ws[0];
      Split(ws, p, q, |reg|, k);
      assert w.n != driver;
      if w.n == p {
        BitPut(w, p, q, driver, reg, d, k);
        BitAfter(ws[1..], p, q, driver, Put(w.(n := driver), driver, reg), PutBits(w, p, q, |reg|, d), k);
      } else {
        BitAfter(ws[1..], p, q, driver, reg, d, k);
      }
    }
  }

  /** One write: its bits are in both afterwards, the other bits are as before. */
  lemma BitPut(w: Write, p: Name, q: nat, driver: Name, reg: Bits, d: Driver, k: nat)
    requires k < |reg| && w.n == p && (Covers(w, p, |reg|, k) ==> w.process == q)
    ensures var r, e := Put(w.(n := driver), driver, reg), Shown(PutBits(w, p, q, |reg|, d), k);
            && (Covers(w, p, |reg|, k) ==> r[k] == e)
            && (!Covers(w, p, |reg|, k) ==> r[k] == reg[k] && e == Shown(d, k))
  {
  }

  /** Reg and drivers drive alike after the first run exactly when they start alike. */
  lemma {:induction false} AlikeAfterFirst(c: Contents, p: Name, driver: Name, st: State, reg: Bits)
    requires p in st.vals && p in st.drivers && |reg| == |st.vals[p]| && p != driver
    requires Owned(c.assigns, p, st.drivers[p], |reg|)
    requires forall k :: 0 <= k < |c.assigns| ==> UnusedIn(c.assigns[k], driver)
    ensures |NextReg(c, p, driver, st, reg)| == |reg|
    ensures NextReg(c, p, driver, st, reg) == RegOf(NextDrivers(c, p, st), |reg|) <==> StartsAlike(c, p, st, reg)
  {
    var ws := WritesOf(c.assigns, st.vals);
    WritesRedirected(c.assigns, p, driver, st.vals, reg);
    var r, e := NextReg(c, p, driver, st, reg), RegOf(NextDrivers(c, p, st), |reg|);
    forall k | 0 <= k < |reg|
      ensures r[k] == e[k] <==> WritesBit(ws, p, |reg|, k) || reg[k] == RegOf(st.drivers[p], |reg|)[k]
    {
      OwnedBitAfter(c, p, driver, st, reg, k);
    }
  }

  lemma {:induction false} OwnedBitAfter(c: Contents, p: Name, driver: Name, st: State, reg: Bits, k: nat)
    requires p in st.vals && p in st.drivers && |reg| == |st.vals[p]| && p != driver && k < |reg|
    requires Owned(c.assigns, p, st.drivers[p], |reg|) && NoWriteTo(WritesOf(c.assigns, st.vals), driver)
    ensures |NextReg(c, p, driver, st, reg)| == |reg|
    ensures NextReg(c, p, driver, st, reg)[k] == RegOf(NextDrivers(c, p, st), |reg|)[k] <==>
            || WritesBit(WritesOf(c.assigns, st.vals), p, |reg|, k)
            || reg[k] == RegOf(st.drivers[p], |reg|)[k]
  {
    var ds := st.drivers[p];
    assert HasOwner(c.assigns, p, ds, |reg|, k);
    var q: nat :| Owns(c.assigns, p, ds, |reg|, k, q);
    OwnerWrites(c.assigns, st.vals, p, ds, k, q);
    OwnerStays(c.assigns, st.vals, p, ds, k, q);
    OwnerShows(ds, k, q);
    OwnerShows(NextDrivers(c, p, st), k, q);
    BitAfter(WritesOf(c.assigns, st.vals), p, q, driver, reg, ds[q], k);
  }

  lemma {:induction false} RunSimulates(c: Contents, ports: seq<Port>, p: Port, init: nat -> Bits, env: Environment,
                                        st: State, lt: State, reg: Bits, k: nat)
    requires Lowerable(c, ports, p) && k > 0
    requires StartsInStep(c, p.name, Generated(p.name, c.next), st, lt, reg)
    ensures Simulates(p.name, Generated(p.name, c.next), Run(c, ports, env, st, k),
            Run(LowerPort(c, p, init), ports, env, lt, k))
  {
    var l := LowerPort(c, p, init);
    var driver := Generated(p.name, c.next);
    var step := (i: nat, s: State) => Reacting(c, ports, env, i, s);
    var lstep := (i: nat, s: State) => Reacting(l, ports, env, i, s);
    forall i: nat, s: State, ls: State | InStep(c, p.name, driver, s, ls)
      ensures InStep(c, p.name, driver, step(i, s), lstep(i, ls))
    {
      StepTogether(c, ports, p, init, env, s, ls, i);
    }
    FirstTogether(c, ports, p, init, env, st, lt, reg);
    IteratedTogether(step, lstep, (s, ls) => InStep(c, p.name, driver, s, ls), st, lt, k);
  }

  /** Reg and drivers start alike, and each bit of the port is one process's. */
  ghost predicate StartsInStep(c: Contents, p: Name, driver: Name, st: State, lt: State, reg: Bits) {
    && Follows(p, driver, st, lt, reg)
    && StartsAlike(c, p, st, reg)
    && Owned(c.assigns, p, st.drivers[p], |reg|)
  }

  lemma {:induction false} FirstTogether(c: Contents, ports: seq<Port>, p: Port, init: nat -> Bits, env: Environment,
                                         st: State, lt: State, reg: Bits)
    requires Lowerable(c, ports, p)
    requires StartsInStep(c, p.name, Generated(p.name, c.next), st, lt, reg)
    ensures InStep(c, p.name, Generated(p.name, c.next), Reacting(c, ports, env, 0, st),
            Reacting(LowerPort(c, p, init), ports, env, 0, lt))
  {
    FreshDriver(ports, c.next, p.name);
    SameNets(ports, p.name, Generated(p.name, c.next), st, lt, reg);
    AlikeAfterFirst(c, p.name, Generated(p.name, c.next), st, reg);
    StepFollows(c, ports, p, init, st, lt, reg, env(0, Nets(ports, st.vals)));
    StepKeepsOwned(c, ports, p.name, st, env(0, Nets(ports, st.vals)));
  }

  /**
   One run. If no bit of the port has two processes driving it, and reg and drivers start alike, every
   net holds the same value as in the original after every step, whatever the other drivers do in
   reaction.
   */
  lemma {:induction false} RelatedAgree(c: Contents, ports: seq<Port>, p: Port, init: nat -> Bits, env: Environment,
                                        st: State, lt: State, reg: Bits, k: nat)
    requires Lowerable(c, ports, p)
    requires StartsInStep(c, p.name, Generated(p.name, c.next), st, lt, reg)
    ensures Nets(ports, Run(c, ports, env, st, k).vals)
            == Nets(ports, Run(LowerPort(c, p, init), ports, env, lt, k).vals)
  {
    FreshDriver(ports, c.next, p.name);
    if k == 0 {
      SameNets(ports, p.name, Generated(p.name, c.next), st, lt, reg);
    } else {
      RunSimulates(c, ports, p, init, env, st, lt, reg, k);
      var s := Run(c, ports, env, st, k);
      SameNets(ports, p.name, Generated(p.name, c.next), s, Run(LowerPort(c, p, init), ports, env, lt, k),
               RegOf(s.drivers[p.name], |s.vals[p.name]|));
    }
  }

  /** The nets of two designs agree at every step of every run, whatever the other drivers do. */
  ghost predicate NetsForever(c: Contents, l: Contents, ports: seq<Port>, st: State, lt: State) {
    forall env: Environment, k: nat :: Nets(ports, Run(c, ports, env, st, k).vals)
      == Nets(ports, Run(l, ports, env, lt, k).vals)
  }

  predicate NoOtherLink(c: Contents, p: Name) {
    forall j :: 0 <= j < |c.continuous| ==> c.continuous[j].port != p
  }

  lemma {:induction false} NoLinkNoBits(cs: seq<Continuous>, signals: Values, n: Name, k: nat)
    requires forall j :: 0 <= j < |cs| ==> cs[j].port != n
    ensures ContinuousBits(cs, signals, n, k) == []
  {
    if |cs| != 0 {
      NoLinkNoBits(cs[1..], signals, n, k);
    }
  }

  /** With no other driver about, a net shows the processes' drivers. */
  lemma {:induction false} BareNet(c: Contents, ports: seq<Port>, p: Name, st: State, k: nat)
    requires p in st.vals && p in st.drivers && IsNet(ports, p) && NoOtherLink(c, p) && k < |st.vals[p]|
    ensures var s := Step(c, ports, st, map[]);
            && p in s.vals && |s.vals[p]| == |st.vals[p]|
            && s.vals[p][k] == RegOf(NextDrivers(c, p, st), |st.vals[p]|)[k]
  {
    var ws := WritesOf(c.assigns, st.vals);
    var drivers := DriversAfter(ws, st);
    NoLinkNoBits(c.continuous, SignalsAfter(ws, ports, st), p, k);
    assert OwnBits(drivers, p, k) + [] + [] == DriverBits(drivers[p], k);
  }

  /** In the lowered design it shows the reg. */
  lemma {:induction false} BareLoweredNet(c: Contents, ports: seq<Port>, p: Port, init: nat -> Bits, st: State,
                                          lt: State, reg: Bits, k: nat)
    requires Lowerable(c, ports, p) && NoOtherLink(c, p.name)
    requires Follows(p.name, Generated(p.name, c.next), st, lt, reg) && k < |reg|
    ensures var driver := Generated(p.name, c.next);
            var ls := Step(LowerPort(c, p, init), ports, lt, map[]);
            && p.name in ls.vals && |ls.vals[p.name]| == |reg|
            && ls.vals[p.name][k] == NextReg(c, p.name, driver, st, reg)[k]
  {
    var driver := Generated(p.name, c.next);
    var ws := WritesOf(c.assigns, st.vals);
    var r := NextReg(c, p.name, driver, st, reg);
    FreshDriver(ports, c.next, p.name);
    LoweredWrites(c, ports, p, init, st, lt, reg);
    LinkShows(c.continuous, p.name, driver, DriversAfter(ws, st), SignalsAfter(ws, ports, st), r, k);
  }

  lemma {:induction false} LinkShows(cs: seq<Continuous>, p: Name, driver: Name, drivers: map<Name, seq<Driver>>,
                                     signals: Values, r: Bits, k: nat)
    requires (forall j :: 0 <= j < |cs| ==> cs[j].port != p) && k < |r| && p in drivers
    ensures NetBit(cs + [Continuous(p, driver)], drivers[p := Released(|drivers[p]|)],
            signals[driver := r], map[], p, k)
         == r[k]
  {
    var ls := signals[driver := r];
    NoLinkNoBits(cs, ls, p, k);
    NoneShows(Released(|drivers[p]|), k);
    ContinuousAppended(cs, Continuous(p, driver), ls, p, k);
    assert [] + ([] + [r[k]]) + [] == [r[k]];
  }

  /**
   Main result. For a port with no other continuous driver and no bit that two processes drive, the
   nets agree at every step of every run if and only if, bit by bit, the first run writes it or reg
   and drivers start alike.
   */
  lemma {:induction false} NetsAgreeIff(c: Contents, ports: seq<Port>, p: Port, init: nat -> Bits, st: State,
                                        lt: State, reg: Bits)
    requires Lowerable(c, ports, p) && NoOtherLink(c, p.name)
    requires Follows(p.name, Generated(p.name, c.next), st, lt, reg)
    requires Owned(c.assigns, p.name, st.drivers[p.name], |reg|)
    ensures NetsForever(c, LowerPort(c, p, init), ports, st, lt) <==> StartsAlike(c, p.name, st, reg)
  {
    var l := LowerPort(c, p, init);
    if StartsAlike(c, p.name, st, reg) {
      forall env: Environment, k: nat
        ensures Nets(ports, Run(c, ports, env, st, k).vals) == Nets(ports, Run(l, ports, env, lt, k).vals)
      {
        RelatedAgree(c, ports, p, init, env, st, lt, reg, k);
      }
    } else {
      AlikeAfterFirst(c, p.name, Generated(p.name, c.next), st, reg);
      NetsPart(c, ports, p, init, st, lt, reg);
    }
  }

  /** However many processes drive a bit: if reg and drivers differ after the first run, the nets part. */
  lemma {:induction false} NetsPart(c: Contents, ports: seq<Port>, p: Port, init: nat -> Bits, st: State, lt: State,
                                    reg: Bits)
    requires Lowerable(c, ports, p) && NoOtherLink(c, p.name)
    requires Follows(p.name, Generated(p.name, c.next), st, lt, reg)
    requires NextReg(c, p.name, Generated(p.name, c.next), st, reg) != RegOf(NextDrivers(c, p.name, st), |reg|)
    ensures !NetsForever(c, LowerPort(c, p, init), ports, st, lt)
  {
    var l := LowerPort(c, p, init);
    var next := NextReg(c, p.name, Generated(p.name, c.next), st, reg);
    var k :| 0 <= k < |reg| && next[k] != RegOf(NextDrivers(c, p.name, st), |reg|)[k];
    BareNet(c, ports, p.name, st, k);
    BareLoweredNet(c, ports, p, init, st, lt, reg, k);
    DifferAfterOne(c, l, ports, p.name, st, lt, k);
  }

  lemma {:induction false} DifferAfterOne(c: Contents, l: Contents, ports: seq<Port>, p: Name, st: State, lt: State,
                                          k: nat)
    requires IsNet(ports, p)
    requires var s, ls := Step(c, ports, st, map[]), Step(l, ports, lt, map[]);
             p in s.vals && p in ls.vals && k < |s.vals[p]| && k < |ls.vals[p]| && s.vals[p][k] != ls.vals[p][k]
    ensures !NetsForever(c, l, ports, st, lt)
  {
    NetShows(ports, Step(c, ports, st, map[]).vals, Step(l, ports, lt, map[]).vals, p);
    if NetsForever(c, l, ports, st, lt) {
      AgreeAfterOne(c, l, ports, st, lt);
    }
  }

  lemma NetShows(ports: seq<Port>, vals: Values, lvals: Values, p: Name)
    requires IsNet(ports, p) && p in vals && p in lvals && vals[p] != lvals[p]
    ensures Nets(ports, vals) != Nets(ports, lvals)
  {
    assert Nets(ports, vals)[p] != Nets(ports, lvals)[p];
  }

  /** In particular after one step, with no other driver about. */
  lemma {:induction false} AgreeAfterOne(c: Contents, l: Contents, ports: seq<Port>, st: State, lt: State)
    requires NetsForever(c, l, ports, st, lt)
    ensures Nets(ports, Step(c, ports, st, map[]).vals) == Nets(ports, Step(l, ports, lt, map[]).vals)
  {
    var quiet: Environment := (_, _) => map[];
    ForeverAt(c, l, ports, st, lt, quiet, 1);
    RunOnce(c, ports, quiet, st);
    RunOnce(l, ports, quiet, lt);
  }

  lemma ForeverAt(c: Contents, l: Contents, ports: seq<Port>, st: State, lt: State, env: Environment, k: nat)
    requires NetsForever(c, l, ports, st, lt)
    ensures Nets(ports, Run(c, ports, env, st, k).vals) == Nets(ports, Run(l, ports, env, lt, k).vals)
  {
  }

  lemma RunOnce(c: Contents, ports: seq<Port>, env: Environment, st: State)
    ensures Run(c, ports, env, st, 1) == Step(c, ports, st, env(0, Nets(ports, st.vals)))
  {
    var step := (i: nat, s: State) => Reacting(c, ports, env, i, s);
    assert Iterated(step, st, 0) == st;
    assert Iterated(step, st, 1) == step(0, Iterated(step, st, 0));
  }

  // ---------------------------------------------------------------- any number of processes on a bit

  /** A value the size of the port, after the processes' writes in order. */
  function LastWritten(c: Contents, p: Name, st: State, v: Bits): Bits {
    ToSignal(WritesOf(c.assigns, st.vals), p, v)
  }

  /** The next run leaves on each bit of the port the last write to reach it, if one does. */
  ghost predicate ShowsLast(c: Contents, p: Name, st: State) {
    && p in st.vals && p in st.drivers
    && LastWritten(c, p, st, RegOf(st.drivers[p], |st.vals[p]|)) == RegOf(NextDrivers(c, p, st), |st.vals[p]|)
  }

  /** It does so in every run of the original design, from its second activation on. */
  ghost predicate AlwaysShowsLast(c: Contents, ports: seq<Port>, p: Name, st: State) {
    forall env: Environment, k: nat :: k > 0 ==> ShowsLast(c, p, Run(c, ports, env, st, k))
  }

  lemma {:induction false} RedirectedSame(ws: seq<Write>, p: Name, driver: Name, v: Bits)
    requires NoWriteTo(ws, driver)
    ensures ToSignal(Redirect(ws, p, driver), driver, v) == ToSignal(ws, p, v)
  {
    if |ws| != 0 {
      assert ws[0].n != driver;
      RedirectedSame(ws[1..], p, driver, Put(ws[0], p, v));
    }
  }

  lemma NextIsLast(c: Contents, ports: seq<Port>, p: Port, st: State, reg: Bits)
    requires Lowerable(c, ports, p) && p.name in st.vals && |reg| == |st.vals[p.name]|
    ensures NextReg(c, p.name, Generated(p.name, c.next), st, reg) == LastWritten(c, p.name, st, reg)
  {
    WritesRedirected(c.assigns, p.name, Generated(p.name, c.next), st.vals, reg);
    RedirectedSame(WritesOf(c.assigns, st.vals), p.name, Generated(p.name, c.next), reg);
  }

  lemma RunStep(c: Contents, ports: seq<Port>, env: Environment, st: State, k: nat)
    requires k > 0
    ensures Run(c, ports, env, st, k) == Reacting(c, ports, env, k - 1, Run(c, ports, env, st, k - 1))
  {
  }

  /** Two steppers keep a relation as long as the first one passes through states that are well. */
  lemma {:induction false} IteratedWhile(step: (nat, State) -> State, lstep: (nat, State) -> State,
                                         rel: (State, State) -> bool, well: State -> bool, st: State, lt: State, k: nat)
    requires forall i: nat, s: State, ls: State :: rel(s, ls) && well(s) ==> rel(step(i, s), lstep(i, ls))
    requires rel(step(0, st), lstep(0, lt)) && k > 0
    requires forall j: nat :: 0 < j < k ==> well(Iterated(step, st, j))
    ensures rel(Iterated(step, st, k), Iterated(lstep, lt, k))
  {
    if k == 1 {
      assert Iterated(step, st, 0) == st && Iterated(lstep, lt, 0) == lt;
    } else {
      IteratedWhile(step, lstep, rel, well, st, lt, k - 1);
    }
  }

  /** The original design's states before step k show their last writes. */
  ghost predicate ShowsBefore(c: Contents, ports: seq<Port>, p: Name, env: Environment, st: State, k: nat) {
    forall j: nat :: 0 < j < k ==> ShowsLast(c, p, Run(c, ports, env, st, j))
  }

  /** So long the designs stay together. */
  lemma {:induction false} TogetherWhileLast(c: Contents, ports: seq<Port>, p: Port, init: nat -> Bits,
                                             env: Environment, st: State, lt: State, reg: Bits, k: nat)
    requires Lowerable(c, ports, p) && k > 0
    requires Follows(p.name, Generated(p.name, c.next), st, lt, reg)
    requires LastWritten(c, p.name, st, reg) == RegOf(NextDrivers(c, p.name, st), |reg|)
    requires ShowsBefore(c, ports, p.name, env, st, k)
    ensures Simulates(p.name, Generated(p.name, c.next), Run(c, ports, env, st, k),
            Run(LowerPort(c, p, init), ports, env, lt, k))
  {
    var l, driver := LowerPort(c, p, init), Generated(p.name, c.next);
    var step := (i: nat, s: State) => Reacting(c, ports, env, i, s);
    var lstep := (i: nat, s: State) => Reacting(l, ports, env, i, s);
    forall i: nat, s: State, ls: State | Simulates(p.name, driver, s, ls) && ShowsLast(c, p.name, s)
      ensures Simulates(p.name, driver, step(i, s), lstep(i, ls))
    {
      TogetherNext(c, ports, p, init, env, s, ls, i);
    }
    OneMore(c, ports, p, init, env, st, lt, reg, 0);
    forall j: nat | 0 < j < k
      ensures ShowsLast(c, p.name, Iterated(step, st, j))
    {
      assert Run(c, ports, env, st, j) == Iterated(step, st, j);
    }
    IteratedWhile(step, lstep, (s, ls) => Simulates(p.name, driver, s, ls), s => ShowsLast(c, p.name, s), st, lt, k);
  }

  lemma {:induction false} TogetherNext(c: Contents, ports: seq<Port>, p: Port, init: nat -> Bits, env: Environment,
                                        s: State, ls: State, k: nat)
    requires Lowerable(c, ports, p)
    requires Simulates(p.name, Generated(p.name, c.next), s, ls) && ShowsLast(c, p.name, s)
    ensures Simulates(p.name, Generated(p.name, c.next), Reacting(c, ports, env, k, s),
            Reacting(LowerPort(c, p, init), ports, env, k, ls))
  {
    OneMore(c, ports, p, init, env, s, ls, RegOf(s.drivers[p.name], |s.vals[p.name]|), k);
  }

  lemma {:induction false} OneMore(c: Contents, ports: seq<Port>, p: Port, init: nat -> Bits, env: Environment,
                                   s: State, ls: State, reg: Bits, k: nat)
    requires Lowerable(c, ports, p)
    requires Follows(p.name, Generated(p.name, c.next), s, ls, reg)
    requires LastWritten(c, p.name, s, reg) == RegOf(NextDrivers(c, p.name, s), |reg|)
    ensures Simulates(p.name, Generated(p.name, c.next), Reacting(c, ports, env, k, s),
            Reacting(LowerPort(c, p, init), ports, env, k, ls))
  {
    FreshDriver(ports, c.next, p.name);
    SameNets(ports, p.name, Generated(p.name, c.next), s, ls, reg);
    NextIsLast(c, ports, p, s, reg);
    StepFollows(c, ports, p, init, s, ls, reg, env(k, Nets(ports, s.vals)));
  }

  /** An environment cut off after k steps: no other driver from then on. */
  function CutOff(env: Environment, k: nat): Environment {
    (i: nat, nets: Values) => if i < k then env(i, nets) else map[]
  }

  lemma {:induction false} IteratedSame(step: (nat, State) -> State, other: (nat, State) -> State, st: State, j: nat)
    requires forall i: nat, s: State :: i < j ==> step(i, s) == other(i, s)
    ensures Iterated(step, st, j) == Iterated(other, st, j)
  {
    if j > 0 {
      IteratedSame(step, other, st, j - 1);
    }
  }

  lemma CutOffLater(c: Contents, ports: seq<Port>, env: Environment, st: State, k: nat)
    ensures Run(c, ports, CutOff(env, k), st, k) == Run(c, ports, env, st, k)
  {
    IteratedSame((i: nat, s: State) => Reacting(c, ports, CutOff(env, k), i, s),
                 (i: nat, s: State) => Reacting(c, ports, env, i, s), st, k);
  }

  /** If the nets agree forever, the last writes show at every step. */
  lemma {:induction false} LastMustShow(c: Contents, ports: seq<Port>, p: Port, init: nat -> Bits, env: Environment,
                                        st: State, lt: State, reg: Bits, k: nat)
    requires Lowerable(c, ports, p) && NoOtherLink(c, p.name) && k > 0
    requires Follows(p.name, Generated(p.name, c.next), st, lt, reg)
    requires LastWritten(c, p.name, st, reg) == RegOf(NextDrivers(c, p.name, st), |reg|)
    requires NetsForever(c, LowerPort(c, p, init), ports, st, lt)
    ensures ShowsLast(c, p.name, Run(c, ports, env, st, k))
  {
    var l := LowerPort(c, p, init);
    forall j: nat | 0 < j < k
      ensures ShowsLast(c, p.name, Run(c, ports, env, st, j))
    {
      LastMustShow(c, ports, p, init, env, st, lt, reg, j);
    }
    TogetherWhileLast(c, ports, p, init, env, st, lt, reg, k);
    var s, ls := Run(c, ports, env, st, k), Run(l, ports, env, lt, k);
    QuietStep(c, ports, env, st, k);
    QuietStep(l, ports, env, lt, k);
    ForeverAt(c, l, ports, st, lt, CutOff(env, k), k + 1);
    ShowsOrParts(c, ports, p, init, s, ls);
  }

  lemma QuietStep(c: Contents, ports: seq<Port>, env: Environment, st: State, k: nat)
    ensures Run(c, ports, CutOff(env, k), st, k + 1) == Step(c, ports, Run(c, ports, env, st, k), map[])
  {
    CutOffLater(c, ports, env, st, k);
    RunStep(c, ports, CutOff(env, k), st, k + 1);
  }

  /** With no other driver about, nets that agree after a step show the last writes. */
  lemma {:induction false} ShowsOrParts(c: Contents, ports: seq<Port>, p: Port, init: nat -> Bits, s: State, ls: State)
    requires Lowerable(c, ports, p) && NoOtherLink(c, p.name)
    requires Simulates(p.name, Generated(p.name, c.next), s, ls)
    requires Nets(ports, Step(c, ports, s, map[]).vals)
             == Nets(ports, Step(LowerPort(c, p, init), ports, ls, map[]).vals)
    ensures ShowsLast(c, p.name, s)
  {
    var reg := RegOf(s.drivers[p.name], |s.vals[p.name]|);
    var next := RegOf(NextDrivers(c, p.name, s), |reg|);
    NextIsLast(c, ports, p, s, reg);
    forall k | 0 <= k < |reg|
      ensures LastWritten(c, p.name, s, reg)[k] == next[k]
    {
      BareNet(c, ports, p.name, s, k);
      BareLoweredNet(c, ports, p, init, s, ls, reg, k);
      SameNet(ports, Step(c, ports, s, map[]).vals, Step(LowerPort(c, p, init), ports, ls, map[]).vals, p.name);
    }
  }

  lemma SameNet(ports: seq<Port>, vals: Values, lvals: Values, p: Name)
    requires IsNet(ports, p) && p in vals && p in lvals && Nets(ports, vals) == Nets(ports, lvals)
    ensures vals[p] == lvals[p]
  {
    assert Nets(ports, vals)[p] == vals[p] && Nets(ports, lvals)[p] == lvals[p];
  }

  /**
   Main result for any number of processes. For a port with no other continuous driver, the nets
   agree at every step of every run if and only if the first run makes reg and drivers alike and, in
   the original design, every later run leaves on each bit of the port the last write to reach it.
   */
  lemma {:induction false} AgreeIffLastShows(c: Contents, ports: seq<Port>, p: Port, init: nat -> Bits, st: State,
                                             lt: State, reg: Bits)
    requires Lowerable(c, ports, p) && NoOtherLink(c, p.name)
    requires Follows(p.name, Generated(p.name, c.next), st, lt, reg)
    ensures NetsForever(c, LowerPort(c, p, init), ports, st, lt) <==>
            && LastWritten(c, p.name, st, reg) == RegOf(NextDrivers(c, p.name, st), |reg|)
            && AlwaysShowsLast(c, ports, p.name, st)
  {
    var l := LowerPort(c, p, init);
    NextIsLast(c, ports, p, st, reg);
    if LastWritten(c, p.name, st, reg) != RegOf(NextDrivers(c, p.name, st), |reg|) {
      NetsPart(c, ports, p, init, st, lt, reg);
    } else if NetsForever(c, l, ports, st, lt) {
      forall env: Environment, k: nat | k > 0
        ensures ShowsLast(c, p.name, Run(c, ports, env, st, k))
      {
        LastMustShow(c, ports, p, init, env, st, lt, reg, k);
      }
    } else if AlwaysShowsLast(c, ports, p.name, st) {
      forall env: Environment, k: nat
        ensures Nets(ports, Run(c, ports, env, st, k).vals) == Nets(ports, Run(l, ports, env, lt, k).vals)
      {
        NetsWhileLast(c, ports, p, init, env, st, lt, reg, k);
      }
    }
  }

  lemma {:induction false} NetsWhileLast(c: Contents, ports: seq<Port>, p: Port, init: nat -> Bits, env: Environment,
                                         st: State, lt: State, reg: Bits, k: nat)
    requires Lowerable(c, ports, p)
    requires Follows(p.name, Generated(p.name, c.next), st, lt, reg)
    requires LastWritten(c, p.name, st, reg) == RegOf(NextDrivers(c, p.name, st), |reg|)
    requires AlwaysShowsLast(c, ports, p.name, st)
    ensures Nets(ports, Run(c, ports, env, st, k).vals)
            == Nets(ports, Run(LowerPort(c, p, init), ports, env, lt, k).vals)
  {
    FreshDriver(ports, c.next, p.name);
    if k == 0 {
      SameNets(ports, p.name, Generated(p.name, c.next), st, lt, reg);
    } else {
      TogetherWhileLast(c, ports, p, init, env, st, lt, reg, k);
      var s := Run(c, ports, env, st, k);
      SameNets(ports, p.name, Generated(p.name, c.next), s, Run(LowerPort(c, p, init), ports, env, lt, k),
               RegOf(s.drivers[p.name], |s.vals[p.name]|));
    }
  }

  // ---------------------------------------------------------------- from elaboration on

  /** A process's driver of a port at elaboration: its static prefixes, at the port's initial value. */
  function PrefixDriver(assigns: seq<Assign>, p: Name, q: nat, start: Bits): (d: Driver)
    ensures forall k :: k in d <==> 0 <= k < |start| && InPrefixOf(assigns, p, q, |start|, k)
    ensures forall k :: k in d ==> d[k] == start[k]
  {
    map k | 0 <= k < |start| && InPrefixOf(assigns, p, q, |start|, k) :: start[k]
  }

  function PrefixDrivers(assigns: seq<Assign>, p: Name, processes: nat, start: Bits): seq<Driver> {
    seq(processes, q requires 0 <= q => PrefixDriver(assigns, p, q, start))
  }

  /** Each process drives exactly the bits of its static prefixes. */
  ghost predicate DrivesPrefixes(c: Contents, p: Name, width: nat, st: State) {
    && p in st.vals && p in st.drivers && |st.vals[p]| == width
    && forall q: nat, k: int ::
      q < |st.drivers[p]| ==> (k in st.drivers[p][q] <==> 0 <= k < width && InPrefixOf(c.assigns, p, q, width, k))
  }

  lemma {:induction false} StepKeepsPrefixes(c: Contents, ports: seq<Port>, p: Name, width: nat, st: State,
                                             others: Others)
    requires DrivesPrefixes(c, p, width, st) && IsNet(ports, p)
    ensures DrivesPrefixes(c, p, width, Step(c, ports, st, others))
  {
    var ws := WritesOf(c.assigns, st.vals);
    forall q: nat, k: int | q < |st.drivers[p]|
      ensures k in ToDriver(ws, p, q, width, st.drivers[p][q]) <==> k in st.drivers[p][q]
    {
      DriverGrowsBy(ws, p, q, width, st.drivers[p][q], k);
      if WrittenBy(ws, p, q, width, k) {
        var j :| 0 <= j < |ws| && Covers(ws[j], p, width, k) && ws[j].process == q;
        WritesWithinPrefixes(c.assigns, st.vals, p, j, k);
      }
    }
    assert |SignalsAfter(ws, ports, st)[p]| == width;
  }

  /** No run gives a process a driver that elaboration did not. */
  lemma {:induction false} RunKeepsPrefix(c: Contents, ports: seq<Port>, p: Name, env: Environment, st: State,
                                          processes: nat, start: Bits, k: nat)
    requires p in st.vals && p in st.drivers && |st.vals[p]| == |start| && IsNet(ports, p)
    requires st.drivers[p] == PrefixDrivers(c.assigns, p, processes, start)
    ensures DrivesPrefixes(c, p, |start|, Run(c, ports, env, st, k))
  {
    var step := (i: nat, s: State) => Reacting(c, ports, env, i, s);
    forall i: nat, s: State | DrivesPrefixes(c, p, |start|, s)
      ensures DrivesPrefixes(c, p, |start|, step(i, s))
    {
      StepKeepsPrefixes(c, ports, p, |start|, s, env(i, Nets(ports, s.vals)));
    }
    IteratedKeeps(step, s => DrivesPrefixes(c, p, |start|, s), st, k);
  }

  lemma {:induction false} IteratedKeeps(step: (nat, State) -> State, inv: State -> bool, st: State, k: nat)
    requires inv(st) && forall i: nat, s: State :: inv(s) ==> inv(step(i, s))
    ensures inv(Iterated(step, st, k))
  {
    if k != 0 {
      IteratedKeeps(step, inv, st, k - 1);
    }
  }

  /** The static prefixes of different processes do not meet; all processes are counted. */
  ghost predicate PrefixesApart(assigns: seq<Assign>, p: Name, width: nat, processes: nat) {
    && processes > 0
    && (forall q: nat, k: int :: InPrefixOf(assigns, p, q, width, k) ==> q < processes)
    && (forall q: nat, r: nat, k: int ::
      InPrefixOf(assigns, p, q, width, k) && InPrefixOf(assigns, p, r, width, k) ==> q == r)
  }

  /** The bit lies in some static prefix. */
  predicate InSomePrefix(assigns: seq<Assign>, p: Name, width: nat, k: int) {
    exists j :: 0 <= j < |assigns| && Drives(assigns[j], p)
      && InExtent(StaticPrefix(assigns[j].target, width).extent, k)
  }

  /** The process a bit belongs to; any will do for a bit in no prefix. */
  lemma {:induction false} PrefixOwner(assigns: seq<Assign>, p: Name, processes: nat, start: Bits, k: nat)
    returns (q: nat)
    requires PrefixesApart(assigns, p, |start|, processes) && k < |start|
    ensures Owns(assigns, p, PrefixDrivers(assigns, p, processes, start), |start|, k, q)
    ensures InPrefixOf(assigns, p, q, |start|, k) <==> InSomePrefix(assigns, p, |start|, k)
  {
    q := 0;
    if InSomePrefix(assigns, p, |start|, k) {
      var j :| 0 <= j < |assigns| && Drives(assigns[j], p)
               && InExtent(StaticPrefix(assigns[j].target, |start|).extent, k);
      q := assigns[j].process;
      assert InPrefixOf(assigns, p, q, |start|, k);
    }
  }

  /** What the processes drive together at elaboration. */
  lemma {:induction false} PrefixesStart(assigns: seq<Assign>, p: Name, processes: nat, start: Bits)
    requires PrefixesApart(assigns, p, |start|, processes)
    ensures var ds := PrefixDrivers(assigns, p, processes, start);
            Owned(assigns, p, ds, |start|)
            && forall k :: 0 <= k < |start| ==>
              RegOf(ds, |start|)[k] == if InSomePrefix(assigns, p, |start|, k) then start[k] else Z
  {
    var ds := PrefixDrivers(assigns, p, processes, start);
    forall k: nat | k < |start|
      ensures HasOwner(assigns, p, ds, |start|, k)
      ensures RegOf(ds, |start|)[k] == if InSomePrefix(assigns, p, |start|, k) then start[k] else Z
    {
      var q := PrefixOwner(assigns, p, processes, start, k);
      OwnerShows(ds, k, q);
    }
  }

  /** Bit by bit: written by the first run, or the reg starts at what the port's driver starts at. */
  predicate InitialValuesAgree(c: Contents, p: Name, st: State, start: Bits, reg: Bits) {
    |reg| == |start| && forall k :: 0 <= k < |start| ==>
      || WritesBit(WritesOf(c.assigns, st.vals), p, |start|, k)
      || reg[k] == if InSomePrefix(c.assigns, p, |start|, k) then start[k] else Z
  }

  // ---------------------------------------------------------------- the designs at elaboration

  /** What a declared signal starts at: its initial value, if that has the declared width. */
  function StartValue(d: Declaration): Bits {
    if |d.init| == d.width then d.init else seq(d.width, _ => X)
  }

  function Declared(ds: seq<Declaration>): Values {
    if |ds| == 0 then map[] else Declared(ds[..|ds| - 1])[ds[|ds| - 1].name := StartValue(ds[|ds| - 1])]
  }

  /**
   The state a design starts in: ports at their initial values, declared signals at theirs, and each
   process with its drivers of the ports.
   */
  function Elaborated(c: Contents, ports: seq<Port>, processes: nat, starts: Values): State {
    State(starts + Declared(c.declarations),
          map n | n in starts && IsNet(ports, n) :: PrefixDrivers(c.assigns, n, processes, starts[n]))
  }

  /** Every name is declared before the fresh ones, once, and the inout ports have initial values. */
  ghost predicate Elaborable(c: Contents, ports: seq<Port>, init: nat -> Bits, starts: Values) {
    && (forall n :: n in starts ==> Age(n) <= c.next && n !in Declared(c.declarations))
    && (forall n :: n in Declared(c.declarations) ==> Age(n) <= c.next)
    && (forall k :: 0 <= k < |ports| && ports[k].dir.Inout? ==>
         && ports[k].name in starts
         && |starts[ports[k].name]| == ports[k].width == |init(ports[k].width)|)
  }

  lemma DeclaredAppended(ds: seq<Declaration>, d: Declaration)
    ensures Declared(ds + [d]) == Declared(ds)[d.name := StartValue(d)]
  {
    assert (ds + [d])[..|ds|] == ds;
  }

  lemma {:induction false} PrefixElsewhere(c: Contents, p: Port, init: nat -> Bits, q: Name, width: nat, r: nat, k: int)
    requires p.dir.Inout? && DrivenByProcess(c.assigns, p.name) && Age(q) <= c.next && q != p.name
    ensures InPrefixOf(LowerPort(c, p, init).assigns, q, r, width, k) <==> InPrefixOf(c.assigns, q, r, width, k)
  {
    var driver := Generated(p.name, c.next);
    var moved := LowerPort(c, p, init).assigns;
    forall j | 0 <= j < |moved|
      ensures Drives(moved[j], q) <==> Drives(c.assigns[j], q)
      ensures Drives(c.assigns[j], q) ==> moved[j] == c.assigns[j]
    {
      assert moved[j] == MoveTarget(c.assigns[j], p.name, driver);
      RetargetTwice(c.assigns[j].target, driver, driver);
    }
    if InPrefixOf(moved, q, r, width, k) {
      var j :| 0 <= j < |moved| && Drives(moved[j], q) && moved[j].process == r
               && InExtent(StaticPrefix(moved[j].target, width).extent, k);
      assert Drives(c.assigns[j], q) && c.assigns[j].process == r;
    }
    if InPrefixOf(c.assigns, q, r, width, k) {
      var j :| 0 <= j < |moved| && Drives(c.assigns[j], q) && c.assigns[j].process == r
               && InExtent(StaticPrefix(c.assigns[j].target, width).extent, k);
      assert Drives(moved[j], q) && moved[j].process == r;
    }
  }

  lemma NoPrefixHere(c: Contents, p: Port, init: nat -> Bits, width: nat, r: nat, k: int)
    requires p.dir.Inout? && DrivenByProcess(c.assigns, p.name) && Age(p.name) <= c.next
    ensures !InPrefixOf(LowerPort(c, p, init).assigns, p.name, r, width, k)
  {
    LowerPortUndrives(c, p, init, p.name);
  }

  /** The drivers at elaboration: the lowered port's are released, the others are as they were. */
  lemma DriversElaborated(c: Contents, p: Port, init: nat -> Bits, q: Name, processes: nat, start: Bits)
    requires p.dir.Inout? && DrivenByProcess(c.assigns, p.name) && Age(p.name) <= c.next && Age(q) <= c.next
    ensures PrefixDrivers(LowerPort(c, p, init).assigns, q, processes, start)
         == if q == p.name then Released(processes) else PrefixDrivers(c.assigns, q, processes, start)
  {
    var moved := LowerPort(c, p, init).assigns;
    forall r: nat | r < processes
      ensures PrefixDriver(moved, q, r, start) == if q == p.name then map[] else PrefixDriver(c.assigns, q, r, start)
    {
      forall k: int
        ensures InPrefixOf(moved, q, r, |start|, k) <==> q != p.name && InPrefixOf(c.assigns, q, r, |start|, k)
      {
        if q == p.name {
          NoPrefixHere(c, p, init, |start|, r, k);
        } else {
          PrefixElsewhere(c, p, init, q, |start|, r, k);
        }
      }
      assert forall k: int :: k in PrefixDriver(moved, q, r, start) <==>
          q != p.name && k in PrefixDriver(c.assigns, q, r, start);
    }
  }

  lemma RegElaborated(c: Contents, ports: seq<Port>, p: Port, init: nat -> Bits, processes: nat, starts: Values)
    requires p.dir.Inout? && DrivenByProcess(c.assigns, p.name) && |init(p.width)| == p.width
    ensures Elaborated(LowerPort(c, p, init), ports, processes, starts).vals
         == Elaborated(c, ports, processes, starts).vals[Generated(p.name, c.next) := init(p.width)]
  {
    DeclaredAppended(c.declarations, Declaration(Generated(p.name, c.next), p.width, init(p.width)));
  }

  lemma PortElaborated(c: Contents, ports: seq<Port>, p: Port, init: nat -> Bits, processes: nat, starts: Values)
    requires Lowerable(c, ports, p) && p.name in starts && forall n :: n in starts ==> Age(n) <= c.next
    ensures var st := Elaborated(c, ports, processes, starts);
            p.name in st.drivers && |st.drivers[p.name]| == processes
            && Elaborated(LowerPort(c, p, init), ports, processes, starts).drivers
               == st.drivers[p.name := Released(processes)]
  {
    forall n | n in starts && IsNet(ports, n)
      ensures PrefixDrivers(LowerPort(c, p, init).assigns, n, processes, starts[n])
           == if n == p.name then Released(processes) else PrefixDrivers(c.assigns, n, processes, starts[n])
    {
      DriversElaborated(c, p, init, n, processes, starts[n]);
    }
    SameMaps(Elaborated(LowerPort(c, p, init), ports, processes, starts).drivers,
             Elaborated(c, ports, processes, starts).drivers[p.name := Released(processes)]);
  }

  lemma StaysElaborable(c: Contents, ports: seq<Port>, p: Port, init: nat -> Bits, starts: Values)
    requires p.dir.Inout? && DrivenByProcess(c.assigns, p.name) && Elaborable(c, ports, init, starts)
    ensures Elaborable(LowerPort(c, p, init), ports, init, starts)
  {
    DeclaredAppended(c.declarations, Declaration(Generated(p.name, c.next), p.width, init(p.width)));
    assert Age(Generated(p.name, c.next)) == c.next + 1;
  }

  /** The lowered design starts with the declared reg in place of the drivers. */
  lemma {:induction false} ElaboratedFollows(c: Contents, ports: seq<Port>, p: Port, init: nat -> Bits, processes: nat,
                                             starts: Values)
    requires Lowerable(c, ports, p) && p in ports && Elaborable(c, ports, init, starts)
    ensures var l := LowerPort(c, p, init);
            && Follows(p.name, Generated(p.name, c.next), Elaborated(c, ports, processes, starts),
                       Elaborated(l, ports, processes, starts), init(p.width))
            && Elaborable(l, ports, init, starts)
  {
    var j :| 0 <= j < |ports| && ports[j] == p;
    assert p.name in starts && |starts[p.name]| == p.width == |init(p.width)|;
    RegElaborated(c, ports, p, init, processes, starts);
    PortElaborated(c, ports, p, init, processes, starts);
    StaysElaborable(c, ports, p, init, starts);
    assert Age(Generated(p.name, c.next)) > c.next;
  }

  /** Reg and drivers start alike from elaboration exactly when the initial values agree. */
  lemma AlikeByPrefix(c: Contents, ports: seq<Port>, p: Port, init: nat -> Bits, processes: nat, starts: Values)
    requires Lowerable(c, ports, p) && p in ports && Elaborable(c, ports, init, starts)
    requires PrefixesApart(c.assigns, p.name, p.width, processes)
    ensures var st := Elaborated(c, ports, processes, starts);
            && p.name in st.vals && p.name in st.drivers && |st.vals[p.name]| == p.width
            && Owned(c.assigns, p.name, st.drivers[p.name], p.width)
            && (StartsAlike(c, p.name, st, init(p.width)) <==>
                InitialValuesAgree(c, p.name, st, starts[p.name], init(p.width)))
  {
    var j :| 0 <= j < |ports| && ports[j] == p;
    assert p.name in starts && |starts[p.name]| == p.width == |init(p.width)|;
    PrefixesStart(c.assigns, p.name, processes, starts[p.name]);
  }

  /**
   Main result for one run from elaboration, the reg at its declared initial value. If the static
   prefixes of different processes do not meet and the initial values agree, every net holds the
   same value as in the original after every step, whatever the other drivers do in reaction.
   */
  lemma {:induction false} NetsAgree(c: Contents, ports: seq<Port>, p: Port, init: nat -> Bits, processes: nat,
                                     starts: Values, env: Environment, k: nat)
    requires Lowerable(c, ports, p) && p in ports && Elaborable(c, ports, init, starts)
    requires PrefixesApart(c.assigns, p.name, p.width, processes)
    requires InitialValuesAgree(c, p.name, Elaborated(c, ports, processes, starts), starts[p.name], init(p.width))
    ensures var l := LowerPort(c, p, init);
            Nets(ports, Run(c, ports, env, Elaborated(c, ports, processes, starts), k).vals)
            == Nets(ports, Run(l, ports, env, Elaborated(l, ports, processes, starts), k).vals)
  {
    ElaboratedFollows(c, ports, p, init, processes, starts);
    AlikeByPrefix(c, ports, p, init, processes, starts);
    RelatedAgree(c, ports, p, init, env, Elaborated(c, ports, processes, starts),
                 Elaborated(LowerPort(c, p, init), ports, processes, starts), init(p.width), k);
  }

  /**
   Main result, from elaboration: the port starts at its initial value, the reg at its declared one,
   and the static prefixes of different processes do not meet. The nets agree at every step of every
   run if and only if each bit is written by the first run, or lies in a static prefix and both start
   alike there, or lies in none and the reg starts at high impedance.
   */
  lemma {:induction false} AgreeByPrefix(c: Contents, ports: seq<Port>, p: Port, init: nat -> Bits, processes: nat,
                                         starts: Values)
    requires Lowerable(c, ports, p) && NoOtherLink(c, p.name) && p in ports && Elaborable(c, ports, init, starts)
    requires PrefixesApart(c.assigns, p.name, p.width, processes)
    ensures var st := Elaborated(c, ports, processes, starts);
            var l := LowerPort(c, p, init);
            NetsForever(c, l, ports, st, Elaborated(l, ports, processes, starts))
            <==> InitialValuesAgree(c, p.name, st, starts[p.name], init(p.width))
  {
    ElaboratedFollows(c, ports, p, init, processes, starts);
    AlikeByPrefix(c, ports, p, init, processes, starts);
    NetsAgreeIff(c, ports, p, init, Elaborated(c, ports, processes, starts),
                 Elaborated(LowerPort(c, p, init), ports, processes, starts), init(p.width));
  }

  // ---------------------------------------------------------------- all the ports of a view

  /** For every driven port: prefixes of different processes do not meet, and the initial values agree. */
  ghost predicate Ready(c: Contents, ports: seq<Port>, init: nat -> Bits, processes: nat, starts: Values) {
    forall k :: 0 <= k < |ports| ==> ReadyAt(c, ports, ports[k], init, processes, starts)
  }

  ghost predicate ReadyAt(c: Contents, ports: seq<Port>, p: Port, init: nat -> Bits, processes: nat, starts: Values) {
    p.dir.Inout? && DrivenByProcess(c.assigns, p.name) ==>
      && p.name in starts && PrefixesApart(c.assigns, p.name, p.width, processes)
      && InitialValuesAgree(c, p.name, Elaborated(c, ports, processes, starts), starts[p.name], init(p.width))
  }

  lemma {:induction false} RetargetMentions(t: Target, driver: Name, n: Name)
    requires !TargetMentions(t, n) && n != driver
    ensures !TargetMentions(Retarget(t, driver), n)
  {
    match t
    case Whole(_) =>
    case BitOf(t1, _) => RetargetMentions(t1, driver, n);
    case PartOf(t1, _, _) => RetargetMentions(t1, driver, n);
  }

  lemma LowerPortFresh(c: Contents, p: Port, init: nat -> Bits)
    requires FreshAhead(c)
    ensures FreshAhead(LowerPort(c, p, init))
  {
    var r := LowerPort(c, p, init);
    if r != c {
      var driver := Generated(p.name, c.next);
      forall n: Name | Age(n) > r.next
        ensures Unused(r, n)
      {
        assert Unused(c, n) && n != driver;
        forall k | 0 <= k < |r.assigns|
          ensures UnusedIn(r.assigns[k], n)
        {
          assert r.assigns[k] == MoveTarget(c.assigns[k], p.name, driver);
          RetargetMentions(c.assigns[k].target, driver, n);
        }
      }
    }
  }

  lemma {:induction false} RedirectedBit(ws: seq<Write>, p: Name, driver: Name, q: Name, width: nat, k: int)
    requires q != p && q != driver
    ensures WritesBit(Redirect(ws, p, driver), q, width, k) <==> WritesBit(ws, q, width, k)
  {
    if |ws| != 0 {
      Split(ws, q, 0, width, k);
      Split(Redirect(ws, p, driver), q, 0, width, k);
      assert Redirect(ws, p, driver)[1..] == Redirect(ws[1..], p, driver);
      RedirectedBit(ws[1..], p, driver, q, width, k);
    }
  }

  /** What is written to the other ports first is written to them still. */
  lemma {:induction false} FirstWritesElsewhere(c: Contents, ports: seq<Port>, p: Port, init: nat -> Bits,
                                                processes: nat, starts: Values, q: Name, width: nat, k: int)
    requires Lowerable(c, ports, p) && p in ports && Elaborable(c, ports, init, starts)
    requires Age(q) <= c.next && q != p.name
    ensures var l := LowerPort(c, p, init);
            WritesBit(WritesOf(l.assigns, Elaborated(l, ports, processes, starts).vals), q, width, k)
            <==> WritesBit(WritesOf(c.assigns, Elaborated(c, ports, processes, starts).vals), q, width, k)
  {
    var driver := Generated(p.name, c.next);
    var st := Elaborated(c, ports, processes, starts);
    ElaboratedFollows(c, ports, p, init, processes, starts);
    WritesRedirected(c.assigns, p.name, driver, st.vals, init(p.width));
    RedirectedBit(WritesOf(c.assigns, st.vals), p.name, driver, q, width, k);
  }

  lemma SomePrefixElsewhere(c: Contents, p: Port, init: nat -> Bits, q: Name, width: nat, k: int)
    requires p.dir.Inout? && DrivenByProcess(c.assigns, p.name) && Age(q) <= c.next && q != p.name
    ensures InSomePrefix(LowerPort(c, p, init).assigns, q, width, k) <==> InSomePrefix(c.assigns, q, width, k)
  {
    var moved := LowerPort(c, p, init).assigns;
    if InSomePrefix(moved, q, width, k) {
      var j :| 0 <= j < |moved| && Drives(moved[j], q) && InExtent(StaticPrefix(moved[j].target, width).extent, k);
      assert InPrefixOf(moved, q, moved[j].process, width, k);
      PrefixElsewhere(c, p, init, q, width, moved[j].process, k);
    }
    if InSomePrefix(c.assigns, q, width, k) {
      var j :| 0 <= j < |c.assigns| && Drives(c.assigns[j], q)
               && InExtent(StaticPrefix(c.assigns[j].target, width).extent, k);
      assert InPrefixOf(c.assigns, q, c.assigns[j].process, width, k);
      PrefixElsewhere(c, p, init, q, width, c.assigns[j].process, k);
    }
  }

  lemma {:induction false} ApartElsewhere(c: Contents, p: Port, init: nat -> Bits, q: Name, width: nat, processes: nat)
    requires p.dir.Inout? && DrivenByProcess(c.assigns, p.name) && Age(q) <= c.next && q != p.name
    requires PrefixesApart(c.assigns, q, width, processes)
    ensures PrefixesApart(LowerPort(c, p, init).assigns, q, width, processes)
  {
    var moved := LowerPort(c, p, init).assigns;
    forall r: nat, k: int
      ensures InPrefixOf(moved, q, r, width, k) <==> InPrefixOf(c.assigns, q, r, width, k)
    {
      PrefixElsewhere(c, p, init, q, width, r, k);
    }
  }

  /** Lowering one port leaves the others ready. */
  lemma {:induction false} OtherStaysReady(c: Contents, ports: seq<Port>, p: Port, init: nat -> Bits, processes: nat,
                                           starts: Values, q: Port)
    requires Lowerable(c, ports, p) && p in ports && Elaborable(c, ports, init, starts)
    requires ReadyAt(c, ports, q, init, processes, starts) && Age(q.name) <= c.next
    ensures ReadyAt(LowerPort(c, p, init), ports, q, init, processes, starts)
  {
    var l := LowerPort(c, p, init);
    LowerPortUndrives(c, p, init, q.name);
    if q.dir.Inout? && DrivenByProcess(l.assigns, q.name) {
      var start := starts[q.name];
      ApartElsewhere(c, p, init, q.name, q.width, processes);
      forall k | 0 <= k < |start|
        ensures WritesBit(WritesOf(l.assigns, Elaborated(l, ports, processes, starts).vals), q.name, |start|, k)
            <==> WritesBit(WritesOf(c.assigns, Elaborated(c, ports, processes, starts).vals), q.name, |start|, k)
        ensures InSomePrefix(l.assigns, q.name, |start|, k) <==> InSomePrefix(c.assigns, q.name, |start|, k)
      {
        FirstWritesElsewhere(c, ports, p, init, processes, starts, q.name, |start|, k);
        SomePrefixElsewhere(c, p, init, q.name, |start|, k);
      }
    }
  }

  /**
   All inout ports of a view lowered in turn: from elaboration, every reg at its declared initial
   value, the nets agree at every step of every run.
   */
  lemma {:induction false} AllNetsAgree(c: Contents, ports: seq<Port>, rest: seq<Port>, init: nat -> Bits,
                                        processes: nat, starts: Values, env: Environment, k: nat)
    requires FreshAhead(c) && Older(ports, c.next) && Elaborable(c, ports, init, starts)
    requires Ready(c, ports, init, processes, starts) && forall j :: 0 <= j < |rest| ==> rest[j] in ports
    ensures var l := LowerPorts(c, rest, init);
            Nets(ports, Run(c, ports, env, Elaborated(c, ports, processes, starts), k).vals)
            == Nets(ports, Run(l, ports, env, Elaborated(l, ports, processes, starts), k).vals)
    decreases |rest|
  {
    if |rest| != 0 {
      var p := rest[0];
      var c1 := LowerPort(c, p, init);
      var j :| 0 <= j < |ports| && ports[j] == p;
      assert Older(ports, c1.next);
      LowerPortFresh(c, p, init);
      if p.dir.Inout? && DrivenByProcess(c.assigns, p.name) {
        assert Age(Generated(p.name, c.next)) > c.next;
        assert Unused(c, Generated(p.name, c.next)) && ReadyAt(c, ports, p, init, processes, starts);
        NetsAgree(c, ports, p, init, processes, starts, env, k);
        ElaboratedFollows(c, ports, p, init, processes, starts);
        forall i | 0 <= i < |ports|
          ensures ReadyAt(c1, ports, ports[i], init, processes, starts)
        {
          OtherStaysReady(c, ports, p, init, processes, starts, ports[i]);
        }
      }
      AllNetsAgree(c1, ports, rest[1..], init, processes, starts, env, k);
    }
  }

  /** The high-impedance start is exact: a bit left at any other value shows on some net. */
  lemma IdleStartIsExact(reg: Logic)
    ensures (forall others: Bits :: Resolution.Resolve([reg] + others) == Resolution.Resolve(others)) <==> reg == Z
  {
    if reg == Z {
      forall others: Bits
        ensures Resolution.Resolve([reg] + others) == Resolution.Resolve(others)
      {
        Resolution.IdleDriver(others);
      }
    } else {
      var others: Bits := [];
      assert [reg] + others == [reg];
      assert Resolution.Resolve([reg] + others) != Resolution.Resolve(others);
    }
  }

  // ---------------------------------------------------------------- instances

  const B: Name := Source("b")
  const I: Name := Source("i")

  /** b(i) <= '1' on a two-bit inout port, i an input. */
  const DYNAMIC: Assign := Assign(Lit([L1]), BitOf(Whole(B), Ref(I)), Lit([L1]), true, 0)
  const DYNAMIC_VIEW: Contents := Contents([DYNAMIC], [], [], 0)
  const DYNAMIC_PORTS: seq<Port> := [Port(B, Inout, 2), Port(I, In, 1)]

  /** The port at X, the input at 0. */
  const DYNAMIC_STARTS: Values := map[B := [X, X], I := [L0]]

  lemma {:induction false} DynamicPrefix(q: nat, k: int)
    ensures InPrefixOf([DYNAMIC], B, q, 2, k) <==> q == 0 && 0 <= k < 2
    ensures InSomePrefix([DYNAMIC], B, 2, k) <==> 0 <= k < 2
  {
    assert StaticPrefix(DYNAMIC.target, 2).extent == Extent(0, 2);
    if 0 <= k < 2 {
      assert Drives([DYNAMIC][0], B) && InExtent(StaticPrefix([DYNAMIC][0].target, 2).extent, k);
    }
  }

  lemma {:induction false} DynamicWrites()
    ensures !WritesBit(WritesOf([DYNAMIC], Elaborated(DYNAMIC_VIEW, DYNAMIC_PORTS, 1, DYNAMIC_STARTS).vals), B, 2, 1)
  {
    var vals := Elaborated(DYNAMIC_VIEW, DYNAMIC_PORTS, 1, DYNAMIC_STARTS).vals;
    assert Get(vals, I) == [L0] && [L0][..0] == [];
    assert ToIndex([L0]) == 0;
    assert ExtentOf(DYNAMIC.target, vals) == Extent(0, 1);
    assert WriteOf(DYNAMIC, vals) == [Write(B, 0, 0, [L1])];
    assert [DYNAMIC][1..] == [];
    assert WritesOf([DYNAMIC], vals) == [Write(B, 0, 0, [L1])];
  }

  /** The port starts at X and the reg at high impedance: the bit not yet written shows the difference. */
  lemma {:induction false} DynamicParts(init: nat -> Bits)
    requires init(2) == [Z, Z]
    ensures var c, p := DYNAMIC_VIEW, DYNAMIC_PORTS[0];
            var l := LowerPort(c, p, init);
            && Lowerable(c, DYNAMIC_PORTS, p)
            && !NetsForever(c, l, DYNAMIC_PORTS, Elaborated(c, DYNAMIC_PORTS, 1, DYNAMIC_STARTS),
                            Elaborated(l, DYNAMIC_PORTS, 1, DYNAMIC_STARTS))
  {
    DynamicLowerable(init);
    DynamicPrefix(0, 1);
    DynamicWrites();
    AgreeByPrefix(DYNAMIC_VIEW, DYNAMIC_PORTS, DYNAMIC_PORTS[0], init, 1, DYNAMIC_STARTS);
  }

  lemma {:induction false} DynamicLowerable(init: nat -> Bits)
    requires |init(2)| == 2
    ensures Lowerable(DYNAMIC_VIEW, DYNAMIC_PORTS, DYNAMIC_PORTS[0]) && DYNAMIC_PORTS[0] in DYNAMIC_PORTS
    ensures Elaborable(DYNAMIC_VIEW, DYNAMIC_PORTS, init, DYNAMIC_STARTS) && PrefixesApart([DYNAMIC], B, 2, 1)
  {
    assert Drives(DYNAMIC_VIEW.assigns[0], B);
    forall q: nat, k: int
      ensures InPrefixOf([DYNAMIC], B, q, 2, k) <==> q == 0 && 0 <= k < 2
    {
      DynamicPrefix(q, k);
    }
  }

  /** Two processes that drive one bit to v and to w. */
  function Shared(v: Logic, w: Logic): Contents {
    Contents([Assign(Lit([L1]), Whole(B), Lit([v]), true, 0), Assign(Lit([L1]), Whole(B), Lit([w]), true, 1)],
             [], [], 0)
  }

  function SharedStart(v: Logic, w: Logic): State {
    Elaborated(Shared(v, w), [Port(B, Inout, 1)], 2, map[B := [Z]])
  }

  /** The reg holds only the last of them: the nets part unless it is what both drivers resolve to. */
  lemma {:induction false} SharedParts(v: Logic, w: Logic, init: nat -> Bits)
    requires Resolution.Resolve([v, w]) != w && |init(1)| == 1
    ensures var c, p := Shared(v, w), Port(B, Inout, 1);
            var l := LowerPort(c, p, init);
            && Lowerable(c, [p], p)
            && !NetsForever(c, l, [p], SharedStart(v, w), Elaborated(l, [p], 2, map[B := [Z]]))
  {
    var c, p := Shared(v, w), Port(B, Inout, 1);
    SharedLowerable(v, w);
    assert p in [p] && Elaborable(c, [p], init, map[B := [Z]]);
    ElaboratedFollows(c, [p], p, init, 2, map[B := [Z]]);
    SharedWrites(v, w);
    SharedReg(v, w, init(1));
    SharedDrivers(v, w);
    NetsPart(c, [p], p, init, SharedStart(v, w), Elaborated(LowerPort(c, p, init), [p], 2, map[B := [Z]]), init(1));
  }

  lemma SharedLowerable(v: Logic, w: Logic)
    ensures Lowerable(Shared(v, w), [Port(B, Inout, 1)], Port(B, Inout, 1)) && NoOtherLink(Shared(v, w), B)
  {
    assert Drives(Shared(v, w).assigns[0], B) && [Port(B, Inout, 1)][0] == Port(B, Inout, 1);
  }

  lemma {:induction false} SharedWrites(v: Logic, w: Logic)
    ensures WritesOf(Shared(v, w).assigns, SharedStart(v, w).vals) == [Write(B, 0, 0, [v])] + [Write(B, 1, 0, [w])]
  {
    var vals := SharedStart(v, w).vals;
    var a, b := Shared(v, w).assigns[0], Shared(v, w).assigns[1];
    assert WriteOf(a, vals) == [Write(B, 0, 0, [v])] && WriteOf(b, vals) == [Write(B, 1, 0, [w])];
    assert Shared(v, w).assigns[1..] == [b] && [b][1..] == [];
    assert WritesOf([b], vals) == [Write(B, 1, 0, [w])];
  }

  lemma {:induction false} SharedReg(v: Logic, w: Logic, reg: Bits)
    requires |reg| == 1
    ensures var ws := [Write(B, 0, 0, [v])] + [Write(B, 1, 0, [w])];
            ToSignal(Redirect(ws, B, Generated(B, 0)), Generated(B, 0), reg) == [w]
  {
    var driver := Generated(B, 0);
    var first, second := Write(B, 0, 0, [v]), Write(B, 1, 0, [w]);
    RedirectConcat([first], [second], B, driver);
    assert [first][1..] == [second][1..] == [];
    assert Redirect([first], B, driver) == [Write(driver, 0, 0, [v])];
    assert Redirect([second], B, driver) == [Write(driver, 1, 0, [w])];
    LastWrite([Write(driver, 0, 0, [v])], Write(driver, 1, 0, [w]), driver, reg);
  }

  /** A write of the whole signal leaves what it writes. */
  lemma {:induction false} LastWrite(ws: seq<Write>, w: Write, n: Name, v: Bits)
    requires w.n == n && w.low == 0 && |w.bits| == |v|
    ensures ToSignal(ws + [w], n, v) == w.bits
  {
    if |ws| == 0 {
      assert ws + [w] == [w] && [w][1..] == [];
      assert v[..0] + w.bits + v[|v|..] == w.bits;
    } else {
      assert (ws + [w])[1..] == ws[1..] + [w];
      LastWrite(ws[1..], w, n, Put(ws[0], n, v));
    }
  }

  lemma {:induction false} TwoWrites(a: Write, b: Write, n: Name, q: nat, width: nat, d: Driver)
    ensures ToDriver([a] + [b], n, q, width, d) == PutBits(b, n, q, width, PutBits(a, n, q, width, d))
  {
    var e := PutBits(a, n, q, width, d);
    assert ([a] + [b])[1..] == [b] && [b][1..] == [];
    assert ToDriver([a] + [b], n, q, width, d) == ToDriver([b], n, q, width, e);
  }

  /** Each process's driver after its write, whatever it held before. */
  lemma {:induction false} SharedDriver(v: Logic, w: Logic, q: nat, d: Driver)
    requires q < 2 && d.Keys <= {0}
    ensures var ws := [Write(B, 0, 0, [v])] + [Write(B, 1, 0, [w])];
            ToDriver(ws, B, q, 1, d) == map[0 := if q == 0 then v else w]
  {
    var own := if q == 0 then v else w;
    TwoWrites(Write(B, 0, 0, [v]), Write(B, 1, 0, [w]), B, q, 1, d);
    assert Placed(0, [own]) == map[0 := own];
    assert d + map[0 := own] == map[0 := own];
  }

  lemma SharedStarts(v: Logic, w: Logic)
    ensures B in SharedStart(v, w).drivers
    ensures var ds := SharedStart(v, w).drivers[B]; |ds| == 2 && ds[0].Keys <= {0} && ds[1].Keys <= {0}
  {
    assert [Port(B, Inout, 1)][0].name == B;
  }

  lemma {:induction false} SharedDrivers(v: Logic, w: Logic)
    ensures B in SharedStart(v, w).drivers
    ensures var ws := [Write(B, 0, 0, [v])] + [Write(B, 1, 0, [w])];
            RegOf(ToDrivers(ws, B, 1, SharedStart(v, w).drivers[B]), 1) == [Resolution.Resolve([v, w])]
  {
    var ws := [Write(B, 0, 0, [v])] + [Write(B, 1, 0, [w])];
    SharedStarts(v, w);
    var starts := SharedStart(v, w).drivers[B];
    SharedDriver(v, w, 0, starts[0]);
    SharedDriver(v, w, 1, starts[1]);
    TwoBits(ToDrivers(ws, B, 1, starts), v, w);
  }

  lemma {:induction false} TwoBits(ds: seq<Driver>, v: Logic, w: Logic)
    requires |ds| == 2 && ds[0] == map[0 := v] && ds[1] == map[0 := w]
    ensures DriverBits(ds, 0) == [v, w]
  {
    assert ds[1..] == [map[0 := w]] && ds[1..][1..] == [];
    assert DriverBits(ds, 0) == [v] + DriverBits(ds[1..], 0);
  }
}
