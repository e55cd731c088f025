/**
 The registry of delayed assignments: one object per pending `<= ... after` statement, of which
 at most one per source line and time may still fire.

 Objects are copied as the simulator stores them, and a copy takes the event of its original. The
 functions on State say what each operation does; AfterRegistry performs them on the heap.
 RunKeepsInvariant holds of every run; Handover follows one assignment through its copies, and
 CopyDecides says exactly when a copy loses the assignment it displaces.
 */
module AfterRegistry {
  import opened Wrappers

  /** Line, file and time of the statement's execution. */
  datatype Key = Key(line: int, file: string, time: nat)

  datatype Cell<E> = Cell(event: Option<E>, file: string, line: int, active: bool, time: nat)

  function KeyOf<E>(c: Cell<E>): Key {
    Key(c.line, c.file, c.time)
  }

  datatype State<A(==), E(==)> = State(
    objects: map<A, Cell<E>>,
    registry: map<Key, A>,
    created: set<E>,
    deleted: multiset<E>)

  // ---------------------------------------------------------------- the operations

  function Disabled<A(==), E(==)>(s: State<A, E>, a: A): State<A, E> {
    if a in s.objects then s.(objects := s.objects[a := s.objects[a].(active := false)]) else s
  }

  function Registered<A(==), E(==)>(s: State<A, E>, a: A): State<A, E>
    requires a in s.objects
  {
    var k := KeyOf(s.objects[a]);
    var s1 := if k in s.registry then Disabled(s, s.registry[k]) else s;
    s1.(registry := s1.registry[k := a])
  }

  function Unregistered<A(==), E(==)>(s: State<A, E>, a: A): State<A, E>
    requires a in s.objects
  {
    var k := KeyOf(s.objects[a]);
    if k in s.registry && s.registry[k] == a then s.(registry := s.registry - {k}) else s
  }

  function Constructed<A(==), E(==)>(s: State<A, E>, a: A, e: E, file: string, line: int, now: nat): State<A, E> {
    Registered(WithNew(s, a, e, file, line, now), a)
  }

  function WithNew<A(==), E(==)>(s: State<A, E>, a: A, e: E, file: string, line: int, now: nat): State<A, E> {
    s.(objects := s.objects[a := Cell(Some(e), file, line, true, now)], created := s.created + {e})
  }

  /** The copy takes the event over, and the activity as it stands. */
  function Copied<A(==), E(==)>(s: State<A, E>, other: A, a: A): State<A, E>
    requires other in s.objects
  {
    Registered(WithCopy(s, other, a), a)
  }

  function WithCopy<A(==), E(==)>(s: State<A, E>, other: A, a: A): State<A, E>
    requires other in s.objects
  {
    var c := s.objects[other];
    s.(objects := s.objects[other := c.(event := None)][a := c])
  }

  function Destroyed<A(==), E(==)>(s: State<A, E>, a: A): State<A, E>
    requires a in s.objects
  {
    Removed(Unregistered(s, a), a)
  }

  /** The object goes, and the event it owns with it. */
  function Removed<A(==), E(==)>(s: State<A, E>, a: A): State<A, E>
    requires a in s.objects
  {
    var c := s.objects[a];
    s.(objects := s.objects - {a}, deleted := if c.event.Some? then s.deleted + multiset{c.event.value} else s.deleted)
  }

  // ---------------------------------------------------------------- what every run keeps

  /** An entry points to a live object with that key. */
  predicate EntriesLive<A(==), E(==)>(s: State<A, E>) {
    forall k <- s.registry.Keys :: s.registry[k] in s.objects && KeyOf(s.objects[s.registry[k]]) == k
  }

  predicate IsRegistered<A(==), E(==)>(s: State<A, E>, a: A)
    requires a in s.objects
  {
    KeyOf(s.objects[a]) in s.registry && s.registry[KeyOf(s.objects[a])] == a
  }

  /** An object that may still fire is the one registered for its key. */
  predicate ActiveRegistered<A(==), E(==)>(s: State<A, E>) {
    forall a <- s.objects.Keys :: s.objects[a].active ==> IsRegistered(s, a)
  }

  predicate Owns<A(==), E(==)>(s: State<A, E>, a: A, e: E) {
    a in s.objects && s.objects[a].event == Some(e)
  }

  predicate Owned<A(==), E(==)>(s: State<A, E>, e: E) {
    exists a <- s.objects.Keys :: Owns(s, a, e)
  }

  predicate SoleOwners<A(==), E(==)>(s: State<A, E>) {
    forall a <- s.objects.Keys, b <- s.objects.Keys, e <- s.created :: Owns(s, a, e) && Owns(s, b, e) ==> a == b
  }

  predicate OwnedCreated<A(==), E(==)>(s: State<A, E>) {
    forall a <- s.objects.Keys :: s.objects[a].event.Some? ==> s.objects[a].event.value in s.created
  }

  /** An event is owned until it is deleted, and is deleted once. */
  predicate DeletedOnce<A(==), E(==)>(s: State<A, E>) {
    && (forall e <- s.created :: s.deleted[e] == if Owned(s, e) then 0 else 1)
    && (forall e <- s.deleted :: e in s.created)
  }

  predicate RegistryInvariant<A(==), E(==)>(s: State<A, E>) {
    EntriesLive(s) && ActiveRegistered(s)
  }

  predicate OwnershipInvariant<A(==), E(==)>(s: State<A, E>) {
    SoleOwners(s) && OwnedCreated(s) && DeletedOnce(s)
  }

  predicate Invariant<A(==), E(==)>(s: State<A, E>) {
    RegistryInvariant(s) && OwnershipInvariant(s)
  }

  /** The two states differ only in what may fire and in the registry. */
  predicate SameEvents<A(==), E(==)>(s: State<A, E>, t: State<A, E>) {
    && s.objects.Keys == t.objects.Keys && s.created == t.created && s.deleted == t.deleted
    && (forall a <- s.objects.Keys :: t.objects[a].event == s.objects[a].event)
  }

  lemma SameOwnership<A, E>(s: State<A, E>, t: State<A, E>)
    requires OwnershipInvariant(s) && SameEvents(s, t)
    ensures OwnershipInvariant(t)
  {
    assert forall b <- s.objects.Keys, e <- s.created :: Owns(t, b, e) == Owns(s, b, e);
    forall e | e in s.created
      ensures Owned(t, e) == Owned(s, e)
    {
      if Owned(s, e) {
        var b :| b in s.objects.Keys && Owns(s, b, e);
        assert Owns(t, b, e);
      }
      if Owned(t, e) {
        var b :| b in t.objects.Keys && Owns(t, b, e);
        assert Owns(s, b, e);
      }
    }
  }

  /** An object that no entry points to. */
  predicate Unlisted<A(==), E(==)>(s: State<A, E>, a: A) {
    forall k <- s.registry.Keys :: s.registry[k] != a
  }

  predicate OthersRegistered<A(==), E(==)>(s: State<A, E>, a: A) {
    forall b <- s.objects.Keys :: b != a && s.objects[b].active ==> IsRegistered(s, b)
  }

  lemma RegisteredKeeps<A, E>(s: State<A, E>, a: A)
    requires a in s.objects && EntriesLive(s) && Unlisted(s, a) && OthersRegistered(s, a)
    ensures RegistryInvariant(Registered(s, a)) && SameEvents(s, Registered(s, a))
  {
    var k := KeyOf(s.objects[a]);
    var t := Registered(s, a);
    assert forall b <- s.objects.Keys :: KeyOf(t.objects[b]) == KeyOf(s.objects[b]);
    forall b | b in t.objects.Keys && t.objects[b].active
      ensures IsRegistered(t, b)
    {
      if b != a {
        assert IsRegistered(s, b);
        assert KeyOf(s.objects[b]) != k;
      }
    }
  }

  lemma DisabledKeeps<A, E>(s: State<A, E>, a: A)
    requires Invariant(s)
    ensures Invariant(Disabled(s, a))
  {
    SameOwnership(s, Disabled(s, a));
  }

  lemma ConstructedKeeps<A, E>(s: State<A, E>, a: A, e: E, file: string, line: int, now: nat)
    requires Invariant(s) && a !in s.objects && e !in s.created
    ensures Invariant(Constructed(s, a, e, file, line, now))
  {
    var u := WithNew(s, a, e, file, line, now);
    assert OwnershipInvariant(u) by {
      NewOwner(s, u, a, e);
    }
    RegisteredKeeps(u, a);
    SameOwnership(u, Registered(u, a));
  }

  lemma NewOwner<A, E>(s: State<A, E>, u: State<A, E>, a: A, e: E)
    requires OwnershipInvariant(s) && a !in s.objects && e !in s.created
    requires u.objects.Keys == s.objects.Keys + {a} && u.created == s.created + {e} && u.deleted == s.deleted
    requires u.objects[a].event == Some(e) && (forall b <- s.objects.Keys :: u.objects[b].event == s.objects[b].event)
    ensures OwnershipInvariant(u)
  {
    assert Owns(u, a, e);
    assert forall b <- s.objects.Keys, x <- s.created :: Owns(u, b, x) == Owns(s, b, x);
    forall x | x in s.created
      ensures Owned(u, x) == Owned(s, x)
    {
      if Owned(s, x) {
        var b :| b in s.objects.Keys && Owns(s, b, x);
        assert Owns(u, b, x);
      }
      if Owned(u, x) {
        var b :| b in u.objects.Keys && Owns(u, b, x);
        assert Owns(s, b, x);
      }
    }
  }

  lemma {:induction false} CopiedKeeps<A, E>(s: State<A, E>, other: A, a: A)
    requires Invariant(s) && other in s.objects && a !in s.objects
    ensures Invariant(Copied(s, other, a))
  {
    var u := WithCopy(s, other, a);
    Handed(s, u, other, a);
    RegisteredKeeps(u, a);
    SameOwnership(u, Registered(u, a));
  }

  lemma Handed<A, E>(s: State<A, E>, u: State<A, E>, other: A, a: A)
    requires OwnershipInvariant(s) && other in s.objects && a !in s.objects
    requires u.objects == s.objects[other := s.objects[other].(event := None)][a := s.objects[other]]
    requires u.created == s.created && u.deleted == s.deleted
    ensures OwnershipInvariant(u)
  {
    assert forall b <- s.objects.Keys, x <- s.created :: b != other ==> Owns(u, b, x) == Owns(s, b, x);
    assert forall x <- s.created :: Owns(u, a, x) == Owns(s, other, x) && !Owns(u, other, x);
    forall x | x in s.created
      ensures Owned(u, x) == Owned(s, x)
    {
      if Owned(s, x) {
        var b :| b in s.objects.Keys && Owns(s, b, x);
        assert Owns(u, if b == other then a else b, x);
      }
      if Owned(u, x) {
        var b :| b in u.objects.Keys && Owns(u, b, x);
        assert Owns(s, if b == a then other else b, x);
      }
    }
  }

  lemma DestroyedKeeps<A, E>(s: State<A, E>, a: A)
    requires Invariant(s) && a in s.objects
    ensures Invariant(Destroyed(s, a))
  {
    var t := Destroyed(s, a);
    Released(s, t, a);
    assert forall b <- t.objects.Keys :: IsRegistered(s, b) ==> IsRegistered(t, b);
  }

  lemma Released<A, E>(s: State<A, E>, t: State<A, E>, a: A)
    requires OwnershipInvariant(s) && a in s.objects
    requires t.objects == s.objects - {a} && t.created == s.created
    requires t.deleted == if s.objects[a].event.Some? then s.deleted + multiset{s.objects[a].event.value} else s.deleted
    ensures OwnershipInvariant(t)
  {
    assert forall b <- t.objects.Keys, x <- s.created :: Owns(t, b, x) == Owns(s, b, x);
    forall x | x in s.created
      ensures Owned(t, x) == (Owned(s, x) && !Owns(s, a, x))
    {
      if Owned(s, x) && !Owns(s, a, x) {
        var b :| b in s.objects.Keys && Owns(s, b, x);
        assert Owns(t, b, x);
      }
      if Owned(t, x) {
        var b :| b in t.objects.Keys && Owns(t, b, x);
        assert Owns(s, b, x);
      }
    }
    if s.objects[a].event.Some? {
      assert Owns(s, a, s.objects[a].event.value);
    }
  }

  // ---------------------------------------------------------------- runs

  datatype Op<A, E> =
    | Construct(a: A, e: E, file: string, line: int, now: nat)
    | Copy(other: A, a: A)
    | Disable(a: A)
    | Destroy(a: A)

  /** Operations take live objects, and new objects and events are new. */
  predicate Enabled<A(==), E(==)>(s: State<A, E>, op: Op<A, E>) {
    match op
    case Construct(a, e, _, _, _) => a !in s.objects && e !in s.created
    case Copy(other, a) => other in s.objects && a !in s.objects
    case Disable(a) => a in s.objects
    case Destroy(a) => a in s.objects
  }

  function Step<A(==), E(==)>(s: State<A, E>, op: Op<A, E>): State<A, E>
    requires Enabled(s, op)
  {
    match op
    case Construct(a, e, file, line, now) => Constructed(s, a, e, file, line, now)
    case Copy(other, a) => Copied(s, other, a)
    case Disable(a) => Disabled(s, a)
    case Destroy(a) => Destroyed(s, a)
  }

  predicate IsRun<A(==), E(==)>(s: State<A, E>, ops: seq<Op<A, E>>)
    decreases |ops|
  {
    |ops| == 0 || (Enabled(s, ops[0]) && IsRun(Step(s, ops[0]), ops[1..]))
  }

  function Run<A(==), E(==)>(s: State<A, E>, ops: seq<Op<A, E>>): State<A, E>
    requires IsRun(s, ops)
    decreases |ops|
  {
    if |ops| == 0 then s else Run(Step(s, ops[0]), ops[1..])
  }

  function Start<A(==), E(==)>(): State<A, E> {
    State(map[], map[], {}, multiset{})
  }

  lemma StepKeeps<A, E>(s: State<A, E>, op: Op<A, E>)
    requires Invariant(s) && Enabled(s, op)
    ensures Invariant(Step(s, op))
  {
    match op
    case Construct(a, e, file, line, now) => ConstructedKeeps(s, a, e, file, line, now);
    case Copy(other, a) => CopiedKeeps(s, other, a);
    case Disable(a) => DisabledKeeps(s, a);
    case Destroy(a) => DestroyedKeeps(s, a);
  }

  lemma {:induction false} RunKeeps<A, E>(s: State<A, E>, ops: seq<Op<A, E>>)
    requires Invariant(s) && IsRun(s, ops)
    ensures Invariant(Run(s, ops))
    decreases |ops|
  {
    if |ops| != 0 {
      StepKeeps(s, ops[0]);
      RunKeeps(Step(s, ops[0]), ops[1..]);
    }
  }

  /**
   After any run: entries point to live objects with that key, every object that may fire is the
   registered one, every event not yet deleted has exactly one owner and none is deleted twice.
   */
  lemma RunKeepsInvariant<A, E>(ops: seq<Op<A, E>>)
    requires IsRun(Start(), ops)
    ensures Invariant(Run(Start(), ops))
  {
    RunKeeps(Start(), ops);
  }

  /** Disabling changes one activity; destroying takes the object, its entry and its event, and nothing else. */
  lemma DisableAndDestroy<A, E>(s: State<A, E>, op: Op<A, E>)
    requires Invariant(s) && Enabled(s, op) && (op.Disable? || op.Destroy?)
    ensures var t, a := Step(s, op), op.a;
            && t.created == s.created
            && (forall b <- s.objects.Keys :: b != a ==> b in t.objects && t.objects[b] == s.objects[b])
            && (op.Disable? ==>
                  && t.objects.Keys == s.objects.Keys && t.registry == s.registry && t.deleted == s.deleted
                  && t.objects[a] == s.objects[a].(active := false))
            && (op.Destroy? ==>
                  && t.objects.Keys == s.objects.Keys - {a}
                  && t.registry == (map k | k in s.registry && s.registry[k] != a :: s.registry[k])
                  && forall e :: t.deleted[e] == s.deleted[e] + if Owns(s, a, e) then 1 else 0)
  {
    if op.Destroy? {
      var t, a := Step(s, op), op.a;
      forall k | k in s.registry
        ensures k in t.registry <==> s.registry[k] != a
      {
        assert s.registry[k] == a ==> k == KeyOf(s.objects[a]);
      }
    }
  }

  predicate MayFire<A(==), E(==)>(s: State<A, E>, a: A, k: Key) {
    a in s.objects && s.objects[a].active && KeyOf(s.objects[a]) == k
  }

  lemma OnlyOneFires<A, E>(s: State<A, E>, a: A, b: A, k: Key)
    requires RegistryInvariant(s) && MayFire(s, a, k) && MayFire(s, b, k)
    ensures a == b
  {
    assert IsRegistered(s, a) && IsRegistered(s, b);
  }

  /** At most one object may fire for a line and time. */
  lemma OneMayFire<A, E>(ops: seq<Op<A, E>>, a: A, b: A, k: Key)
    requires IsRun(Start(), ops) && MayFire(Run(Start(), ops), a, k) && MayFire(Run(Start(), ops), b, k)
    ensures a == b
  {
    RunKeepsInvariant(ops);
    OnlyOneFires(Run(Start(), ops), a, b, k);
  }

  predicate Pending<A(==), E(==)>(s: State<A, E>, k: Key) {
    exists a <- s.objects.Keys :: MayFire(s, a, k)
  }

  /**
   Copying decides for the whole line and time: an assignment is still pending afterwards exactly
   when the original was active. A copy of a superseded object takes the place of the object that
   superseded it, and the assignment is lost.
   */
  lemma CopyDecides<A, E>(s: State<A, E>, other: A, a: A, k: Key)
    requires Invariant(s) && other in s.objects && a !in s.objects
    ensures Pending(Copied(s, other, a), k) <==>
            if k == KeyOf(s.objects[other]) then s.objects[other].active else Pending(s, k)
  {
    var t := Copied(s, other, a);
    CopiedKeeps(s, other, a);
    CopiedObjects(s, other, a);
    if k == KeyOf(s.objects[other]) {
      PendingHere(t, a, k);
    } else {
      PendingElsewhere(s, t, a, k);
    }
  }

  lemma TwoOps<A, E>(s: State<A, E>, x: Op<A, E>, y: Op<A, E>)
    requires Enabled(s, x) && Enabled(Step(s, x), y)
    ensures IsRun(s, [x, y]) && Run(s, [x, y]) == Step(Step(s, x), y)
  {
    var s1 := Step(s, x);
    assert [x, y][1..] == [y] && [y][1..] == [];
    assert IsRun(s1, [y]) && Run(s1, [y]) == Step(s1, y);
  }

  lemma ThreeOps<A, E>(s: State<A, E>, x: Op<A, E>, y: Op<A, E>, z: Op<A, E>)
    requires Enabled(s, x) && Enabled(Step(s, x), y) && Enabled(Step(Step(s, x), y), z)
    ensures IsRun(s, [x, y, z]) && Run(s, [x, y, z]) == Step(Step(Step(s, x), y), z)
  {
    TwoOps(Step(s, x), y, z);
    assert [x, y, z][1..] == [y, z];
  }

  /** A statement runs twice for one time, and the first object is then copied. */
  function SupersededCopy<A, E>(a: A, b: A, c: A, d: E, e: E, k: Key): seq<Op<A, E>> {
    [Construct(a, d, k.file, k.line, k.time), Construct(b, e, k.file, k.line, k.time), Copy(a, c)]
  }

  /** The assignment is pending before the copy and lost after it. */
  lemma SupersededCopyDrops<A, E>(a: A, b: A, c: A, d: E, e: E, k: Key)
    requires a != b && a != c && b != c && d != e
    ensures var ops := SupersededCopy(a, b, c, d, e, k);
            && IsRun(Start(), ops) && IsRun(Start(), ops[..2])
            && Pending(Run(Start(), ops[..2]), k) && !Pending(Run(Start(), ops), k)
  {
    var ops := SupersededCopy(a, b, c, d, e, k);
    var s1 := Constructed(Start<A, E>(), a, d, k.file, k.line, k.time);
    var s2 := Constructed(s1, b, e, k.file, k.line, k.time);
    TwoOps(Start<A, E>(), ops[0], ops[1]);
    ThreeOps(Start<A, E>(), ops[0], ops[1], ops[2]);
    assert ops[..2] == [ops[0], ops[1]];
    ConstructedKeeps(Start<A, E>(), a, d, k.file, k.line, k.time);
    NewestWins(s1, b, e, k.file, k.line, k.time);
    ConstructedKeeps(s1, b, e, k.file, k.line, k.time);
    assert MayFire(s2, b, k) && !s2.objects[a].active;
    CopyDecides(s2, a, c, k);
  }

  /** Copying changes no key; it changes activity only under the original's key. */
  lemma CopiedObjects<A, E>(s: State<A, E>, other: A, a: A)
    requires Invariant(s) && other in s.objects && a !in s.objects
    ensures var t := Copied(s, other, a);
            && t.objects.Keys == s.objects.Keys + {a} && IsRegistered(t, a)
            && KeyOf(t.objects[a]) == KeyOf(s.objects[other]) && t.objects[a].active == s.objects[other].active
            && forall b <- s.objects.Keys, k :: k != KeyOf(s.objects[other]) ==> MayFire(t, b, k) == MayFire(s, b, k)
  {
  }

  /** Under the key of a registered object only that object can be pending. */
  lemma PendingHere<A, E>(t: State<A, E>, a: A, k: Key)
    requires Invariant(t) && a in t.objects && IsRegistered(t, a) && KeyOf(t.objects[a]) == k
    ensures Pending(t, k) <==> t.objects[a].active
  {
    if t.objects[a].active {
      assert MayFire(t, a, k);
    }
    if Pending(t, k) {
      var b :| b in t.objects.Keys && MayFire(t, b, k);
      assert IsRegistered(t, b);
    }
  }

  lemma PendingElsewhere<A, E>(s: State<A, E>, t: State<A, E>, a: A, k: Key)
    requires t.objects.Keys == s.objects.Keys + {a}
    requires forall b <- s.objects.Keys :: MayFire(t, b, k) == MayFire(s, b, k)
    requires a !in s.objects && KeyOf(t.objects[a]) != k
    ensures Pending(t, k) <==> Pending(s, k)
  {
    if Pending(s, k) {
      var b :| b in s.objects.Keys && MayFire(s, b, k);
      assert MayFire(t, b, k);
    }
    if Pending(t, k) {
      var b :| b in t.objects.Keys && MayFire(t, b, k);
      assert MayFire(s, b, k);
    }
  }

  // ---------------------------------------------------------------- one assignment through its copies

  /** The object that carries the pending assignment of its line and time. */
  predicate Carries<A(==), E(==)>(s: State<A, E>, a: A, e: E, k: Key) {
    MayFire(s, a, k) && s.objects[a].event == Some(e) && IsRegistered(s, a)
  }

  /** The assignment moves to a copy; the original is destroyed now or kept for later. */
  datatype Move<A> = Move(to: A, destroy: bool)

  function Moved<A(==), E(==)>(s: State<A, E>, a: A, m: Move<A>): State<A, E>
    requires a in s.objects && m.to !in s.objects
  {
    var t := Copied(s, a, m.to);
    if m.destroy then Destroyed(t, a) else t
  }

  predicate CanMove<A(==), E(==)>(s: State<A, E>, a: A, moves: seq<Move<A>>)
    requires a in s.objects
    decreases |moves|
  {
    |moves| == 0 || (moves[0].to !in s.objects && CanMove(Moved(s, a, moves[0]), moves[0].to, moves[1..]))
  }

  function AllMoved<A(==), E(==)>(s: State<A, E>, a: A, moves: seq<Move<A>>): (r: (State<A, E>, A))
    requires a in s.objects && CanMove(s, a, moves)
    decreases |moves|
  {
    if |moves| == 0 then (s, a) else AllMoved(Moved(s, a, moves[0]), moves[0].to, moves[1..])
  }

  lemma MoveCarries<A, E>(s: State<A, E>, a: A, m: Move<A>, e: E, k: Key)
    requires Invariant(s) && Carries(s, a, e, k) && m.to !in s.objects
    ensures Invariant(Moved(s, a, m)) && Carries(Moved(s, a, m), m.to, e, k)
    ensures Moved(s, a, m).deleted == s.deleted
  {
    CopiedKeeps(s, a, m.to);
    var t := Copied(s, a, m.to);
    assert Carries(t, m.to, e, k) && t.objects[a].event.None?;
    if m.destroy {
      DestroyedKeeps(t, a);
    }
  }

  /** Through any chain of copies the last copy carries the assignment, with the event undeleted. */
  lemma {:induction false} Handover<A, E>(s: State<A, E>, a: A, moves: seq<Move<A>>, e: E, k: Key)
    requires Invariant(s) && Carries(s, a, e, k) && CanMove(s, a, moves)
    ensures var (t, b) := AllMoved(s, a, moves);
            Invariant(t) && Carries(t, b, e, k) && t.deleted == s.deleted
    decreases |moves|
  {
    if |moves| != 0 {
      MoveCarries(s, a, moves[0], e, k);
      Handover(Moved(s, a, moves[0]), moves[0].to, moves[1..], e, k);
    }
  }

  /** A statement's object carries its assignment from the start, whatever was pending there. */
  lemma NewestWins<A, E>(s: State<A, E>, a: A, e: E, file: string, line: int, now: nat)
    requires Invariant(s) && a !in s.objects && e !in s.created
    ensures Carries(Constructed(s, a, e, file, line, now), a, e, Key(line, file, now))
    ensures var t := Constructed(s, a, e, file, line, now);
            forall b <- t.objects.Keys :: MayFire(t, b, Key(line, file, now)) ==> b == a
  {
    var k := Key(line, file, now);
    var t := Constructed(s, a, e, file, line, now);
    ConstructedKeeps(s, a, e, file, line, now);
    assert Carries(t, a, e, k);
    forall b | b in t.objects.Keys && MayFire(t, b, k)
      ensures b == a
    {
      OnlyOneFires(t, a, b, k);
    }
  }

  /** Destroying what is left of the originals does not touch the carrier. */
  lemma OthersMayGo<A, E>(s: State<A, E>, b: A, a: A, e: E, k: Key)
    requires Invariant(s) && Carries(s, a, e, k) && b in s.objects && b != a
    ensures Carries(Destroyed(s, b), a, e, k) && Destroyed(s, b).deleted[e] == s.deleted[e]
  {
    var t := Destroyed(s, b);
    assert IsRegistered(t, a);
    assert Owns(s, a, e);
    assert !Owns(s, b, e);
  }

  // ---------------------------------------------------------------- the objects

  class SimEvent {
    constructor () {
    }
  }

  class IHifAfter {
    var event: SimEvent?
    var file: string
    var line: int
    var isActive: bool
    var time: nat

    constructor (e: SimEvent?, file: string, line: int, isActive: bool, time: nat)
      ensures event == e && this.file == file && this.line == line && this.isActive == isActive && this.time == time
    {
      event := e;
      this.file := file;
      this.line := line;
      this.isActive := isActive;
      this.time := time;
    }

    ghost function Contents(): Cell<SimEvent>
      reads this
    {
      var owned: Option<SimEvent> := if event == null then None else Some(event);
      Cell(owned, file, line, isActive, time)
    }
  }

  /** The library's global map, with the objects and events that exist. */
  class AfterLibrary {
    var afterMap: map<Key, IHifAfter>
    ghost var live: set<IHifAfter>
    ghost var created: set<SimEvent>
    ghost var deleted: multiset<SimEvent>

    constructor ()
      ensures live == {} && Abstract() == Start()
    {
      afterMap := map[];
      live := {};
      created := {};
      deleted := multiset{};
    }

    ghost function Abstract(): State<IHifAfter, SimEvent>
      reads this, live
    {
      State(map a | a in live :: a.Contents(), afterMap, created, deleted)
    }

    ghost predicate Valid()
      reads this, live
    {
      Invariant(Abstract())
    }

    method Disable(a: IHifAfter)
      requires a in live
      modifies a`isActive
      ensures Abstract() == Disabled(old(Abstract()), a)
    {
      a.isActive := false;
    }

    method Register(after: IHifAfter)
      requires after in live && EntriesLive(Abstract()) && Unlisted(Abstract(), after)
      modifies this`afterMap, live
      ensures Abstract() == Registered(old(Abstract()), after)
    {
      var k2 := Key(after.line, after.file, after.time);
      if k2 in afterMap {
        var other := afterMap[k2];
        Disable(other);
      }
      afterMap := afterMap[k2 := after];
    }

    method Unregister(after: IHifAfter)
      requires after in live
      modifies this`afterMap
      ensures Abstract() == Unregistered(old(Abstract()), after)
    {
      var k2 := Key(after.line, after.file, after.time);
      if k2 !in afterMap {
        return;
      }
      if afterMap[k2] != after {
        return;
      }
      afterMap := afterMap - {k2};
    }

    /** The constructor's initialisers. */
    method Initialise(file: string, line: int, now: nat) returns (a: IHifAfter)
      modifies this`live, this`created
      ensures fresh(a) && live == old(live) + {a} && a.event != null && fresh(a.event)
      ensures Abstract() == WithNew(old(Abstract()), a, a.event, file, line, now)
    {
      var e := new SimEvent();
      a := new IHifAfter(e, file, line, true, now);
      live := live + {a};
      created := created + {e};
      assert Abstract().objects == WithNew(old(Abstract()), a, e, file, line, now).objects;
    }

    method NewAfter(file: string, line: int, now: nat) returns (a: IHifAfter)
      requires Valid()
      modifies this, live
      ensures fresh(a) && live == old(live) + {a} && a.event != null && fresh(a.event)
      ensures Abstract() == Constructed(old(Abstract()), a, a.event, file, line, now) && Valid()
    {
      a := Initialise(file, line, now);
      ConstructedKeeps(old(Abstract()), a, a.event, file, line, now);
      Register(a);
    }

    /** The copy's initialisers and the move of the event. */
    method TakeOver(other: IHifAfter) returns (a: IHifAfter)
      requires other in live
      modifies this`live, other`event
      ensures fresh(a) && live == old(live) + {a}
      ensures Abstract() == WithCopy(old(Abstract()), other, a)
    {
      a := new IHifAfter(other.event, other.file, other.line, other.isActive, other.time);
      other.event := null;
      live := live + {a};
      assert Abstract().objects == WithCopy(old(Abstract()), other, a).objects;
    }

    method CopyAfter(other: IHifAfter) returns (a: IHifAfter)
      requires Valid() && other in live
      modifies this, live
      ensures fresh(a) && live == old(live) + {a}
      ensures Abstract() == Copied(old(Abstract()), other, a) && Valid()
    {
      a := TakeOver(other);
      CopiedKeeps(old(Abstract()), other, a);
      Register(a);
    }

    /** The end of the destructor: the event is deleted and the object is gone. */
    method Remove(a: IHifAfter)
      requires a in live
      modifies this`live, this`deleted
      ensures live == old(live) - {a}
      ensures Abstract() == Removed(old(Abstract()), a)
    {
      live := live - {a};
      if a.event != null {
        deleted := deleted + multiset{a.event};
      }
      assert Abstract().objects == Removed(old(Abstract()), a).objects;
    }

    method DestroyAfter(a: IHifAfter)
      requires Valid() && a in live
      modifies this
      ensures live == old(live) - {a}
      ensures Abstract() == Destroyed(old(Abstract()), a) && Valid()
    {
      DestroyedKeeps(Abstract(), a);
      Unregister(a);
      Remove(a);
    }
  }
}
