/**
 Escaping names whose underscores VHDL does not allow (section 15.4.2 of IEEE 1076-2008): a leading
 underscore is prefixed by `id`, and `id` goes between the two underscores of every adjacent pair.

 Escaped says what a name becomes. SharesIff is the main result about single names: it says exactly
 which names share their result with another, CollidesIff which do with a name that does not look
 escaped. AllVisited is the one about a design: whatever the order of the visit, references keep
 naming their declarations.
 */
module IdentifierNames {
  // ---------------------------------------------------------------- the specification

  function Mark(): (r: string)
    ensures |r| == 2 && r[0] != '_' && r[1] != '_' && r == ['i', 'd']
  {
    ['i', 'd']
  }

  predicate PairAt(s: string, k: int) {
    0 <= k < |s| - 1 && s[k] == '_' && s[k + 1] == '_'
  }

  function Inserted(s: string): string {
    if |s| == 0 then s
    else if PairAt(s, 0) then ['_'] + Mark() + Inserted(s[1..])
    else [s[0]] + Inserted(s[1..])
  }

  predicate Leads(s: string) {
    |s| > 0 && s[0] == '_'
  }

  function Prefixed(s: string): string {
    if Leads(s) then Mark() + s else s
  }

  function Escaped(s: string): string {
    Inserted(Prefixed(s))
  }

  // ---------------------------------------------------------------- the code

  predicate NoPairs(s: string) {
    forall k :: 0 <= k < |s| ==> !PairAt(s, k)
  }

  function Pairs(s: string): nat {
    if |s| == 0 then 0 else (if PairAt(s, 0) then 1 else 0) + Pairs(s[1..])
  }

  lemma {:induction false} InsertFirst(s: string, k: nat)
    requires PairAt(s, k) && forall j :: 0 <= j < k ==> !PairAt(s, j)
    ensures var t := s[..k + 1] + Mark() + s[k + 1..];
            Inserted(t) == Inserted(s) && Pairs(t) == Pairs(s) - 1
    decreases k
  {
    var t := s[..k + 1] + Mark() + s[k + 1..];
    if k == 0 {
      assert t == ['_'] + ([Mark()[0]] + ([Mark()[1]] + s[1..]));
      InsertPair(s, t);
    } else {
      var s1 := s[1..];
      assert forall j :: 0 <= j < k - 1 ==> PairAt(s1, j) == PairAt(s, j + 1);
      assert PairAt(s1, k - 1);
      InsertFirst(s1, k - 1);
      assert s1[..k] == s[1..k + 1] && s1[k..] == s[k + 1..];
      assert t[1..] == s1[..k] + Mark() + s1[k..];
      assert !PairAt(s, 0) && t[0] == s[0] && t[1] == s[1];
      assert !PairAt(t, 0);
    }
  }

  lemma InsertCons(c: char, rest: string)
    requires !(c == '_' && Leads(rest))
    ensures Inserted([c] + rest) == [c] + Inserted(rest) && Pairs([c] + rest) == Pairs(rest)
  {
    assert ([c] + rest)[1..] == rest;
  }

  lemma InsertPair(s: string, t: string)
    requires PairAt(s, 0) && t == ['_'] + ([Mark()[0]] + ([Mark()[1]] + s[1..]))
    ensures Inserted(t) == Inserted(s) && Pairs(t) == Pairs(s) - 1
  {
    InsertCons(Mark()[1], s[1..]);
    InsertCons(Mark()[0], [Mark()[1]] + s[1..]);
    InsertCons('_', [Mark()[0]] + ([Mark()[1]] + s[1..]));
    assert ['_'] + ([Mark()[0]] + ([Mark()[1]] + Inserted(s[1..]))) == ['_'] + Mark() + Inserted(s[1..]);
  }

  lemma {:induction false} NothingInserted(s: string)
    requires NoPairs(s)
    ensures Inserted(s) == s
  {
    if |s| != 0 {
      assert !PairAt(s, 0);
      assert forall k :: PairAt(s[1..], k) ==> PairAt(s, k + 1);
      NothingInserted(s[1..]);
    }
  }

  /** The standard library's search for two underscores: the first place, or none. */
  method Find(s: string) returns (k: nat, found: bool)
    ensures found ==> PairAt(s, k) && forall j :: 0 <= j < k ==> !PairAt(s, j)
    ensures !found ==> NoPairs(s)
  {
    k := 0;
    while k + 1 < |s|
      invariant forall j :: 0 <= j < k ==> !PairAt(s, j)
      decreases |s| - k
    {
      if s[k] == '_' && s[k + 1] == '_' {
        return k, true;
      }
      k := k + 1;
    }
    return k, false;
  }

  method ReplaceFirstUnderscore(nameStr: string) returns (r: string)
    ensures r == Prefixed(nameStr)
    ensures !Leads(r) && |r| >= |nameStr| && r[|r| - |nameStr|..] == nameStr
  {
    if nameStr != [] {
      if nameStr[0] == '_' {
        return Mark() + nameStr;
      }
    }
    return nameStr;
  }

  method ReplaceDoubleUnderscore(nameStr: string) returns (r: string)
    ensures r == Inserted(nameStr)
  {
    r := nameStr;
    if nameStr != [] {
      var k, found := Find(r);
      while found
        invariant Inserted(r) == Inserted(nameStr)
        invariant found ==> PairAt(r, k) && forall j :: 0 <= j < k ==> !PairAt(r, j)
        invariant !found ==> NoPairs(r)
        decreases Pairs(r), found
      {
        InsertFirst(r, k);
        k := k + 1;
        r := r[..k] + Mark() + r[k..];
        k, found := Find(r);
      }
    }
    if nameStr == [] {
      assert NoPairs(r);
    }
    NothingInserted(r);
  }

  method AnalyzeString(n: string) returns (r: string)
    ensures r == Escaped(n)
  {
    var p := ReplaceFirstUnderscore(n);
    r := ReplaceDoubleUnderscore(p);
  }

  // ---------------------------------------------------------------- what a name becomes

  lemma {:induction false} InsertedShape(s: string)
    ensures Inserted(s) == [] <==> s == []
    ensures |s| > 0 ==> Inserted(s)[0] == s[0] && Inserted(s)[|Inserted(s)| - 1] == s[|s| - 1]
    ensures NoPairs(Inserted(s))
  {
    if |s| != 0 {
      InsertedShape(s[1..]);
      var rest := Inserted(s[1..]);
      forall k | 0 <= k < |Inserted(s)|
        ensures !PairAt(Inserted(s), k)
      {
        if PairAt(s, 0) {
          assert Inserted(s)[3..] == rest;
          assert k >= 3 ==> PairAt(Inserted(s), k) == PairAt(rest, k - 3);
        } else {
          assert Inserted(s)[1..] == rest;
          assert k >= 1 ==> PairAt(Inserted(s), k) == PairAt(rest, k - 1);
        }
      }
    }
  }

  predicate Trails(s: string) {
    |s| > 0 && s[|s| - 1] == '_'
  }

  /** The underscores an identifier may have. */
  predicate Legal(s: string) {
    !Leads(s) && NoPairs(s) && !Trails(s)
  }

  /** An escaped name has no leading and no double underscore; a trailing one stays. */
  lemma EscapedLegal(s: string)
    ensures !Leads(Escaped(s)) && NoPairs(Escaped(s))
    ensures Legal(Escaped(s)) <==> !Trails(s)
  {
    InsertedShape(Prefixed(s));
  }

  lemma LegalUnchanged(s: string)
    ensures Escaped(s) == s <==> !Leads(s) && NoPairs(s)
  {
    EscapedLegal(s);
    if !Leads(s) && NoPairs(s) {
      NothingInserted(s);
    }
  }

  /** Visiting a name a second time changes nothing. */
  lemma EscapedTwice(s: string)
    ensures Escaped(Escaped(s)) == Escaped(s)
  {
    EscapedLegal(s);
    LegalUnchanged(Escaped(s));
  }

  // ---------------------------------------------------------------- which names collide

  predicate MarkAt(s: string, k: nat) {
    k + 3 <= |s| && s[k] == Mark()[0] && s[k + 1] == Mark()[1] && s[k + 2] == '_'
  }

  predicate InfixAt(s: string, k: nat) {
    k < |s| && s[k] == '_' && MarkAt(s, k + 1)
  }

  /** A name that does not look escaped. */
  predicate Plain(s: string) {
    !MarkAt(s, 0) && forall k :: 0 <= k < |s| ==> !InfixAt(s, k)
  }

  /** Closes every infix mark. */
  function Closed(t: string): string {
    if |t| == 0 then t
    else if InfixAt(t, 0) then ['_'] + Closed(t[3..])
    else [t[0]] + Closed(t[1..])
  }

  function Unescaped(t: string): string {
    Closed(if MarkAt(t, 0) then t[2..] else t)
  }

  lemma {:induction false} CloseInserted(s: string)
    requires forall k :: 0 <= k < |s| ==> !InfixAt(s, k)
    ensures Closed(Inserted(s)) == s
  {
    if |s| != 0 {
      var s1 := s[1..];
      forall k | 0 <= k < |s1|
        ensures !InfixAt(s1, k)
      {
        assert InfixAt(s1, k) == InfixAt(s, k + 1);
      }
      CloseInserted(s1);
      InsertedShape(s1);
      if PairAt(s, 0) {
        assert Inserted(s)[3..] == Inserted(s1);
        assert InfixAt(Inserted(s), 0);
      } else {
        assert Inserted(s)[1..] == Inserted(s1);
        MarkInserted(s1);
        assert InfixAt(s, 0) == (s[0] == '_' && MarkAt(s1, 0));
        assert InfixAt(Inserted(s), 0) == (s[0] == '_' && MarkAt(Inserted(s1), 0));
      }
    }
  }

  /** Inserting does not make a leading mark. */
  lemma MarkInserted(s: string)
    ensures MarkAt(Inserted(s), 0) == MarkAt(s, 0)
  {
    InsertedShape(s);
    if |s| >= 3 && s[0] != '_' && s[1] != '_' {
      assert Inserted(s) == [s[0]] + Inserted(s[1..]);
      assert s[1..][1..] == s[2..];
      assert Inserted(s[1..]) == [s[1]] + Inserted(s[2..]);
      InsertedShape(s[2..]);
      assert Inserted(s)[2] == Inserted(s[2..])[0];
    } else if |s| > 0 && s[0] != '_' {
      assert Inserted(s) == [s[0]] + Inserted(s[1..]);
      InsertedShape(s[1..]);
      if |s| == 2 {
        assert s[1..][1..] == [];
        assert Inserted(s[1..]) == [s[1]];
      }
    }
  }

  /** Escaping a plain name can be undone. */
  lemma UnescapesPlain(s: string)
    requires Plain(s)
    ensures Unescaped(Escaped(s)) == s
  {
    MarkInserted(s);
    if Leads(s) {
      PrefixedInserted(s);
      InsertedShape(s);
      assert MarkAt(Escaped(s), 0) && Escaped(s)[2..] == Inserted(s);
    }
    CloseInserted(s);
  }

  lemma PrefixedInserted(s: string)
    requires Leads(s)
    ensures Inserted(Mark() + s) == Mark() + Inserted(s)
  {
    var t := Mark() + s;
    assert t[1..][1..] == s;
    assert Inserted(t[1..]) == [Mark()[1]] + Inserted(s);
    assert Inserted(t) == [Mark()[0]] + Inserted(t[1..]);
  }

  lemma {:induction false} ClosedShape(t: string)
    requires NoPairs(t)
    ensures Closed(t) == [] <==> t == []
    ensures |t| > 0 ==> Closed(t)[0] == t[0]
    ensures Inserted(Closed(t)) == t
  {
    if |t| != 0 {
      if InfixAt(t, 0) {
        var rest := t[3..];
        assert forall k :: 0 <= k < |rest| ==> PairAt(rest, k) == PairAt(t, k + 3);
        ClosedShape(rest);
        var c := Closed(t);
        assert c[1..] == Closed(rest);
        assert PairAt(c, 0);
        assert t == ['_'] + Mark() + rest;
      } else {
        var rest := t[1..];
        assert forall k :: 0 <= k < |rest| ==> PairAt(rest, k) == PairAt(t, k + 1);
        ClosedShape(rest);
        var c := Closed(t);
        assert c[1..] == Closed(rest);
        assert !PairAt(t, 0) && !PairAt(c, 0);
      }
    }
  }

  lemma MarkClosed(t: string)
    requires NoPairs(t)
    ensures MarkAt(Closed(t), 0) == MarkAt(t, 0)
  {
    ClosedShape(t);
    MarkInserted(Closed(t));
  }

  lemma {:induction false} ClosedHasNoInfix(t: string)
    requires NoPairs(t)
    ensures forall k :: 0 <= k < |Closed(t)| ==> !InfixAt(Closed(t), k)
  {
    if |t| != 0 {
      var c := Closed(t);
      var rest := if InfixAt(t, 0) then t[3..] else t[1..];
      var skipped := if InfixAt(t, 0) then 3 else 1;
      assert forall k :: 0 <= k < |rest| ==> PairAt(rest, k) == PairAt(t, k + skipped);
      ClosedHasNoInfix(rest);
      ClosedShape(rest);
      MarkClosed(rest);
      assert c[1..] == Closed(rest);
      assert InfixAt(c, 0) == (c[0] == '_' && MarkAt(Closed(rest), 0));
      if !InfixAt(t, 0) {
        assert InfixAt(t, 0) == (t[0] == '_' && MarkAt(rest, 0));
      }
      forall k | 0 <= k < |c|
        ensures !InfixAt(c, k)
      {
        if k > 0 {
          assert InfixAt(c, k) == InfixAt(Closed(rest), k - 1);
        }
      }
    }
  }

  /** What a name is escaped to is also the escape of a plain name. */
  lemma PlainOriginal(s: string)
    ensures Plain(Unescaped(Escaped(s))) && Escaped(Unescaped(Escaped(s))) == Escaped(s)
  {
    var t := Escaped(s);
    EscapedLegal(s);
    if MarkAt(t, 0) {
      var u := t[2..];
      assert forall k :: 0 <= k < |u| ==> PairAt(u, k) == PairAt(t, k + 2);
      ClosedShape(u);
      ClosedHasNoInfix(u);
      PrefixedInserted(Closed(u));
      assert t == Mark() + u;
    } else {
      ClosedShape(t);
      ClosedHasNoInfix(t);
      MarkClosed(t);
    }
  }

  lemma PlainInjective(s: string, r: string)
    requires Plain(s) && Plain(r) && Escaped(s) == Escaped(r)
    ensures s == r
  {
    UnescapesPlain(s);
    UnescapesPlain(r);
  }

  /** A name shares its escape with some other plain name exactly when it is not plain itself. */
  lemma CollidesIff(s: string)
    ensures (exists r: string :: r != s && Plain(r) && Escaped(r) == Escaped(s)) <==> !Plain(s)
  {
    PlainOriginal(s);
    if !Plain(s) {
      assert Unescaped(Escaped(s)) != s;
    } else {
      forall r: string | Plain(r) && Escaped(r) == Escaped(s)
        ensures r == s
      {
        PlainInjective(s, r);
      }
    }
  }

  /** A pair of underscores leaves an infix mark. */
  lemma {:induction false} PairLeavesInfix(s: string, k: nat) returns (j: nat)
    requires PairAt(s, k)
    ensures j < |Inserted(s)| && InfixAt(Inserted(s), j)
  {
    var rest := Inserted(s[1..]);
    if PairAt(s, 0) {
      InsertedShape(s[1..]);
      assert Inserted(s)[3..] == rest;
      j := 0;
    } else {
      assert Inserted(s)[1..] == rest;
      j := PairLeavesInfix(s[1..], k - 1);
      assert InfixAt(Inserted(s), j + 1) == InfixAt(rest, j);
      j := j + 1;
    }
  }

  /** A name that escaping changes looks escaped afterwards. */
  lemma ChangedIsMarked(s: string)
    requires Escaped(s) != s
    ensures !Plain(Escaped(s))
  {
    LegalUnchanged(s);
    if Leads(s) {
      PrefixedInserted(s);
      InsertedShape(s);
      assert MarkAt(Escaped(s), 0);
    } else {
      var k :| 0 <= k < |s| && PairAt(s, k);
      var j := PairLeavesInfix(s, k);
    }
  }

  /** A name shares its escape with some other name exactly when it looks escaped or is changed. */
  lemma SharesIff(s: string)
    ensures (exists r: string :: r != s && Escaped(r) == Escaped(s)) <==> !Plain(s) || Escaped(s) != s
  {
    CollidesIff(s);
    EscapedTwice(s);
    if Plain(s) && Escaped(s) == s {
      forall r: string | Escaped(r) == Escaped(s)
        ensures r == s
      {
        if Escaped(r) != r {
          ChangedIsMarked(r);
        }
      }
    }
  }

  // ---------------------------------------------------------------- a design

  /** Objects by number: the declaration each one names (itself, for a declaration), and the skipped ones. */
  datatype Binding = Binding(declaration: seq<nat>, standard: set<nat>)

  predicate WellBound(b: Binding) {
    forall o :: 0 <= o < |b.declaration| ==>
      b.declaration[o] < |b.declaration| && b.declaration[b.declaration[o]] == b.declaration[o]
  }

  predicate Skipped(b: Binding, o: nat, names: seq<string>)
    requires o < |b.declaration| == |names|
  {
    b.declaration[o] in b.standard || names[o] == []
  }

  function Renamed(b: Binding, o: nat, names: seq<string>): (r: seq<string>)
    requires o < |b.declaration| == |names|
    ensures |r| == |names|
  {
    if Skipped(b, o, names) then names
    else if b.declaration[o] == o && Escaped(names[o]) != names[o] then
      seq(|names|, i requires 0 <= i < |names| => if b.declaration[i] == o then Escaped(names[o]) else names[i])
    else names[o := Escaped(names[o])]
  }

  function RenamedAll(b: Binding, order: seq<nat>, names: seq<string>): (r: seq<string>)
    requires |b.declaration| == |names| && forall k :: 0 <= k < |order| ==> order[k] < |names|
    ensures |r| == |names|
  {
    if |order| == 0 then names else RenamedAll(b, order[1..], Renamed(b, order[0], names))
  }

  class Design {
    const binding: Binding
    var names: seq<string>

    constructor (binding: Binding, names: seq<string>)
      ensures this.binding == binding && this.names == names
    {
      this.binding := binding;
      this.names := names;
    }

    method AfterVisit(o: nat)
      requires o < |binding.declaration| == |names|
      modifies this
      ensures names == Renamed(binding, o, old(names))
    {
      if binding.declaration[o] in binding.standard {
        return;
      }
      var nm := names[o];
      if nm == [] {
        return;
      }
      var escaped := AnalyzeString(nm);
      names := names[o := escaped];
      if binding.declaration[o] == o && names[o] != nm {
        for i := 0 to |names|
          invariant |names| == |old(names)| && names[o] == escaped
          invariant forall j :: 0 <= j < i ==>
                    names[j] == if binding.declaration[j] == o then escaped else old(names)[j]
          invariant forall j :: i <= j < |names| && j != o ==> names[j] == old(names)[j]
        {
          if binding.declaration[i] == o {
            names := names[i := names[o]];
          }
        }
      }
    }
  }

  predicate Bound(b: Binding, names: seq<string>) {
    |b.declaration| == |names| && WellBound(b) && forall o :: 0 <= o < |names| ==> names[o] == names[b.declaration[o]]
  }

  function Final(b: Binding, o: nat, names: seq<string>): string
    requires o < |b.declaration| == |names|
  {
    if b.declaration[o] in b.standard then names[o] else Escaped(names[o])
  }

  /** Partway through a visit: the objects visited and the references to visited declarations are final. */
  predicate Underway(b: Binding, start: seq<string>, names: seq<string>, done: set<nat>)
    requires |b.declaration| == |start|
  {
    |names| == |start| && forall o :: 0 <= o < |names| ==>
      names[o] == if o in done || b.declaration[o] in done then Final(b, o, start) else start[o]
  }

  predicate Covers(order: seq<nat>, n: nat) {
    (forall k :: 0 <= k < |order| ==> order[k] < n) && forall o :: 0 <= o < n ==> o in order
  }

  lemma EscapedEmpty(s: string)
    ensures Escaped(s) == [] <==> s == []
  {
    InsertedShape(Prefixed(s));
  }

  lemma FinalOnce(b: Binding, o: nat, start: seq<string>, name: string)
    requires o < |b.declaration| == |start| && b.declaration[o] !in b.standard
    requires name == start[o] || name == Final(b, o, start)
    ensures Escaped(name) == Final(b, o, start) && (name == [] <==> start[o] == [])
    ensures name == [] ==> name == Final(b, o, start)
  {
    EscapedTwice(start[o]);
    EscapedEmpty(start[o]);
  }

  lemma {:induction false} VisitUnderway(b: Binding, start: seq<string>, names: seq<string>, done: set<nat>, o: nat)
    requires Bound(b, start) && Underway(b, start, names, done) && o < |names|
    ensures Underway(b, start, Renamed(b, o, names), done + {o})
  {
    var r := Renamed(b, o, names);
    if b.declaration[o] !in b.standard {
      FinalOnce(b, o, start, names[o]);
    }
    forall i | 0 <= i < |names|
      ensures r[i] == if i in done + {o} || b.declaration[i] in done + {o} then Final(b, i, start) else start[i]
    {
      if b.declaration[i] == o {
        assert start[i] == start[o];
      }
    }
  }

  lemma DoneAfter(done: set<nat>, order: seq<nat>)
    requires |order| > 0
    ensures done + {order[0]} + (set o | o in order[1..]) == done + set o | o in order
  {
  }

  /** Any visit, complete or not, in any order and however often it meets an object. */
  lemma {:induction false} VisitsUnderway(b: Binding, start: seq<string>, names: seq<string>, done: set<nat>,
                                          order: seq<nat>)
    requires Bound(b, start) && Underway(b, start, names, done) && forall k :: 0 <= k < |order| ==> order[k] < |names|
    ensures Underway(b, start, RenamedAll(b, order, names), done + set o | o in order)
    decreases |order|
  {
    if |order| != 0 {
      VisitUnderway(b, start, names, done, order[0]);
      VisitsUnderway(b, start, Renamed(b, order[0], names), done + {order[0]}, order[1..]);
      DoneAfter(done, order);
    }
  }

  /**
   After any visit an object has its escaped name exactly when it or its declaration was met, and its
   own name otherwise; a standard one keeps its own.
   */
  lemma Visited(b: Binding, start: seq<string>, order: seq<nat>)
    requires Bound(b, start) && forall k :: 0 <= k < |order| ==> order[k] < |start|
    ensures forall o :: 0 <= o < |start| ==>
      RenamedAll(b, order, start)[o]
      == if o in order || b.declaration[o] in order then Final(b, o, start) else start[o]
  {
    VisitsUnderway(b, start, start, {}, order);
  }

  /**
   Whatever the order of the visit and however often it meets an object, every object ends with
   its escaped name, a standard one with its own, and references still name their declarations.
   */
  lemma AllVisited(b: Binding, start: seq<string>, order: seq<nat>)
    requires Bound(b, start) && Covers(order, |start|)
    ensures RenamedAll(b, order, start) == seq(|start|, o requires 0 <= o < |start| => Final(b, o, start))
    ensures Bound(b, RenamedAll(b, order, start))
  {
    Visited(b, start, order);
  }

  /** Two names that differed and were plain still differ. */
  lemma StayApart(b: Binding, start: seq<string>, order: seq<nat>, i: nat, j: nat)
    requires Bound(b, start) && Covers(order, |start|)
    requires i < |start| && j < |start| && start[i] != start[j] && Plain(start[i]) && Plain(start[j])
    requires b.declaration[i] !in b.standard && b.declaration[j] !in b.standard
    ensures RenamedAll(b, order, start)[i] != RenamedAll(b, order, start)[j]
  {
    AllVisited(b, start, order);
    if Escaped(start[i]) == Escaped(start[j]) {
      PlainInjective(start[i], start[j]);
    }
  }
}
