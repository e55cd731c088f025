/**
 Resolving the drivers of a net: a loop over the drivers through the IEEE 1164 table.

 ResolvesByRule gives the declarative rule the loop computes; order, grouping and idle drivers
 do not matter to it.
 */
module Resolution {
  import opened Logic

  /** The 9x9 table of IEEE 1164, in the order U X 0 1 Z W L H -. */
  const RESOLUTION_TABLE: seq<string> :=
    ["UUUUUUUUU", "UXXXXXXXX", "UX0X0000X", "UXX11111X", "UX01ZWLHX", "UX01WWWWX", "UX01LWLWX", "UX01HWWHX",
      "UXXXXXXXX"]

  function LogicIndex(v: Logic): (i: nat)
    ensures 1 <= i <= 4
  {
    match v
    case X => 1
    case L0 => 2
    case L1 => 3
    case Z => 4
  }

  predicate IsLogicChar(c: char) {
    c == 'X' || c == '0' || c == '1' || c == 'Z'
  }

  function FromChar(c: char): Logic
    requires IsLogicChar(c)
  {
    if c == '0' then L0 else if c == '1' then L1 else if c == 'Z' then Z else X
  }

  /** The table never leaves the four values when it starts from them. */
  lemma EntryIsLogic(a: Logic, b: Logic)
    ensures LogicIndex(a) < |RESOLUTION_TABLE| && LogicIndex(b) < |RESOLUTION_TABLE[LogicIndex(a)]|
    ensures IsLogicChar(RESOLUTION_TABLE[LogicIndex(a)][LogicIndex(b)])
  {
  }

  function Entry(a: Logic, b: Logic): Logic {
    EntryIsLogic(a, b);
    FromChar(RESOLUTION_TABLE[LogicIndex(a)][LogicIndex(b)])
  }

  /** The loop, from a starting value. */
  function Fold(s: Bits, start: Logic): Logic {
    if |s| == 0 then start else Fold(s[1..], Entry(start, s[0]))
  }

  method Resolved(s: Bits) returns (result: Logic)
    ensures result == Resolve(s)
  {
    if |s| == 1 {
      return s[0];
    }
    result := Z;
    for i := 0 to |s|
      invariant Fold(s, Z) == Fold(s[i..], result)
    {
      EntryIsLogic(result, s[i]);
      var a := LogicIndex(result);
      var b := LogicIndex(s[i]);
      result := FromChar(RESOLUTION_TABLE[a][b]);
    }
  }

  function Resolve(s: Bits): Logic {
    if |s| == 1 then s[0] else Fold(s, Z)
  }

  /** The rule: Z if no driver is active; else the value all active drivers agree on; else X. */
  predicate ByRule(s: Bits, r: Logic) {
    match r
    case Z => X !in s && L0 !in s && L1 !in s
    case L0 => L0 in s && L1 !in s && X !in s
    case L1 => L1 in s && L0 !in s && X !in s
    case X => X in s || (L0 in s && L1 in s)
  }

  lemma EntryTable(a: Logic, b: Logic)
    ensures Entry(a, b) == if a.Z? then b else if b.Z? then a else if a == b then a else X
  {
  }

  lemma {:induction false} FoldByRule(s: Bits, start: Logic)
    ensures ByRule([start] + s, Fold(s, start))
  {
    if |s| != 0 {
      EntryTable(start, s[0]);
      var next := Entry(start, s[0]);
      FoldByRule(s[1..], next);
      var rest := [next] + s[1..];
      var all := [start] + s;
      assert s == [s[0]] + s[1..];
      forall v: Logic ensures v in all <==> v == start || v == s[0] || v in s[1..] {}
      forall v: Logic ensures v in rest <==> v == next || v in s[1..] {}
    } else {
      assert [start] + s == [start];
    }
  }

  lemma RuleIsUnique(s: Bits, r1: Logic, r2: Logic)
    requires ByRule(s, r1) && ByRule(s, r2)
    ensures r1 == r2
  {
    if |s| > 0 {
      assert s[0] in s;
    }
  }

  /** Main result: the loop, with its one-driver shortcut, computes the rule. */
  lemma ResolvesByRule(s: Bits)
    ensures forall r :: ByRule(s, r) <==> r == Resolve(s)
    ensures |s| == 1 ==> s[0] == Fold(s, Z)
  {
    FoldByRule(s, Z);
    var all := [Z] + s;
    forall v: Logic ensures v in all <==> v.Z? || v in s {}
    if |s| == 1 {
      assert s[1..] == [];
      EntryTable(Z, s[0]);
      assert Fold(s, Z) == Fold(s[1..], Entry(Z, s[0]));
    }
    forall r | ByRule(s, r) ensures r == Resolve(s) {
      RuleIsUnique(s, r, Resolve(s));
    }
  }

  /** The order of the drivers does not matter. */
  lemma ResolvePermuted(s: Bits, t: Bits)
    requires multiset(s) == multiset(t)
    ensures Resolve(s) == Resolve(t)
  {
    ResolvesByRule(s);
    ResolvesByRule(t);
    forall v: Logic ensures v in s <==> v in t {
      assert v in s <==> v in multiset(s);
      assert v in t <==> v in multiset(t);
    }
    assert ByRule(t, Resolve(t));
    assert ByRule(s, Resolve(t));
  }

  /** Resolving part of the drivers first gives the same value. */
  lemma ResolveGrouped(s: Bits, t: Bits)
    ensures Resolve(s + t) == Entry(Resolve(s), Resolve(t))
  {
    ResolvesByRule(s);
    ResolvesByRule(t);
    ResolvesByRule(s + t);
    EntryTable(Resolve(s), Resolve(t));
    forall v: Logic ensures v in s + t <==> v in s || v in t {}
    assert ByRule(s, Resolve(s)) && ByRule(t, Resolve(t));
    assert ByRule(s + t, Entry(Resolve(s), Resolve(t)));
  }

  function ResolveEach(groups: seq<Bits>): Bits {
    if |groups| == 0 then [] else [Resolve(groups[0])] + ResolveEach(groups[1..])
  }

  function Joined(groups: seq<Bits>): Bits {
    if |groups| == 0 then [] else groups[0] + Joined(groups[1..])
  }

  /** Any grouping: resolve each group, then the results. */
  lemma {:induction false} ResolveAnyGrouping(groups: seq<Bits>)
    ensures Resolve(Joined(groups)) == Resolve(ResolveEach(groups))
  {
    if |groups| != 0 {
      ResolveAnyGrouping(groups[1..]);
      ResolveGrouped(groups[0], Joined(groups[1..]));
      ResolveGrouped([Resolve(groups[0])], ResolveEach(groups[1..]));
      assert Resolve([Resolve(groups[0])]) == Resolve(groups[0]);
    }
  }

  /** An idle driver releases the net. */
  lemma IdleDriver(s: Bits)
    ensures Resolve(s + [Z]) == Resolve(s) == Resolve([Z] + s)
  {
    ResolveGrouped(s, [Z]);
    ResolveGrouped([Z], s);
    EntryTable(Resolve(s), Z);
    EntryTable(Z, Resolve(s));
  }
}
