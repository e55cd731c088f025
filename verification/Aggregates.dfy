/**
 Initialising an array from a nested aggregate: the printer flattens it into a list of
 assignments under for loops, others first and then the alternatives in order.

 RunsToDeclaredValue shows that for a complete aggregate running the list gives the array it
 declares; RunsAsDeclaredIff says exactly for which aggregates the list writes what is declared.
 */
module Aggregates {
  import opened Wrappers

  datatype Direction = Upto | Downto
  datatype Range = Range(left: int, right: int, dir: Direction)

  datatype Index = At(i: int) | Span(r: Range)
  datatype Init =
    | Element(v: int)
    | Aggregate(span: Range, others: Option<Init>, alts: seq<AggregateAlt>)
  datatype AggregateAlt = AggregateAlt(indices: seq<Index>, value: Init)

  /** A subscript of a flattened assignment: an aggregate stands for a loop over its whole span. */
  datatype Subscript = WholeOf(span: Range) | Given(index: Index)
  datatype Info = Info(indexes: seq<Subscript>, value: int)

  // ---------------------------------------------------------------- flattening

  function PushFront(s: Subscript, infos: seq<Info>): seq<Info> {
    if |infos| == 0 then []
    else [Info([s] + infos[0].indexes, infos[0].value)] + PushFront(s, infos[1..])
  }

  function Flatten(a: Init): seq<Info>
    requires a.Aggregate?
    decreases a, 0
  {
    (if a.others.Some? then Under(WholeOf(a.span), a.others.value) else []) + FlattenAlts(a.alts)
  }

  /** The assignments for a value that stands under one subscript. */
  function Under(s: Subscript, value: Init): seq<Info>
    decreases value, 1
  {
    if value.Aggregate? then PushFront(s, Flatten(value)) else [Info([s], value.v)]
  }

  function FlattenIndices(indices: seq<Index>, value: Init): seq<Info>
    decreases value, 2, |indices|
  {
    if |indices| == 0 then [] else Under(Given(indices[0]), value) + FlattenIndices(indices[1..], value)
  }

  function FlattenAlts(alts: seq<AggregateAlt>): seq<Info>
    decreases alts, 3
  {
    if |alts| == 0 then [] else FlattenIndices(alts[0].indices, alts[0].value) + FlattenAlts(alts[1..])
  }

  /** Puts a subscript in front of every assignment of a list. */
  method PushAllFront(s: Subscript, rec: seq<Info>) returns (r: seq<Info>)
    ensures r == PushFront(s, rec)
  {
    r := [];
    for k := 0 to |rec|
      invariant r + PushFront(s, rec[k..]) == PushFront(s, rec)
    {
      r := r + [Info([s] + rec[k].indexes, rec[k].value)];
    }
    assert rec[|rec|..] == [];
  }

  method FillUnder(s: Subscript, value: Init) returns (rec: seq<Info>)
    ensures rec == Under(s, value)
    decreases value, 1
  {
    if value.Aggregate? {
      rec := FillAggregateAltInfo(value);
      rec := PushAllFront(s, rec);
    } else {
      rec := [Info([s], value.v)];
    }
  }

  method FillAggregateAltInfo(agg: Init) returns (infos: seq<Info>)
    requires agg.Aggregate?
    ensures infos == Flatten(agg)
    decreases agg, 0
  {
    infos := [];
    if agg.others.Some? {
      var rec := FillUnder(WholeOf(agg.span), agg.others.value);
      infos := infos + rec;
    }
    for i := 0 to |agg.alts|
      invariant infos + FlattenAlts(agg.alts[i..]) == Flatten(agg)
    {
      var alt := agg.alts[i];
      assert agg.alts[i..][0] == alt && agg.alts[i..][1..] == agg.alts[i + 1..];
      ghost var done := infos;
      for j := 0 to |alt.indices|
        invariant infos + FlattenIndices(alt.indices[j..], alt.value) == done + FlattenIndices(alt.indices, alt.value)
      {
        var rec := FillUnder(Given(alt.indices[j]), alt.value);
        assert alt.indices[j..][1..] == alt.indices[j + 1..];
        assert infos + (rec + FlattenIndices(alt.indices[j + 1..], alt.value))
            == infos + rec + FlattenIndices(alt.indices[j + 1..], alt.value);
        infos := infos + rec;
      }
      assert alt.indices[|alt.indices|..] == [];
      assert infos == done + FlattenIndices(alt.indices, alt.value);
      assert done + (FlattenIndices(alt.indices, alt.value) + FlattenAlts(agg.alts[i + 1..]))
          == infos + FlattenAlts(agg.alts[i + 1..]);
    }
    assert agg.alts[|agg.alts|..] == [];
  }

  // ---------------------------------------------------------------- running the assignments

  type Array = map<seq<int>, int>

  predicate InRange(r: Range, i: int) {
    if r.dir.Upto? then r.left <= i <= r.right else r.right <= i <= r.left
  }

  predicate InIndex(x: Index, i: int) {
    match x
    case At(k) => i == k
    case Span(r) => InRange(r, i)
  }

  predicate InSubscript(s: Subscript, i: int) {
    match s
    case WholeOf(r) => InRange(r, i)
    case Given(x) => InIndex(x, i)
  }

  /** One assignment under its loops, in the order the loops run. */
  function RunInfo(indexes: seq<Subscript>, value: int, path: seq<int>, arr: Array): Array
    decreases |indexes|, 1, 0
  {
    if |indexes| == 0 then arr[path := value]
    else match indexes[0]
      case WholeOf(r) => RunLoop(r, r.left, indexes, value, path, arr)
      case Given(Span(r)) => RunLoop(r, r.left, indexes, value, path, arr)
      case Given(At(i)) => RunInfo(indexes[1..], value, path + [i], arr)
  }

  function Remaining(r: Range, i: int): nat {
    if !InRange(r, i) then 0 else if r.dir.Upto? then r.right - i + 1 else i - r.right + 1
  }

  /** for (ind = left; ind <= right; ind = ind + 1), or downwards. */
  function RunLoop(r: Range, ind: int, indexes: seq<Subscript>, value: int, path: seq<int>, arr: Array): Array
    requires |indexes| > 0
    decreases |indexes|, 0, Remaining(r, ind)
  {
    if !(if r.dir.Upto? then r.left <= ind <= r.right else r.right <= ind <= r.left) then arr
    else
      RunLoop(r, if r.dir.Upto? then ind + 1 else ind - 1, indexes, value, path,
              RunInfo(indexes[1..], value, path + [ind], arr))
  }

  function Run(infos: seq<Info>, arr: Array): Array {
    if |infos| == 0 then arr else Run(infos[1..], RunInfo(infos[0].indexes, infos[0].value, [], arr))
  }

  function Cell(arr: Array, p: seq<int>): Option<int> {
    if p in arr then Some(arr[p]) else None
  }

  predicate Matches(indexes: seq<Subscript>, p: seq<int>) {
    |indexes| == |p| && (|p| == 0 || (InSubscript(indexes[0], p[0]) && Matches(indexes[1..], p[1..])))
  }

  predicate Hits(indexes: seq<Subscript>, path: seq<int>, p: seq<int>) {
    path <= p && Matches(indexes, p[|path|..])
  }

  lemma HitsNext(indexes: seq<Subscript>, path: seq<int>, i: int, p: seq<int>)
    requires |indexes| > 0
    ensures Hits(indexes[1..], path + [i], p) <==>
            path + [i] <= p && Matches(indexes[1..], p[|path| + 1..])
    ensures Hits(indexes, path, p) <==>
            path <= p && |p| > |path| && InSubscript(indexes[0], p[|path|]) && Matches(indexes[1..], p[|path| + 1..])
  {
    if path <= p && |p| > |path| {
      assert p[|path|..][1..] == p[|path| + 1..];
    }
  }

  /** An assignment writes its value to exactly the cells its subscripts reach. */
  lemma {:induction false} RunInfoWrites(indexes: seq<Subscript>, value: int, path: seq<int>, arr: Array, p: seq<int>)
    ensures Cell(RunInfo(indexes, value, path, arr), p) == if Hits(indexes, path, p) then Some(value) else Cell(arr, p)
    decreases |indexes|, 1, 0
  {
    if |indexes| == 0 {
      assert path <= p && p[|path|..] == [] ==> p == path;
      assert p == path ==> p[|path|..] == [];
    } else {
      match indexes[0]
      case WholeOf(r) => RunLoopWrites(r, r.left, indexes, value, path, arr, p);
      case Given(Span(r)) => RunLoopWrites(r, r.left, indexes, value, path, arr, p);
      case Given(At(i)) =>
        RunInfoWrites(indexes[1..], value, path + [i], arr, p);
        HitsNext(indexes, path, i, p);
        assert path <= p && |p| > |path| && p[|path|] == i <==> path + [i] <= p;
    }
  }

  /** The loop indices not yet run. */
  predicate Ahead(r: Range, ind: int, i: int) {
    InRange(r, i) && (if r.dir.Upto? then ind <= i else i <= ind)
  }

  lemma {:induction false} RunLoopWrites(r: Range, ind: int, indexes: seq<Subscript>, value: int, path: seq<int>,
                                         arr: Array, p: seq<int>)
    requires |indexes| > 0 && (indexes[0] == WholeOf(r) || indexes[0] == Given(Span(r)))
    requires InRange(r, ind) || (forall i :: Ahead(r, ind, i) ==> false)
    ensures Cell(RunLoop(r, ind, indexes, value, path, arr), p)
         == if Hits(indexes, path, p) && Ahead(r, ind, p[|path|]) then Some(value) else Cell(arr, p)
    decreases |indexes|, 0, Remaining(r, ind)
  {
    HitsNext(indexes, path, ind, p);
    if InRange(r, ind) {
      var next := if r.dir.Upto? then ind + 1 else ind - 1;
      var arr' := RunInfo(indexes[1..], value, path + [ind], arr);
      RunInfoWrites(indexes[1..], value, path + [ind], arr, p);
      RunLoopWrites(r, next, indexes, value, path, arr', p);
      assert path <= p && |p| > |path| && p[|path|] == ind <==> path + [ind] <= p;
    }
  }

  /** The value the last assignment that reaches a cell leaves there. */
  function LastWrite(infos: seq<Info>, p: seq<int>): Option<int> {
    if |infos| == 0 then None
    else
      var later := LastWrite(infos[1..], p);
      if later.Some? then later else if Matches(infos[0].indexes, p) then Some(infos[0].value) else None
  }

  function OrElse(a: Option<int>, b: Option<int>): Option<int> {
    if a.Some? then a else b
  }

  lemma {:induction false} RunLeavesLastWrite(infos: seq<Info>, arr: Array, p: seq<int>)
    ensures Cell(Run(infos, arr), p) == OrElse(LastWrite(infos, p), Cell(arr, p))
  {
    if |infos| != 0 {
      var arr' := RunInfo(infos[0].indexes, infos[0].value, [], arr);
      RunInfoWrites(infos[0].indexes, infos[0].value, [], arr, p);
      assert p[0..] == p;
      RunLeavesLastWrite(infos[1..], arr', p);
    }
  }

  lemma {:induction false} LastWriteConcat(a: seq<Info>, b: seq<Info>, p: seq<int>)
    ensures LastWrite(a + b, p) == OrElse(LastWrite(b, p), LastWrite(a, p))
  {
    if |a| == 0 {
      assert a + b == b;
    } else {
      LastWriteConcat(a[1..], b, p);
      assert (a + b)[1..] == a[1..] + b;
    }
  }

  lemma {:induction false} LastWritePushed(s: Subscript, infos: seq<Info>, p: seq<int>)
    ensures LastWrite(PushFront(s, infos), p)
         == if |p| > 0 && InSubscript(s, p[0]) then LastWrite(infos, p[1..]) else None
  {
    if |infos| != 0 {
      LastWritePushed(s, infos[1..], p);
      var ix := [s] + infos[0].indexes;
      assert ix[1..] == infos[0].indexes;
    }
  }

  // ---------------------------------------------------------------- the declared value

  predicate Covers(indices: seq<Index>, i: int) {
    exists j :: 0 <= j < |indices| && InIndex(indices[j], i)
  }

  /** What an aggregate says of one cell: the alternative that names its index, else the others. */
  function Declared(a: Init, p: seq<int>): Option<int>
    decreases a, 0
  {
    match a
    case Element(v) => if |p| == 0 then Some(v) else None
    case Aggregate(span, others, alts) =>
      if |p| == 0 then None
      else if Named(alts, p[0]) then DeclaredIn(alts, p)
      else if others.Some? && InRange(span, p[0]) then Declared(others.value, p[1..])
      else None
  }

  predicate Named(alts: seq<AggregateAlt>, i: int) {
    exists k :: 0 <= k < |alts| && Covers(alts[k].indices, i)
  }

  /** By the last alternative that names the index; a legal aggregate has only one. */
  function DeclaredIn(alts: seq<AggregateAlt>, p: seq<int>): Option<int>
    requires |p| > 0
    decreases alts, 1
  {
    if |alts| == 0 then None
    else if Named(alts[1..], p[0]) then DeclaredIn(alts[1..], p)
    else if Covers(alts[0].indices, p[0]) then Declared(alts[0].value, p[1..])
    else None
  }

  /** What running an aggregate's assignments leaves in one cell, if they reach it. */
  function Effect(a: Init, p: seq<int>): Option<int>
    decreases a, 0
  {
    match a
    case Element(v) => if |p| == 0 then Some(v) else None
    case Aggregate(span, others, alts) =>
      if |p| == 0 then None
      else OrElse(EffectOfAlts(alts, p),
                  if others.Some? && InRange(span, p[0]) then Effect(others.value, p[1..]) else None)
  }

  function EffectOfAlts(alts: seq<AggregateAlt>, p: seq<int>): Option<int>
    requires |p| > 0
    decreases alts, 1
  {
    if |alts| == 0 then None
    else OrElse(EffectOfAlts(alts[1..], p), if Covers(alts[0].indices, p[0]) then Effect(alts[0].value, p[1..])
      else None)
  }

  lemma {:induction false} UnderEffect(s: Subscript, a: Init, p: seq<int>)
    ensures LastWrite(Under(s, a), p) == if |p| > 0 && InSubscript(s, p[0]) then Effect(a, p[1..]) else None
    decreases a, 1
  {
    if a.Aggregate? {
      LastWritePushed(s, Flatten(a), p);
      if |p| > 0 {
        FlattenEffect(a, p[1..]);
      }
    } else {
      var info := Info([s], a.v);
      assert [s][1..] == [] && [info][1..] == [];
      assert LastWrite([info], p) == OrElse(LastWrite([info][1..], p), if Matches([s], p) then Some(a.v) else None);
      assert Matches([s], p) <==> |p| == 1 && InSubscript(s, p[0]) && Matches([s][1..], p[1..]);
    }
  }

  lemma {:induction false} FlattenEffect(a: Init, p: seq<int>)
    requires a.Aggregate?
    ensures LastWrite(Flatten(a), p) == Effect(a, p)
    decreases a, 0
  {
    var first := if a.others.Some? then Under(WholeOf(a.span), a.others.value) else [];
    LastWriteConcat(first, FlattenAlts(a.alts), p);
    if a.others.Some? {
      UnderEffect(WholeOf(a.span), a.others.value, p);
    }
    FlattenAltsEffect(a.alts, p);
  }

  lemma {:induction false} FlattenAltsEffect(alts: seq<AggregateAlt>, p: seq<int>)
    ensures LastWrite(FlattenAlts(alts), p) == if |p| > 0 then EffectOfAlts(alts, p) else None
    decreases alts, 3
  {
    if |alts| != 0 {
      var first := FlattenIndices(alts[0].indices, alts[0].value);
      LastWriteConcat(first, FlattenAlts(alts[1..]), p);
      FlattenAltsEffect(alts[1..], p);
      FlattenIndicesEffect(alts[0].indices, alts[0].value, p);
    }
  }

  lemma {:induction false} FlattenIndicesEffect(indices: seq<Index>, a: Init, p: seq<int>)
    ensures LastWrite(FlattenIndices(indices, a), p)
         == if |p| > 0 && Covers(indices, p[0]) then Effect(a, p[1..]) else None
    decreases a, 2, |indices|
  {
    if |indices| != 0 {
      LastWriteConcat(Under(Given(indices[0]), a), FlattenIndices(indices[1..], a), p);
      UnderEffect(Given(indices[0]), a, p);
      FlattenIndicesEffect(indices[1..], a, p);
      if |p| > 0 {
        CoversSplit(indices, p[0]);
      }
    }
  }

  lemma CoversSplit(indices: seq<Index>, i: int)
    requires |indices| > 0
    ensures Covers(indices, i) <==> InIndex(indices[0], i) || Covers(indices[1..], i)
  {
    if j :| 0 <= j < |indices[1..]| && InIndex(indices[1..][j], i) {
      assert InIndex(indices[j + 1], i);
    }
    if j :| 1 <= j < |indices| && InIndex(indices[j], i) {
      assert InIndex(indices[1..][j - 1], i);
    }
  }

  lemma NamedSplit(alts: seq<AggregateAlt>, i: int)
    requires |alts| > 0
    ensures Named(alts, i) <==> Covers(alts[0].indices, i) || Named(alts[1..], i)
  {
    if k :| 0 <= k < |alts[1..]| && Covers(alts[1..][k].indices, i) {
      assert Covers(alts[k + 1].indices, i);
    }
    if k :| 1 <= k < |alts| && Covers(alts[k].indices, i) {
      assert Covers(alts[1..][k - 1].indices, i);
    }
  }

  /** Every aggregate, at every depth, spans its dimension and gives a value to each of its indices. */
  ghost predicate Complete(a: Init, dims: seq<Range>)
    decreases a, 0
  {
    match a
    case Element(_) => |dims| == 0
    case Aggregate(span, others, alts) =>
      && |dims| > 0 && span == dims[0]
      && (others.Some? ==> Complete(others.value, dims[1..]))
      && CompleteAlts(alts, dims)
      && (others.None? ==> forall i :: InRange(span, i) ==> Named(alts, i))
      && (forall i :: Named(alts, i) ==> InRange(span, i))
  }

  ghost predicate CompleteAlts(alts: seq<AggregateAlt>, dims: seq<Range>)
    decreases alts, 1
  {
    |alts| > 0 ==> |dims| > 0 && Complete(alts[0].value, dims[1..]) && CompleteAlts(alts[1..], dims)
  }

  predicate InArray(dims: seq<Range>, p: seq<int>) {
    |dims| == |p| && (|dims| > 0 ==> InRange(dims[0], p[0]) && InArray(dims[1..], p[1..]))
  }

  /** In a complete aggregate the assignments reach every cell of the array, and only those. */
  lemma {:induction false} CompleteEffect(a: Init, dims: seq<Range>, p: seq<int>)
    requires Complete(a, dims)
    ensures Effect(a, p).Some? <==> InArray(dims, p)
    ensures Effect(a, p) == Declared(a, p)
    decreases a, 0
  {
    if a.Aggregate? && |p| > 0 {
      CompleteAltsEffect(a.alts, dims, p);
      if a.others.Some? {
        CompleteEffect(a.others.value, dims[1..], p[1..]);
      }
    }
  }

  lemma {:induction false} CompleteAltsEffect(alts: seq<AggregateAlt>, dims: seq<Range>, p: seq<int>)
    requires CompleteAlts(alts, dims) && |dims| > 0 && |p| > 0
    ensures EffectOfAlts(alts, p).Some? <==> Named(alts, p[0]) && InArray(dims[1..], p[1..])
    ensures Named(alts, p[0]) ==> EffectOfAlts(alts, p) == DeclaredIn(alts, p)
    decreases alts, 1
  {
    if |alts| != 0 {
      NamedSplit(alts, p[0]);
      CompleteEffect(alts[0].value, dims[1..], p[1..]);
      CompleteAltsEffect(alts[1..], dims, p);
    }
  }

  /** In general, a cell holds what the assignments leave there, or what it held before. */
  lemma RunsToEffect(a: Init, arr: Array, p: seq<int>)
    requires a.Aggregate?
    ensures Cell(Run(Flatten(a), arr), p) == OrElse(Effect(a, p), Cell(arr, p))
  {
    RunLeavesLastWrite(Flatten(a), arr, p);
    FlattenEffect(a, p);
  }

  /**
   Main result: for a complete aggregate of any depth, the flattened list overwrites any initial
   array with the declared value, cell by cell, and touches nothing else.
   */
  lemma RunsToDeclaredValue(a: Init, dims: seq<Range>, arr: Array, p: seq<int>)
    requires a.Aggregate? && Complete(a, dims)
    ensures Cell(Run(Flatten(a), arr), p) == if InArray(dims, p) then Declared(a, p) else Cell(arr, p)
    ensures InArray(dims, p) ==> Declared(a, p).Some?
  {
    RunsToEffect(a, arr, p);
    CompleteEffect(a, dims, p);
  }

  /** No index is named twice. */
  ghost predicate Disjoint(alts: seq<AggregateAlt>) {
    forall j, k, i :: 0 <= j < k < |alts| && Covers(alts[j].indices, i) ==> !Covers(alts[k].indices, i)
  }

  /** The value of a legal aggregate does not depend on the order of its alternatives. */
  lemma {:induction false} DeclaredByItsAlternative(alts: seq<AggregateAlt>, k: nat, p: seq<int>)
    requires Disjoint(alts) && k < |alts| && |p| > 0 && Covers(alts[k].indices, p[0])
    ensures DeclaredIn(alts, p) == Declared(alts[k].value, p[1..])
    decreases alts, 1
  {
    NamedSplit(alts, p[0]);
    if k > 0 {
      assert alts[1..][k - 1] == alts[k];
      assert Named(alts[1..], p[0]);
      DeclaredByItsAlternative(alts[1..], k - 1, p);
    } else {
      forall j | 0 <= j < |alts[1..]|
        ensures !Covers(alts[1..][j].indices, p[0])
      {
        assert alts[1..][j] == alts[j + 1];
      }
    }
  }

  // ---------------------------------------------------------------- exactly which aggregates

  /** The cells an aggregate's assignments reach, whatever the values. */
  predicate Reaches(a: Init, p: seq<int>)
    decreases a, 0
  {
    match a
    case Element(_) => |p| == 0
    case Aggregate(span, others, alts) =>
      |p| > 0 && (ReachedByAlts(alts, p) || (others.Some? && InRange(span, p[0]) && Reaches(others.value, p[1..])))
  }

  predicate ReachedByAlts(alts: seq<AggregateAlt>, p: seq<int>)
    requires |p| > 0
    decreases alts, 1
  {
    |alts| > 0 && (ReachedByAlts(alts[1..], p) || (Covers(alts[0].indices, p[0]) && Reaches(alts[0].value, p[1..])))
  }

  lemma {:induction false} ReachedIffWritten(a: Init, p: seq<int>)
    ensures Effect(a, p).Some? <==> Reaches(a, p)
    decreases a, 0
  {
    if a.Aggregate? && |p| > 0 {
      ReachedByAltsIffWritten(a.alts, p);
      if a.others.Some? {
        ReachedIffWritten(a.others.value, p[1..]);
      }
    }
  }

  lemma {:induction false} ReachedByAltsIffWritten(alts: seq<AggregateAlt>, p: seq<int>)
    requires |p| > 0
    ensures EffectOfAlts(alts, p).Some? <==> ReachedByAlts(alts, p)
    decreases alts, 1
  {
    if |alts| != 0 {
      ReachedByAltsIffWritten(alts[1..], p);
      ReachedIffWritten(alts[0].value, p[1..]);
    }
  }

  /** The value that governs an index: the last alternative that names it, else the others. */
  function Governing(a: Init, i: int): (r: Option<Init>)
    requires a.Aggregate?
    ensures r.Some? ==>
              || (a.others.Some? && r.value == a.others.value)
              || exists k :: 0 <= k < |a.alts| && r.value == a.alts[k].value
  {
    if Named(a.alts, i) then Some(LastNaming(a.alts, i))
    else if InRange(a.span, i) then a.others
    else None
  }

  function LastNaming(alts: seq<AggregateAlt>, i: int): (r: Init)
    requires Named(alts, i)
    ensures exists k :: 0 <= k < |alts| && r == alts[k].value
  {
    NamedSplit(alts, i);
    if Named(alts[1..], i) then
      var r := LastNaming(alts[1..], i);
      var k :| 0 <= k < |alts[1..]| && r == alts[1..][k].value;
      assert alts[k + 1].value == r;
      r
    else alts[0].value
  }

  /** No gap shows: whatever is reached under an index, the value that governs the index reaches too. */
  ghost predicate Sealed(a: Init) {
    match a
    case Element(_) => true
    case Aggregate(_, _, _) =>
      forall i: int :: Governing(a, i).Some? ==> Sealed(Governing(a, i).value) && GovernsAlone(a, i)
  }

  ghost predicate GovernsAlone(a: Init, i: int)
    requires a.Aggregate? && Governing(a, i).Some?
  {
    forall p: seq<int> :: Reaches(a, [i] + p) ==> Reaches(Governing(a, i).value, p)
  }

  lemma {:induction false} DeclaredByGoverning(a: Init, p: seq<int>)
    requires a.Aggregate? && |p| > 0
    ensures Declared(a, p) == if Governing(a, p[0]).Some? then Declared(Governing(a, p[0]).value, p[1..]) else None
  {
    if Named(a.alts, p[0]) {
      DeclaredByLast(a.alts, p);
    }
  }

  lemma {:induction false} DeclaredByLast(alts: seq<AggregateAlt>, p: seq<int>)
    requires |p| > 0 && Named(alts, p[0])
    ensures DeclaredIn(alts, p) == Declared(LastNaming(alts, p[0]), p[1..])
  {
    NamedSplit(alts, p[0]);
    if Named(alts[1..], p[0]) {
      DeclaredByLast(alts[1..], p);
    }
  }

  /** Where the governing value is written at all, it is what the cell ends with. */
  lemma {:induction false} EffectByGoverning(a: Init, p: seq<int>)
    requires a.Aggregate? && |p| > 0
    ensures Governing(a, p[0]).None? ==> Effect(a, p).None?
    ensures Governing(a, p[0]).Some? && Effect(Governing(a, p[0]).value, p[1..]).Some? ==>
              Effect(a, p) == Effect(Governing(a, p[0]).value, p[1..])
  {
    if Named(a.alts, p[0]) {
      EffectByLast(a.alts, p);
    } else {
      UnnamedUntouched(a.alts, p);
    }
  }

  lemma {:induction false} EffectByLast(alts: seq<AggregateAlt>, p: seq<int>)
    requires |p| > 0 && Named(alts, p[0])
    ensures var e := Effect(LastNaming(alts, p[0]), p[1..]);
            e.Some? ==> EffectOfAlts(alts, p) == e
  {
    NamedSplit(alts, p[0]);
    if Named(alts[1..], p[0]) {
      EffectByLast(alts[1..], p);
    } else {
      UnnamedUntouched(alts[1..], p);
    }
  }

  lemma {:induction false} UnnamedUntouched(alts: seq<AggregateAlt>, p: seq<int>)
    requires |p| > 0 && !Named(alts, p[0])
    ensures EffectOfAlts(alts, p).None?
  {
    if |alts| != 0 {
      NamedSplit(alts, p[0]);
      UnnamedUntouched(alts[1..], p);
    }
  }

  /** What is declared of a cell is written there. */
  lemma {:induction false} DeclaredIsWritten(a: Init, p: seq<int>)
    ensures Declared(a, p).Some? ==> Effect(a, p) == Declared(a, p)
    decreases a
  {
    if a.Aggregate? && |p| > 0 {
      DeclaredByGoverning(a, p);
      EffectByGoverning(a, p);
      if Governing(a, p[0]).Some? {
        DeclaredIsWritten(Governing(a, p[0]).value, p[1..]);
      }
    }
  }

  lemma {:induction false} SealedSuffices(a: Init, p: seq<int>)
    requires Sealed(a)
    ensures Effect(a, p) == Declared(a, p)
    decreases a
  {
    DeclaredIsWritten(a, p);
    if a.Aggregate? && |p| > 0 {
      DeclaredByGoverning(a, p);
      EffectByGoverning(a, p);
      if Governing(a, p[0]).Some? {
        var g := Governing(a, p[0]).value;
        assert [p[0]] + p[1..] == p;
        ReachedIffWritten(a, p);
        ReachedIffWritten(g, p[1..]);
        assert GovernsAlone(a, p[0]);
        SealedSuffices(g, p[1..]);
      }
    }
  }

  ghost predicate WritesDeclared(a: Init) {
    forall p: seq<int> :: Effect(a, p) == Declared(a, p)
  }

  lemma {:induction false} SealedNeeded(a: Init)
    requires WritesDeclared(a)
    ensures Sealed(a)
    decreases a
  {
    if a.Aggregate? {
      forall i: int | Governing(a, i).Some?
        ensures Sealed(Governing(a, i).value) && GovernsAlone(a, i)
      {
        var g := Governing(a, i).value;
        forall p: seq<int>
          ensures Effect(g, p) == Declared(g, p)
          ensures Reaches(a, [i] + p) ==> Reaches(g, p)
        {
          var q := [i] + p;
          assert q[1..] == p;
          assert Effect(a, q) == Declared(a, q);
          DeclaredByGoverning(a, q);
          EffectByGoverning(a, q);
          DeclaredIsWritten(g, p);
          ReachedIffWritten(a, q);
          ReachedIffWritten(g, p);
        }
        SealedNeeded(g);
      }
    }
  }

  /** Every initial array takes the declared value, and keeps the cells nothing is declared of. */
  ghost predicate RunsAsDeclared(a: Init)
    requires a.Aggregate?
  {
    forall arr: Array, p: seq<int> :: Cell(Run(Flatten(a), arr), p) == OrElse(Declared(a, p), Cell(arr, p))
  }

  /** Main result: the flattened list does that, for every aggregate, exactly when no gap shows. */
  lemma {:induction false} RunsAsDeclaredIff(a: Init)
    requires a.Aggregate?
    ensures RunsAsDeclared(a) <==> Sealed(a)
  {
    if Sealed(a) {
      forall arr: Array, p: seq<int>
        ensures Cell(Run(Flatten(a), arr), p) == OrElse(Declared(a, p), Cell(arr, p))
      {
        RunsToEffect(a, arr, p);
        SealedSuffices(a, p);
      }
    }
    if RunsAsDeclared(a) {
      EmptyArrayShows(a);
      SealedNeeded(a);
    }
  }

  /** On an empty array every cell shows what is written. */
  lemma {:induction false} EmptyArrayShows(a: Init)
    requires a.Aggregate? && RunsAsDeclared(a)
    ensures WritesDeclared(a)
  {
    var empty: Array := map[];
    forall p: seq<int>
      ensures Effect(a, p) == Declared(a, p)
    {
      RunsToEffect(a, empty, p);
      assert Cell(Run(Flatten(a), empty), p) == OrElse(Declared(a, p), Cell(empty, p));
    }
  }

  /** A complete aggregate is sealed. */
  lemma CompleteIsSealed(a: Init, dims: seq<Range>)
    requires Complete(a, dims)
    ensures Sealed(a)
  {
    forall p: seq<int>
      ensures Effect(a, p) == Declared(a, p)
    {
      CompleteEffect(a, dims, p);
    }
    SealedNeeded(a);
  }

  /** An instance: an inner aggregate that leaves out a cell the others cover. */
  lemma {:induction false} GapShowsThrough(x: int, y: int)
    ensures var inner := Aggregate(Range(0, 1, Upto), None, [AggregateAlt([At(0)], Element(y))]);
            var row := Aggregate(Range(0, 1, Upto), Some(Element(x)), []);
            var a := Aggregate(Range(0, 0, Upto), Some(row), [AggregateAlt([At(0)], inner)]);
            Declared(a, [0, 1]) == None && Effect(a, [0, 1]) == Some(x) && !Sealed(a)
  {
    var inner := Aggregate(Range(0, 1, Upto), None, [AggregateAlt([At(0)], Element(y))]);
    var row := Aggregate(Range(0, 1, Upto), Some(Element(x)), []);
    var alts := [AggregateAlt([At(0)], inner)];
    var p := [0, 1];
    assert p[1..] == [1];
    assert InIndex([At(0)][0], 0);
    assert Covers(alts[0].indices, 0) && !Covers([At(0)], 1);
    assert alts[1..] == [] && inner.alts[1..] == [];
    assert !Named(inner.alts, 1) && !Named(alts[1..], 0);
    assert EffectOfAlts(inner.alts, [1]) == OrElse(EffectOfAlts(inner.alts[1..], [1]), None) == None;
    assert Effect(inner, [1]) == None && Declared(inner, [1]) == None;
    assert Effect(Element(x), []) == Some(x) && [1][1..] == [];
    assert EffectOfAlts(alts, p) == None && DeclaredIn(alts, p) == None;
    var a := Aggregate(Range(0, 0, Upto), Some(row), alts);
    if Sealed(a) {
      SealedSuffices(a, p);
    }
  }
}
