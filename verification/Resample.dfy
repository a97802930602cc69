/**
 Glyphs made to fit another cell: merging neighbouring dots in groups,
 chosen for each glyph from every grouping there is. A line of dots is the set of
 those that are lit.
 */
module Resample {
  import opened Bytes

  type Dots = set<nat>

  /** How many dots one group may take in. */
  function MaxGroup(into: nat): nat { if into < 8 then 3 else 2 }

  // ------------------------------------------------------------------
  // Every grouping
  // ------------------------------------------------------------------

  function Total(sizes: seq<nat>): nat {
    if sizes == [] then 0 else Total(sizes[..|sizes| - 1]) + sizes[|sizes| - 1]
  }

  /** `sizes` divides `from` dots into `to` groups, none larger than it may be. */
  ghost predicate Divides(sizes: seq<nat>, from: nat, into: nat, most: nat) {
    |sizes| == into && Total(sizes) == from && forall i | 0 <= i < |sizes| :: 1 <= sizes[i] <= most
  }

  /** Every way to go on from `sizes`, in the order they are tried. */
  function Groupings(from: nat, into: nat, most: nat, sizes: seq<nat>): (all: seq<seq<nat>>)
    decreases Max(into - |sizes|, 0), 1, 0
  {
    if |sizes| >= into || Total(sizes) > from then
      if |sizes| == into && Total(sizes) == from then [sizes] else []
    else GroupingsFrom(from, into, most, sizes, 1)
  }

  /** Those whose next group has `n` dots or more. What can never be completed is passed over. */
  function GroupingsFrom(from: nat, into: nat, most: nat, sizes: seq<nat>, n: nat): (all: seq<seq<nat>>)
    requires |sizes| < into && Total(sizes) <= from
    decreases Max(into - |sizes|, 0), 0, Max(most + 1 - n, 0)
  {
    if n > Min(most, from - Total(sizes)) then []
    else
      (if Completable(from - Total(sizes) - n, into - |sizes| - 1, most) then Groupings(from, into, most, sizes + [n]) else [])
      + GroupingsFrom(from, into, most, sizes, n + 1)
  }

  /** Not so few dots left that a group would have none, nor so many that a group would have too many. */
  predicate Completable(rest: nat, groups: nat, most: nat) { groups <= rest <= groups * most }

  lemma TotalOneMore(sizes: seq<nat>, n: nat)
    ensures Total(sizes + [n]) == Total(sizes) + n
  {
    assert (sizes + [n])[..|sizes|] == sizes;
  }

  lemma {:induction false} TotalOfPrefix(sizes: seq<nat>, k: nat)
    requires k <= |sizes|
    ensures Total(sizes[..k]) <= Total(sizes)
    decreases |sizes|
  {
    if k < |sizes| {
      assert sizes[..k] == sizes[..|sizes| - 1][..k];
      TotalOfPrefix(sizes[..|sizes| - 1], k);
    } else {
      assert sizes[..k] == sizes;
    }
  }

  /** What a division leaves after its first groups can be completed. */
  lemma {:induction false} RestIsCompletable(sizes: seq<nat>, from: nat, into: nat, most: nat, k: nat)
    requires Divides(sizes, from, into, most) && k <= into
    ensures Total(sizes[..k]) <= from && Completable(from - Total(sizes[..k]), into - k, most)
    decreases into - k
  {
    TotalOfPrefix(sizes, k);
    if k == into {
      assert sizes[..k] == sizes;
    } else {
      RestIsCompletable(sizes, from, into, most, k + 1);
      assert sizes[..k + 1] == sizes[..k] + [sizes[k]];
      TotalOneMore(sizes[..k], sizes[k]);
      assert (into - k - 1) * most + most == (into - k) * most;
    }
  }

  /** Every division that goes on from these sizes is among the groupings. */
  lemma {:induction false} GroupingsAreAll(from: nat, into: nat, most: nat, sizes: seq<nat>, d: seq<nat>)
    requires Divides(d, from, into, most) && sizes <= d
    ensures d in Groupings(from, into, most, sizes)
    decreases into - |sizes|, 1, 0
  {
    assert d[..|sizes|] == sizes;
    if |sizes| == into {
      assert d == sizes;
    } else {
      RestIsCompletable(d, from, into, most, |sizes|);
      GroupingsFromAreAll(from, into, most, sizes, 1, d);
      assert |sizes| < into && Total(sizes) <= from;
    }
  }

  lemma {:induction false} GroupingsFromAreAll(from: nat, into: nat, most: nat, sizes: seq<nat>, n: nat, d: seq<nat>)
    requires Divides(d, from, into, most) && sizes <= d && |sizes| < into && Total(sizes) <= from && 1 <= n <= d[|sizes|]
    ensures d in GroupingsFrom(from, into, most, sizes, n)
    decreases into - |sizes|, 0, d[|sizes|] - n
  {
    var k := d[|sizes|];
    assert d[..|sizes|] == sizes && d[..|sizes| + 1] == sizes + [k];
    TotalOneMore(sizes, k);
    RestIsCompletable(d, from, into, most, |sizes| + 1);
    if n < k {
      GroupingsFromAreAll(from, into, most, sizes, n + 1, d);
    } else {
      GroupingsAreAll(from, into, most, sizes + [k], d);
    }
  }

  ghost predicate Distinct(all: seq<seq<nat>>) { forall i, j | 0 <= i < j < |all| :: all[i] != all[j] }

  ghost predicate AllDivide(all: seq<seq<nat>>, from: nat, into: nat, most: nat, sizes: seq<nat>) {
    forall d | d in all :: Divides(d, from, into, most) && sizes <= d
  }

  /** Whose next group has `n` dots or more. */
  ghost predicate AtLeast(all: seq<seq<nat>>, at: nat, n: nat) {
    forall d | d in all :: at < |d| && n <= d[at]
  }

  lemma DistinctJoin(here: seq<seq<nat>>, later: seq<seq<nat>>, at: nat, n: nat)
    requires Distinct(here) && Distinct(later) && AtLeast(later, at, n + 1)
    requires forall d | d in here :: at < |d| && d[at] == n
    ensures Distinct(here + later) && AtLeast(here + later, at, n)
  {
    var all := here + later;
    forall i, j | 0 <= i < j < |all| ensures all[i] != all[j] {
      if i < |here| <= j {
        assert all[i] == here[i] && all[i] in here && all[j] == later[j - |here|] && all[j] in later;
      }
    }
  }

  /** And nothing else is, and nothing twice. */
  lemma {:induction false} GroupingsDivide(from: nat, into: nat, most: nat, sizes: seq<nat>)
    requires |sizes| <= into && forall i | 0 <= i < |sizes| :: 1 <= sizes[i] <= most
    ensures var all := Groupings(from, into, most, sizes); AllDivide(all, from, into, most, sizes) && Distinct(all)
    decreases into - |sizes|, 1, 0
  {
    if |sizes| < into && Total(sizes) <= from {
      GroupingsFromDivide(from, into, most, sizes, 1);
    }
  }

  lemma {:induction false} GroupingsFromDivide(from: nat, into: nat, most: nat, sizes: seq<nat>, n: nat)
    requires |sizes| < into && Total(sizes) <= from && n >= 1 && forall i | 0 <= i < |sizes| :: 1 <= sizes[i] <= most
    ensures var all := GroupingsFrom(from, into, most, sizes, n);
            AllDivide(all, from, into, most, sizes) && Distinct(all) && AtLeast(all, |sizes|, n)
    decreases into - |sizes|, 0, Max(most + 1 - n, 0)
  {
    hide Divides, Distinct;
    if n <= Min(most, from - Total(sizes)) {
      GroupingsFromDivide(from, into, most, sizes, n + 1);
      GroupingsDivide(from, into, most, sizes + [n]);
      var here := if Completable(from - Total(sizes) - n, into - |sizes| - 1, most) then Groupings(from, into, most, sizes + [n]) else [];
      assert Distinct([]) by { NothingTwice(); }
      forall d | d in here ensures |sizes| < |d| && d[|sizes|] == n && sizes <= d {
        assert sizes + [n] <= d;
        assert d[..|sizes| + 1] == sizes + [n];
      }
      DistinctJoin(here, GroupingsFrom(from, into, most, sizes, n + 1), |sizes|, n);
    } else {
      NothingTwice();
    }
  }

  lemma NothingTwice()
    ensures Distinct([])
  {
  }

  /**
   The search visits every way to divide the dots into groups of one to three,
   or to two where the cell has eight dots or more, once, and no other.
   */
  lemma EveryGroupingOnce(from: nat, into: nat)
    ensures var all := Groupings(from, into, MaxGroup(into), []);
            && (forall d :: d in all <==> Divides(d, from, into, if into < 8 then 3 else 2))
            && Distinct(all)
  {
    hide Divides, Distinct;
    var all := Groupings(from, into, MaxGroup(into), []);
    GroupingsDivide(from, into, MaxGroup(into), []);
    forall d ensures d in all <==> Divides(d, from, into, MaxGroup(into)) {
      if Divides(d, from, into, MaxGroup(into)) {
        GroupingsAreAll(from, into, MaxGroup(into), [], d);
      }
    }
  }

  // ------------------------------------------------------------------
  // Masks
  // ------------------------------------------------------------------

  /** The dots of one group. */
  function Span(start: nat, n: nat): (m: Dots)
    ensures forall d: nat :: d in m <==> start <= d < start + n
  {
    if n == 0 then {} else Span(start, n - 1) + {start + n - 1}
  }

  function Masks(sizes: seq<nat>): (ms: seq<Dots>)
    ensures |ms| == |sizes|
  {
    seq(|sizes|, i requires 0 <= i < |sizes| => Span(Total(sizes[..i]), sizes[i]))
  }

  method MakeMasks(sizes: seq<nat>) returns (ms: seq<Dots>)
    ensures ms == Masks(sizes)
  {
    hide Span, Total;
    ms := [];
    var start := 0;
    assert sizes[..0] == [] && Total([]) == 0 by { TotalOf([], [0]); }
    for i := 0 to |sizes|
      invariant start == Total(sizes[..i])
      invariant |ms| == i && forall j | 0 <= j < i :: ms[j] == Span(Total(sizes[..j]), sizes[j])
    {
      ms := ms + [Span(start, sizes[i])];
      assert sizes[..i + 1] == sizes[..i] + [sizes[i]];
      TotalOneMore(sizes[..i], sizes[i]);
      start := start + sizes[i];
    }
  }

  lemma {:induction false} TotalGrows(sizes: seq<nat>, j: nat, k: nat)
    requires j < k <= |sizes|
    ensures Total(sizes[..j]) + sizes[j] <= Total(sizes[..k])
  {
    assert sizes[..j + 1] == sizes[..j] + [sizes[j]];
    TotalOneMore(sizes[..j], sizes[j]);
    assert sizes[..j + 1] == sizes[..k][..j + 1];
    TotalOfPrefix(sizes[..k], j + 1);
  }

  /** Which group a dot is in. */
  lemma {:induction false} GroupOf(sizes: seq<nat>, dot: nat) returns (i: nat)
    requires dot < Total(sizes)
    ensures i < |sizes| && dot in Masks(sizes)[i]
    decreases |sizes|
  {
    var k := |sizes| - 1;
    if dot >= Total(sizes[..k]) {
      i := k;
    } else {
      i := GroupOf(sizes[..k], dot);
      assert sizes[..k][..i] == sizes[..i];
    }
  }

  predicate InSome(masks: seq<Dots>, dot: nat) { exists i | 0 <= i < |masks| :: dot in masks[i] }

  /** The masks divide the line: every dot is in one of them, and in no other. */
  lemma MasksPartition(sizes: seq<nat>)
    ensures forall dot: nat | dot < Total(sizes) :: InSome(Masks(sizes), dot)
    ensures forall i, dot | 0 <= i < |sizes| && dot in Masks(sizes)[i] :: dot < Total(sizes)
    ensures forall i, j | 0 <= i < j < |sizes| :: Masks(sizes)[i] !! Masks(sizes)[j]
  {
    forall dot: nat | dot < Total(sizes) ensures InSome(Masks(sizes), dot) {
      var i := GroupOf(sizes, dot);
    }
    assert sizes[..|sizes|] == sizes;
    forall i, dot | 0 <= i < |sizes| && dot in Masks(sizes)[i] ensures dot < Total(sizes) {
      TotalGrows(sizes, i, |sizes|);
    }
    forall i, j | 0 <= i < j < |sizes| ensures Masks(sizes)[i] !! Masks(sizes)[j] {
      TotalGrows(sizes, i, j);
    }
  }

  // ------------------------------------------------------------------
  // The choice
  // ------------------------------------------------------------------

  /** A line with each group merged. */
  function Apply(line: Dots, masks: seq<Dots>): Dots {
    set i: nat | i < |masks| && line * masks[i] != {}
  }

  /** How many runs of lit dots there are. */
  function Runs(line: Dots): nat { |set d | d in line && Starts(line, d)| }

  predicate Starts(line: Dots, d: nat) { d == 0 || d - 1 !in line }

  function Difference(a: int, b: int): nat { if a < b then b - a else a - b }

  /** Dark dots lit because a group has lit ones beside them. */
  function Added(line: Dots, masks: seq<Dots>): nat {
    if masks == [] then 0
    else
      var m := masks[|masks| - 1];
      Subset(line * m, m);
      Added(line, masks[..|masks| - 1]) + if line * m == {} then 0 else |m| - |line * m|
  }

  lemma Subset(a: Dots, b: Dots)
    requires a <= b
    ensures |a| <= |b|
  {
    assert b == a + (b - a);
    assert |b| == |a| + |b - a|;
  }

  /** Strokes lost, and dots that a merge adds. */
  function Damage(lines: seq<Dots>, masks: seq<Dots>): nat {
    if lines == [] then 0
    else
      var l := lines[|lines| - 1];
      Damage(lines[..|lines| - 1], masks) + Difference(Runs(l), Runs(Apply(l, masks))) * 4 + Added(l, masks)
  }

  predicate Margin(lines: seq<Dots>, dot: int) { forall i | 0 <= i < |lines| :: dot !in lines[i] }

  /** Whether an edge that was dark is lit. */
  function Filled(lines: seq<Dots>, masks: seq<Dots>, dot: int, out: int): nat {
    if Margin(lines, dot) && exists i | 0 <= i < |lines| :: out in Apply(lines[i], masks) then 1 else 0
  }

  /** What a grouping costs: strokes lost, dots added and margins filled, weighted. */
  function Cost(lines: seq<Dots>, masks: seq<Dots>, from: nat): nat {
    Damage(lines, masks) + Filled(lines, masks, 0, 0) + Filled(lines, masks, from - 1, |masks| - 1)
  }

  method ComputeCost(lines: seq<Dots>, masks: seq<Dots>, from: nat) returns (total: nat)
    ensures total == Cost(lines, masks, from)
  {
    hide Runs, Apply, Added;
    total := 0;
    var anyIn: Dots, anyOut: Dots := {}, {};
    for i := 0 to |lines|
      invariant total == Damage(lines[..i], masks)
      invariant forall d :: d in anyIn <==> exists j | 0 <= j < i :: d in lines[j]
      invariant forall d :: d in anyOut <==> exists j | 0 <= j < i :: d in Apply(lines[j], masks)
    {
      var l := lines[i];
      var out := Apply(l, masks);
      total := total + Difference(Runs(l), Runs(out)) * 4;
      var added := ComputeAdded(l, masks);
      total := total + added;
      assert lines[..i + 1][..i] == lines[..i];
      anyIn, anyOut := anyIn + l, anyOut + out;
    }
    assert lines[..|lines|] == lines;
    if 0 !in anyIn && 0 in anyOut {
      total := total + 1;
    }
    if from - 1 !in anyIn && |masks| - 1 in anyOut {
      total := total + 1;
    }
  }

  method ComputeAdded(line: Dots, masks: seq<Dots>) returns (added: nat)
    ensures added == Added(line, masks)
  {
    added := 0;
    for i := 0 to |masks|
      invariant added == Added(line, masks[..i])
    {
      assert masks[..i + 1][..i] == masks[..i];
      var lit := |line * masks[i]|;
      Subset(line * masks[i], masks[i]);
      if lit != 0 {
        added := added + (|masks[i]| - lit);
      }
    }
    assert masks[..|masks|] == masks;
  }

  /** One past the last dot of a group, of the first `width`. */
  function End(mask: Dots, width: nat): nat {
    if width == 0 then 0 else if width - 1 in mask then width else End(mask, width - 1)
  }

  const WIDTH := 16

  /** How far each boundary is from where the canonical grouping has it, added up. */
  function Distance(ms: seq<Dots>, canonical: seq<Dots>): nat {
    if ms == [] || canonical == [] then 0
    else Difference(End(ms[0], WIDTH), End(canonical[0], WIDTH)) + Distance(ms[1..], canonical[1..])
  }

  /** The fixed grouping for each pair of cell sizes. */
  function CanonicalGroups(from: nat, into: nat): seq<nat>
    requires into <= from
  {
    if (from, into) == (10, 6) then [2, 2, 1, 2, 1, 2]
    else if (from, into) == (16, 10) then [2, 2, 2, 1, 1, 2, 2, 1, 2, 1]
    else if (from, into) == (10, 8) then [1, 2, 1, 1, 2, 1, 1, 1]
    else if (from, into) == (16, 8) then [2, 3, 1, 1, 3, 2, 2, 2]
    else seq(into, i requires 0 <= i < into => EvenPart(i, from, into))
  }

  function EvenPart(i: nat, from: nat, into: nat): (n: nat)
    requires i < into <= from
    ensures n >= 1
  {
    EvenPartIsPositive(i, from, into);
    Boundary(i + 1, from, into) - Boundary(i, from, into)
  }

  /** Where even group `i` begins. */
  function Boundary(i: nat, from: nat, into: nat): nat
    requires into > 0
  {
    i * from / into
  }

  lemma EvenPartIsPositive(i: nat, from: nat, into: nat)
    requires i < into <= from
    ensures Boundary(i + 1, from, into) >= Boundary(i, from, into) + 1
  {
    assert (i + 1) * from == i * from + from;
    var q, r := i * from / into, i * from % into;
    assert i * from == q * into + r;
    assert (i + 1) * from >= (q + 1) * into by { assert (q + 1) * into == q * into + into; }
    DivisionGrows((i + 1) * from, q + 1, into);
  }

  lemma DivisionGrows(n: nat, q: nat, d: nat)
    requires d > 0 && n >= q * d
    ensures n / d >= q
  {
    var k := n / d;
    assert n == k * d + n % d;
    assert (k + 1) * d == k * d + d;
    ProductGrows(k + 1, q, d);
  }

  lemma ProductGrows(a: nat, b: nat, d: nat)
    ensures a <= b ==> a * d <= b * d
  {
  }

  /** The fixed grouping divides the dots too, with none left out. */
  lemma CanonicalDivides(from: nat, into: nat)
    requires 0 < into <= from
    ensures var sizes := CanonicalGroups(from, into);
            |sizes| == into && Total(sizes) == from && forall i | 0 <= i < into :: 1 <= sizes[i]
  {
    hide Total, EvenPart, Boundary;
    var sizes := CanonicalGroups(from, into);
    if (from, into) == (10, 6) {
      TotalOf([2, 2, 1, 2, 1, 2], [0, 2, 4, 5, 7, 8, 10]);
    } else if (from, into) == (16, 10) {
      TotalOf([2, 2, 2, 1, 1, 2, 2, 1, 2, 1], [0, 2, 4, 6, 7, 8, 10, 12, 13, 15, 16]);
    } else if (from, into) == (10, 8) {
      TotalOf([1, 2, 1, 1, 2, 1, 1, 1], [0, 1, 3, 4, 5, 7, 8, 9, 10]);
    } else if (from, into) == (16, 8) {
      TotalOf([2, 3, 1, 1, 3, 2, 2, 2], [0, 2, 5, 6, 7, 10, 12, 14, 16]);
    } else {
      EvenTotal(from, into, into);
      assert sizes[..into] == sizes;
      ExactQuotient(from, into);
    }
  }

  lemma ExactQuotient(n: nat, d: nat)
    requires d > 0
    ensures Boundary(d, n, d) == n && Boundary(0, n, d) == 0
  {
    var q := d * n / d;
    DivisionGrows(d * n, n, d);
    assert d * n == q * d + d * n % d;
    assert (n + 1) * d == n * d + d;
    ProductGrows(n + 1, q, d);
  }

  /** A total by its running sums. */
  lemma {:induction false} TotalOf(sizes: seq<nat>, sums: seq<nat>)
    requires |sums| == |sizes| + 1 && sums[0] == 0 && forall i | 0 <= i < |sizes| :: sums[i + 1] == sums[i] + sizes[i]
    ensures Total(sizes) == sums[|sizes|]
  {
    if sizes != [] {
      TotalOf(sizes[..|sizes| - 1], sums[..|sizes|]);
    }
  }

  lemma {:induction false} EvenTotal(from: nat, into: nat, k: nat)
    requires k <= into <= from && into > 0
    requires (from, into) !in {(10, 6), (16, 10), (10, 8), (16, 8)}
    ensures Total(CanonicalGroups(from, into)[..k]) == Boundary(k, from, into)
  {
    hide Boundary, Total;
    var sizes := CanonicalGroups(from, into);
    if k == 0 {
      ExactQuotient(from, into);
      assert sizes[..0] == [];
      TotalOf([], [0]);
    } else {
      EvenTotal(from, into, k - 1);
      assert sizes[..k] == sizes[..k - 1] + [sizes[k - 1]];
      TotalOneMore(sizes[..k - 1], sizes[k - 1]);
    }
  }

  // ------------------------------------------------------------------
  // The search
  // ------------------------------------------------------------------

  /** A grouping's masks with its score. */
  datatype Choice = Choice(score: nat, masks: seq<Dots>)

  function Scored(lines: seq<Dots>, sizes: seq<nat>, from: nat, canonical: seq<Dots>): Choice {
    Choice(Cost(lines, Masks(sizes), from) * 16 + Distance(Masks(sizes), canonical), Masks(sizes))
  }

  /** The best so far, after these groupings: a later one must be better to take its place. */
  function Best(lines: seq<Dots>, from: nat, canonical: seq<Dots>, start: Choice, visited: seq<seq<nat>>): Choice {
    if visited == [] then start
    else
      var best := Best(lines, from, canonical, start, visited[..|visited| - 1]);
      var next := Scored(lines, visited[|visited| - 1], from, canonical);
      if next.score < best.score then next else best
  }

  /** What is chosen scores no worse than anything visited, nor than the canonical grouping, which wins ties. */
  lemma {:induction false} BestIsBest(lines: seq<Dots>, from: nat, canonical: seq<Dots>, start: Choice,
        visited: seq<seq<nat>>)
    ensures var best := Best(lines, from, canonical, start, visited);
            && best.score <= start.score
            && (forall i | 0 <= i < |visited| :: best.score <= Scored(lines, visited[i], from, canonical).score)
            && (best == start || exists i | 0 <= i < |visited| :: best == Scored(lines, visited[i], from, canonical))
            && (best.score == start.score ==> best == start)
  {
    hide Scored;
    if visited != [] {
      BestIsBest(lines, from, canonical, start, visited[..|visited| - 1]);
    }
  }

  /** The recursion and the best it has found, kept between its turns. */
  class Search {
    const lines: seq<Dots>
    const from: nat
    const into: nat
    const canonical: seq<Dots>
    const start: Choice
    var sizes: seq<nat>
    var best: Choice
    ghost var visited: seq<seq<nat>>

    constructor (lines: seq<Dots>, from: nat, into: nat, canonical: seq<Dots>)
      ensures this.lines == lines && this.from == from && this.into == into && this.canonical == canonical
      ensures start == Choice(Cost(lines, canonical, from) * 16, canonical)
      ensures sizes == [] && visited == [] && Valid()
    {
      this.lines, this.from, this.into, this.canonical := lines, from, into, canonical;
      start := Choice(Cost(lines, canonical, from) * 16, canonical);
      best := Choice(Cost(lines, canonical, from) * 16, canonical);
      sizes, visited := [], [];
    }

    ghost predicate Valid()
      reads this
    {
      best == Best(lines, from, canonical, start, visited)
    }

    /** What is done with each grouping. */
    method Consider()
      requires Valid()
      modifies this`best, this`visited
      ensures Valid() && visited == old(visited) + [sizes]
    {
      hide Scored;
      var masks := MakeMasks(sizes);
      var cost := ComputeCost(lines, masks, from);
      var score := cost * 16 + Distance(masks, canonical);
      assert Choice(score, masks) == Scored(lines, sizes, from, canonical) by { ScoredIs(lines, sizes, from, canonical); }
      assert (visited + [sizes])[..|visited|] == visited;
      visited := visited + [sizes];
      if score < best.score {
        best := Choice(score, masks);
      }
    }

    /** Every grouping that goes on from `sizes`, which is left as it was. */
    method ForEachGrouping()
      requires Valid() && |sizes| <= into && Total(sizes) <= from
      modifies this
      ensures Valid() && sizes == old(sizes)
      ensures visited == old(visited) + Groupings(from, into, MaxGroup(into), sizes)
      decreases into - |sizes|
    {
      hide Best, Groupings, GroupingsFrom, Completable, Total;
      StartsFrom(from, into, MaxGroup(into), sizes);
      var groupsLeft := into - |sizes|;
      var total := Sum(sizes);
      var remaining := from - total;
      if groupsLeft == 0 {
        if remaining == 0 {
          Consider();
        }
        return;
      }
      var most := MaxGroup(into);
      var n := 1;
      ghost var goal := visited + GroupingsFrom(from, into, most, sizes, 1);
      while n <= Min(most, remaining)
        invariant Valid() && sizes == old(sizes) && n >= 1
        invariant visited + GroupingsFrom(from, into, most, sizes, n) == goal
      {
        var rest := remaining - n;
        NextTurn(from, into, most, sizes, n, visited);
        if Completable(rest, groupsLeft - 1, most) {
          TotalOneMore(sizes, n);
          sizes := sizes + [n];
          ForEachGrouping();
          sizes := sizes[..|sizes| - 1];
        }
        n := n + 1;
      }
      NoMoreTurns(from, into, most, sizes, n, visited);
    }
  }

  lemma StartsFrom(from: nat, into: nat, most: nat, sizes: seq<nat>)
    requires |sizes| <= into && Total(sizes) <= from
    ensures Groupings(from, into, most, sizes)
         == if |sizes| < into then GroupingsFrom(from, into, most, sizes, 1) else if Total(sizes) == from then [sizes] else []
  {
  }

  /** One turn of the loop over sizes for the next group. */
  lemma NextTurn(from: nat, into: nat, most: nat, sizes: seq<nat>, n: nat, visited: seq<seq<nat>>)
    requires |sizes| < into && Total(sizes) <= from && n <= Min(most, from - Total(sizes))
    ensures var here := if Completable(from - Total(sizes) - n, into - |sizes| - 1, most) then Groupings(from, into, most, sizes + [n]) else [];
            visited + GroupingsFrom(from, into, most, sizes, n) == (visited + here) + GroupingsFrom(from, into, most, sizes, n + 1)
            && visited + [] == visited
  {
  }

  lemma NoMoreTurns(from: nat, into: nat, most: nat, sizes: seq<nat>, n: nat, visited: seq<seq<nat>>)
    requires |sizes| < into && Total(sizes) <= from && n > Min(most, from - Total(sizes))
    ensures visited + GroupingsFrom(from, into, most, sizes, n) == visited
  {
  }

  lemma ScoredIs(lines: seq<Dots>, sizes: seq<nat>, from: nat, canonical: seq<Dots>)
    ensures Scored(lines, sizes, from, canonical)
         == Choice(Cost(lines, Masks(sizes), from) * 16 + Distance(Masks(sizes), canonical), Masks(sizes))
  {
  }

  method Sum(sizes: seq<nat>) returns (total: nat)
    ensures total == Total(sizes)
  {
    total := 0;
    for i := 0 to |sizes|
      invariant total == Total(sizes[..i])
    {
      assert sizes[..i + 1] == sizes[..i] + [sizes[i]];
      TotalOneMore(sizes[..i], sizes[i]);
      total := total + sizes[i];
    }
    assert sizes[..|sizes|] == sizes;
  }

  // ------------------------------------------------------------------
  // Whole glyphs
  // ------------------------------------------------------------------

  /** The groups that lines of `from` dots are merged in. */
  function Chosen(lines: seq<Dots>, from: nat, into: nat, joins: bool): seq<Dots>
    requires into <= from
  {
    var canonical := Masks(CanonicalGroups(from, into));
    if joins then canonical
    else
      Best(lines, from, canonical, Choice(Cost(lines, canonical, from) * 16, canonical), Groupings(from, into, MaxGroup(into), [])).masks
  }

  method Choose(lines: seq<Dots>, from: nat, into: nat, joins: bool) returns (masks: seq<Dots>)
    requires into <= from
    ensures masks == Chosen(lines, from, into, joins)
  {
    hide Best, Cost, CanonicalGroups;
    var canonical := MakeMasks(CanonicalGroups(from, into));
    if joins {
      return canonical;
    }
    var search := new Search(lines, from, into, canonical);
    search.ForEachGrouping();
    assert [] + Groupings(from, into, MaxGroup(into), []) == Groupings(from, into, MaxGroup(into), []);
    masks := search.best.masks;
  }

  /** Whatever was chosen, its masks divide the line. */
  lemma ChosenDivides(lines: seq<Dots>, from: nat, into: nat, joins: bool) returns (sizes: seq<nat>)
    requires 0 < into <= from
    ensures Chosen(lines, from, into, joins) == Masks(sizes) && |sizes| == into && Total(sizes) == from
  {
    hide Best, Scored, CanonicalGroups, Masks;
    CanonicalDivides(from, into);
    sizes := CanonicalGroups(from, into);
    if !joins {
      var canonical := Masks(sizes);
      var start := Choice(Cost(lines, canonical, from) * 16, canonical);
      var visited := Groupings(from, into, MaxGroup(into), []);
      var best := Best(lines, from, canonical, start, visited);
      BestIsBest(lines, from, canonical, start, visited);
      if best != start {
        var i :| 0 <= i < |visited| && best == Scored(lines, visited[i], from, canonical);
        EveryGroupingOnce(from, into);
        ScoredIs(lines, visited[i], from, canonical);
        assert visited[i] in visited;
        sizes := visited[i];
      }
    }
  }

  /**
   For a glyph that joins no neighbour the choice scores no worse than any
   division of the dots there is, nor than the fixed grouping, which is kept
   unless another is better.
   */
  lemma ChosenIsBest(lines: seq<Dots>, from: nat, into: nat) returns (score: nat)
    requires into <= from
    ensures var canonical := Masks(CanonicalGroups(from, into)); var chosen := Chosen(lines, from, into, false);
            && score <= Cost(lines, canonical, from) * 16
            && (forall d | Divides(d, from, into, MaxGroup(into)) :: score <= Scored(lines, d, from, canonical).score)
            && (score == Cost(lines, canonical, from) * 16 ==> chosen == canonical)
            && ((chosen == canonical && score == Cost(lines, canonical, from) * 16)
                || exists d :: Divides(d, from, into, MaxGroup(into)) && Scored(lines, d, from, canonical) == Choice(score, chosen))
  {
    hide Best, Scored, CanonicalGroups, Divides, Cost;
    var canonical := Masks(CanonicalGroups(from, into));
    var start := Choice(Cost(lines, canonical, from) * 16, canonical);
    var visited := Groupings(from, into, MaxGroup(into), []);
    var best := Best(lines, from, canonical, start, visited);
    BestIsBest(lines, from, canonical, start, visited);
    EveryGroupingOnce(from, into);
    score := best.score;
    forall d | Divides(d, from, into, MaxGroup(into)) ensures score <= Scored(lines, d, from, canonical).score {
      assert d in visited;
      var i :| 0 <= i < |visited| && visited[i] == d;
    }
    if best != start {
      var i :| 0 <= i < |visited| && best == Scored(lines, visited[i], from, canonical);
      assert visited[i] in visited;
    }
  }

  lemma ChosenCount(lines: seq<Dots>, from: nat, into: nat, joins: bool)
    requires 0 < into <= from
    ensures |Chosen(lines, from, into, joins)| == into
  {
    var sizes := ChosenDivides(lines, from, into, joins);
  }

  /** The source dot that a grown dot repeats. */
  function Repeats(x: nat, from: nat, into: nat): nat
    requires x < into
  {
    x * from / into
  }

  function Grown(line: Dots, from: nat, into: nat): Dots {
    set x: nat | x < into && Repeats(x, from, into) in line
  }

  /** Each line reduced from `from` dots, or grown. */
  function Reduced(lines: seq<Dots>, from: nat, into: nat, joins: bool): (out: seq<Dots>)
    ensures |out| == |lines|
  {
    if from == into then lines
    else if into > from then seq(|lines|, i requires 0 <= i < |lines| => Grown(lines[i], from, into))
    else
      var masks := Chosen(lines, from, into, joins);
      seq(|lines|, i requires 0 <= i < |lines| => Apply(lines[i], masks))
  }

  method Reduce(lines: seq<Dots>, from: nat, into: nat, joins: bool) returns (out: seq<Dots>)
    ensures out == Reduced(lines, from, into, joins)
  {
    hide Chosen;
    if from == into {
      return lines;
    }
    out := [];
    if into > from {
      for i := 0 to |lines|
        invariant |out| == i && forall j | 0 <= j < i :: out[j] == Grown(lines[j], from, into)
      {
        out := out + [Grown(lines[i], from, into)];
      }
    } else {
      var masks := Choose(lines, from, into, joins);
      for i := 0 to |lines|
        invariant |out| == i && forall j | 0 <= j < i :: out[j] == Apply(lines[j], masks)
      {
        out := out + [Apply(lines[i], masks)];
      }
    }
  }

  /** The source dots of each dot along one axis. */
  function Blocks(lines: seq<Dots>, from: nat, into: nat, joins: bool): (blocks: seq<Dots>)
    requires into > 0
    ensures |blocks| == into
  {
    if from == into then seq(into, x requires 0 <= x < into => {x})
    else if into > from then seq(into, x requires 0 <= x < into => {Repeats(x, from, into)})
    else
      ChosenCount(lines, from, into, joins);
      Chosen(lines, from, into, joins)
  }

  /** Along one axis, what lights a dot of the result. */
  lemma ReducedByBlocks(lines: seq<Dots>, from: nat, into: nat, joins: bool, i: nat, x: nat)
    requires i < |lines| && x < into
    ensures x in Reduced(lines, from, into, joins)[i] <==> lines[i] * Blocks(lines, from, into, joins)[x] != {}
  {
    hide Chosen;
    if from < into {
      var s := Repeats(x, from, into);
      assert s in lines[i] <==> s in lines[i] * {s};
      if lines[i] * {s} != {} {
        var d :| d in lines[i] * {s};
      }
    } else if from == into {
      assert x in lines[i] <==> x in lines[i] * {x};
      if lines[i] * {x} != {} {
        var d :| d in lines[i] * {x};
      }
    }
  }

  /** Transposes a glyph whose lines are `width` dots. */
  function Transposed(lines: seq<Dots>, width: nat): (out: seq<Dots>)
    ensures |out| == width
  {
    seq(width, x requires 0 <= x < width => set y: nat | y < |lines| && x in lines[y])
  }

  /** The rows of a cell, blank where the glyph has none. */
  function RowsOf(glyph: seq<Dots>, height: nat): (rows: seq<Dots>)
    ensures |rows| == height
  {
    seq(height, y requires 0 <= y < height => if y < |glyph| then glyph[y] else {})
  }

  datatype Size = Size(width: nat, height: nat)

  function Narrowed(glyph: seq<Dots>, from: Size, into: Size, joins: bool): (out: seq<Dots>)
    ensures |out| == from.height
  {
    Reduced(RowsOf(glyph, from.height), from.width, into.width, joins)
  }

  function Resampled(glyph: seq<Dots>, from: Size, into: Size, joins: bool): (out: seq<Dots>)
    ensures |out| == into.height
  {
    Transposed(Reduced(Transposed(Narrowed(glyph, from, into, joins), into.width), from.height, into.height, joins), into.height)
  }

  /** The columns each output column is made of, and the rows each output row is. */
  function Across(glyph: seq<Dots>, from: Size, into: Size, joins: bool): (blocks: seq<Dots>)
    requires into.width > 0
    ensures |blocks| == into.width
  {
    Blocks(RowsOf(glyph, from.height), from.width, into.width, joins)
  }

  function Down(glyph: seq<Dots>, from: Size, into: Size, joins: bool): (blocks: seq<Dots>)
    requires into.height > 0
    ensures |blocks| == into.height
  {
    Blocks(Transposed(Narrowed(glyph, from, into, joins), into.width), from.height, into.height, joins)
  }

  /** A lit dot of the source in both a column block and a row block. */
  predicate LitIn(glyph: seq<Dots>, height: nat, column: Dots, row: Dots, sx: nat, sy: nat) {
    sy < |glyph| && sy < height && sy in row && sx in column && sx in glyph[sy]
  }

  /**
   Through both axes and both transposes, a dot of the resampled glyph is lit
   exactly when some dot of the block of the source it stands for is.
   */
  lemma LitByBlocks(glyph: seq<Dots>, from: Size, into: Size, joins: bool, x: nat, y: nat)
    requires x < into.width && y < into.height
    ensures x in Resampled(glyph, from, into, joins)[y]
       <==> exists sx: nat, sy: nat :: LitIn(glyph, from.height, Across(glyph, from, into, joins)[x], Down(glyph, from, into, joins)[y], sx, sy)
  {
    hide Reduced, Blocks;
    var rows, narrowed := RowsOf(glyph, from.height), Narrowed(glyph, from, into, joins);
    var columns := Transposed(narrowed, into.width);
    var across, down := Across(glyph, from, into, joins)[x], Down(glyph, from, into, joins)[y];
    ReducedByBlocks(columns, from.height, into.height, joins, x, y);
    if columns[x] * down != {} {
      var sy :| sy in columns[x] * down;
      ReducedByBlocks(rows, from.width, into.width, joins, sy, x);
      var sx :| sx in rows[sy] * across;
      assert LitIn(glyph, from.height, across, down, sx, sy);
    }
    if sx: nat, sy: nat :| LitIn(glyph, from.height, across, down, sx, sy) {
      ReducedByBlocks(rows, from.width, into.width, joins, sy, x);
      assert sx in rows[sy] * across;
      assert sy in columns[x] * down;
    }
  }

  /** When a cell shrinks, no lit dot is lost: some dot it belongs to is lit, and its block has only dots of the cell. */
  lemma NoDotLost(glyph: seq<Dots>, from: Size, into: Size, joins: bool, sx: nat, sy: nat) returns (x: nat, y: nat)
    requires 0 < into.width < from.width && 0 < into.height < from.height
    requires sy < |glyph| && sy < from.height && sx < from.width && sx in glyph[sy]
    ensures x < into.width && y < into.height && x in Resampled(glyph, from, into, joins)[y]
    ensures sx in Across(glyph, from, into, joins)[x] && sy in Down(glyph, from, into, joins)[y]
  {
    hide Chosen, Masks, Reduced, Resampled;
    var rows, columns := RowsOf(glyph, from.height), Transposed(Narrowed(glyph, from, into, joins), into.width);
    var widths := ChosenDivides(rows, from.width, into.width, joins);
    var heights := ChosenDivides(columns, from.height, into.height, joins);
    x := GroupOf(widths, sx);
    y := GroupOf(heights, sy);
    LitByBlocks(glyph, from, into, joins, x, y);
    assert LitIn(glyph, from.height, Across(glyph, from, into, joins)[x], Down(glyph, from, into, joins)[y], sx, sy);
  }
}
