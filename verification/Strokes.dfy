/**
 What the score of a grouping measures: separate strokes lost or merged, four
 each, dark dots that light up, and margins that fill. So a glyph whose strokes
 can be kept apart cheaply keeps them, and line drawing keeps its centre.
 */
module Strokes {
  import opened Bytes
  import opened Resample

  // ------------------------------------------------------------------
  // Strokes
  // ------------------------------------------------------------------

  /** All lit from `a` to `b`, and dark on either side. */
  ghost predicate IsStroke(line: Dots, a: nat, b: nat) {
    && a <= b && (forall d: nat | a <= d <= b :: d in line)
    && (a == 0 || a - 1 !in line) && b + 1 !in line
  }

  /** The strokes of a line, each by its first dot and its last. */
  ghost function Strokes(line: Dots): set<(nat, nat)> {
    set a: nat, b: nat | a in line && b in line && IsStroke(line, a, b) :: (a, b)
  }

  function After(line: Dots, a: nat): Dots { set d | d in line && d >= a }

  /** The last dot of the stroke that `a` is in. */
  ghost function LastOf(line: Dots, a: nat): (b: nat)
    requires a in line
    ensures a <= b && b in line && b + 1 !in line && forall d: nat | a <= d <= b :: d in line
    decreases After(line, a)
  {
    if a + 1 !in line then a
    else
      assert a in After(line, a) && a !in After(line, a + 1);
      LastOf(line, a + 1)
  }

  /** Pairs that share no first and have every first there is are as many as those. */
  lemma {:induction false} AsManyAsFirsts(firsts: set<nat>, pairs: set<(nat, nat)>)
    requires forall p | p in pairs :: p.0 in firsts
    requires forall a | a in firsts :: exists p :: p in pairs && p.0 == a
    requires forall p, q | p in pairs && q in pairs && p.0 == q.0 :: p == q
    ensures |pairs| == |firsts|
    decreases firsts
  {
    if firsts == {} {
      assert pairs == {} by {
        if p :| p in pairs {
          assert p.0 in firsts;
        }
      }
    } else {
      var a :| a in firsts;
      var p :| p in pairs && p.0 == a;
      forall b | b in firsts - {a} ensures exists q :: q in pairs - {p} && q.0 == b {
        var q :| q in pairs && q.0 == b;
        assert q in pairs - {p};
      }
      AsManyAsFirsts(firsts - {a}, pairs - {p});
    }
  }

  /** A stroke ends where the lit dots do. */
  lemma {:induction false} EndsAtLast(line: Dots, a: nat, b: nat)
    requires a <= b && b + 1 !in line && forall d: nat | a <= d <= b :: d in line
    ensures b == LastOf(line, a)
    decreases b - a
  {
    if a < b {
      assert a + 1 in line;
      EndsAtLast(line, a + 1, b);
    }
  }

  /** What is counted where a lit dot has none before it are the strokes. */
  lemma RunsAreStrokes(line: Dots)
    ensures Runs(line) == |Strokes(line)|
  {
    var firsts := set d | d in line && Starts(line, d);
    forall a | a in firsts ensures exists p :: p in Strokes(line) && p.0 == a {
      assert (a, LastOf(line, a)) in Strokes(line);
    }
    forall p, q | p in Strokes(line) && q in Strokes(line) && p.0 == q.0 ensures p == q {
      EndsAtLast(line, p.0, p.1);
      EndsAtLast(line, q.0, q.1);
    }
    AsManyAsFirsts(firsts, Strokes(line));
  }

  // ------------------------------------------------------------------
  // What a grouping costs
  // ------------------------------------------------------------------

  /** By how many strokes a line is richer or poorer. */
  ghost function Changed(line: Dots, masks: seq<Dots>): nat {
    Difference(|Strokes(line)|, |Strokes(Apply(line, masks))|)
  }

  /** The dark dots that have a lit one in their group. */
  ghost function Darkened(line: Dots, masks: seq<Dots>): Dots {
    set i: nat, d: nat | i < |masks| && d in masks[i] && d !in line && line * masks[i] != {} :: d
  }

  ghost predicate Disjoint(masks: seq<Dots>) { forall i, j | 0 <= i < j < |masks| :: masks[i] !! masks[j] }

  /** Those of one group. */
  ghost function DarkIn(line: Dots, mask: Dots): Dots { if line * mask == {} then {} else mask - line }

  /** What is added are those dots, each of them once. */
  lemma {:induction false} AddedAreDark(line: Dots, masks: seq<Dots>)
    requires Disjoint(masks)
    ensures Added(line, masks) == |Darkened(line, masks)|
  {
    hide Darkened, DarkIn;
    if masks == [] {
      NothingDarkened(line);
    } else {
      var n := |masks| - 1;
      AddedAreDark(line, masks[..n]);
      DarkenedMore(line, masks);
      DarkenedApart(line, masks);
      SizesAdd(Darkened(line, masks[..n]), DarkIn(line, masks[n]));
      Subset(line * masks[n], masks[n]);
      DarkInOne(line, masks[n]);
    }
  }

  lemma NothingDarkened(line: Dots)
    ensures Darkened(line, []) == {}
  {
  }

  lemma DarkInOne(line: Dots, m: Dots)
    ensures |DarkIn(line, m)| == if line * m == {} then 0 else |m| - |line * m|
  {
    assert m == line * m + (m - line);
    SizesAdd(line * m, m - line);
  }

  lemma DarkenedApart(line: Dots, masks: seq<Dots>)
    requires masks != [] && Disjoint(masks)
    ensures Darkened(line, masks[..|masks| - 1]) !! DarkIn(line, masks[|masks| - 1])
  {
  }

  lemma SizesAdd(a: Dots, b: Dots)
    requires a !! b
    ensures |a + b| == |a| + |b|
  {
  }

  lemma DarkenedMore(line: Dots, masks: seq<Dots>)
    requires masks != []
    ensures var n := |masks| - 1;
            Darkened(line, masks) == Darkened(line, masks[..n]) + DarkIn(line, masks[n])
  {
    var n := |masks| - 1;
    var all, rest := Darkened(line, masks), Darkened(line, masks[..n]);
    var here := DarkIn(line, masks[n]);
    forall d | d in all ensures d in rest + here {
      var i: nat :| i < |masks| && d in masks[i] && d !in line && line * masks[i] != {};
      if i < n {
        assert d in masks[..n][i];
      }
    }
    forall d | d in rest + here ensures d in all {
      if d in rest {
        var i: nat :| i < n && d in masks[..n][i] && d !in line && line * masks[..n][i] != {};
        assert d in masks[i];
      } else {
        assert d in masks[n];
      }
    }
  }

  ghost function AllChanged(lines: seq<Dots>, masks: seq<Dots>): nat {
    if lines == [] then 0
    else AllChanged(lines[..|lines| - 1], masks) + Changed(lines[|lines| - 1], masks)
  }

  ghost function AllDarkened(lines: seq<Dots>, masks: seq<Dots>): nat {
    if lines == [] then 0
    else AllDarkened(lines[..|lines| - 1], masks) + |Darkened(lines[|lines| - 1], masks)|
  }

  lemma {:induction false} DamageIs(lines: seq<Dots>, masks: seq<Dots>)
    requires Disjoint(masks)
    ensures Damage(lines, masks) == 4 * AllChanged(lines, masks) + AllDarkened(lines, masks)
  {
    hide Runs, Added, Strokes, Apply, Darkened, Disjoint;
    if lines != [] {
      var l := lines[|lines| - 1];
      DamageIs(lines[..|lines| - 1], masks);
      RunsAreStrokes(l);
      RunsAreStrokes(Apply(l, masks));
      AddedAreDark(l, masks);
    }
  }

  /** Dark in every line before, lit in some line after. */
  ghost predicate Fills(lines: seq<Dots>, masks: seq<Dots>, dot: int, out: int) {
    && (forall i | 0 <= i < |lines| :: dot !in lines[i])
    && (exists i | 0 <= i < |lines| :: out in Apply(lines[i], masks))
  }

  /**
   What a division costs is four for each stroke lost, merged or made, one for
   each dark dot that lights, and one for each of the two edges that does where
   it was dark.
   */
  lemma CostIs(lines: seq<Dots>, sizes: seq<nat>, from: nat)
    ensures var masks := Masks(sizes);
            Cost(lines, masks, from)
            == 4 * AllChanged(lines, masks) + AllDarkened(lines, masks)
               + (if Fills(lines, masks, 0, 0) then 1 else 0)
               + (if Fills(lines, masks, from - 1, |sizes| - 1) then 1 else 0)
  {
    hide Masks, Apply, Damage, AllChanged, AllDarkened;
    MasksPartition(sizes);
    DamageIs(lines, Masks(sizes));
  }

  // ------------------------------------------------------------------
  // What is kept
  // ------------------------------------------------------------------

  /** Every line has as many strokes as it had. */
  ghost predicate KeepsStrokes(lines: seq<Dots>, masks: seq<Dots>) {
    forall i | 0 <= i < |lines| :: |Strokes(Apply(lines[i], masks))| == |Strokes(lines[i])|
  }

  lemma {:induction false} NoneChanged(lines: seq<Dots>, masks: seq<Dots>)
    ensures AllChanged(lines, masks) == 0 <==> KeepsStrokes(lines, masks)
  {
    hide Strokes, Apply;
    if lines != [] {
      var n := |lines| - 1;
      NoneChanged(lines[..n], masks);
      assert forall i | 0 <= i < n :: lines[..n][i] == lines[i];
    }
  }

  /**
   The choice loses no more strokes than the score of any division allows, at
   64 for each; so where some division scores less than that, as one that keeps
   them all for a cost under 4 may, the choice keeps every line's.
   */
  lemma ChosenKeepsStrokes(lines: seq<Dots>, from: nat, into: nat, d: seq<nat>)
    requires 0 < into <= from && Divides(d, from, into, MaxGroup(into))
    ensures var canonical, chosen := Masks(CanonicalGroups(from, into)), Chosen(lines, from, into, false);
            && 64 * AllChanged(lines, chosen) <= Scored(lines, d, from, canonical).score
            && (Scored(lines, d, from, canonical).score < 64 ==> KeepsStrokes(lines, chosen))
  {
    hide Scored, Divides, CanonicalGroups, Cost, Masks, AllChanged, AllDarkened, Fills, KeepsStrokes, Chosen;
    var canonical, chosen := Masks(CanonicalGroups(from, into)), Chosen(lines, from, into, false);
    var score := ChosenIsBest(lines, from, into);
    if chosen == canonical && score == Cost(lines, canonical, from) * 16 {
      ChangedCosts(lines, CanonicalGroups(from, into), from);
    } else {
      var e :| Divides(e, from, into, MaxGroup(into)) && Scored(lines, e, from, canonical) == Choice(score, chosen);
      ScoredIs(lines, e, from, canonical);
      ChangedCosts(lines, e, from);
    }
    NoneChanged(lines, chosen);
  }

  /** The cost is at least four for each stroke. */
  lemma ChangedCosts(lines: seq<Dots>, sizes: seq<nat>, from: nat)
    ensures Cost(lines, Masks(sizes), from) >= 4 * AllChanged(lines, Masks(sizes))
  {
    hide Cost, Masks, AllChanged, AllDarkened, Fills;
    CostIs(lines, sizes, from);
  }

  // ------------------------------------------------------------------
  // How far from the fixed grouping
  // ------------------------------------------------------------------

  /** How far apart the ends of the first `n` groups of two divisions are, added up. */
  function Offsets(a: seq<nat>, b: seq<nat>, n: nat): nat
    requires n <= |a| && n <= |b|
  {
    if n == 0 then 0 else Offsets(a, b, n - 1) + Difference(Total(a[..n]), Total(b[..n]))
  }

  lemma {:induction false} EndOfSpan(start: nat, n: nat, width: nat)
    requires n > 0 && start + n <= width
    ensures End(Span(start, n), width) == start + n
    decreases width
  {
    hide Span;
    if width > start + n {
      EndOfSpan(start, n, width - 1);
    }
  }

  lemma MaskEnds(sizes: seq<nat>, i: nat)
    requires i < |sizes| && sizes[i] > 0 && Total(sizes) <= WIDTH
    ensures End(Masks(sizes)[i], WIDTH) == Total(sizes[..i + 1])
  {
    hide Total, Span;
    assert sizes[..i + 1] == sizes[..i] + [sizes[i]];
    TotalOneMore(sizes[..i], sizes[i]);
    TotalOfPrefix(sizes, i + 1);
    EndOfSpan(Total(sizes[..i]), sizes[i], WIDTH);
  }

  lemma {:induction false} DistanceRest(a: seq<nat>, b: seq<nat>, n: nat)
    requires |a| == |b| && n <= |a| && Total(a) <= WIDTH && Total(b) <= WIDTH
    requires forall i | 0 <= i < |a| :: a[i] > 0 && b[i] > 0
    ensures Offsets(a, b, n) + Distance(Masks(a)[n..], Masks(b)[n..]) == Offsets(a, b, |a|)
    decreases |a| - n
  {
    hide Masks, Total, End;
    if n < |a| {
      DistanceRest(a, b, n + 1);
      MaskEnds(a, n);
      MaskEnds(b, n);
      assert Masks(a)[n..][1..] == Masks(a)[n + 1..] && Masks(b)[n..][1..] == Masks(b)[n + 1..];
    }
  }

  /** The distance that breaks a tie is how far each boundary is from where the fixed grouping has it, added up. */
  lemma DistanceIsOffsets(a: seq<nat>, b: seq<nat>)
    requires |a| == |b| && Total(a) <= WIDTH && Total(b) <= WIDTH
    requires forall i | 0 <= i < |a| :: a[i] > 0 && b[i] > 0
    ensures Distance(Masks(a), Masks(b)) == Offsets(a, b, |a|)
  {
    hide Masks, Distance;
    DistanceRest(a, b, 0);
    assert Masks(a)[0..] == Masks(a) && Masks(b)[0..] == Masks(b);
  }

  // ------------------------------------------------------------------
  // Line drawing
  // ------------------------------------------------------------------

  lemma SpanOne(start: nat)
    ensures Span(start, 1) == {start}
  {
  }

  /**
   The fixed groupings keep the dot that line drawing crosses at by itself: the
   fifth column of ten is the third of six, the eighth row of sixteen the fifth
   of ten, and the fifth row of ten the fourth of eight.
   */
  lemma CentreIsAlone()
    ensures Masks(CanonicalGroups(10, 6))[2] == {4}
    ensures Masks(CanonicalGroups(16, 10))[4] == {7}
    ensures Masks(CanonicalGroups(10, 8))[3] == {4}
  {
    hide Total, Span;
    var a: seq<nat>, b: seq<nat>, d: seq<nat> := [2, 2, 1, 2, 1, 2], [2, 2, 2, 1, 1, 2, 2, 1, 2, 1], [1, 2, 1, 1, 2, 1, 1, 1];
    assert a[..2] == [2, 2] && b[..4] == [2, 2, 2, 1] && d[..3] == [1, 2, 1];
    TotalOf(a[..2], [0, 2, 4]);
    TotalOf(b[..4], [0, 2, 4, 6, 7]);
    TotalOf(d[..3], [0, 1, 3, 4]);
    SpanOne(4);
    SpanOne(7);
  }

  /** So where a joining glyph's lines cross, in a cell of 10 by 16, they cross in the one of 6 by 10. */
  lemma CrossingStays(glyph: seq<Dots>)
    ensures 2 in Resampled(glyph, Size(10, 16), Size(6, 10), true)[4] <==> |glyph| > 7 && 4 in glyph[7]
  {
    hide Resampled, Masks, CanonicalGroups;
    CentreIsAlone();
    var from, into := Size(10, 16), Size(6, 10);
    LitByBlocks(glyph, from, into, true, 2, 4);
    assert Across(glyph, from, into, true)[2] == {4} && Down(glyph, from, into, true)[4] == {7};
    if |glyph| > 7 && 4 in glyph[7] {
      assert LitIn(glyph, 16, {4}, {7}, 4, 7);
    }
  }

  /**
   The groups of a pair of sizes with no grouping of its own begin, and grown dots
   repeat a dot of the source, where the two sizes in proportion have them, rounded
   down: so each dot is repeated as often as any other, to within one.
   */
  lemma InProportion(i: nat, from: nat, into: nat, k: nat)
    requires into > 0
    ensures Boundary(i, from, into) == k <==> k * into <= i * from < (k + 1) * into
    ensures i < into ==> (Repeats(i, from, into) == k <==> k * into <= i * from < (k + 1) * into)
  {
    var n := i * from;
    FloorIs(n, into, k);
  }

  lemma FloorIs(n: nat, d: nat, k: nat)
    requires d > 0
    ensures n / d == k <==> k * d <= n < (k + 1) * d
  {
    var q, r := n / d, n % d;
    assert n == q * d + r && (q + 1) * d == q * d + d && (k + 1) * d == k * d + d;
    if k * d <= n < (k + 1) * d {
      if q < k {
        ProductGrows(q + 1, k, d);
      } else if k < q {
        ProductGrows(k + 1, q, d);
      }
    }
  }
}
