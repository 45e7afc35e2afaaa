/** The stone-matching engine of src/components/StoneMatchingTool.tsx: the
    match score of a set of diamonds and the greedy search that groups the
    available diamonds of a pool into matching sets. */
module Matching {
  import opened Wrappers
  import opened Seqs
  import opened Text
  import opened Grades

  /** The parts of a diamond the engine reads. */
  datatype Diamond = Diamond(
    id: string,
    sku: string,
    carat: real,
    cut: CutGrade,
    clarity: ClarityGrade,
    color: ColorGrade,
    shape: Shape,
    status: InventoryStatus,
    retailPrice: real)

  datatype GradeMode = Exact | Similar | AnyGrade

  datatype ShapeChoice = AnyShape | OnlyShape(shape: Shape)

  /** `MatchingCriteria`; `caratTolerance` is a percentage of the base stone's weight. */
  datatype Criteria = Criteria(
    shape: ShapeChoice,
    caratTolerance: real,
    colorMatch: GradeMode,
    clarityMatch: GradeMode,
    cutMatch: GradeMode,
    minPairs: int)

  /** The criteria the tool starts with. */
  const DefaultCriteria := Criteria(AnyShape, 5.0, Similar, Similar, Similar, 2)

  /** `DiamondSet`; `diamonds[0]` is the base stone the others were matched against. */
  datatype DiamondSet = DiamondSet(
    id: string,
    diamonds: seq<Diamond>,
    matchScore: real,
    totalCarats: real,
    averagePrice: real)

  function CaratOf(d: Diamond): real { d.carat }
  function PriceOf(d: Diamond): real { d.retailPrice }

  function Abs(x: real): real { if x < 0.0 then -x else x }

  /** `Math.abs(base.carat - other.carat) / base.carat * 100`. */
  function CaratDiffPercent(base: Diamond, other: Diamond): (r: real)
    requires base.carat > 0.0
    ensures r >= 0.0
    ensures r == 0.0 <==> other.carat == base.carat
  {
    Abs(base.carat - other.carat) / base.carat * 100.0
  }

  /** What a grade mode demands of two grades, given whether they are equal and whether they are similar. */
  predicate ModeAllows(mode: GradeMode, same: bool, similar: bool)
  {
    match mode
    case Exact => same
    case Similar => similar
    case AnyGrade => true
  }

  /** The candidate test: within the carat tolerance of the base, and each grade
      as close to the base's as its mode demands. */
  predicate Accepts(c: Criteria, base: Diamond, cand: Diamond)
    requires base.carat > 0.0
  {
    && CaratDiffPercent(base, cand) <= c.caratTolerance
    && ModeAllows(c.colorMatch, base.color == cand.color, SimilarColor(base.color, cand.color))
    && ModeAllows(c.clarityMatch, base.clarity == cand.clarity, SimilarClarity(base.clarity, cand.clarity))
    && ModeAllows(c.cutMatch, base.cut == cand.cut, SimilarCut(base.cut, cand.cut))
  }

  /** Points lost for one grade: none when equal, 5 when similar, 15 otherwise. */
  function GradePenalty(same: bool, similar: bool): real
  {
    if same then 0.0 else if similar then 5.0 else 15.0
  }

  /** Points one member loses against the base: two per percent of carat
      difference, plus the three grade penalties. */
  function Penalty(base: Diamond, d: Diamond): real
    requires base.carat > 0.0
  {
    CaratDiffPercent(base, d) * 2.0
    + GradePenalty(base.color == d.color, SimilarColor(base.color, d.color))
    + GradePenalty(base.clarity == d.clarity, SimilarClarity(base.clarity, d.clarity))
    + GradePenalty(base.cut == d.cut, SimilarCut(base.cut, d.cut))
  }

  /** Equal in the four Cs. */
  predicate SameFourCs(a: Diamond, b: Diamond)
  {
    a.carat == b.carat && a.color == b.color && a.clarity == b.clarity && a.cut == b.cut
  }

  /** A member costs nothing exactly when it equals the base in the four Cs. */
  lemma PenaltyZeroIffSame(base: Diamond, d: Diamond)
    requires base.carat > 0.0
    ensures Penalty(base, d) >= 0.0
    ensures Penalty(base, d) == 0.0 <==> SameFourCs(base, d)
  {
  }

  function TotalPenalty(base: Diamond, ds: seq<Diamond>): real
    requires base.carat > 0.0
  {
    if ds == [] then 0.0 else Penalty(base, ds[0]) + TotalPenalty(base, ds[1..])
  }

  /** `Math.max(0, Math.min(100, x))`. */
  function Clamp(x: real): real
  {
    if x > 100.0 then 100.0 else if x < 0.0 then 0.0 else x
  }

  /** `calculateMatchScore`: 0 for fewer than two stones, otherwise 100 less
      every member's penalty against the first stone, clamped to [0, 100]. */
  function MatchScore(ds: seq<Diamond>): (r: real)
    requires |ds| >= 2 ==> ds[0].carat > 0.0
    ensures 0.0 <= r <= 100.0
    ensures |ds| < 2 ==> r == 0.0
  {
    if |ds| < 2 then 0.0 else Clamp(100.0 - TotalPenalty(ds[0], ds[1..]))
  }

  lemma {:induction false} TotalPenaltyZeroIffAllSame(base: Diamond, ds: seq<Diamond>)
    requires base.carat > 0.0
    ensures TotalPenalty(base, ds) >= 0.0
    ensures TotalPenalty(base, ds) == 0.0 <==> forall k :: 0 <= k < |ds| ==> SameFourCs(base, ds[k])
  {
    if ds != [] {
      PenaltyZeroIffSame(base, ds[0]);
      TotalPenaltyZeroIffAllSame(base, ds[1..]);
      if forall k :: 0 <= k < |ds| ==> SameFourCs(base, ds[k]) {
        assert forall k :: 0 <= k < |ds[1..]| ==> SameFourCs(base, ds[1..][k]) by {
          forall k | 0 <= k < |ds[1..]| ensures SameFourCs(base, ds[1..][k]) {
            assert ds[1..][k] == ds[k + 1];
          }
        }
      }
    }
  }

  /** A set of two or more scores 100 exactly when every member equals the
      first stone in carat, colour, clarity and cut. */
  lemma PerfectScoreIffIdentical(ds: seq<Diamond>)
    requires |ds| >= 2 && ds[0].carat > 0.0
    ensures MatchScore(ds) == 100.0 <==> forall k :: 1 <= k < |ds| ==> SameFourCs(ds[0], ds[k])
  {
    TotalPenaltyZeroIffAllSame(ds[0], ds[1..]);
    if forall k :: 1 <= k < |ds| ==> SameFourCs(ds[0], ds[k]) {
      assert forall k :: 0 <= k < |ds[1..]| ==> SameFourCs(ds[0], ds[1..][k]) by {
        forall k | 0 <= k < |ds[1..]| ensures SameFourCs(ds[0], ds[1..][k]) {
          assert ds[1..][k] == ds[k + 1];
        }
      }
    } else {
      var k :| 1 <= k < |ds| && !SameFourCs(ds[0], ds[k]);
      assert ds[1..][k - 1] == ds[k];
    }
  }

  lemma {:induction false} TotalPenaltyAppend(base: Diamond, ds: seq<Diamond>, d: Diamond)
    requires base.carat > 0.0
    ensures TotalPenalty(base, ds + [d]) == TotalPenalty(base, ds) + Penalty(base, d)
  {
    if ds == [] {
      assert ds + [d] == [d];
    } else {
      assert (ds + [d])[1..] == ds[1..] + [d];
      TotalPenaltyAppend(base, ds[1..], d);
    }
  }

  /** Adding a member to a set never raises its score: each member's penalty
      against the base is subtracted, and penalties are never negative. */
  lemma AddingMemberNeverRaisesScore(ds: seq<Diamond>, d: Diamond)
    requires |ds| >= 2 && ds[0].carat > 0.0
    ensures MatchScore(ds + [d]) <= MatchScore(ds)
  {
    var ext := ds + [d];
    assert ext[0] == ds[0];
    assert ext[1..] == ds[1..] + [d];
    TotalPenaltyAppend(ds[0], ds[1..], d);
    PenaltyZeroIffSame(ds[0], d);
  }

  /** The pool filter of lines 129-132: available, and of the chosen shape. */
  predicate Eligible(c: Criteria, d: Diamond)
  {
    d.status == Available && (c.shape.AnyShape? || d.shape == c.shape.shape)
  }

  /** The stones of the pool that pass the pool filter, in pool order. */
  function EligibleStones(c: Criteria, pool: seq<Diamond>): (a: seq<Diamond>)
    ensures forall k :: 0 <= k < |a| ==> a[k] in pool && Eligible(c, a[k])
    ensures forall k :: 0 <= k < |pool| && Eligible(c, pool[k]) ==> pool[k] in a
    ensures multiset(a) <= multiset(pool)
    ensures (forall k :: 0 <= k < |pool| ==> pool[k].carat > 0.0) ==> forall k :: 0 <= k < |a| ==> a[k].carat > 0.0
  {
    Filter(pool, (d: Diamond) => Eligible(c, d))
  }

  /** The distinct shapes of `ds`, after those already in `seen`, in order of
      first appearance (the key order of the `diamondsByShape` record). */
  function ShapesInOrder(ds: seq<Diamond>, seen: seq<Shape>): (r: seq<Shape>)
    ensures |seen| <= |r| && r[..|seen|] == seen
    ensures forall k :: 0 <= k < |ds| ==> ds[k].shape in r
    ensures (forall a, b :: 0 <= a < b < |seen| ==> seen[a] != seen[b]) ==>
      forall a, b :: 0 <= a < b < |r| ==> r[a] != r[b]
    decreases |ds|
  {
    if ds == [] then seen
    else
      var seen' := if ds[0].shape in seen then seen else seen + [ds[0].shape];
      var r := ShapesInOrder(ds[1..], seen');
      assert r[..|seen'|] == seen';
      assert ds[0].shape in r by {
        var k :| 0 <= k < |seen'| && seen'[k] == ds[0].shape;
        assert r[k] == seen'[k];
      }
      assert forall k :: 1 <= k < |ds| ==> ds[k] == ds[1..][k - 1];
      assert r[..|seen|] == seen by {
        assert seen'[..|seen|] == seen;
      }
      r
  }

  /** Some stone of `ds` before index `bound` has shape `sh`. */
  predicate ShapeOccursBefore(ds: seq<Diamond>, sh: Shape, bound: int)
  {
    exists k :: 0 <= k < bound && k < |ds| && ds[k].shape == sh
  }

  /** The entries of `r` after `seen` are shapes of stones of `ds` that are not in `seen`. */
  predicate NewShapesOfStones(ds: seq<Diamond>, seen: seq<Shape>, r: seq<Shape>)
  {
    forall j :: |seen| <= j < |r| ==> r[j] !in seen && ShapeOccursBefore(ds, r[j], |ds|)
  }

  /** Each entry of `r` after `seen` has a stone in `ds` before every stone of
      a later entry: the entries follow the order of each shape's first stone. */
  predicate OrderedByFirstStone(ds: seq<Diamond>, seen: seq<Shape>, r: seq<Shape>)
  {
    forall j1, j2, k2 :: |seen| <= j1 < j2 < |r| && 0 <= k2 < |ds| && ds[k2].shape == r[j2] ==>
      ShapeOccursBefore(ds, r[j1], k2)
  }

  /** A stone of `ds[1..]` before `b` is a stone of `ds` before `b + 1`. */
  lemma OccursBeforeInTail(ds: seq<Diamond>, sh: Shape, b: int)
    requires ds != [] && ShapeOccursBefore(ds[1..], sh, b)
    ensures ShapeOccursBefore(ds, sh, b + 1)
  {
  }

  /** Lines 137-145 add a key only for a stone whose shape has no key yet:
      the shapes `ShapesInOrder` adds are shapes of the stones, not already listed. */
  lemma {:induction false} ShapesInOrderAddsStoneShapes(ds: seq<Diamond>, seen: seq<Shape>)
    ensures NewShapesOfStones(ds, seen, ShapesInOrder(ds, seen))
    decreases |ds|
  {
    if ds != [] {
      var s0, t := ds[0].shape, ds[1..];
      var seen' := if s0 in seen then seen else seen + [s0];
      var r := ShapesInOrder(t, seen');
      assert ShapesInOrder(ds, seen) == r;
      ShapesInOrderAddsStoneShapes(t, seen');
      forall j | |seen| <= j < |r| ensures r[j] !in seen && ShapeOccursBefore(ds, r[j], |ds|) {
        if j < |seen'| {
          assert r[j] == seen'[j] == s0;
        } else {
          OccursBeforeInTail(ds, r[j], |t|);
        }
      }
    }
  }

  /** Lines 137-145 build the groups as object keys in the order stones are
      met, so the keys follow the order of each shape's first stone. */
  lemma {:induction false} ShapesInOrderFirstAppearance(ds: seq<Diamond>, seen: seq<Shape>)
    ensures OrderedByFirstStone(ds, seen, ShapesInOrder(ds, seen))
    decreases |ds|
  {
    if ds != [] {
      var s0, t := ds[0].shape, ds[1..];
      var seen' := if s0 in seen then seen else seen + [s0];
      var r := ShapesInOrder(t, seen');
      assert ShapesInOrder(ds, seen) == r;
      ShapesInOrderFirstAppearance(t, seen');
      ShapesInOrderAddsStoneShapes(t, seen');
      assert s0 in seen';
      forall j1, j2, k2 | |seen| <= j1 < j2 < |r| && 0 <= k2 < |ds| && ds[k2].shape == r[j2]
        ensures ShapeOccursBefore(ds, r[j1], k2)
      {
        assert r[j2] !in seen';
        assert 0 < k2 && t[k2 - 1] == ds[k2];
        if j1 < |seen'| {
          assert r[j1] == seen'[j1] == s0;
        } else {
          OccursBeforeInTail(ds, r[j1], k2 - 1);
        }
      }
    }
  }

  /** Lines 167-190: the stones of `g[j..]` other than `g[i]` that pass the
      candidate test against the base `g[i]`, in list order. */
  function Candidates(c: Criteria, g: seq<Diamond>, i: nat, j: nat): (r: seq<Diamond>)
    requires i < |g| && j <= |g| && g[i].carat > 0.0
    ensures forall k :: 0 <= k < |r| ==> Accepts(c, g[i], r[k])
    ensures forall k :: j <= k < |g| && k != i && Accepts(c, g[i], g[k]) ==> g[k] in r
    ensures j <= i ==> multiset(r) + multiset{g[i]} <= multiset(g[j..])
    ensures i < j ==> multiset(r) <= multiset(g[j..])
    decreases |g| - j
  {
    if j == |g| then []
    else
      assert g[j..] == [g[j]] + g[j + 1..];
      if j != i && Accepts(c, g[i], g[j]) then [g[j]] + Candidates(c, g, i, j + 1)
      else Candidates(c, g, i, j + 1)
  }

  function SetId(n: nat): string
  {
    "set-" + Dec(n)
  }

  /** Lines 194-204: the set record for a list of members. */
  function MakeSet(n: nat, members: seq<Diamond>): DiamondSet
    requires |members| >= 1 && members[0].carat > 0.0
  {
    DiamondSet(SetId(n), members, MatchScore(members), SumBy(members, CaratOf),
               SumBy(members, PriceOf) / (|members| as real))
  }

  /** What every emitted set satisfies, relative to the list `src` its stones were drawn from. */
  predicate WellFormedSet(c: Criteria, src: seq<Diamond>, s: DiamondSet)
  {
    && |s.diamonds| >= 1
    && |s.diamonds| >= c.minPairs
    && s.diamonds[0].carat > 0.0
    && (forall k :: 1 <= k < |s.diamonds| ==> Accepts(c, s.diamonds[0], s.diamonds[k]))
    && multiset(s.diamonds) <= multiset(src)
    && s.totalCarats == SumBy(s.diamonds, CaratOf)
    && s.averagePrice == SumBy(s.diamonds, PriceOf) / (|s.diamonds| as real)
    && s.matchScore == MatchScore(s.diamonds)
    && 0.0 <= s.matchScore <= 100.0
  }

  /** The set a base `g[i]` yields, when it has enough matches, is well formed. */
  lemma NewSetWellFormed(c: Criteria, g: seq<Diamond>, i: nat, n: nat)
    requires forall k :: 0 <= k < |g| ==> g[k].carat > 0.0
    requires i < |g|
    requires 1 + |Candidates(c, g, i, 0)| >= c.minPairs
    ensures WellFormedSet(c, g, MakeSet(n, [g[i]] + Candidates(c, g, i, 0)))
  {
    var cands := Candidates(c, g, i, 0);
    var members := [g[i]] + cands;
    assert forall k :: 1 <= k < |members| ==> members[k] == cands[k - 1];
    assert multiset(members) == multiset{g[i]} + multiset(cands);
    assert g[0..] == g;
  }

  /** The sets are named `set-n`, `set-(n+1)`, ... in order. */
  predicate NumberedFrom(r: seq<DiamondSet>, n: nat)
  {
    forall k :: 0 <= k < |r| ==> r[k].id == SetId(n + k)
  }

  /** Every set is well formed relative to `src`. */
  predicate AllWellFormed(c: Criteria, src: seq<Diamond>, r: seq<DiamondSet>)
  {
    forall k :: 0 <= k < |r| ==> WellFormedSet(c, src, r[k])
  }

  /** Numbering and well-formedness carry over to a concatenation. */
  lemma JoinSets(c: Criteria, src: seq<Diamond>, a: seq<DiamondSet>, b: seq<DiamondSet>, n: nat)
    requires NumberedFrom(a, n) && NumberedFrom(b, n + |a|)
    requires AllWellFormed(c, src, a) && AllWellFormed(c, src, b)
    ensures NumberedFrom(a + b, n) && AllWellFormed(c, src, a + b)
  {
    forall k | |a| <= k < |a + b| ensures (a + b)[k] == b[k - |a|] {}
  }

  /** Putting the set based at `g[i]` in front of well-formed sets numbered
      from `n + 1` gives well-formed sets numbered from `n`. */
  lemma EmitSet(c: Criteria, g: seq<Diamond>, i: nat, n: nat, rest: seq<DiamondSet>)
    requires forall k :: 0 <= k < |g| ==> g[k].carat > 0.0
    requires i < |g|
    requires 1 + |Candidates(c, g, i, 0)| >= c.minPairs
    requires NumberedFrom(rest, n + 1) && AllWellFormed(c, g, rest)
    ensures var s := [MakeSet(n, [g[i]] + Candidates(c, g, i, 0))] + rest;
      NumberedFrom(s, n) && AllWellFormed(c, g, s)
  {
    NewSetWellFormed(c, g, i, n);
    ConsSet(c, g, MakeSet(n, [g[i]] + Candidates(c, g, i, 0)), rest, n);
  }

  /** A well-formed set named `set-n` in front of well-formed sets numbered from `n + 1`. */
  lemma ConsSet(c: Criteria, src: seq<Diamond>, s: DiamondSet, rest: seq<DiamondSet>, n: nat)
    requires s.id == SetId(n) && WellFormedSet(c, src, s)
    requires NumberedFrom(rest, n + 1) && AllWellFormed(c, src, rest)
    ensures NumberedFrom([s] + rest, n) && AllWellFormed(c, src, [s] + rest)
  {
    var r := [s] + rest;
    forall k | 0 <= k < |r| ensures r[k].id == SetId(n + k) && WellFormedSet(c, src, r[k]) {
      if k > 0 {
        assert r[k] == rest[k - 1];
      }
    }
  }

  /** Lines 162-211 for one shape group `g` (already sorted by carat), from
      index `i`: each stone in turn is a base; a base with enough matches
      emits a set, and the scan then skips the next `setSize - 1` stones. */
  function ScanGroup(c: Criteria, g: seq<Diamond>, i: nat, n: nat): (r: seq<DiamondSet>)
    requires forall k :: 0 <= k < |g| ==> g[k].carat > 0.0
    ensures NumberedFrom(r, n)
    ensures AllWellFormed(c, g, r)
    decreases |g| - i
  {
    if i >= |g| then []
    else
      var members := [g[i]] + Candidates(c, g, i, 0);
      if |members| >= c.minPairs then
        var rest := ScanGroup(c, g, i + |members|, n + 1);
        EmitSet(c, g, i, n, rest);
        [MakeSet(n, members)] + rest
      else
        ScanGroup(c, g, i + 1, n)
  }

  /** The stones of `avail` with shape `sh`, sorted by carat (lines 137-145, 159). */
  function ShapeGroup(avail: seq<Diamond>, sh: Shape): (g: seq<Diamond>)
    ensures multiset(g) <= multiset(avail)
    ensures forall k :: 0 <= k < |g| ==> g[k] in avail && g[k].shape == sh
    ensures SortedBy(g, CaratOf)
    ensures multiset(g) == multiset(Filter(avail, (d: Diamond) => d.shape == sh))
    ensures (forall k :: 0 <= k < |avail| ==> avail[k].carat > 0.0) ==> forall k :: 0 <= k < |g| ==> g[k].carat > 0.0
  {
    var f := Filter(avail, (d: Diamond) => d.shape == sh);
    var g := SortBy(f, CaratOf);
    PermutationKeeps(g, f, (d: Diamond) => d in avail && d.shape == sh);
    g
  }

  /** A set drawn from a sub-multiset of `src2` is drawn from `src2`. */
  lemma WellFormedWiden(c: Criteria, src1: seq<Diamond>, src2: seq<Diamond>, s: DiamondSet)
    requires multiset(src1) <= multiset(src2)
    requires WellFormedSet(c, src1, s)
    ensures WellFormedSet(c, src2, s)
  {
  }

  /** Every stone of a set drawn from `src` is a stone of `src`. */
  lemma MembersComeFromSource(c: Criteria, src: seq<Diamond>, s: DiamondSet)
    requires WellFormedSet(c, src, s)
    ensures forall k :: 0 <= k < |s.diamonds| ==> s.diamonds[k] in src
  {
    forall k | 0 <= k < |s.diamonds| ensures s.diamonds[k] in src {
      assert s.diamonds[k] in multiset(s.diamonds);
    }
  }

  /** Every stone of the set has the base stone's shape. */
  predicate OneShape(s: DiamondSet)
  {
    |s.diamonds| >= 1 && forall m :: 0 <= m < |s.diamonds| ==> s.diamonds[m].shape == s.diamonds[0].shape
  }

  /** Every stone of the set passed the pool filter. */
  predicate AllEligible(c: Criteria, s: DiamondSet)
  {
    forall m :: 0 <= m < |s.diamonds| ==> Eligible(c, s.diamonds[m])
  }

  /** Every set has one shape. */
  predicate AllOneShape(r: seq<DiamondSet>)
  {
    forall k :: 0 <= k < |r| ==> OneShape(r[k])
  }

  /** The sets one shape group yields are drawn from `avail` and have one shape. */
  lemma GroupSetsWellFormed(c: Criteria, avail: seq<Diamond>, sh: Shape, n: nat)
    requires forall k :: 0 <= k < |avail| ==> avail[k].carat > 0.0
    ensures var sets := ScanGroup(c, ShapeGroup(avail, sh), 0, n);
      AllWellFormed(c, avail, sets) && AllOneShape(sets)
  {
    var g := ShapeGroup(avail, sh);
    var sets := ScanGroup(c, g, 0, n);
    forall k | 0 <= k < |sets|
      ensures WellFormedSet(c, avail, sets[k]) && OneShape(sets[k])
    {
      WellFormedWiden(c, g, avail, sets[k]);
      MembersComeFromSource(c, g, sets[k]);
      assert sets[k].diamonds[0].shape == sh;
    }
  }

  /** Lines 150-211 for the group of shape `sh`: skipped when smaller than
      `minPairs` (line 153), scanned otherwise; the sets are numbered from `n`,
      and there are none exactly when the group yields none. */
  function GroupSets(c: Criteria, avail: seq<Diamond>, sh: Shape, n: nat): (r: seq<DiamondSet>)
    requires forall k :: 0 <= k < |avail| ==> avail[k].carat > 0.0
    ensures NumberedFrom(r, n)
    ensures AllWellFormed(c, avail, r) && AllOneShape(r)
    ensures r == [] <==> GroupYieldsNoSet(c, ShapeGroup(avail, sh))
  {
    var g := ShapeGroup(avail, sh);
    GroupSetsWellFormed(c, avail, sh, n);
    ScanGroupEmptyIff(c, g, 0, n);
    if |g| < c.minPairs then [] else ScanGroup(c, g, 0, n)
  }

  /** Having one shape per set carries over to a concatenation. */
  lemma JoinOneShape(a: seq<DiamondSet>, b: seq<DiamondSet>)
    requires AllOneShape(a) && AllOneShape(b)
    ensures AllOneShape(a + b)
  {
    forall k | |a| <= k < |a + b| ensures (a + b)[k] == b[k - |a|] {}
  }

  /** Lines 150-212: the groups in key order; a group smaller than `minPairs`
      is skipped. Nothing is found exactly when no listed group yields a set. */
  function ScanGroups(c: Criteria, avail: seq<Diamond>, shapes: seq<Shape>, n: nat): (r: seq<DiamondSet>)
    requires forall k :: 0 <= k < |avail| ==> avail[k].carat > 0.0
    ensures NumberedFrom(r, n)
    ensures AllWellFormed(c, avail, r) && AllOneShape(r)
    ensures r == [] <==> NoListedGroupYields(c, avail, shapes)
    decreases |shapes|
  {
    if shapes == [] then []
    else
      var sets := GroupSets(c, avail, shapes[0], n);
      var rest := ScanGroups(c, avail, shapes[1..], n + |sets|);
      JoinSets(c, avail, sets, rest, n);
      JoinOneShape(sets, rest);
      NoListedGroupYieldsCons(c, avail, shapes, n);
      sets + rest
  }

  /** No base from index `i` on has enough matches to emit a set. (Every
      stone of a searched pool weighs more than nothing; the weight test only
      keeps the candidate list defined.) */
  predicate NoBaseFrom(c: Criteria, g: seq<Diamond>, i: nat)
  {
    forall k :: i <= k < |g| ==> g[k].carat > 0.0 ==> 1 + |Candidates(c, g, k, 0)| < c.minPairs
  }

  /** The scan of a group from `i` emits nothing exactly when no base from `i`
      on has enough matches: the skip after a set is never reached without
      emitting one. */
  lemma {:induction false} ScanGroupEmptyIff(c: Criteria, g: seq<Diamond>, i: nat, n: nat)
    requires forall k :: 0 <= k < |g| ==> g[k].carat > 0.0
    ensures ScanGroup(c, g, i, n) == [] <==> NoBaseFrom(c, g, i)
    decreases |g| - i
  {
    if i < |g| && 1 + |Candidates(c, g, i, 0)| < c.minPairs {
      ScanGroupEmptyIff(c, g, i + 1, n);
      assert NoBaseFrom(c, g, i) <==> NoBaseFrom(c, g, i + 1);
    }
  }

  /** A shape group yields no set: it is smaller than `minPairs`, or none of its stones has enough matches. */
  predicate GroupYieldsNoSet(c: Criteria, g: seq<Diamond>)
  {
    |g| < c.minPairs || NoBaseFrom(c, g, 0)
  }

  /** The group of every shape listed in `shapes` yields no set. */
  predicate NoListedGroupYields(c: Criteria, avail: seq<Diamond>, shapes: seq<Shape>)
    decreases |shapes|
  {
    shapes == [] || (GroupYieldsNoSet(c, ShapeGroup(avail, shapes[0])) && NoListedGroupYields(c, avail, shapes[1..]))
  }

  /** The group of every shape yields no set. */
  predicate NoGroupYields(c: Criteria, avail: seq<Diamond>)
  {
    forall sh: Shape :: GroupYieldsNoSet(c, ShapeGroup(avail, sh))
  }

  /** All listed groups yield no set exactly when the first yields none and the rest yield none. */
  lemma NoListedGroupYieldsCons(c: Criteria, avail: seq<Diamond>, shapes: seq<Shape>, n: nat)
    requires forall k :: 0 <= k < |avail| ==> avail[k].carat > 0.0
    requires shapes != []
    ensures NoListedGroupYields(c, avail, shapes) <==>
      GroupSets(c, avail, shapes[0], n) == [] && NoListedGroupYields(c, avail, shapes[1..])
  {
  }

  /** Each listed shape's group yields no set when all listed groups yield none. */
  lemma {:induction false} ListedGroupYieldsNoSet(c: Criteria, avail: seq<Diamond>, shapes: seq<Shape>, j: nat)
    requires NoListedGroupYields(c, avail, shapes) && j < |shapes|
    ensures GroupYieldsNoSet(c, ShapeGroup(avail, shapes[j]))
    decreases j
  {
    assert GroupYieldsNoSet(c, ShapeGroup(avail, shapes[0])) && NoListedGroupYields(c, avail, shapes[1..]);
    if j > 0 {
      ListedGroupYieldsNoSet(c, avail, shapes[1..], j - 1);
      assert shapes[1..][j - 1] == shapes[j];
      assert GroupYieldsNoSet(c, ShapeGroup(avail, shapes[1..][j - 1]));
      assert GroupYieldsNoSet(c, ShapeGroup(avail, shapes[j]));
    } else {
      assert GroupYieldsNoSet(c, ShapeGroup(avail, shapes[j]));
    }
  }

  /** The position of a listed shape. */
  lemma PositionOf(shapes: seq<Shape>, sh: Shape) returns (j: nat)
    requires sh in shapes
    ensures j < |shapes| && shapes[j] == sh
  {
    j :| j < |shapes| && shapes[j] == sh;
  }

  /** When no group yields a set, no listed group does. */
  lemma {:induction false} NoGroupYieldsListed(c: Criteria, avail: seq<Diamond>, shapes: seq<Shape>)
    requires NoGroupYields(c, avail)
    ensures NoListedGroupYields(c, avail, shapes)
    decreases |shapes|
  {
    if shapes != [] {
      NoGroupYieldsListed(c, avail, shapes[1..]);
    }
  }

  /** Every available stone's shape is listed, so a shape with a stone in its group is listed. */
  lemma NonEmptyGroupListed(avail: seq<Diamond>, sh: Shape)
    ensures ShapeGroup(avail, sh) != [] ==> sh in ShapesInOrder(avail, [])
  {
    var g := ShapeGroup(avail, sh);
    if g != [] {
      var i :| 0 <= i < |avail| && avail[i] == g[0];
    }
  }

  /** When every listed group yields no set, the group of any shape yields
      none: a shape with no available stone has an empty group. */
  lemma ShapeYieldsNoSet(c: Criteria, avail: seq<Diamond>, sh: Shape)
    requires NoListedGroupYields(c, avail, ShapesInOrder(avail, []))
    ensures GroupYieldsNoSet(c, ShapeGroup(avail, sh))
  {
    var shapes := ShapesInOrder(avail, []);
    NonEmptyGroupListed(avail, sh);
    if sh in shapes {
      var j := PositionOf(shapes, sh);
      ListedGroupYieldsNoSet(c, avail, shapes, j);
    } else {
      assert |ShapeGroup(avail, sh)| == 0;
    }
  }

  /** The groups of the shapes listed are the only ones that can yield a set. */
  lemma OnlyListedShapesYield(c: Criteria, avail: seq<Diamond>)
    ensures NoListedGroupYields(c, avail, ShapesInOrder(avail, [])) <==> NoGroupYields(c, avail)
  {
    var shapes := ShapesInOrder(avail, []);
    if NoListedGroupYields(c, avail, shapes) {
      forall sh: Shape ensures GroupYieldsNoSet(c, ShapeGroup(avail, sh)) {
        ShapeYieldsNoSet(c, avail, sh);
      }
    }
    if NoGroupYields(c, avail) {
      NoGroupYieldsListed(c, avail, shapes);
    }
  }

  /** Lines 137-212: the sets found in the shape groups of the available
      stones, named `set-1`, `set-2`, ... in the order found; there are none
      exactly when no shape group yields a set. */
  function ScanPool(c: Criteria, pool: seq<Diamond>): (r: seq<DiamondSet>)
    requires forall k :: 0 <= k < |pool| ==> pool[k].carat > 0.0
    ensures NumberedFrom(r, 1)
    ensures AllWellFormed(c, EligibleStones(c, pool), r) && AllOneShape(r)
    ensures r == [] <==> NoGroupYields(c, EligibleStones(c, pool))
  {
    var avail := EligibleStones(c, pool);
    OnlyListedShapesYield(c, avail);
    ScanGroups(c, avail, ShapesInOrder(avail, []), 1)
  }

  function NegScore(s: DiamondSet): real { -s.matchScore }

  /** Sets drawn from the eligible stones are drawn from the pool, and all their stones are eligible. */
  lemma EligibleSetsFromPool(c: Criteria, pool: seq<Diamond>, s: DiamondSet)
    requires WellFormedSet(c, EligibleStones(c, pool), s)
    ensures WellFormedSet(c, pool, s) && AllEligible(c, s)
  {
    var avail := EligibleStones(c, pool);
    WellFormedWiden(c, avail, pool, s);
    MembersComeFromSource(c, avail, s);
  }

  /** Best score first. */
  predicate NonIncreasingScores(r: seq<DiamondSet>)
  {
    forall a, b :: 0 <= a < b < |r| ==> r[a].matchScore >= r[b].matchScore
  }

  /** Every set is well formed over `pool`, of one shape, and made of eligible stones. */
  predicate ValidSets(c: Criteria, pool: seq<Diamond>, r: seq<DiamondSet>)
  {
    forall k :: 0 <= k < |r| ==> WellFormedSet(c, pool, r[k]) && OneShape(r[k]) && AllEligible(c, r[k])
  }

  /** The set is named `set-m` for some `m` between 1 and `n`. */
  predicate NamedInRange(s: DiamondSet, n: nat)
  {
    exists m :: 1 <= m <= n && s.id == SetId(m)
  }

  /** Every set is named `set-m` for some `m` between 1 and the number of sets. */
  predicate IdsInRange(r: seq<DiamondSet>)
  {
    forall k :: 0 <= k < |r| ==> NamedInRange(r[k], |r|)
  }

  /** No two sets share a name. */
  predicate DistinctIds(r: seq<DiamondSet>)
  {
    forall a, b :: 0 <= a < b < |r| ==> r[a].id != r[b].id
  }

  /** Each of the names `set-1` to `set-|r|` is some set's name. */
  predicate AllNamesUsed(r: seq<DiamondSet>)
  {
    forall m :: 1 <= m <= |r| ==> exists k :: 0 <= k < |r| && r[k].id == SetId(m)
  }

  /** Different numbers give different names. */
  lemma SetIdInjective(m: nat, n: nat)
    ensures SetId(m) == SetId(n) ==> m == n
  {
    if SetId(m) == SetId(n) {
      assert SetId(m)[4..] == Dec(m) && SetId(n)[4..] == Dec(n);
      DecInjective(m, n);
    }
  }

  /** Sets numbered consecutively have pairwise different names, hence are pairwise different. */
  lemma NumberedIdsDistinct(r: seq<DiamondSet>, n: nat)
    requires NumberedFrom(r, n)
    ensures DistinctIds(r) && NoDuplicates(r)
  {
    forall a, b | 0 <= a < b < |r| ensures r[a].id != r[b].id {
      SetIdInjective(n + a, n + b);
    }
  }

  /** Reordering the sets numbered `set-1`, `set-2`, ... keeps each name in
      range, uses every name and keeps the names apart. */
  lemma PermutedIdsInRange(found: seq<DiamondSet>, r: seq<DiamondSet>)
    requires multiset(r) == multiset(found) && |r| == |found|
    requires NumberedFrom(found, 1)
    ensures IdsInRange(r) && AllNamesUsed(r) && DistinctIds(r)
  {
    forall k | 0 <= k < |r|
      ensures NamedInRange(r[k], |r|)
    {
      assert r[k] in multiset(found);
      var j :| 0 <= j < |found| && found[j] == r[k];
      assert 1 <= 1 + j <= |r| && r[k].id == SetId(1 + j);
    }
    forall m | 1 <= m <= |r| ensures exists k :: 0 <= k < |r| && r[k].id == SetId(m) {
      assert found[m - 1] in multiset(r);
      var k :| 0 <= k < |r| && r[k] == found[m - 1];
    }
    NumberedIdsDistinct(found, 1);
    PermutationKeepsNoDuplicates(r, found);
    forall a, b | 0 <= a < b < |r| ensures r[a].id != r[b].id {
      assert r[a] in multiset(found) && r[b] in multiset(found);
      var ja :| 0 <= ja < |found| && found[ja] == r[a];
      var jb :| 0 <= jb < |found| && found[jb] == r[b];
      SetIdInjective(1 + ja, 1 + jb);
    }
  }

  /** Reordering sets drawn from the eligible stones keeps them valid over the pool. */
  lemma PermutedSetsValid(c: Criteria, pool: seq<Diamond>, found: seq<DiamondSet>, r: seq<DiamondSet>)
    requires multiset(r) == multiset(found)
    requires AllWellFormed(c, EligibleStones(c, pool), found) && AllOneShape(found)
    ensures ValidSets(c, pool, r)
  {
    forall k | 0 <= k < |r|
      ensures WellFormedSet(c, pool, r[k]) && OneShape(r[k]) && AllEligible(c, r[k])
    {
      assert r[k] in multiset(found);
      var j :| 0 <= j < |found| && found[j] == r[k];
      EligibleSetsFromPool(c, pool, r[k]);
    }
  }

  /** `findMatchingSets` (lines 122-215): the sets found in every shape group
      of the eligible stones, numbered in the order found, then sorted by
      score, best first. */
  function FindMatchingSets(pool: seq<Diamond>, c: Criteria): (r: seq<DiamondSet>)
    requires forall k :: 0 <= k < |pool| ==> pool[k].carat > 0.0
    ensures multiset(r) == multiset(ScanPool(c, pool))
    ensures NonIncreasingScores(r)
    ensures ValidSets(c, pool, r)
    ensures IdsInRange(r) && AllNamesUsed(r) && DistinctIds(r)
    ensures r == [] <==> NoGroupYields(c, EligibleStones(c, pool))
  {
    var found := ScanPool(c, pool);
    var sorted := SortBy(found, NegScore);
    PermutedIdsInRange(found, sorted);
    PermutedSetsValid(c, pool, found, sorted);
    sorted
  }

  /** In a list with non-increasing scores the first set has the highest score. */
  lemma FirstIsBest(r: seq<DiamondSet>)
    requires NonIncreasingScores(r) && |r| > 0
    ensures forall k :: 0 <= k < |r| ==> r[k].matchScore <= r[0].matchScore
  {
    forall k | 0 < k < |r| ensures r[k].matchScore <= r[0].matchScore {
      assert r[0].matchScore >= r[k].matchScore;
    }
  }

  /** The component state after a search. */
  datatype SearchState = SearchState(
    matchingSets: seq<DiamondSet>,
    selectedSet: Option<DiamondSet>,
    isSearching: bool,
    noMatchesFound: bool)

  /** Before any search: no sets, nothing selected, and no "no matches" notice. */
  const NotSearched := SearchState([], None, false, false)

  /** Lines 219-225: the sets are published, the best one is selected, and an
      empty result raises the "no matches" notice. */
  function Publish(sets: seq<DiamondSet>): (st: SearchState)
    requires NonIncreasingScores(sets)
    ensures st.matchingSets == sets && !st.isSearching
    ensures st.noMatchesFound <==> sets == []
    ensures st.selectedSet.Some? <==> sets != []
    ensures st.selectedSet.Some? ==>
      && st.selectedSet.value == sets[0]
      && forall k :: 0 <= k < |sets| ==> sets[k].matchScore <= st.selectedSet.value.matchScore
    ensures st != NotSearched
  {
    if |sets| > 0 then
      FirstIsBest(sets);
      SearchState(sets, Some(sets[0]), false, false)
    else SearchState(sets, None, false, true)
  }

  /** `findMatchingSets` as a whole: search the pool, then publish. */
  function RunSearch(pool: seq<Diamond>, c: Criteria): (st: SearchState)
    requires forall k :: 0 <= k < |pool| ==> pool[k].carat > 0.0
    ensures ValidSets(c, pool, st.matchingSets) && NonIncreasingScores(st.matchingSets)
    ensures st.noMatchesFound <==> st.matchingSets == []
    ensures st.noMatchesFound <==> NoGroupYields(c, EligibleStones(c, pool))
    ensures st.selectedSet.Some? <==> st.matchingSets != []
  {
    Publish(FindMatchingSets(pool, c))
  }

  /** A set's size is bounded by the number of eligible stones of its shape,
      so a shape with fewer than `minPairs` eligible stones yields no set;
      `ValidSets` gives these premises for every set `FindMatchingSets` returns. */
  lemma SetsNeedLargeEnoughShapeGroup(c: Criteria, pool: seq<Diamond>, s: DiamondSet)
    requires WellFormedSet(c, pool, s) && OneShape(s) && AllEligible(c, s)
    ensures c.minPairs <= |s.diamonds| <= |Filter(pool, (d: Diamond) => Eligible(c, d) && d.shape == s.diamonds[0].shape)|
  {
    var sh := s.diamonds[0].shape;
    var p := (d: Diamond) => Eligible(c, d) && d.shape == sh;
    FilterKeepsPassingSubmultiset(s.diamonds, pool, p);
    var big := multiset(Filter(pool, p));
    var small := multiset(s.diamonds);
    assert big == small + (big - small);
  }

  /** A round stone of colour G, clarity VS1 and excellent cut, for the examples below. */
  function Stone(id: string, carat: real): Diamond
  {
    Diamond(id, id, carat, Excellent, VS1, G, Round, Available, 1000.0)
  }

  /** The candidate lists of the first example below. */
  lemma ThreeStoneCandidates()
    ensures var a, b, d := Stone("a", 1.0), Stone("b", 1.02), Stone("d", 1.5);
      Candidates(DefaultCriteria, [a, b, d], 0, 0) == [b] && Candidates(DefaultCriteria, [a, b, d], 2, 0) == []
  {
    var a, b, d := Stone("a", 1.0), Stone("b", 1.02), Stone("d", 1.5);
    var c, g := DefaultCriteria, [a, b, d];
    assert Accepts(c, a, b) && !Accepts(c, a, d) && !Accepts(c, d, a) && !Accepts(c, d, b);
    assert Candidates(c, g, 0, 3) == [] && Candidates(c, g, 2, 3) == [];
    assert Candidates(c, g, 0, 2) == [] && Candidates(c, g, 2, 2) == [];
    assert Candidates(c, g, 0, 1) == [b] && Candidates(c, g, 2, 1) == [];
  }

  /** The candidate lists of the second example below. */
  lemma SharedStoneCandidates()
    ensures var a, b, d := Stone("a", 1.0), Stone("b", 1.04), Stone("d", 1.08);
      Candidates(DefaultCriteria, [a, b, d], 0, 0) == [b] && Candidates(DefaultCriteria, [a, b, d], 2, 0) == [b]
  {
    var a, b, d := Stone("a", 1.0), Stone("b", 1.04), Stone("d", 1.08);
    var c, g := DefaultCriteria, [a, b, d];
    assert Accepts(c, a, b) && !Accepts(c, a, d) && !Accepts(c, d, a) && Accepts(c, d, b);
    assert Candidates(c, g, 0, 3) == [] && Candidates(c, g, 2, 3) == [];
    assert Candidates(c, g, 0, 2) == [] && Candidates(c, g, 2, 2) == [];
    assert Candidates(c, g, 0, 1) == [b] && Candidates(c, g, 2, 1) == [b];
  }

  /** Three identical-grade stones of 1.00, 1.02 and 1.50 carats at a 5%
      tolerance and sets of two: the two small stones form one set, and the
      1.50 stone, too far from both, forms none. */
  lemma ThreeStoneExample()
    ensures var a, b, d := Stone("a", 1.0), Stone("b", 1.02), Stone("d", 1.5);
      var r := ScanGroup(DefaultCriteria, [a, b, d], 0, 1);
      |r| == 1 && r[0].diamonds == [a, b] && r[0].id == SetId(1)
  {
    var a, b, d := Stone("a", 1.0), Stone("b", 1.02), Stone("d", 1.5);
    var c, g := DefaultCriteria, [a, b, d];
    ThreeStoneCandidates();
    assert [g[2]] + Candidates(c, g, 2, 0) == [d];
    assert ScanGroup(c, g, 3, 2) == [];
    assert ScanGroup(c, g, 2, 2) == [];
    assert [g[0]] + Candidates(c, g, 0, 0) == [a, b];
  }

  /** A base only looks for matches, it does not consume them: with stones of
      1.00, 1.04 and 1.08 carats, the 1.04 stone belongs to the set based on
      1.00 and again to the set based on 1.08. */
  lemma SetsMayShareStones()
    ensures var a, b, d := Stone("a", 1.0), Stone("b", 1.04), Stone("d", 1.08);
      var r := ScanGroup(DefaultCriteria, [a, b, d], 0, 1);
      |r| == 2 && r[0].diamonds == [a, b] && r[1].diamonds == [d, b]
  {
    var a, b, d := Stone("a", 1.0), Stone("b", 1.04), Stone("d", 1.08);
    var c, g := DefaultCriteria, [a, b, d];
    SharedStoneCandidates();
    assert [g[2]] + Candidates(c, g, 2, 0) == [d, b];
    assert ScanGroup(c, g, 4, 3) == [];
    assert ScanGroup(c, g, 2, 2) == [MakeSet(2, [d, b])];
    assert [g[0]] + Candidates(c, g, 0, 0) == [a, b];
  }

  /** How the points are lost: against a 1.00 ct G VS1 base, a 1.01 ct H SI2
      stone of the same cut costs 2 for the 1% carat difference, 5 for the
      similar colour and 15 for the dissimilar clarity, so the pair scores 78. */
  lemma ScoreComponentsExample()
    ensures var b := Diamond("b", "b", 1.01, Excellent, SI2, H, Round, Available, 1000.0);
      && Penalty(Stone("a", 1.0), b) == 22.0
      && MatchScore([Stone("a", 1.0), b]) == 78.0
  {
    var a, b := Stone("a", 1.0), Diamond("b", "b", 1.01, Excellent, SI2, H, Round, Available, 1000.0);
    assert CaratDiffPercent(a, b) == 1.0;
    assert SimilarColor(G, H) && !SimilarClarity(VS1, SI2);
    assert [a, b][1..] == [b];
  }

  /** The tolerance is a percentage of the base stone, so the candidate test
      is not symmetric: 0.95 ct is within 5% of a 1.00 ct base, but 1.00 ct is
      not within 5% of a 0.95 ct base. */
  lemma ToleranceIsNotSymmetric()
    ensures Accepts(DefaultCriteria, Stone("a", 1.0), Stone("b", 0.95))
    ensures !Accepts(DefaultCriteria, Stone("b", 0.95), Stone("a", 1.0))
  {
  }
}
