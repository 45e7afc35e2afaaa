/** The diamond grade scales (src/types/diamond.ts) and the rank tables the
    stone-matching engine uses to decide whether two grades are "similar". */
module Grades {

  /** Colour grades, best first, in the order the type declares them. */
  datatype ColorGrade = D | E | F | G | H | I | J | K | L | M | ZPlus

  /** Clarity grades, best first. */
  datatype ClarityGrade = FL | IF | VVS1 | VVS2 | VS1 | VS2 | SI1 | SI2 | I1 | I2 | I3

  /** Cut grades, best first. */
  datatype CutGrade = Excellent | VeryGood | Good | Fair | Poor

  datatype Shape = Round | Princess | Cushion | Emerald | Oval | Radiant | Asscher | Marquise | Pear | Heart

  datatype InventoryStatus = Available | Reserved | Sold | OnMemo | Returned

  const AllColors: seq<ColorGrade> := [D, E, F, G, H, I, J, K, L, M, ZPlus]
  const AllClarities: seq<ClarityGrade> := [FL, IF, VVS1, VVS2, VS1, VS2, SI1, SI2, I1, I2, I3]
  const AllCuts: seq<CutGrade> := [Excellent, VeryGood, Good, Fair, Poor]

  /** The string each grade has at run time. */
  function ColorName(c: ColorGrade): string
  {
    match c
    case D => "D" case E => "E" case F => "F" case G => "G" case H => "H" case I => "I"
    case J => "J" case K => "K" case L => "L" case M => "M" case ZPlus => "Z+"
  }

  function ClarityName(c: ClarityGrade): string
  {
    match c
    case FL => "FL" case IF => "IF" case VVS1 => "VVS1" case VVS2 => "VVS2" case VS1 => "VS1"
    case VS2 => "VS2" case SI1 => "SI1" case SI2 => "SI2" case I1 => "I1" case I2 => "I2" case I3 => "I3"
  }

  function CutName(c: CutGrade): string
  {
    match c
    case Excellent => "Excellent" case VeryGood => "Very Good" case Good => "Good"
    case Fair => "Fair" case Poor => "Poor"
  }

  function StatusName(s: InventoryStatus): string
  {
    match s
    case Available => "Available" case Reserved => "Reserved" case Sold => "Sold"
    case OnMemo => "On Memo" case Returned => "Returned"
  }

  /** `colorRanking`: D is 10, down to Z+ at 0. */
  function ColorRank(c: ColorGrade): (r: nat)
    ensures r <= 10
  {
    match c
    case D => 10 case E => 9 case F => 8 case G => 7 case H => 6 case I => 5
    case J => 4 case K => 3 case L => 2 case M => 1 case ZPlus => 0
  }

  /** `clarityRanking`: FL is 10, down to I3 at 0. */
  function ClarityRank(c: ClarityGrade): (r: nat)
    ensures r <= 10
  {
    match c
    case FL => 10 case IF => 9 case VVS1 => 8 case VVS2 => 7 case VS1 => 6 case VS2 => 5
    case SI1 => 4 case SI2 => 3 case I1 => 2 case I2 => 1 case I3 => 0
  }

  /** `cutRanking`: Excellent is 4, down to Poor at 0. */
  function CutRank(c: CutGrade): (r: nat)
    ensures r <= 4
  {
    match c
    case Excellent => 4 case VeryGood => 3 case Good => 2 case Fair => 1 case Poor => 0
  }

  /** `Math.abs(r1 - r2) <= 1`. */
  predicate WithinOne(r1: int, r2: int)
  {
    -1 <= r1 - r2 <= 1
  }

  /** `isSimilarColor`, `isSimilarClarity`, `isSimilarCut`. */
  predicate SimilarColor(a: ColorGrade, b: ColorGrade) { WithinOne(ColorRank(a), ColorRank(b)) }
  predicate SimilarClarity(a: ClarityGrade, b: ClarityGrade) { WithinOne(ClarityRank(a), ClarityRank(b)) }
  predicate SimilarCut(a: CutGrade, b: CutGrade) { WithinOne(CutRank(a), CutRank(b)) }

  /** Every grade is listed, and each rank table gives the best grade the top
      rank and drops by one per step down the declared order. */
  lemma RanksFollowGradeOrder()
    ensures forall c: ColorGrade :: c in AllColors
    ensures forall c: ClarityGrade :: c in AllClarities
    ensures forall c: CutGrade :: c in AllCuts
    ensures forall i :: 0 <= i < |AllColors| ==> ColorRank(AllColors[i]) == 10 - i
    ensures forall i :: 0 <= i < |AllClarities| ==> ClarityRank(AllClarities[i]) == 10 - i
    ensures forall i :: 0 <= i < |AllCuts| ==> CutRank(AllCuts[i]) == 4 - i
  {
    forall c: ColorGrade ensures c in AllColors {
      match c
      case D => assert AllColors[0] == c; case E => assert AllColors[1] == c;
      case F => assert AllColors[2] == c; case G => assert AllColors[3] == c;
      case H => assert AllColors[4] == c; case I => assert AllColors[5] == c;
      case J => assert AllColors[6] == c; case K => assert AllColors[7] == c;
      case L => assert AllColors[8] == c; case M => assert AllColors[9] == c;
      case ZPlus => assert AllColors[10] == c;
    }
    forall c: ClarityGrade ensures c in AllClarities {
      match c
      case FL => assert AllClarities[0] == c; case IF => assert AllClarities[1] == c;
      case VVS1 => assert AllClarities[2] == c; case VVS2 => assert AllClarities[3] == c;
      case VS1 => assert AllClarities[4] == c; case VS2 => assert AllClarities[5] == c;
      case SI1 => assert AllClarities[6] == c; case SI2 => assert AllClarities[7] == c;
      case I1 => assert AllClarities[8] == c; case I2 => assert AllClarities[9] == c;
      case I3 => assert AllClarities[10] == c;
    }
    forall c: CutGrade ensures c in AllCuts {
      match c
      case Excellent => assert AllCuts[0] == c; case VeryGood => assert AllCuts[1] == c;
      case Good => assert AllCuts[2] == c; case Fair => assert AllCuts[3] == c;
      case Poor => assert AllCuts[4] == c;
    }
  }

  /** Two grades are similar exactly when they are equal or neighbours in the
      declared order of their scale. */
  lemma SimilarMeansNeighbours()
    ensures forall i, j :: 0 <= i < |AllColors| && 0 <= j < |AllColors| ==>
      (SimilarColor(AllColors[i], AllColors[j]) <==> -1 <= i - j <= 1)
    ensures forall i, j :: 0 <= i < |AllClarities| && 0 <= j < |AllClarities| ==>
      (SimilarClarity(AllClarities[i], AllClarities[j]) <==> -1 <= i - j <= 1)
    ensures forall i, j :: 0 <= i < |AllCuts| && 0 <= j < |AllCuts| ==>
      (SimilarCut(AllCuts[i], AllCuts[j]) <==> -1 <= i - j <= 1)
  {
    RanksFollowGradeOrder();
  }

  /** Similarity is reflexive and symmetric on every scale. */
  lemma SimilarityReflexiveSymmetric(c1: ColorGrade, c2: ColorGrade, q1: ClarityGrade, q2: ClarityGrade,
                                     k1: CutGrade, k2: CutGrade)
    ensures SimilarColor(c1, c1) && (SimilarColor(c1, c2) <==> SimilarColor(c2, c1))
    ensures SimilarClarity(q1, q1) && (SimilarClarity(q1, q2) <==> SimilarClarity(q2, q1))
    ensures SimilarCut(k1, k1) && (SimilarCut(k1, k2) <==> SimilarCut(k2, k1))
  {
  }

  /** Equal ranks mean equal grades, so the 'exact' mode is rank distance 0. */
  lemma RanksAreInjective(c1: ColorGrade, c2: ColorGrade, q1: ClarityGrade, q2: ClarityGrade,
                          k1: CutGrade, k2: CutGrade)
    ensures ColorRank(c1) == ColorRank(c2) <==> c1 == c2
    ensures ClarityRank(q1) == ClarityRank(q2) <==> q1 == q2
    ensures CutRank(k1) == CutRank(k2) <==> k1 == k2
  {
  }
}
