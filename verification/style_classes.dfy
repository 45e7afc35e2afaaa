/** The grade and status badge colours of src/lib/utils.ts. Each mapping
    takes any string, as the source does, and falls back to a default class. */
module StyleClasses {
  import opened Grades

  const ColorBlue := "text-blue-600 bg-blue-50"
  const ColorGray := "text-gray-700 bg-gray-50"
  const ColorYellow := "text-yellow-600 bg-yellow-50"

  /** `getColorClass`. */
  function ColorClass(colorGrade: string): string
  {
    if colorGrade in {"D", "E", "F"} then ColorBlue
    else if colorGrade in {"G", "H", "I", "J"} then ColorGray
    else ColorYellow
  }

  const ClarityGreen := "text-green-600 bg-green-50"
  const ClarityBlue := "text-blue-600 bg-blue-50"
  const ClarityOrange := "text-orange-600 bg-orange-50"

  /** `getClarityClass`. */
  function ClarityClass(clarityGrade: string): string
  {
    if clarityGrade in ["FL", "IF", "VVS1", "VVS2"] then ClarityGreen
    else if clarityGrade in ["VS1", "VS2", "SI1"] then ClarityBlue
    else ClarityOrange
  }

  const CutPurple := "text-purple-600 bg-purple-50"
  const CutBlue := "text-blue-600 bg-blue-50"
  const CutGreen := "text-green-600 bg-green-50"
  const CutOrange := "text-orange-600 bg-orange-50"

  /** `getCutClass`. */
  function CutClass(cutGrade: string): string
  {
    if cutGrade == "Excellent" then CutPurple
    else if cutGrade == "Very Good" then CutBlue
    else if cutGrade == "Good" then CutGreen
    else CutOrange
  }

  const StatusGreen := "bg-green-100 text-green-800"
  const StatusBlue := "bg-blue-100 text-blue-800"
  const StatusPurple := "bg-purple-100 text-purple-800"
  const StatusYellow := "bg-yellow-100 text-yellow-800"
  const StatusGray := "bg-gray-100 text-gray-800"

  /** `getStatusClass`. */
  function StatusClass(status: string): string
  {
    if status == "Available" then StatusGreen
    else if status == "Reserved" then StatusBlue
    else if status == "Sold" then StatusPurple
    else if status == "On Memo" then StatusYellow
    else StatusGray
  }

  /** The colour buckets are contiguous bands of the colour rank: blue for the
      top three grades, gray for the next four, yellow for the rest; a string
      that names no grade is yellow. */
  lemma ColorClassBands(c: ColorGrade, other: string)
    requires forall g: ColorGrade :: other != ColorName(g)
    ensures ColorClass(ColorName(c)) == ColorBlue <==> ColorRank(c) >= 8
    ensures ColorClass(ColorName(c)) == ColorGray <==> 4 <= ColorRank(c) <= 7
    ensures ColorClass(ColorName(c)) == ColorYellow <==> ColorRank(c) <= 3
    ensures ColorClass(other) == ColorYellow
  {
    assert other != ColorName(D) && other != ColorName(E) && other != ColorName(F);
    assert other != ColorName(G) && other != ColorName(H) && other != ColorName(I) && other != ColorName(J);
  }

  /** The clarity buckets are contiguous bands of the clarity rank: green for
      FL to VVS2, blue for VS1 to SI1, orange below; a string that names no
      grade is orange. */
  lemma ClarityClassBands(c: ClarityGrade, other: string)
    requires forall g: ClarityGrade :: other != ClarityName(g)
    ensures ClarityClass(ClarityName(c)) == ClarityGreen <==> ClarityRank(c) >= 7
    ensures ClarityClass(ClarityName(c)) == ClarityBlue <==> 4 <= ClarityRank(c) <= 6
    ensures ClarityClass(ClarityName(c)) == ClarityOrange <==> ClarityRank(c) <= 3
    ensures ClarityClass(other) == ClarityOrange
  {
    assert other != ClarityName(FL) && other != ClarityName(IF);
    assert other != ClarityName(VVS1) && other != ClarityName(VVS2);
    assert other != ClarityName(VS1) && other != ClarityName(VS2) && other != ClarityName(SI1);
  }

  /** Each of the three best cuts has its own class; Fair, Poor and any other
      string share orange. */
  lemma CutClassBands(c: CutGrade, other: string)
    requires forall g: CutGrade :: other != CutName(g)
    ensures CutClass(CutName(c)) == CutPurple <==> CutRank(c) == 4
    ensures CutClass(CutName(c)) == CutBlue <==> CutRank(c) == 3
    ensures CutClass(CutName(c)) == CutGreen <==> CutRank(c) == 2
    ensures CutClass(CutName(c)) == CutOrange <==> CutRank(c) <= 1
    ensures CutClass(other) == CutOrange
  {
    assert other != CutName(Excellent) && other != CutName(VeryGood) && other != CutName(Good);
  }

  /** The four statuses other than Returned get four distinct classes;
      Returned and every unrecognised string share the gray one. */
  lemma StatusClassReturnedIsDefault(s: InventoryStatus, t: InventoryStatus, other: string)
    requires forall g: InventoryStatus :: other != StatusName(g)
    ensures StatusClass(other) == StatusClass(StatusName(Returned)) == StatusGray
    ensures s != Returned && t != Returned && s != t ==>
      StatusClass(StatusName(s)) != StatusClass(StatusName(t))
    ensures s != Returned ==> StatusClass(StatusName(s)) != StatusGray
  {
    assert other != StatusName(Available) && other != StatusName(Reserved);
    assert other != StatusName(Sold) && other != StatusName(OnMemo);
  }
}
