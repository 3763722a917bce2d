/**
 * The syllabus-wise analysis card: each topic's percentage is put in one of
 * three bands, and the band picks the colour of both the percentage label and
 * the progress bar.
 */
module SyllabusBands {

  datatype SyllabusScore = SyllabusScore(topic: string, percentage: real)

  /** The static topic list shown on the page. */
  const SyllabusScores: seq<SyllabusScore> := [
    SyllabusScore("HTML Tools, Forms, History", 80.0),
    SyllabusScore("Tags & References in HTML", 60.0),
    SyllabusScore("Tables & References in HTML", 24.0),
    SyllabusScore("Tables & CSS Basics", 96.0)
  ]

  datatype Band = Strong | Moderate | Weak

  /** The three-way split shared by both colour sites. */
  function Classify(percentage: real): (b: Band)
    ensures b == Strong <==> percentage >= 80.0
    ensures b == Moderate <==> 60.0 <= percentage < 80.0
    ensures b == Weak <==> percentage < 60.0
  {
    if percentage >= 80.0 then Strong
    else if percentage >= 60.0 then Moderate
    else Weak
  }

  /** The colour token of each band: blue, orange, red. */
  function Hex(b: Band): string {
    match b
    case Strong => "#438AF6"
    case Moderate => "#FF9142"
    case Weak => "#FB5E5E"
  }

  /** Ordering of the bands, weakest first. */
  function Level(b: Band): nat {
    match b
    case Weak => 0
    case Moderate => 1
    case Strong => 2
  }

  /** The text-colour class of the percentage label, as its own ternary chain. */
  function LabelClass(percentage: real): (c: string)
    ensures c == "text-[" + Hex(Classify(percentage)) + "]"
  {
    if percentage >= 80.0 then "text-[#438AF6]"
    else if percentage >= 60.0 then "text-[#FF9142]"
    else "text-[#FB5E5E]"
  }

  /** The fill class of the progress bar, as its own ternary chain. */
  function BarClass(percentage: real): (c: string)
    ensures c == "bg-[" + Hex(Classify(percentage)) + "]"
  {
    if percentage >= 80.0 then "bg-[#438AF6]"
    else if percentage >= 60.0 then "bg-[#FF9142]"
    else "bg-[#FB5E5E]"
  }

  /** Distinct bands have distinct colour tokens. */
  lemma HexIsInjective(a: Band, b: Band)
    requires Hex(a) == Hex(b)
    ensures a == b
  {
  }

  /**
   * The label and the bar stay in sync: two percentages get the same label
   * colour exactly when they get the same bar colour, exactly when they fall
   * in the same band.
   */
  lemma SitesAgree(p: real, q: real)
    ensures LabelClass(p) == LabelClass(q) <==> Classify(p) == Classify(q)
    ensures BarClass(p) == BarClass(q) <==> Classify(p) == Classify(q)
  {
  }

  /** A higher percentage never lands in a weaker band. */
  lemma ClassifyIsMonotone(p: real, q: real)
    requires p <= q
    ensures Level(Classify(p)) <= Level(Classify(q))
  {
  }

  lemma BoundaryCases()
    ensures Classify(80.0) == Strong
    ensures Classify(79.0) == Moderate
    ensures Classify(60.0) == Moderate
    ensures Classify(59.0) == Weak
  {
  }

  /** The four topics on the page are strong, moderate, weak and strong. */
  lemma PageTopicBands()
    ensures |SyllabusScores| == 4
    ensures Classify(SyllabusScores[0].percentage) == Strong
    ensures Classify(SyllabusScores[1].percentage) == Moderate
    ensures Classify(SyllabusScores[2].percentage) == Weak
    ensures Classify(SyllabusScores[3].percentage) == Strong
  {
  }
}
