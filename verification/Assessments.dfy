/** Scores, rationales and assessments (pkg/models/assessment.go). */
module Assessments {
  /** A score is a string in the source; Other holds whatever is not one of the four, the empty string included. */
  datatype Score = Onbekend | Afhankelijk | Voldoende | Soeverein | Other(text: string)

  const BLANK := Other("")

  datatype Completeness = Complete | Partial | Incomplete

  datatype Rationale = Rationale(
    rule: string, verdict: string, score: Score, evidence: seq<string>, reason: string, handeling: string)

  datatype DimensionScore = DimensionScore(
    dimension: string, score: Score, completeness: Completeness, rationale: seq<Rationale>, notApplicable: bool)

  datatype Assessment = Assessment(framework: string, dimensions: seq<DimensionScore>)

  predicate IsValid(s: Score) {
    !s.Other?
  }

  /** Higher is better; 0 keeps a score out of every minimum. */
  function Rank(s: Score): nat {
    match s
    case Afhankelijk => 1
    case Voldoende => 2
    case Soeverein => 3
    case _ => 0
  }

  /** A rated score is determined by its rank. */
  lemma RankIsInjective(a: Score, b: Score)
    requires Rank(a) > 0 && Rank(a) == Rank(b)
    ensures a == b
  {
  }
}
