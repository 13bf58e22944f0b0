/** Record shapes shared by the cache, the estimator and the badge element. */
module Types {

  datatype Option<T> = None | Some(value: T)

  /** The six letter grades, best first. */
  datatype ScoreLetter = APlus | A | B | C | D | F

  /** Position of a grade in the order A+ > A > B > C > D > F (0 is best). */
  function Rank(s: ScoreLetter): (r: nat)
    ensures r <= 5
    ensures r == 0 <==> s == APlus
    ensures r == 5 <==> s == F
  {
    match s
    case APlus => 0
    case A => 1
    case B => 2
    case C => 3
    case D => 4
    case F => 5
  }

  /** The text the grade is written as. */
  function LetterName(s: ScoreLetter): (n: string)
    ensures 1 <= |n| <= 2 && n[0] in "ABCDF"
    ensures |n| == 2 <==> s == APlus
  {
    match s
    case APlus => "A+"
    case A => "A"
    case B => "B"
    case C => "C"
    case D => "D"
    case F => "F"
  }

  /** Distinct grades have distinct ranks, so the rank is a total order on grades. */
  lemma RankInjective(s: ScoreLetter, t: ScoreLetter)
    ensures Rank(s) == Rank(t) <==> s == t
  {
  }

  /** Distinct grades are written differently, so a stored name determines the grade. */
  lemma LetterNameInjective(s: ScoreLetter, t: ScoreLetter)
    ensures LetterName(s) == LetterName(t) <==> s == t
  {
  }

  /**
   * The result record shown by the badge. `score` is a string because a
   * record built from the scoring service carries whatever the service sent.
   * Numbers are exact reals; `timestamp` is epoch milliseconds.
   */
  datatype BadgeData = BadgeData(
    url: string,
    co2Grams: real,
    score: string,
    cleanerThan: real,
    pageWeightKb: real,
    greenHost: bool,
    timestamp: int)

  /** The scoring service's success payload, field for field. */
  datatype APIResponse = APIResponse(
    url: string,
    co2Grams: real,
    score: string,
    cleanerThan: real,
    pageWeightKb: real,
    greenHost: bool,
    cached: bool,
    ttl: real)
}
