/** Loan grades, the ordinal risk tiers of generate_data.py. */
module Grades {

  /** Grade A is the lowest risk tier, G the highest. */
  datatype Grade = A | B | C | D | E | F | G

  /** Position of a grade on the risk scale: A is 0, G is 6. */
  function Rank(g: Grade): (r: nat)
    ensures r <= 6
  {
    match g
    case A => 0
    case B => 1
    case C => 2
    case D => 3
    case E => 4
    case F => 5
    case G => 6
  }

  /** Distinct grades sit at distinct positions, so `Rank` orders them totally. */
  lemma RankInjective(g1: Grade, g2: Grade)
    ensures Rank(g1) == Rank(g2) <==> g1 == g2
  {
  }
}
