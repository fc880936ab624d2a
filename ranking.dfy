/**
 * The strongest/weakest domain rule shared by the analyzers:
 * `avgA < avgB && avgA < avgC ? "A" : avgB < avgC ? "B" : "C"` and its mirror.
 * Comparisons involving NaN are false, as in JavaScript.
 */
module Ranking {
  import opened Js
  import opened Data

  /** The weakest domain; with three numbers, one whose average is the smallest. */
  function Weakest(a: Num, b: Num, c: Num): (w: Domain)
    ensures a.Fin? && b.Fin? && c.Fin? ==> forall d :: Pick(a.v, b.v, c.v, w) <= Pick(a.v, b.v, c.v, d)
  {
    if Less(a, b) && Less(a, c) then A else if Less(b, c) then B else C
  }

  /** The strongest domain; with three numbers, one whose average is the largest. */
  function Strongest(a: Num, b: Num, c: Num): (s: Domain)
    ensures a.Fin? && b.Fin? && c.Fin? ==> forall d :: Pick(a.v, b.v, c.v, s) >= Pick(a.v, b.v, c.v, d)
  {
    if Less(b, a) && Less(c, a) then A else if Less(c, b) then B else C
  }

  /** The position of a domain in report order. */
  function Rank(d: Domain): nat {
    match d
    case A => 0
    case B => 1
    case C => 2
  }

  /** The average of domain d among the three. */
  function Pick(a: real, b: real, c: real, d: Domain): real {
    match d
    case A => a
    case B => b
    case C => c
  }

  /**
   * With finite averages the weakest domain has the smallest average, and every
   * domain after it has a strictly larger one: ties go to the later domain.
   */
  lemma WeakestIsLastMinimum(a: real, b: real, c: real)
    ensures var w := Weakest(Fin(a), Fin(b), Fin(c));
            && (forall d :: Pick(a, b, c, w) <= Pick(a, b, c, d))
            && (forall d :: Rank(d) > Rank(w) ==> Pick(a, b, c, d) > Pick(a, b, c, w))
  {
    var w := Weakest(Fin(a), Fin(b), Fin(c));
    forall d ensures Pick(a, b, c, w) <= Pick(a, b, c, d) {
      match d
      case A =>
      case B =>
      case C =>
    }
  }

  /** With finite averages the strongest domain has the largest average, ties going to the later domain. */
  lemma StrongestIsLastMaximum(a: real, b: real, c: real)
    ensures var s := Strongest(Fin(a), Fin(b), Fin(c));
            && (forall d :: Pick(a, b, c, s) >= Pick(a, b, c, d))
            && (forall d :: Rank(d) > Rank(s) ==> Pick(a, b, c, d) < Pick(a, b, c, s))
  {
    var s := Strongest(Fin(a), Fin(b), Fin(c));
    forall d ensures Pick(a, b, c, s) >= Pick(a, b, c, d) {
      match d
      case A =>
      case B =>
      case C =>
    }
  }

  /** Equal averages make C both the strongest and the weakest domain. */
  lemma AllEqualIsC(x: real)
    ensures Weakest(Fin(x), Fin(x), Fin(x)) == C && Strongest(Fin(x), Fin(x), Fin(x)) == C
  {
  }

  /** Three NaN averages also give C for both, since every comparison is false. */
  lemma AllNaNIsC()
    ensures Weakest(NaN, NaN, NaN) == C && Strongest(NaN, NaN, NaN) == C
  {
  }

  /** The two rules agree with each other's mirror image: the weakest of x is the strongest of −x. */
  lemma WeakestMirrorsStrongest(a: real, b: real, c: real)
    ensures Weakest(Fin(a), Fin(b), Fin(c)) == Strongest(Fin(-a), Fin(-b), Fin(-c))
  {
  }
}
