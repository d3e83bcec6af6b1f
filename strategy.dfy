/**
  The computer's decision rules (Computer#choose) as a function of the three
  averages Statistics reports, applied in a fixed order, with the random pick
  from Move::VALUES supplied as `fallback`.
 */
module Strategy {
  import opened Moves
  import opened Rounds
  import opened Frequencies

  /** A frequency above this counts as a lean toward that move. */
  const Leaning: real := 0.33

  /** The other two frequencies must stay below this. */
  const Majority: real := 0.50

  /** Rule 1: the human leans to rock. */
  predicate RockRule(rock: Avg, paper: Avg, scissors: Avg) {
    Above(rock, Leaning) && Below(paper, Majority) && Below(scissors, Majority)
  }

  /** Rule 2: the human leans to paper. */
  predicate PaperRule(rock: Avg, paper: Avg, scissors: Avg) {
    Above(paper, Leaning) && Below(rock, Majority) && Below(scissors, Majority)
  }

  /** Rule 3: the human leans to scissors. */
  predicate ScissorsRule(rock: Avg, paper: Avg, scissors: Avg) {
    Above(scissors, Leaning) && Below(paper, Majority) && Below(rock, Majority)
  }

  /**
    The first rule that holds picks the counter-move; when none holds the
    computer throws `fallback`. The assignment that ends each condition in the
    program always succeeds, so it only commits the move of the branch taken.
   */
  function Decide(rock: Avg, paper: Avg, scissors: Avg, fallback: Move): Move {
    if RockRule(rock, paper, scissors) then Paper
    else if PaperRule(rock, paper, scissors) then Scissors
    else if ScissorsRule(rock, paper, scissors) then Rock
    else fallback
  }

  /** The frequency among `rock`, `paper`, `scissors` that belongs to move `m`. */
  function AvgOf(m: Move, rock: Avg, paper: Avg, scissors: Avg): Avg {
    match m
    case Rock => rock
    case Paper => paper
    case Scissors => scissors
  }

  /**
    Whenever a rule fires, the computer's move beats a move the human plays more
    than 33% of the time; when none fires, the fallback is thrown.
   */
  lemma DecideCountersLean(rock: Avg, paper: Avg, scissors: Avg, fallback: Move)
    ensures var c := Decide(rock, paper, scissors, fallback);
      if RockRule(rock, paper, scissors) || PaperRule(rock, paper, scissors) || ScissorsRule(rock, paper, scissors)
      then Above(AvgOf(Prey(c), rock, paper, scissors), Leaning)
      else c == fallback
  {
  }

  /** Rock 0.5, paper 0.3, scissors 0.2: rule 1 fires and paper is chosen, whatever the fallback. */
  lemma RockLeanPicksPaper(fallback: Move)
    ensures Decide(Real(0.5), Real(0.3), Real(0.2), fallback) == Paper
  {
  }

  /** Rules 1 and 2 can both hold (rock 0.4, paper 0.4, scissors 0.2); the order makes rule 1 win. */
  lemma RulesOverlapPriorityDecides(fallback: Move)
    ensures RockRule(Real(0.4), Real(0.4), Real(0.2)) && PaperRule(Real(0.4), Real(0.4), Real(0.2))
    ensures Decide(Real(0.4), Real(0.4), Real(0.2), fallback) == Paper
  {
  }

  /**
    The computer's choice as the program makes it: the scissors average it
    consults is computed from the paper count (Statistics#human_scissors_average).
   */
  function ChoiceAsWritten(log: MoveLog, fallback: Move): Move {
    Decide(Frequency(log, Rock), Frequency(log, Paper), Frequency(log, Paper), fallback)
  }

  /** The choice with the scissors average computed from the scissors count. */
  function ChoiceCorrected(log: MoveLog, fallback: Move): Move {
    Decide(Frequency(log, Rock), Frequency(log, Paper), Frequency(log, Scissors), fallback)
  }

  /**
    As written, rule 3 tests the conditions of rule 2 again, so it never fires:
    the choice is paper (rule 1), scissors (rule 2) or the fallback, and rock
    only when the fallback is rock.
   */
  lemma AsWrittenRockRuleUnreachable(log: MoveLog, fallback: Move)
    ensures var r, p := Frequency(log, Rock), Frequency(log, Paper);
      ChoiceAsWritten(log, fallback) ==
        if RockRule(r, p, p) then Paper else if PaperRule(r, p, p) then Scissors else fallback
    ensures ChoiceAsWritten(log, fallback) == Rock ==> fallback == Rock
  {
  }

  /** On the empty log every average is NaN, no rule fires and the fallback is thrown. */
  lemma EmptyLogFallsBack(fallback: Move)
    ensures ChoiceAsWritten(map[], fallback) == fallback
    ensures ChoiceCorrected(map[], fallback) == fallback
  {
  }

  /** A log in which every human move is `m` has frequency 1 for `m` and 0 for the others. */
  lemma SingleMoveFrequencies(log: MoveLog, m: Move, other: Move)
    requires |log| > 0
    requires forall k :: k in log ==> log[k].0 == m
    requires other != m
    ensures Frequency(log, m) == Real(1.0) && Frequency(log, other) == Real(0.0)
  {
    assert KeysWith(log, log.Keys, m) == log.Keys;
    assert KeysWith(log, log.Keys, other) == {};
    assert HumanCount(log, m) == |log.Keys| == |log|;
    var n := |log| as real;
    assert Frequency(log, m).value == n / n == 1.0;
    assert Frequency(log, other).value == 0.0 / n == 0.0;
  }

  /** As written, a human who has played only rock is countered with paper. */
  lemma AsWrittenCountersRockOnly(log: MoveLog, fallback: Move)
    requires |log| > 0
    requires forall k :: k in log ==> log[k].0 == Rock
    ensures ChoiceAsWritten(log, fallback) == Paper
  {
    SingleMoveFrequencies(log, Rock, Paper);
  }

  /**
    As written, a human who has played only paper, or only scissors, is never
    read: for paper the doubled paper average also fails the scissors bound of
    rule 2, for scissors no average exceeds 0.33; so the fallback is thrown.
   */
  lemma AsWrittenIgnoresPaperOrScissorsOnly(log: MoveLog, m: Move, fallback: Move)
    requires |log| > 0
    requires forall k :: k in log ==> log[k].0 == m
    requires m != Rock
    ensures ChoiceAsWritten(log, fallback) == fallback
  {
    SingleMoveFrequencies(log, m, Rock);
    SingleMoveFrequencies(log, m, if m == Paper then Scissors else Paper);
  }

  /** One round in which the human threw scissors: the program falls back, so with a paper fallback it loses. */
  lemma AsWrittenLosesToScissorsOnly()
    ensures var log := LogOf([(Scissors, Rock)]);
      ChoiceAsWritten(log, Paper) == Paper && Beats(Scissors, ChoiceAsWritten(log, Paper))
  {
  }

  /** With the scissors count, a human who has played only one move is always countered. */
  lemma CorrectedCountersSingleMove(log: MoveLog, m: Move, fallback: Move)
    requires |log| > 0
    requires forall k :: k in log ==> log[k].0 == m
    ensures Beats(ChoiceCorrected(log, fallback), m)
  {
    var o1, o2 := Prey(m), Prey(Prey(m));
    SingleMoveFrequencies(log, m, o1);
    SingleMoveFrequencies(log, m, o2);
  }
}
