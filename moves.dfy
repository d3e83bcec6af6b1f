/**
  The three throws of Rock-Paper-Scissors and the relations between them
  (class Move: the value strings, the rock?/paper?/scissors? tests, > and <).
 */
module Moves {
  import opened Wrappers

  datatype Move = Rock | Paper | Scissors

  /** Move::VALUES, in the program's order. */
  const Values: seq<Move> := [Rock, Paper, Scissors]

  /** The value string a move carries (Move#value, Move#to_s). */
  function Value(m: Move): string {
    match m
    case Rock => "rock"
    case Paper => "paper"
    case Scissors => "scissors"
  }

  /**
    The human's input check: the answer names a move exactly when it is one of
    the value strings in Move::VALUES, and then the move is the one it names.
   */
  function FromValue(s: string): (r: Option<Move>)
    ensures r.Some? ==> Value(r.value) == s
    ensures r.None? ==> forall m :: Value(m) != s
  {
    if s == "rock" then Some(Rock)
    else if s == "paper" then Some(Paper)
    else if s == "scissors" then Some(Scissors)
    else None
  }

  /** Every move's value string is accepted and gives the move back. */
  lemma FromValueOfValue(m: Move)
    ensures FromValue(Value(m)) == Some(m)
    ensures m in Values
  {
  }

  /** Move#>: rock beats scissors, paper beats rock, scissors beats paper. */
  predicate Beats(a: Move, b: Move) {
    || (a.Rock? && b.Scissors?)
    || (a.Paper? && b.Rock?)
    || (a.Scissors? && b.Paper?)
  }

  /** Move#<: rock loses to paper, paper loses to scissors, scissors loses to rock. */
  predicate LosesTo(a: Move, b: Move) {
    || (a.Rock? && b.Paper?)
    || (a.Paper? && b.Scissors?)
    || (a.Scissors? && b.Rock?)
  }

  /** The move that `m` defeats, following the cycle rock, scissors, paper, rock. */
  function Prey(m: Move): Move {
    match m
    case Rock => Scissors
    case Scissors => Paper
    case Paper => Rock
  }

  /** Prey walks a cycle of length three that never stands still. */
  lemma PreyIsThreeCycle(m: Move)
    ensures Prey(m) != m && Prey(Prey(m)) != m
    ensures Prey(Prey(Prey(m))) == m
  {
  }

  /** `a > b` holds exactly when `b` is the move `a` defeats in the cycle. */
  lemma BeatsIsPrey(a: Move, b: Move)
    ensures Beats(a, b) <==> b == Prey(a)
  {
  }

  /** `a < b` is the converse of `>`: it holds exactly when `b > a`. */
  lemma LosesToIsConverse(a: Move, b: Move)
    ensures LosesTo(a, b) <==> Beats(b, a)
  {
  }

  /** For every pair of moves exactly one of `a > b`, `a < b`, `a == b` holds. */
  lemma Trichotomy(a: Move, b: Move)
    ensures Beats(a, b) || LosesTo(a, b) || a == b
    ensures !(Beats(a, b) && LosesTo(a, b))
    ensures a == b ==> !Beats(a, b) && !LosesTo(a, b)
  {
  }

  /** `>` is not transitive: rock beats scissors and scissors beats paper, yet rock loses to paper. */
  lemma BeatsNotTransitive()
    ensures Beats(Rock, Scissors) && Beats(Scissors, Paper)
    ensures !Beats(Rock, Paper) && LosesTo(Rock, Paper)
  {
  }
}
