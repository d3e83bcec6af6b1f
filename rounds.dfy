/**
  One round is the pair (human move, computer move). This module holds the
  outcome of a round as ScoreKeeper#tally_score decides it, the per-game tallies
  over a sequence of rounds, and the move log the Logger builds from them.
 */
module Rounds {
  import opened Moves

  /** (human move, computer move) of one round. */
  type Round = (Move, Move)

  /** The move log: round number to the human and computer moves of that round. */
  type MoveLog = map<nat, Round>

  datatype RoundWinner = HumanWon | ComputerWon | Tie

  /** The branch ScoreKeeper#tally_score takes: human `>` first, then human `<`, else a tie. */
  function Winner(r: Round): RoundWinner {
    if Beats(r.0, r.1) then HumanWon
    else if LosesTo(r.0, r.1) then ComputerWon
    else Tie
  }

  /** The human wins iff their move beats the computer's, the computer wins iff its move beats the human's, and the round ties iff the moves agree. */
  lemma WinnerFollowsBeats(r: Round)
    ensures Winner(r) == HumanWon <==> Beats(r.0, r.1)
    ensures Winner(r) == ComputerWon <==> Beats(r.1, r.0)
    ensures Winner(r) == Tie <==> r.0 == r.1
  {
  }

  /** How many of the rounds `rs` ended with outcome `w`. */
  function Tally(rs: seq<Round>, w: RoundWinner): (n: nat)
    ensures n <= |rs|
  {
    if rs == [] then 0
    else Tally(rs[..|rs| - 1], w) + (if Winner(rs[|rs| - 1]) == w then 1 else 0)
  }

  /** Playing one more round adds one to exactly the tally of its outcome. */
  lemma TallyAppend(rs: seq<Round>, r: Round, w: RoundWinner)
    ensures Tally(rs + [r], w) == Tally(rs, w) + (if Winner(r) == w then 1 else 0)
  {
    assert (rs + [r])[..|rs|] == rs;
  }

  /** Human wins, computer wins and ties together account for every round. */
  lemma {:induction false} TallyPartition(rs: seq<Round>)
    ensures Tally(rs, HumanWon) + Tally(rs, ComputerWon) + Tally(rs, Tie) == |rs|
  {
    if rs != [] {
      TallyPartition(rs[..|rs| - 1]);
    }
  }

  /**
    Rounds rock/scissors, paper/scissors, rock/paper (human move first): the
    human wins the first, and the computer wins the other two, since scissors
    beats paper and paper beats rock.
   */
  lemma ThreeRoundScenario()
    ensures var rs := [(Rock, Scissors), (Paper, Scissors), (Rock, Paper)];
      && Tally(rs, HumanWon) == 1 && Tally(rs, ComputerWon) == 2
      && Tally(rs, Tie) == 0 && |rs| == 3
  {
  }

  /** The log that results from recording rounds `rs`, one after another, under round numbers 1 to |rs|. */
  function LogOf(rs: seq<Round>): MoveLog {
    if rs == [] then map[]
    else LogOf(rs[..|rs| - 1])[|rs| := rs[|rs| - 1]]
  }

  /** Recording round |rs| + 1 writes that one key of the log and nothing else. */
  lemma LogOfAppend(rs: seq<Round>, r: Round)
    ensures LogOf(rs + [r]) == LogOf(rs)[|rs| + 1 := r]
  {
    assert (rs + [r])[..|rs|] == rs;
  }

  /** The log of |rs| rounds has exactly the keys 1 to |rs|, so its size is |rs|. */
  lemma {:induction false} LogOfSize(rs: seq<Round>)
    ensures forall k :: k in LogOf(rs) <==> 1 <= k <= |rs|
    ensures |LogOf(rs)| == |rs|
  {
    if rs != [] {
      var p, r := rs[..|rs| - 1], rs[|rs| - 1];
      assert p + [r] == rs;
      LogOfSize(p);
      LogOfAppend(p, r);
    }
  }

  /** Entry k of the log holds the human and computer moves of round k. */
  lemma {:induction false} LogOfEntry(rs: seq<Round>, k: nat)
    requires 1 <= k <= |rs|
    ensures k in LogOf(rs) && LogOf(rs)[k] == rs[k - 1]
  {
    if k < |rs| {
      var p := rs[..|rs| - 1];
      LogOfEntry(p, k);
      LogOfSize(p);
    }
  }
}
