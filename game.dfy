/**
  The objects of one session and the round loop. Player, ScoreKeeper, Logger,
  Statistics and RpsGame refer to each other (the logger is handed the score
  keeper and both players; the statistics read the logger's hash; the computer
  reads the statistics), so they share one module.
 */
module Game {
  import opened Wrappers
  import opened Moves
  import opened Rounds
  import opened Frequencies
  import opened Strategy

  /** ScoreKeeper::ROUNDS_TO_WIN */
  const RoundsToWin: nat := 3

  /** A human or computer player: the move of the current round and the rounds won this game. */
  class Player {
    var move: Option<Move>
    var score: nat

    constructor ()
      ensures move == None && score == 0
    {
      move := None;
      score := 0;
    }

    /** Player#increase_score */
    method IncreaseScore()
      modifies this`score
      ensures score == old(score) + 1
    {
      score := score + 1;
    }

    /** Human#choose, once the prompt loop has produced a valid move. */
    method ChooseGiven(choice: Move)
      modifies this`move
      ensures move == Some(choice)
    {
      move := Some(choice);
    }

    /**
      One pass of Human#choose's prompt loop: a valid answer becomes the move and ends the loop;
      any other answer leaves the move as it was and the loop asks again.
    */
    method ChooseAnswer(answer: string) returns (accepted: bool)
      modifies this`move
      ensures accepted <==> FromValue(answer).Some?
      ensures accepted ==> move == FromValue(answer) && Value(move.value) == answer
      ensures !accepted ==> move == old(move)
    {
      var m := FromValue(answer);
      if m.Some? {
        ChooseGiven(m.value);
        accepted := true;
      } else {
        accepted := false;
      }
    }

    /** Computer#choose: the decision rules over the statistics, `fallback` standing for Move::VALUES.sample. */
    method ChooseByStatistics(stats: Statistics, fallback: Move)
      modifies this`move
      ensures move == Some(ChoiceAsWritten(stats.log.moveLog, fallback))
    {
      var rock := stats.HumanRockAverage();
      var paper := stats.HumanPaperAverage();
      var scissors := stats.HumanScissorsAverage();
      move := Some(Decide(rock, paper, scissors, fallback));
    }

    /** Computer#choose with the scissors average taken from the scissors count, as evidently intended. */
    method ChooseByCorrectedStatistics(stats: Statistics, fallback: Move)
      modifies this`move
      ensures move == Some(ChoiceCorrected(stats.log.moveLog, fallback))
    {
      var rock := stats.HumanRockAverage();
      var paper := stats.HumanPaperAverage();
      var scissors := stats.CorrectedScissorsAverage();
      move := Some(Decide(rock, paper, scissors, fallback));
    }
  }

  /** The per-game counters and the session's round count. */
  class ScoreKeeper {
    var roundsThisGame: nat
    var tiedRoundsThisGame: nat
    var totalRounds: nat

    constructor ()
      ensures roundsThisGame == 0 && tiedRoundsThisGame == 0 && totalRounds == 0
    {
      roundsThisGame := 0;
      tiedRoundsThisGame := 0;
      totalRounds := 0;
    }

    /** The two scores and the ties account for the rounds of this game, which are among the session's rounds. */
    ghost predicate Balanced(human: Player, computer: Player)
      reads this, human, computer
    {
      human.score + computer.score + tiedRoundsThisGame == roundsThisGame <= totalRounds
    }

    /**
      ScoreKeeper#tally_score: exactly one of the human's score, the computer's
      score and the ties goes up by one, as the moves decide; both round
      counters go up by one.
     */
    method TallyScore(human: Player, computer: Player)
      requires human != computer
      requires human.move.Some? && computer.move.Some?
      modifies this, human`score, computer`score
      ensures var h, c := human.move.value, computer.move.value;
        && human.score == old(human.score) + (if Beats(h, c) then 1 else 0)
        && computer.score == old(computer.score) + (if Beats(c, h) then 1 else 0)
        && tiedRoundsThisGame == old(tiedRoundsThisGame) + (if h == c then 1 else 0)
      ensures roundsThisGame == old(roundsThisGame) + 1
      ensures totalRounds == old(totalRounds) + 1
      ensures old(Balanced(human, computer)) ==> Balanced(human, computer)
    {
      Trichotomy(human.move.value, computer.move.value);
      LosesToIsConverse(human.move.value, computer.move.value);
      if Beats(human.move.value, computer.move.value) {
        human.IncreaseScore();
      } else if LosesTo(human.move.value, computer.move.value) {
        computer.IncreaseScore();
      } else {
        tiedRoundsThisGame := tiedRoundsThisGame + 1;
      }
      roundsThisGame := roundsThisGame + 1;
      totalRounds := totalRounds + 1;
    }

    /** ScoreKeeper#reset_scores: the game's counters and both scores go to zero; the session count stays. */
    method ResetScores(human: Player, computer: Player)
      modifies this, human`score, computer`score
      ensures human.score == 0 && computer.score == 0
      ensures tiedRoundsThisGame == 0 && roundsThisGame == 0
      ensures totalRounds == old(totalRounds)
      ensures Balanced(human, computer)
    {
      human.score := 0;
      computer.score := 0;
      tiedRoundsThisGame := 0;
      roundsThisGame := 0;
    }
  }

  /** Logger: the move log of the whole session. */
  class Logger {
    var moveLog: MoveLog

    constructor ()
      ensures moveLog == map[]
    {
      moveLog := map[];
    }

    /** Logger#log_moves: writes both moves under the session's round count, replacing any entry already there. */
    method LogMoves(score: ScoreKeeper, human: Player, computer: Player)
      requires human.move.Some? && computer.move.Some?
      modifies this
      ensures moveLog == old(moveLog)[score.totalRounds := (human.move.value, computer.move.value)]
    {
      moveLog := moveLog[score.totalRounds := (human.move.value, computer.move.value)];
    }
  }

  /** Statistics over the logger's hash, which it shares rather than copies. */
  class Statistics {
    const log: Logger

    constructor (log: Logger)
      ensures this.log == log
    {
      this.log := log;
    }

    /**
      The loop the three count methods share: walk the log's entries and
      collect the human moves equal to `target`; the answer is how many there are.
     */
    method HumanMoveCount(target: Move) returns (n: nat)
      ensures n == HumanCount(log.moveLog, target)
    {
      var entries := log.moveLog;
      var found: seq<Move> := [];
      var rest := entries.Keys;
      ghost var seen: set<nat> := {};
      while rest != {}
        invariant rest !! seen && rest + seen == entries.Keys
        invariant |found| == |KeysWith(entries, seen, target)|
        invariant forall i :: 0 <= i < |found| ==> found[i] == target
        decreases rest
      {
        var k :| k in rest;
        KeysWithAddOne(entries, seen, k, target);
        if entries[k].0 == target {
          found := found + [entries[k].0];
        }
        rest := rest - {k};
        seen := seen + {k};
      }
      assert seen == entries.Keys;
      assert KeysWith(entries, seen, target) == KeysWith(log.moveLog, log.moveLog.Keys, target);
      n := |found|;
    }

    /** Statistics#human_rock_count */
    method HumanRockCount() returns (n: nat)
      ensures n == HumanCount(log.moveLog, Rock)
    {
      n := HumanMoveCount(Rock);
    }

    /** Statistics#human_paper_count */
    method HumanPaperCount() returns (n: nat)
      ensures n == HumanCount(log.moveLog, Paper)
    {
      n := HumanMoveCount(Paper);
    }

    /** Statistics#human_scissors_count */
    method HumanScissorsCount() returns (n: nat)
      ensures n == HumanCount(log.moveLog, Scissors)
    {
      n := HumanMoveCount(Scissors);
    }

    /** `count / size.to_f`: NaN for the empty log (0 / 0.0), else the share of the size that the count is. */
    static method Average(count: nat, size: nat) returns (a: Avg)
      requires count <= size
      ensures a.NaN? <==> size == 0
      ensures a.Real? ==> 0.0 <= a.value <= 1.0 && a.value * size as real == count as real
    {
      if size == 0 {
        a := NaN;
      } else {
        a := Real(count as real / size as real);
      }
    }

    /** Statistics#human_rock_average */
    method HumanRockAverage() returns (a: Avg)
      ensures a == Frequency(log.moveLog, Rock)
    {
      var n := HumanRockCount();
      CountAtMostSize(log.moveLog, Rock);
      a := Average(n, |log.moveLog|);
    }

    /** Statistics#human_paper_average */
    method HumanPaperAverage() returns (a: Avg)
      ensures a == Frequency(log.moveLog, Paper)
    {
      var n := HumanPaperCount();
      CountAtMostSize(log.moveLog, Paper);
      a := Average(n, |log.moveLog|);
    }

    /** Statistics#human_scissors_average as written: it divides the paper count. */
    method HumanScissorsAverage() returns (a: Avg)
      ensures a == Frequency(log.moveLog, Paper)
    {
      var n := HumanPaperCount();
      CountAtMostSize(log.moveLog, Paper);
      a := Average(n, |log.moveLog|);
    }

    /** The scissors average as evidently intended: it divides the scissors count. */
    method CorrectedScissorsAverage() returns (a: Avg)
      ensures a == Frequency(log.moveLog, Scissors)
    {
      var n := HumanScissorsCount();
      CountAtMostSize(log.moveLog, Scissors);
      a := Average(n, |log.moveLog|);
    }
  }

  /** The side display_game_winner names. */
  datatype Side = HumanSide | ComputerSide

  /** display_game_winner without the message: the human if their score reached the threshold, else the computer. */
  function GameWinner(humanScore: nat): Side {
    if humanScore >= RoundsToWin then HumanSide else ComputerSide
  }

  /** When one side has exactly reached the threshold and the other has not, GameWinner names the side that reached it. */
  lemma GameWinnerNamesThresholdSide(humanScore: nat, computerScore: nat)
    requires (humanScore == RoundsToWin && computerScore < RoundsToWin)
          || (computerScore == RoundsToWin && humanScore < RoundsToWin)
    ensures GameWinner(humanScore) == HumanSide <==> humanScore == RoundsToWin
    ensures GameWinner(humanScore) == ComputerSide <==> computerScore == RoundsToWin
  {
  }

  /**
    The session's rounds after playing `inputs` on from `rs`: each input is the
    human's validated move and the move the random pick would give; the
    computer answers with its rules over the log of the rounds so far.
   */
  ghost function Extend(rs: seq<Round>, inputs: seq<(Move, Move)>): (out: seq<Round>)
    ensures |out| == |rs| + |inputs|
    ensures out[..|rs|] == rs
    ensures forall i :: 0 <= i < |inputs| ==> out[|rs| + i].0 == inputs[i].0
    decreases |inputs|
  {
    if inputs == [] then rs
    else
      var prev := Extend(rs, inputs[..|inputs| - 1]);
      var last := inputs[|inputs| - 1];
      prev + [(last.0, ChoiceAsWritten(LogOf(prev), last.1))]
  }

  /** One more round played from the inputs extends the session's rounds by Extend's next step. */
  lemma ExtendStep(rs: seq<Round>, inputs: seq<(Move, Move)>, n: nat, before: seq<Round>, r: Round)
    requires n < |inputs|
    requires before == Extend(rs, inputs[..n])
    requires r == (inputs[n].0, ChoiceAsWritten(LogOf(before), inputs[n].1))
    ensures before + [r] == Extend(rs, inputs[..n + 1])
  {
    assert inputs[..n + 1][..n] == inputs[..n];
  }

  /** A round added to the session is added to the current game, and to exactly the tally of its outcome. */
  lemma GameAppend(rs: seq<Round>, start: nat, r: Round)
    requires start <= |rs|
    ensures (rs + [r])[start..] == rs[start..] + [r]
    ensures forall w :: Tally((rs + [r])[start..], w) == Tally(rs[start..], w) + (if Winner(r) == w then 1 else 0)
  {
    assert (rs + [r])[start..] == rs[start..] + [r];
    forall w
      ensures Tally((rs + [r])[start..], w) == Tally(rs[start..], w) + (if Winner(r) == w then 1 else 0)
    {
      TallyAppend(rs[start..], r, w);
    }
  }

  /** A game (the rounds since its start) is over once either side has won ROUNDS_TO_WIN rounds: the break test of RpsGame#play_round. */
  ghost predicate GameOver(game: seq<Round>) {
    Tally(game, HumanWon) >= RoundsToWin || Tally(game, ComputerWon) >= RoundsToWin
  }

  /**
    Playing `inputs` on from the session rounds `rs`, in a game begun at index
    `start`, the game was not yet over after any of the first `n` prefixes:
    after 0, 1, ..., n - 1 rounds the loop had no reason to stop.
   */
  ghost predicate NotOverBefore(rs: seq<Round>, start: nat, inputs: seq<(Move, Move)>, n: nat) {
    && n <= |inputs|
    && start <= |rs|
    && forall j | 0 <= j < n :: !GameOver(Extend(rs, inputs[..j])[start..])
  }

  /** One more round was played because the game was not over before it. */
  lemma NotOverBeforeStep(rs: seq<Round>, start: nat, inputs: seq<(Move, Move)>, n: nat)
    requires NotOverBefore(rs, start, inputs, n)
    requires n < |inputs|
    requires !GameOver(Extend(rs, inputs[..n])[start..])
    ensures NotOverBefore(rs, start, inputs, n + 1)
  {
  }

  /** RpsGame: the two players, the score keeper, the logger and the statistics over its log. */
  class RpsGame {
    const human: Player
    const computer: Player
    const score: ScoreKeeper
    const logger: Logger
    const stats: Statistics

    /** Every round of the session, in the order played. */
    ghost var rounds: seq<Round>
    /** Where in `rounds` the current game began. */
    ghost var gameStart: nat

    ghost predicate Valid()
      reads this, human, computer, score, logger
    {
      && human != computer
      && stats.log == logger
      && gameStart <= |rounds|
      && score.totalRounds == |rounds|
      && score.roundsThisGame == |rounds| - gameStart
      && human.score == Tally(rounds[gameStart..], HumanWon)
      && computer.score == Tally(rounds[gameStart..], ComputerWon)
      && score.tiedRoundsThisGame == Tally(rounds[gameStart..], Tie)
      && logger.moveLog == LogOf(rounds)
    }

    constructor ()
      ensures Valid()
      ensures rounds == [] && gameStart == 0
      ensures human.score == 0 && computer.score == 0
    {
      var h := new Player();
      var c := new Player();
      var lg := new Logger();
      human := h;
      computer := c;
      score := new ScoreKeeper();
      logger := lg;
      stats := new Statistics(lg);
      rounds := [];
      gameStart := 0;
    }

    /** The score keeper's invariant follows from the game's: the scores and ties sum to the game's rounds. */
    lemma ScoresBalanced()
      requires Valid()
      ensures score.Balanced(human, computer)
    {
      TallyPartition(rounds[gameStart..]);
    }

    /** The log has exactly the keys 1 to total_rounds, and entry k holds the moves of round k. */
    lemma LogMatchesRounds()
      requires Valid()
      ensures |logger.moveLog| == score.totalRounds
      ensures forall k :: k in logger.moveLog <==> 1 <= k <= score.totalRounds
      ensures forall k :: 1 <= k <= score.totalRounds ==> logger.moveLog[k] == rounds[k - 1]
    {
      LogOfSize(rounds);
      forall k | 1 <= k <= score.totalRounds
        ensures logger.moveLog[k] == rounds[k - 1]
      {
        LogOfEntry(rounds, k);
      }
    }

    /** RpsGame#make_moves: the human's validated move, then the computer's choice over the log so far. */
    method MakeMoves(choice: Move, fallback: Move)
      requires Valid()
      modifies human`move, computer`move
      ensures Valid()
      ensures human.move == Some(choice)
      ensures computer.move == Some(ChoiceAsWritten(LogOf(rounds), fallback))
    {
      human.ChooseGiven(choice);
      computer.ChooseByStatistics(stats, fallback);
    }

    /** RpsGame#declare_round without the messages: tally the round, then log it under the new round count. */
    method DeclareRound()
      requires Valid()
      requires human.move.Some? && computer.move.Some?
      modifies this, score, human`score, computer`score, logger
      ensures Valid()
      ensures gameStart == old(gameStart)
      ensures rounds == old(rounds) + [(human.move.value, computer.move.value)]
      ensures var w := Winner((human.move.value, computer.move.value));
        && human.score == old(human.score) + (if w == HumanWon then 1 else 0)
        && computer.score == old(computer.score) + (if w == ComputerWon then 1 else 0)
    {
      var r := (human.move.value, computer.move.value);
      WinnerFollowsBeats(r);
      GameAppend(rounds, gameStart, r);
      LogOfAppend(rounds, r);
      score.TallyScore(human, computer);
      logger.LogMoves(score, human, computer);
      rounds := rounds + [r];
    }

    /**
      RpsGame#play_round: rounds until either score reaches ROUNDS_TO_WIN, one
      round per input, stopping after the first round that ends the game. When
      the inputs run out first, `finished` is false. Scores start below the
      threshold and rise by at most one per round, so a finished game has
      exactly one side at the threshold.
     */
    method PlayRound(inputs: seq<(Move, Move)>) returns (played: nat, finished: bool)
      requires Valid()
      requires human.score < RoundsToWin && computer.score < RoundsToWin
      modifies this, score, human, computer, logger
      ensures Valid()
      ensures gameStart == old(gameStart)
      ensures played <= |inputs|
      ensures rounds == Extend(old(rounds), inputs[..played])
      ensures finished <==> human.score >= RoundsToWin || computer.score >= RoundsToWin
      ensures !finished ==> played == |inputs|
      ensures finished ==>
        || (human.score == RoundsToWin && computer.score < RoundsToWin)
        || (computer.score == RoundsToWin && human.score < RoundsToWin)
      ensures finished <==> GameOver(rounds[gameStart..])
      ensures NotOverBefore(old(rounds), old(gameStart), inputs, played)
    {
      ghost var r0, g0 := rounds, gameStart;
      played, finished := 0, false;
      while !finished && played < |inputs|
        invariant Valid()
        invariant gameStart == old(gameStart)
        invariant played <= |inputs|
        invariant rounds == Extend(old(rounds), inputs[..played])
        invariant finished <==> human.score >= RoundsToWin || computer.score >= RoundsToWin
        invariant human.score <= RoundsToWin && computer.score <= RoundsToWin
        invariant !(human.score == RoundsToWin && computer.score == RoundsToWin)
        invariant NotOverBefore(r0, g0, inputs, played)
        decreases |inputs| - played
      {
        assert !GameOver(Extend(r0, inputs[..played])[g0..]);
        NotOverBeforeStep(r0, g0, inputs, played);
        ghost var before := rounds;
        MakeMoves(inputs[played].0, inputs[played].1);
        DeclareRound();
        ExtendStep(r0, inputs, played, before, rounds[|before|]);
        played := played + 1;
        finished := human.score >= RoundsToWin || computer.score >= RoundsToWin;
      }
    }

    /** The call to ScoreKeeper#reset_scores in RpsGame#start: a new game begins after the rounds played so far. */
    method ResetScores()
      requires Valid()
      modifies this, score, human`score, computer`score
      ensures Valid()
      ensures rounds == old(rounds) && gameStart == |rounds|
      ensures human.score == 0 && computer.score == 0
      ensures score.roundsThisGame == 0 && score.tiedRoundsThisGame == 0
      ensures score.totalRounds == old(score.totalRounds)
    {
      score.ResetScores(human, computer);
      gameStart := |rounds|;
      assert rounds[gameStart..] == [];
    }

    /**
      One pass of the replay loop in RpsGame#start: play the game, and once it
      is won reset the scores for the next one. The winner is the side
      display_game_winner would name. The log and the session count survive.
     */
    method PlayGame(inputs: seq<(Move, Move)>) returns (played: nat, winner: Option<Side>)
      requires Valid()
      requires human.score < RoundsToWin && computer.score < RoundsToWin
      modifies this, score, human, computer, logger
      ensures Valid()
      ensures played <= |inputs|
      ensures rounds == Extend(old(rounds), inputs[..played])
      ensures NotOverBefore(old(rounds), old(gameStart), inputs, played)
      ensures winner.Some? <==> GameOver(rounds[old(gameStart)..])
      ensures winner == Some(HumanSide) ==>
        Tally(rounds[old(gameStart)..], HumanWon) == RoundsToWin && Tally(rounds[old(gameStart)..], ComputerWon) < RoundsToWin
      ensures winner == Some(ComputerSide) ==>
        Tally(rounds[old(gameStart)..], ComputerWon) == RoundsToWin && Tally(rounds[old(gameStart)..], HumanWon) < RoundsToWin
      ensures winner.Some? ==> gameStart == |rounds| && human.score == 0 && computer.score == 0
      ensures winner.None? ==> gameStart == old(gameStart) && played == |inputs|
      ensures winner.None? ==> human.score < RoundsToWin && computer.score < RoundsToWin
    {
      ghost var g0 := gameStart;
      var finished;
      played, finished := PlayRound(inputs);
      ghost var game := rounds[g0..];
      assert human.score == Tally(game, HumanWon) && computer.score == Tally(game, ComputerWon);
      if finished {
        GameWinnerNamesThresholdSide(human.score, computer.score);
        winner := Some(GameWinner(human.score));
        ResetScores();
      } else {
        winner := None;
      }
    }
  }
}
