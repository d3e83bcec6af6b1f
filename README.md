# Rock-Paper-Scissors round engine, modelled in Dafny

This project models the game engine of `oo_rps_game.rb`, an object-oriented Rock-Paper-Scissors game played by a
human against a computer:

- **Moves.** A move is rock, paper or scissors. The `>` ("beats") and `<` ("loses to") relations follow the cycle
  rock, scissors, paper, rock.
- **ScoreKeeper.** It tallies each round into the human's score, the computer's score or the ties. It also counts
  the rounds of the current game and of the whole session.
- **Logger.** It keeps a hash from round number to the two moves of that round.
- **Statistics.** It reads that hash. It counts the human's rock, paper and scissors throws and divides each count
  by the size of the log.
- **Computer.** It picks a counter-move by three rules over those averages, in a fixed order. When no rule fires,
  it picks at random.
- **RpsGame.** It plays rounds until one side has won `ROUNDS_TO_WIN` = 3 of them. It then resets the per-game
  counters. The log and the session's round count carry over to the next game.

Files:

- `wrappers.dfy` (`Option`).
- `moves.dfy`: module `Moves`.
- `rounds.dfy`: module `Rounds`. It holds the outcome of a round, the tallies over a sequence of rounds, and the
  log built from them.
- `frequencies.dfy`: module `Frequencies`. It holds the counts and the averages.
- `strategy.dfy`: module `Strategy`. It holds the decision rules.
- `game.dfy`: module `Game`, with the classes `Player`, `ScoreKeeper`, `Logger`, `Statistics` and `RpsGame`. These
  classes refer to each other, as they do in the program, so they share one module.

The imperative parts are classes whose methods change fields, as in the program:

- the scores and counters;
- the log, which is a `map` field that `LogMoves` updates;
- the count methods, whose loops walk the log and collect matching moves into a local sequence;
- the round loop.

Their contracts tie the new state to the old. `RpsGame.Valid()` ties the live objects to a ghost record of every
round played (`rounds`) and to where the current game began (`gameStart`). Under that invariant:

- each score equals the tally of this game's rounds;
- the log equals `LogOf(rounds)`;
- the session's round count equals `|rounds|`.

`Statistics` keeps a reference to the `Logger` rather than a copy of its hash. The program passes the hash object
itself, mutates it in place and never reassigns it, so each average reads the latest log.

Averages are exact rationals (`real`), not floats. An average can only be p/q, with q the number of logged rounds.
Unless such a fraction equals 0.33 exactly, it lies at least 1/(100q) away from 0.33. The value 0.5 is exact in
binary. For any log of fewer than 10^14 rounds, that gap is wider than the rounding of the program's doubles, so
every comparison the rules make has the same outcome as in the program. For longer logs the outcomes can differ;
this is listed under "Left out". On the empty log the program divides 0 by 0.0 and gets NaN, which no comparison
accepts. Here that is `Avg.NaN`, for which `Above` and `Below` are false, so the fallback is taken.

The two inputs that the program reads from the terminal or draws at random are parameters:

- the human's validated move;
- the move `Move::VALUES.sample` would return.

The round loop takes them as a sequence of pairs, one pair per round.

Consequences of the code worth stating:

- **Three-round example.** A human throwing rock, paper, rock against scissors, scissors, paper ends human 1,
  computer 2, with no tie, because scissors beats paper and paper beats rock (`Rounds.ThreeRoundScenario`).
- **Empty log.** Every average is NaN (`0 / 0.0`), so no rule fires and the random pick is thrown
  (`Strategy.EmptyLogFallsBack`).
- **Rule overlap.** Rules 1 and 2 can both hold, for example with rock 0.4, paper 0.4, scissors 0.2. The order of
  the rules then picks paper (`Strategy.RulesOverlapPriorityDecides`).
- **Trailing assignments.** The `&& self.move = ...` tail of each condition is where the move is assigned. It is
  always truthy, and it runs only when the rest of its condition has held, so it commits exactly the move of the
  branch taken.
- **display_game_winner.** It is never called by `start`. Its choice is modelled as `Game.GameWinner`, and
  `Game.RpsGame.PlayGame` returns the winner it would name.

## Model

| member | source | states |
|---|---|---|
| `Moves.FromValue` | oo_rps_game.rb:134-142 | an answer yields a move exactly when it is one of the value strings, and then the move whose value it is; otherwise there is no move for it |
| `Moves.FromValueOfValue` | oo_rps_game.rb:71-77 | every move's value string is accepted and gives the same move back, and every move is in `Move::VALUES` |
| `Moves.BeatsIsPrey` | oo_rps_game.rb:91-95 | `a > b` holds exactly when `b` is the move `a` defeats in the rock, scissors, paper cycle |
| `Moves.PreyIsThreeCycle` | oo_rps_game.rb:91-95 | the "defeats" step is a three-cycle with no fixed point |
| `Moves.LosesToIsConverse` | oo_rps_game.rb:91-101 | `a < b` holds exactly when `b > a` |
| `Moves.Trichotomy` | oo_rps_game.rb:91-101 | for every pair exactly one of `a > b`, `a < b`, `a == b` holds; `a > a` and `a < a` are false |
| `Moves.BeatsNotTransitive` | oo_rps_game.rb:91-101 | rock beats scissors and scissors beats paper, yet rock loses to paper |
| `Rounds.WinnerFollowsBeats` | oo_rps_game.rb:181-188 | the round goes to the human iff their move beats the computer's, to the computer iff its move beats the human's, and is tied iff the moves are equal |
| `Rounds.Tally` | oo_rps_game.rb:181-189 | no outcome is counted more often than there are rounds |
| `Rounds.TallyAppend` | oo_rps_game.rb:181-189 | one more round raises exactly the tally of its own outcome by one |
| `Rounds.TallyPartition` | oo_rps_game.rb:181-191 | human wins plus computer wins plus ties equal the number of rounds |
| `Rounds.ThreeRoundScenario` | oo_rps_game.rb:181-191 | rock/scissors, paper/scissors, rock/paper end human 1, computer 2, ties 0 over 3 rounds |
| `Rounds.LogOfAppend` | oo_rps_game.rb:9-11 | logging round n+1 sets that one key and leaves every other entry as it was |
| `Rounds.LogOfSize` | oo_rps_game.rb:267-273 | after n rounds logged in order, the log's keys are exactly 1..n and its size is n |
| `Rounds.LogOfEntry` | oo_rps_game.rb:9-11 | entry k of the log holds the human and computer moves of round k |
| `Frequencies.CountsPartitionLog` | oo_rps_game.rb:33-55 | the rock, paper and scissors counts add up to the size of the log |
| `Frequencies.CountAtMostSize` | oo_rps_game.rb:33-55 | no count exceeds the size of the log |
| `Frequencies.Frequency` | oo_rps_game.rb:57-63 | an average is NaN exactly for the empty log, and otherwise lies in [0, 1] |
| `Frequencies.FrequenciesSumToOne` | oo_rps_game.rb:57-67 | on a non-empty log the rock, paper and scissors frequencies add up to 1 |
| `Frequencies.RockRockPaperFrequencies` | oo_rps_game.rb:33-63 | a human who threw rock, rock, paper has frequencies 2/3, 1/3 and 0 |
| `Strategy.DecideCountersLean` | oo_rps_game.rb:151-167 | whenever a rule fires, the chosen move beats a move the human plays more than 33% of the time; otherwise the random pick is thrown |
| `Strategy.RockLeanPicksPaper` | oo_rps_game.rb:152-155 | averages 0.5, 0.3, 0.2 make rule 1 choose paper, whatever the random pick |
| `Strategy.RulesOverlapPriorityDecides` | oo_rps_game.rb:151-159 | rules 1 and 2 can both hold; the rule order then chooses paper |
| `Strategy.AsWrittenRockRuleUnreachable` | oo_rps_game.rb:151-167 | with the scissors average taken from the paper count, the choice is paper (rule 1), scissors (rule 2) or the random pick; rock is chosen only when the random pick is rock |
| `Strategy.EmptyLogFallsBack` | oo_rps_game.rb:151-167 | on the empty log the computer throws the random pick |
| `Strategy.SingleMoveFrequencies` | oo_rps_game.rb:57-63 | when the human has played only one move, its frequency is 1 and the others' are 0 |
| `Strategy.AsWrittenCountersRockOnly` | oo_rps_game.rb:151-155 | a human who has played only rock is answered with paper |
| `Strategy.AsWrittenIgnoresPaperOrScissorsOnly` | oo_rps_game.rb:151-167 | as written, a human who has played only paper, or only scissors, gets the random pick: no rule fires |
| `Strategy.AsWrittenLosesToScissorsOnly` | oo_rps_game.rb:65-67 | after one round of human scissors, the program throws its random pick, and with paper it loses |
| `Strategy.CorrectedCountersSingleMove` | oo_rps_game.rb:151-167 | with the scissors count in the scissors average, a human who has played only one move is always beaten |
| `Game.Player.constructor` | oo_rps_game.rb:111-114 | a new player has no move and score 0 |
| `Game.Player.IncreaseScore` | oo_rps_game.rb:116-118 | the score goes up by one and nothing else changes |
| `Game.Player.ChooseAnswer` | oo_rps_game.rb:136-141 | one pass of the prompt loop: an answer is accepted exactly when it is a move's value, and then that move becomes the player's move; otherwise the move is unchanged |
| `Game.Player.ChooseGiven` | oo_rps_game.rb:134-143 | the human's move becomes the validated choice; the score is untouched |
| `Game.Player.ChooseByStatistics` | oo_rps_game.rb:151-167 | the computer's move becomes the rule choice over the current log's averages, as the program computes them |
| `Game.Player.ChooseByCorrectedStatistics` | oo_rps_game.rb:151-167 | as intended: the computer's move becomes the rule choice with the true scissors frequency (`Strategy.ChoiceCorrected`) |
| `Game.ScoreKeeper.constructor` | oo_rps_game.rb:175-179 | all three counters start at 0 |
| `Game.ScoreKeeper.TallyScore` | oo_rps_game.rb:181-191 | exactly one of human score, computer score and ties rises by one, as `>`/`<` decide; both round counters rise by one; the balance of scores, ties and rounds is kept |
| `Game.ScoreKeeper.ResetScores` | oo_rps_game.rb:202-207 | both scores, the ties and the game's rounds become 0; the session's rounds are unchanged; the balance holds |
| `Game.Logger.constructor` | oo_rps_game.rb:5-7 | the log starts empty |
| `Game.Logger.LogMoves` | oo_rps_game.rb:9-11 | the log gains or overwrites the entry under the current total round count with both moves; no other entry changes |
| `Game.Statistics.constructor` | oo_rps_game.rb:29-31 | the statistics read the logger's own log |
| `Game.Statistics.HumanMoveCount` | oo_rps_game.rb:33-55 | the loop over the log returns the number of rounds in which the human threw the target move |
| `Game.Statistics.HumanRockCount` | oo_rps_game.rb:33-39 | the number of logged rounds in which the human threw rock |
| `Game.Statistics.HumanPaperCount` | oo_rps_game.rb:41-47 | the number of logged rounds in which the human threw paper |
| `Game.Statistics.HumanScissorsCount` | oo_rps_game.rb:49-55 | the number of logged rounds in which the human threw scissors |
| `Game.Statistics.Average` | oo_rps_game.rb:57-67 | NaN exactly for an empty log; otherwise a value in [0, 1] that times the size gives the count |
| `Game.Statistics.HumanRockAverage` | oo_rps_game.rb:57-59 | the rock frequency of the current log (NaN when it is empty) |
| `Game.Statistics.HumanPaperAverage` | oo_rps_game.rb:61-63 | the paper frequency of the current log (NaN when it is empty) |
| `Game.Statistics.HumanScissorsAverage` | oo_rps_game.rb:65-67 | as written: the paper frequency, not the scissors frequency |
| `Game.Statistics.CorrectedScissorsAverage` | oo_rps_game.rb:65-67 | as intended: the scissors frequency of the current log |
| `Game.GameWinnerNamesThresholdSide` | oo_rps_game.rb:245-251 | when one side has exactly 3 wins and the other fewer, the side named is the one with 3 |
| `Game.Extend` | oo_rps_game.rb:253-265 | playing n inputs appends n rounds, keeps earlier rounds, and each new round's human move is that input's move |
| `Game.RpsGame.constructor` | oo_rps_game.rb:213-219 | a new game is consistent: no rounds, both scores 0, empty log, and the statistics share the logger |
| `Game.RpsGame.ScoresBalanced` | oo_rps_game.rb:175-207 | the human score, the computer score and the ties add up to the game's rounds, which never exceed the session's rounds |
| `Game.RpsGame.LogMatchesRounds` | oo_rps_game.rb:267-273 | the log has exactly the keys 1..total_rounds, so its size is total_rounds, and entry k holds round k's moves |
| `Game.RpsGame.MakeMoves` | oo_rps_game.rb:262-265 | the human's move is the input and the computer's is the rule choice over the log so far; scores and log are untouched |
| `Game.RpsGame.DeclareRound` | oo_rps_game.rb:267-273 | the round is tallied and then logged under the new round number; the consistency invariant is kept; each score rises by one exactly when that side won the round |
| `Game.RpsGame.PlayRound` | oo_rps_game.rb:253-260 | rounds follow the inputs and the computer's rules; the game was not over after any earlier round, so the loop stops at the first round in which a score reaches 3, and then one side has 3 and the other fewer; `finished` is false only when the inputs ran out first |
| `Game.RpsGame.ResetScores` | oo_rps_game.rb:291-292 | a new game begins: scores and per-game counters are 0, while the rounds, the log and total_rounds are kept |
| `Game.RpsGame.PlayGame` | oo_rps_game.rb:290-292 | a game is played up to the first round that ends it; a winner is named exactly when the game is over, the winner tallied exactly 3 wins and the loser fewer, and the scores are reset for the next game; with no winner, all inputs were played and both scores are still below 3; the log survives |

## Findings

| source | as written | input that shows it | evidently intended | confidence | as-written member | corrected member |
|---|---|---|---|---|---|---|
| oo_rps_game.rb:65-67 | `human_scissors_average` divides `human_paper_count`, so rule 3 (answer a scissors lean with rock) can never fire, and a paper-heavy human fails rule 2's "scissors below 0.5" bound | a log whose only round has the human throwing scissors: every rule fails and the computer throws its random pick (with paper it loses) | divide `human_scissors_count`, so that a human who leans to one move is countered | high; not executed | `Strategy.AsWrittenIgnoresPaperOrScissorsOnly` | `Strategy.CorrectedCountersSingleMove` |

Both halves appear in the project:

- `Game.Statistics.HumanScissorsAverage` and `Strategy.ChoiceAsWritten` are the code as written.
- `Game.Statistics.CorrectedScissorsAverage`, `Strategy.ChoiceCorrected` and `Game.Player.ChooseByCorrectedStatistics`
  are the corrected versions; the last computes the corrected choice from the corrected average.

`Game.RpsGame` keeps the program's own choice. Its proved properties hold whatever move the computer throws:

- the score balance;
- the log's keys and entries;
- termination of a game with exactly one side at 3.

## Left out

- Terminal I/O is not modelled. No prompt, message, screen clearing or formatted display appears: the `display_*`
  methods, `Logger#display_log` and `ScoreKeeper#display_score`.
- `Human#set_name`, `Computer#set_name` and the players' names are not modelled. Names are cosmetic.
- The re-prompt loop of `Human#choose` is not modelled as a loop, and its `downcase` of the answer is not modelled.
  One pass of the loop is `Game.Player.ChooseAnswer`, which validates the answer with `Moves.FromValue`; the round
  loop receives the validated move.
- `RpsGame#play_again?` and the unbounded replay loop of `RpsGame#start` are not modelled. User input drives them.
  One pass of its body is `Game.RpsGame.PlayGame`.
- `Array#sample` is not modelled. The randomly picked move is a parameter (`fallback`).
- Floating-point division is not modelled. The averages are exact reals. For logs of 10^14 rounds or more, a
  quotient closer to 0.33 than the double rounding can compare differently in the program. The model does not
  capture that.
- Move objects built from strings other than the three values are not modelled. Only validated input and
  `Move::VALUES` reach `Move.new`, so a move is a three-valued datatype.
- Game.RpsGame.PlayRound: the program prompts forever until a score reaches 3. The model plays one round per input
  it is given. It reports `finished = false` when the inputs run out first.
- Game.Statistics.Average: requires the count to be at most the size, which `Frequencies.CountAtMostSize` proves
  for every count. The program's Infinity for a positive count over an empty log therefore never arises and is not
  modelled.
- The values returned by `choose`, `increase_score` and `tally_score` are not modelled. The program never uses them.
