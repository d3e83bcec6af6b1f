/**
  What Statistics derives from the move log: how often the human threw each
  move, and that count divided by the size of the log. The program divides with
  floating point (`count / size.to_f`); here the quotient is an exact real, and
  the empty log gives NaN (0 / 0.0), which no comparison accepts.
 */
module Frequencies {
  import opened Moves
  import opened Rounds

  /** The round numbers, among `keys`, at which the human threw `m`. */
  function KeysWith(log: MoveLog, keys: set<nat>, m: Move): set<nat> {
    set k | k in keys && k in log && log[k].0 == m
  }

  /** Looking at one more round number adds it to the count exactly when the human threw `m` then. */
  lemma KeysWithAddOne(log: MoveLog, keys: set<nat>, k: nat, m: Move)
    requires k !in keys
    ensures |KeysWith(log, keys + {k}, m)| ==
      |KeysWith(log, keys, m)| + (if k in log && log[k].0 == m then 1 else 0)
  {
    if k in log && log[k].0 == m {
      assert KeysWith(log, keys + {k}, m) == KeysWith(log, keys, m) + {k};
    } else {
      assert KeysWith(log, keys + {k}, m) == KeysWith(log, keys, m);
    }
  }

  /** How many rounds of the log the human played `m` in (Statistics#human_rock_count and its siblings). */
  function HumanCount(log: MoveLog, m: Move): nat {
    |KeysWith(log, log.Keys, m)|
  }

  /** The human's rock, paper and scissors rounds split the log. */
  lemma CountsPartitionLog(log: MoveLog)
    ensures HumanCount(log, Rock) + HumanCount(log, Paper) + HumanCount(log, Scissors) == |log|
  {
    var r, p, s := KeysWith(log, log.Keys, Rock), KeysWith(log, log.Keys, Paper), KeysWith(log, log.Keys, Scissors);
    assert r * p == {} && (r + p) * s == {};
    assert r + p + s == log.Keys;
    assert |r + p| == |r| + |p|;
  }

  /** No count exceeds the size of the log. */
  lemma CountAtMostSize(log: MoveLog, m: Move)
    ensures HumanCount(log, m) <= |log|
  {
    CountsPartitionLog(log);
  }

  /** A float average: NaN, or an ordinary (here exact) number. */
  datatype Avg = NaN | Real(value: real)

  /** Float#>: NaN is greater than nothing. */
  predicate Above(a: Avg, t: real) {
    a.Real? && a.value > t
  }

  /** Float#<: NaN is less than nothing. */
  predicate Below(a: Avg, t: real) {
    a.Real? && a.value < t
  }

  /** The share of the log's rounds in which the human threw `m`: NaN for the empty log, else a number in [0, 1]. */
  function Frequency(log: MoveLog, m: Move): (a: Avg)
    ensures a.NaN? <==> |log| == 0
    ensures a.Real? ==> 0.0 <= a.value <= 1.0
  {
    if |log| == 0 then NaN
    else
      CountAtMostSize(log, m);
      var c, n := HumanCount(log, m) as real, |log| as real;
      assert c / n <= 1.0 by {
        assert c <= n;
      }
      Real(c / n)
  }

  /** On a non-empty log the three frequencies add up to one. */
  lemma FrequenciesSumToOne(log: MoveLog)
    requires |log| > 0
    ensures Frequency(log, Rock).value + Frequency(log, Paper).value + Frequency(log, Scissors).value == 1.0
  {
    CountsPartitionLog(log);
    var r, p, s, n := HumanCount(log, Rock) as real, HumanCount(log, Paper) as real, HumanCount(log, Scissors) as real, |log| as real;
    SharesAdd(r, p, n);
    SharesAdd(r + p, s, n);
    assert r + p + s == n;
    assert n / n == 1.0;
    assert Frequency(log, Rock).value == r / n;
    assert Frequency(log, Paper).value == p / n;
    assert Frequency(log, Scissors).value == s / n;
  }

  /** Shares of the same positive total add up: the real-division step of FrequenciesSumToOne. */
  lemma SharesAdd(a: real, b: real, n: real)
    requires n > 0.0
    ensures a / n + b / n == (a + b) / n
  {
  }

  /** A human who threw rock, rock, paper has frequencies 2/3, 1/3 and 0. */
  lemma RockRockPaperFrequencies(c1: Move, c2: Move, c3: Move)
    ensures var log := LogOf([(Rock, c1), (Rock, c2), (Paper, c3)]);
      && Frequency(log, Rock) == Real(2.0 / 3.0)
      && Frequency(log, Paper) == Real(1.0 / 3.0)
      && Frequency(log, Scissors) == Real(0.0)
  {
    var rs := [(Rock, c1), (Rock, c2), (Paper, c3)];
    var log := LogOf(rs);
    LogOfSize(rs);
    LogOfEntry(rs, 1);
    LogOfEntry(rs, 2);
    LogOfEntry(rs, 3);
    assert log.Keys == {1, 2, 3};
    assert KeysWith(log, log.Keys, Rock) == {1, 2};
    assert KeysWith(log, log.Keys, Paper) == {3};
    assert KeysWith(log, log.Keys, Scissors) == {};
  }
}
