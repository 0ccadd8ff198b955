/** The score and attempt counter of one game (`GameStatus.js`). */
module Status {

  const DefaultScore := 0
  const DefaultChances := 3

  /** The value `decrementChances` leaves in `chancesLeft`: one less while it is
      positive, otherwise unchanged. */
  function FlooredDecrement(c: int): (r: int)
    ensures 0 <= c ==> 0 <= r
    ensures 0 < c ==> r == c - 1
    ensures c <= 0 ==> r == c
  {
    if c > 0 then c - 1 else c
  }

  /** Decrementing `k` times from a non-negative `c` gives `max(c - k, 0)`: the
      counter stops at zero and stays there. */
  lemma {:induction false} RepeatedDecrement(c: int, k: nat)
    requires 0 <= c
    ensures DecrementTimes(c, k) == if c - k < 0 then 0 else c - k
  {
    if k > 0 {
      RepeatedDecrement(FlooredDecrement(c), k - 1);
    }
  }

  /** `k` calls of `decrementChances` in a row, starting from `c`. */
  function DecrementTimes(c: int, k: nat): int
  {
    if k == 0 then c else DecrementTimes(FlooredDecrement(c), k - 1)
  }

  /** The mutable score/attempts holder. Neither field has a range guard: only
      `decrementChances` refuses to go below zero, and `score` has no floor. */
  class GameStatus {
    var score: int
    var chancesLeft: int

    /** `new GameStatus(initialScore, initialChances)`. */
    constructor (initialScore: int, initialChances: int)
      ensures score == initialScore && chancesLeft == initialChances
    {
      score := initialScore;
      chancesLeft := initialChances;
    }

    /** `new GameStatus()`: the default arguments 0 and 3. */
    constructor WithDefaults()
      ensures score == DefaultScore && chancesLeft == DefaultChances
    {
      score := DefaultScore;
      chancesLeft := DefaultChances;
    }

    method GetScore() returns (s: int)
      ensures s == score
    {
      s := score;
    }

    method SetScore(newScore: int)
      modifies this`score
      ensures score == newScore && chancesLeft == old(chancesLeft)
    {
      score := newScore;
    }

    method GetChancesLeft() returns (c: int)
      ensures c == chancesLeft
    {
      c := chancesLeft;
    }

    method SetChancesLeft(newChances: int)
      modifies this`chancesLeft
      ensures chancesLeft == newChances && score == old(score)
    {
      chancesLeft := newChances;
    }

    method DecrementChances()
      modifies this`chancesLeft
      ensures chancesLeft == FlooredDecrement(old(chancesLeft)) && score == old(score)
    {
      if chancesLeft > 0 {
        chancesLeft := chancesLeft - 1;
      }
    }

    method IncrementScore(value: int)
      modifies this`score
      ensures score == old(score) + value && chancesLeft == old(chancesLeft)
    {
      score := score + value;
    }

    method DecrementScore(value: int)
      modifies this`score
      ensures score == old(score) - value && chancesLeft == old(chancesLeft)
    {
      score := score - value;
    }
  }

  /** `incrementScore(v)` followed by `decrementScore(v)` gives back the score it
      started from and leaves the chances alone. */
  method IncrementThenDecrement(status: GameStatus, v: int)
    modifies status
    ensures status.score == old(status.score) && status.chancesLeft == old(status.chancesLeft)
  {
    status.IncrementScore(v);
    status.DecrementScore(v);
  }

  /** A fresh holder that loses 2 points four times and four chances ends with a
      negative score (there is no floor) and zero chances (there is one). */
  method NoScoreFloor() returns (score: int, chances: int)
    ensures score == -8 && chances == 0
  {
    var status := new GameStatus.WithDefaults();
    status.DecrementScore(2); status.DecrementChances();
    status.DecrementScore(2); status.DecrementChances();
    status.DecrementScore(2); status.DecrementChances();
    status.DecrementScore(2); status.DecrementChances();
    score := status.GetScore();
    chances := status.GetChancesLeft();
  }
}
