/**
 * The scoring factors and the three per-game score formulas. Every call of
 * `Math.random()` is an injected `Draw`, a real in [0, 1); the clock is the
 * injected millisecond timestamp `now`. Reals are exact: the model does not
 * round like IEEE doubles.
 */
module Scoring {
  import opened Wrappers
  import opened Games

  /** Milliseconds in a day, `1000 * 60 * 60 * 24`. */
  const MsPerDay: int := 1000 * 60 * 60 * 24

  /** A value returned by `Math.random()`. */
  type Draw = u: real | 0.0 <= u < 1.0

  /** The three biased strategies, named after the factor they favour. */
  datatype Strategy = Recency | TotalPlays | Combined

  /**
   * Whole days since the game was last played: the floor of the elapsed
   * milliseconds over a day, negative for a date in the future, and 0 for
   * a game without a date.
   */
  function TimeFactor(lastPlayed: Option<int>, now: int): (days: int)
    ensures lastPlayed.None? ==> days == 0
    ensures lastPlayed.Some? ==>
      days * MsPerDay <= now - lastPlayed.value < (days + 1) * MsPerDay
    ensures lastPlayed.Some? ==> (days >= 0 <==> lastPlayed.value <= now)
  {
    match lastPlayed
    case None => 0
    // Dafny's division is Euclidean; with a positive divisor it is the floor.
    case Some(t) => (now - t) / MsPerDay
  }

  /** A game played earlier is never less stale than one played later. */
  lemma TimeFactorMonotonic(earlier: int, later: int, now: int)
    requires earlier <= later
    ensures TimeFactor(Some(later), now) <= TimeFactor(Some(earlier), now)
  {
  }

  /** `1 / (numPlays + 1)`: the reciprocal of one more than the play count. */
  function FrequencyFactor(numPlays: nat): (f: real)
    ensures 0.0 < f <= 1.0
    ensures f * (numPlays + 1) as real == 1.0
  {
    1.0 / (numPlays + 1) as real
  }

  /** More plays give a strictly smaller frequency factor. */
  lemma FrequencyFactorDecreasing(fewer: nat, more: nat)
    requires fewer < more
    ensures FrequencyFactor(more) < FrequencyFactor(fewer)
  {
  }

  /** `Math.random() * 0.1`: the small random term added to every score. */
  function Perturbation(u: Draw): (r: real)
    ensures 0.0 <= r < 0.1
  {
    u * 0.1
  }

  /** `calculateRecencyScore`: the time factor plus a perturbation. */
  function RecencyScore(lastPlayed: Option<int>, now: int, u: Draw): (s: real)
    ensures TimeFactor(lastPlayed, now) as real <= s < TimeFactor(lastPlayed, now) as real + 0.1
  {
    TimeFactor(lastPlayed, now) as real + Perturbation(u)
  }

  /** `calculateTotalPlaysScore`: the frequency factor plus a perturbation. */
  function TotalPlaysScore(numPlays: nat, u: Draw): (s: real)
    ensures FrequencyFactor(numPlays) <= s < FrequencyFactor(numPlays) + 0.1
    ensures 0.0 < s < 1.1
  {
    FrequencyFactor(numPlays) + Perturbation(u)
  }

  /**
   * `calculateCombinedScore`: 0.7 of the time factor and 0.3 of the
   * frequency factor, plus a perturbation.
   */
  function CombinedScore(lastPlayed: Option<int>, numPlays: nat, now: int, u: Draw): (s: real)
    ensures var base := 0.7 * TimeFactor(lastPlayed, now) as real + 0.3 * FrequencyFactor(numPlays);
      base <= s < base + 0.1
  {
    0.7 * TimeFactor(lastPlayed, now) as real + 0.3 * FrequencyFactor(numPlays) + Perturbation(u)
  }

  /** A strategy's weighted factors for one game, before the random term is added. */
  function BaseScore(strategy: Strategy, game: Game, now: int): real
  {
    match strategy
    case Recency => TimeFactor(game.lastPlayed, now) as real
    case TotalPlays => FrequencyFactor(game.numPlays)
    case Combined => 0.7 * TimeFactor(game.lastPlayed, now) as real + 0.3 * FrequencyFactor(game.numPlays)
  }

  /**
   * The score a strategy gives one game, with the draw of its own
   * `Math.random()` call: the base score raised by less than 0.1.
   */
  function Score(strategy: Strategy, game: Game, now: int, u: Draw): (s: real)
    ensures BaseScore(strategy, game, now) <= s < BaseScore(strategy, game, now) + 0.1
  {
    match strategy
    case Recency => RecencyScore(game.lastPlayed, now, u)
    case TotalPlays => TotalPlaysScore(game.numPlays, u)
    case Combined => CombinedScore(game.lastPlayed, game.numPlays, now, u)
  }

  /** No game played in the past (or never) scores -1 or less under any strategy. */
  lemma PastGameScoresAboveSentinel(strategy: Strategy, game: Game, now: int, u: Draw)
    requires game.lastPlayed.None? || game.lastPlayed.value <= now
    ensures Score(strategy, game, now, u) > -1.0
  {
  }
}
