/**
 * The three arg-max selection loops (`selectRecencyBiasedGame`,
 * `selectTotalPlaysBiasedGame`, `selectCombinedBiasedGame`) and the
 * unbiased pick (`randomlySelectGame`). The three loops are one loop that
 * differs only in the score formula, so the model writes it once,
 * parameterised by the strategy.
 */
module Selection {
  import opened Wrappers
  import opened Games
  import opened Scoring
  import opened Store

  /** The value `bestScore` starts at; a score must beat it to be selected. */
  const Sentinel: real := -1.0

  /** The score of every game, game `i` scored with the `i`-th random draw. */
  function Scores(strategy: Strategy, games: seq<Game>, now: int, rand: nat -> Draw): seq<real>
  {
    seq(|games|, i requires 0 <= i < |games| => Score(strategy, games[i], now, rand(i)))
  }

  /**
   * `k` is the first position of a maximal score, and that score beats the
   * sentinel: every score is at most `s[k]`, every earlier one strictly less.
   */
  ghost predicate IsFirstMax(s: seq<real>, k: int)
  {
    && 0 <= k < |s|
    && s[k] > Sentinel
    && (forall j :: 0 <= j < |s| ==> s[j] <= s[k])
    && (forall j :: 0 <= j < k ==> s[j] < s[k])
  }

  /**
   * The position the loop ends up selecting, written as the recurrence of
   * one more iteration on a prefix: the last score replaces the best so far
   * only if it is strictly greater.
   */
  function FirstMax(s: seq<real>): (k: Option<nat>)
    ensures k.None? <==> forall j :: 0 <= j < |s| ==> s[j] <= Sentinel
    ensures k.Some? ==> IsFirstMax(s, k.value)
  {
    if |s| == 0 then None
    else
      var last := |s| - 1;
      var prev := FirstMax(s[..last]);
      assert forall j :: 0 <= j < last ==> s[..last][j] == s[j];
      match prev
      case None => if s[last] > Sentinel then Some(last) else None
      case Some(i) => if s[last] > s[i] then Some(last) else Some(i)
  }

  /** The first-maximum position is determined by its defining property. */
  lemma FirstMaxComplete(s: seq<real>, k: nat)
    requires IsFirstMax(s, k)
    ensures FirstMax(s) == Some(k)
  {
  }

  /**
   * One of the `select*BiasedGame` loops. Starting from a best score of -1
   * and no game, each game is scored with its own draw; a strictly greater
   * score makes it the selection and is written to the `selectedGameScore`
   * slot at once. The result is the first game of maximal score, or `None`
   * when no score beats -1; the slot ends holding the winner's score, and is
   * left alone when nothing is selected.
   */
  method SelectBiasedGame(strategy: Strategy, games: seq<Game>, now: int, rand: nat -> Draw,
                          storage: LocalStorage)
    returns (selected: Option<Game>)
    modifies storage`selectedGameScore
    ensures var scores := Scores(strategy, games, now, rand);
      match FirstMax(scores)
      case None =>
        selected == None && storage.selectedGameScore == old(storage.selectedGameScore)
      case Some(k) =>
        selected == Some(games[k]) && storage.selectedGameScore == Some(scores[k])
  {
    ghost var scores := Scores(strategy, games, now, rand);
    ghost var best: Option<nat> := None;
    var bestScore := Sentinel;
    selected := None;
    for i := 0 to |games|
      invariant best == FirstMax(scores[..i])
      invariant best.None? ==>
        bestScore == Sentinel && selected == None
        && storage.selectedGameScore == old(storage.selectedGameScore)
      invariant best.Some? ==>
        best.value < i && bestScore == scores[best.value]
        && selected == Some(games[best.value]) && storage.selectedGameScore == Some(bestScore)
    {
      assert scores[..i + 1][..i] == scores[..i];
      var score := Score(strategy, games[i], now, rand(i));
      if score > bestScore {
        bestScore := score;
        selected := Some(games[i]);
        storage.selectedGameScore := Some(score);
        best := Some(i);
      }
    }
    assert scores[..|games|] == scores;
  }

  /**
   * The random term only breaks near-ties: the selected game's base score
   * is more than the base score of every other game minus 0.1.
   */
  lemma WinnerWithinNoiseOfBest(strategy: Strategy, games: seq<Game>, now: int,
                                  rand: nat -> Draw, k: nat, j: nat)
    requires FirstMax(Scores(strategy, games, now, rand)) == Some(k)
    requires j < |games|
    ensures BaseScore(strategy, games[j], now) - 0.1 < BaseScore(strategy, games[k], now)
  {
    var s := Scores(strategy, games, now, rand);
    assert s[j] == Score(strategy, games[j], now, rand(j));
    assert s[k] == Score(strategy, games[k], now, rand(k));
  }

  /**
   * Time factors are whole days, so the recency loop always selects a game
   * not played for the greatest number of days; the random term only
   * chooses among games tied on that number.
   */
  lemma RecencyWinnerIsStalest(games: seq<Game>, now: int, rand: nat -> Draw, k: nat)
    requires FirstMax(Scores(Recency, games, now, rand)) == Some(k)
    ensures k < |games|
    ensures forall j :: 0 <= j < |games| ==>
      TimeFactor(games[j].lastPlayed, now) <= TimeFactor(games[k].lastPlayed, now)
  {
    forall j | 0 <= j < |games|
      ensures TimeFactor(games[j].lastPlayed, now) <= TimeFactor(games[k].lastPlayed, now)
    {
      WinnerWithinNoiseOfBest(Recency, games, now, rand, k, j);
    }
  }

  /** The total-plays strategy always selects a game from a non-empty list. */
  lemma TotalPlaysAlwaysSelects(games: seq<Game>, now: int, rand: nat -> Draw)
    requires |games| > 0
    ensures FirstMax(Scores(TotalPlays, games, now, rand)).Some?
  {
    assert Scores(TotalPlays, games, now, rand)[0] > Sentinel;
  }

  /**
   * Any strategy selects a game from a non-empty list in which no game has
   * a date in the future.
   */
  lemma PastGamesAlwaysSelect(strategy: Strategy, games: seq<Game>, now: int, rand: nat -> Draw)
    requires |games| > 0
    requires forall g :: g in games ==> g.lastPlayed.None? || g.lastPlayed.value <= now
    ensures FirstMax(Scores(strategy, games, now, rand)).Some?
  {
    PastGameScoresAboveSentinel(strategy, games[0], now, rand(0));
    assert Scores(strategy, games, now, rand)[0] > Sentinel;
  }

  /**
   * The sentinel of -1 assumes scores are not negative. A single game whose
   * date lies two days ahead of the clock has a recency score of at most
   * -1.9, so the recency loop selects nothing from a non-empty list.
   */
  lemma FutureDateSelectsNothing(game: Game, now: int, rand: nat -> Draw)
    requires game.lastPlayed == Some(now + 2 * MsPerDay)
    ensures FirstMax(Scores(Recency, [game], now, rand)) == None
  {
  }

  /**
   * With every draw 0, the combined strategy prefers a game last played at
   * least a day ago, even with five plays, over a never-played game with
   * none: 0.7 + 0.3 / 6 against 0.3.
   */
  lemma StaleGameBeatsNeverPlayed(unplayed: Game, stale: Game, now: int, rand: nat -> Draw)
    requires forall k :: rand(k) == 0.0
    requires unplayed.numPlays == 0 && unplayed.lastPlayed.None?
    requires stale.numPlays == 5 && stale.lastPlayed.Some? && stale.lastPlayed.value <= now - MsPerDay
    ensures FirstMax(Scores(Combined, [unplayed, stale], now, rand)) == Some(1)
  {
  }

  /** `Math.floor(Math.random() * length)`: the index of the unbiased pick. */
  function PickIndex(u: Draw, length: nat): (k: nat)
    requires length > 0
    ensures k < length
    ensures k as real <= u * length as real < (k + 1) as real
  {
    var n := length as real;
    var x := u * n;
    assert 0.0 <= x < n by {
      assert u * n <= 1.0 * n - (1.0 - u) * n;
      assert (1.0 - u) * n > 0.0;
    }
    x.Floor
  }

  /**
   * The unbiased pick is uniform: index `k` is chosen exactly by the draws
   * in [k / length, (k + 1) / length), an interval of width 1 / length.
   */
  lemma PickIndexInterval(u: Draw, length: nat, k: nat)
    requires 0 < length
    ensures PickIndex(u, length) == k <==>
      (k as real) / (length as real) <= u < ((k + 1) as real) / (length as real)
  {
  }

  /**
   * `randomlySelectGame`: the game at index `floor(rand(0) * length)`; its
   * displayed score uses the recency formula when recency bias is on and
   * the total-plays formula otherwise, with the next draw, and is written
   * to the `selectedGameScore` slot.
   */
  method RandomlySelectGame(games: seq<Game>, recencyBias: bool, now: int, rand: nat -> Draw,
                            storage: LocalStorage)
    returns (selected: Game)
    requires |games| > 0
    modifies storage`selectedGameScore
    ensures selected == games[PickIndex(rand(0), |games|)]
    ensures storage.selectedGameScore ==
      Some(if recencyBias then RecencyScore(selected.lastPlayed, now, rand(1))
           else TotalPlaysScore(selected.numPlays, rand(1)))
  {
    var index := PickIndex(rand(0), |games|);
    selected := games[index];
    var score := if recencyBias then RecencyScore(selected.lastPlayed, now, rand(1))
                 else TotalPlaysScore(selected.numPlays, rand(1));
    storage.selectedGameScore := Some(score);
  }
}
