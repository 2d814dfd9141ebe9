/**
 * The decisions of `main`: give up without a logged-in user, reuse the
 * cached collection or fetch and cache a new one, give up on an empty
 * collection, and dispatch on the two bias flags to exactly one strategy.
 */
module Orchestrator {
  import opened Wrappers
  import opened Games
  import opened Scoring
  import opened Store
  import opened Selection
  import opened Fetcher

  /** The two user-controlled flags (both `true` unless the user turned them off). */
  datatype BiasConfig = BiasConfig(recencyBias: bool, totalPlaysBias: bool)

  /** Which of the four selection procedures runs. */
  datatype Pick = Biased(strategy: Strategy) | Uniform

  /** How one run of the selection ends. */
  datatype Outcome =
    | NoUser                    // no logged-in user detected
    | FetchFailed(status: int)  // the collection request answered neither 200 nor 202
    | FetchPending              // every injected response was 202: the script is still retrying
    | NoGames                   // the collection is empty
    | NoGameSelected            // the strategy selected nothing
    | Navigate(gameId: string)  // go to the page of this game

  /** The strategy's score depends on how long ago the game was played. */
  predicate UsesTime(s: Strategy)
  {
    s.Recency? || s.Combined?
  }

  /** The strategy's score depends on how often the game was played. */
  predicate UsesFrequency(s: Strategy)
  {
    s.TotalPlays? || s.Combined?
  }

  /**
   * The four-way dispatch: exactly one procedure runs. A biased strategy
   * takes the time factor into account exactly when recency bias is on and
   * the frequency factor exactly when total-plays bias is on; with both off
   * the pick is uniform.
   */
  function Dispatch(bias: BiasConfig): (p: Pick)
    ensures p.Uniform? <==> !bias.recencyBias && !bias.totalPlaysBias
    ensures p.Biased? ==>
      UsesTime(p.strategy) == bias.recencyBias && UsesFrequency(p.strategy) == bias.totalPlaysBias
  {
    if bias.recencyBias && bias.totalPlaysBias then Biased(Combined)
    else if bias.recencyBias then Biased(Recency)
    else if bias.totalPlaysBias then Biased(TotalPlays)
    else Uniform
  }

  /** `!loggedInUsername` is false: there is a user and the name is not empty. */
  predicate LoggedIn(user: Option<string>)
  {
    user.Some? && user.value != ""
  }

  /** The cached collection may be reused: one is stored and it belongs to `username`. */
  predicate CacheHit(cached: Option<Snapshot>, username: string)
  {
    cached.Some? && cached.value.username == username
  }

  /** The outcome of selecting from a known collection, and the score written (if any). */
  datatype Decision = Decision(outcome: Outcome, written: Option<real>)

  /**
   * What `main` does once the collection is known: stop on an empty one,
   * otherwise run the strategy the flags choose and navigate to its game.
   * The unbiased pick is reached only with recency bias off, so the score
   * it writes is always the total-plays score.
   */
  function Decide(games: seq<Game>, bias: BiasConfig, now: int, rand: nat -> Draw): (d: Decision)
    ensures d.outcome == NoGames <==> |games| == 0
    ensures d.outcome.NoGames? || d.outcome.NoGameSelected? || d.outcome.Navigate?
    ensures d.outcome.Navigate? <==> d.written.Some?
    ensures d.outcome.Navigate? ==> HasId(games, d.outcome.gameId)
    ensures d.outcome == NoGameSelected ==>
      Dispatch(bias).Biased? && forall j :: 0 <= j < |games| ==>
        Scores(Dispatch(bias).strategy, games, now, rand)[j] <= Sentinel
    ensures |games| > 0 && Dispatch(bias).Biased? ==>
      var s := Scores(Dispatch(bias).strategy, games, now, rand);
      && (d.outcome == NoGameSelected <==> forall j :: 0 <= j < |games| ==> s[j] <= Sentinel)
      && (!(forall j :: 0 <= j < |games| ==> s[j] <= Sentinel) ==>
            && d.outcome.Navigate?
            && exists k :: IsFirstMax(s, k) && d.outcome.gameId == games[k].id && d.written == Some(s[k]))
    ensures |games| > 0 && Dispatch(bias).Uniform? ==>
      var k := PickIndex(rand(0), |games|);
      d == Decision(Navigate(games[k].id), Some(TotalPlaysScore(games[k].numPlays, rand(1))))
    ensures |games| > 0 && !bias.recencyBias ==> d.outcome.Navigate?
  {
    if |games| == 0 then Decision(NoGames, None)
    else
      match Dispatch(bias)
      case Biased(s) =>
        var scores := Scores(s, games, now, rand);
        assert s == TotalPlays ==> FirstMax(scores).Some? by {
          if s == TotalPlays { TotalPlaysAlwaysSelects(games, now, rand); }
        }
        (match FirstMax(scores)
         case None => Decision(NoGameSelected, None)
         case Some(k) =>
           assert HasId(games, games[k].id);
           Decision(Navigate(games[k].id), Some(scores[k])))
      case Uniform =>
        var k := PickIndex(rand(0), |games|);
        // `randomlySelectGame` picks the recency formula when recency bias
        // is on, but this branch is only reached with it off.
        assert HasId(games, games[k].id);
        Decision(Navigate(games[k].id), Some(TotalPlaysScore(games[k].numPlays, rand(1))))
  }

  /** The `selectedGameScore` slot after a decision: the written score, else the old value. */
  function SlotAfter(d: Decision, previous: Option<real>): Option<real>
  {
    if d.written.Some? then d.written else previous
  }

  /**
   * `main`, with the logged-in user, the bias flags, the clock (as a number
   * and as the ISO text stored in the snapshot), the collection endpoint's
   * responses, the games a 200 response parses to, and the random draws
   * injected. Returns the outcome and the number of collection requests.
   */
  method RunSelection(storage: LocalStorage, user: Option<string>, bias: BiasConfig, now: int,
                      stamp: string, statuses: seq<int>, parsed: seq<Game>, rand: nat -> Draw)
    returns (outcome: Outcome, requests: nat)
    modifies storage
    ensures !LoggedIn(user) ==> outcome == NoUser && requests == 0 && unchanged(storage)
    ensures LoggedIn(user) && CacheHit(old(storage.collection), user.value) ==>
      var d := Decide(old(storage.collection).value.games, bias, now, rand);
      && requests == 0
      && storage.collection == old(storage.collection)
      && outcome == d.outcome
      && storage.selectedGameScore == SlotAfter(d, old(storage.selectedGameScore))
    ensures LoggedIn(user) && !CacheHit(old(storage.collection), user.value) ==>
      && requests == RequestsIssued(statuses)
      && match FetchOutcome(statuses, parsed)
         case Failed(status) => outcome == FetchFailed(status) && unchanged(storage)
         case StillQueued => outcome == FetchPending && unchanged(storage)
         case Fetched(games) =>
           var d := Decide(games, bias, now, rand);
           && storage.collection == Some(Snapshot(user.value, stamp, games))
           && outcome == d.outcome
           && storage.selectedGameScore == SlotAfter(d, old(storage.selectedGameScore))
  {
    requests := 0;
    if !LoggedIn(user) {
      return NoUser, requests;
    }
    var username := user.value;
    var games: seq<Game>;
    if storage.collection.Some? && storage.collection.value.username == username {
      games := storage.collection.value.games;
    } else {
      var result, waits;
      result, requests, waits := GetUserBoardgames(statuses, parsed);
      match result
      case Failed(status) =>
        return FetchFailed(status), requests;
      case StillQueued =>
        return FetchPending, requests;
      case Fetched(fetched) =>
        games := fetched;
        storage.collection := Some(Snapshot(username, stamp, games));
    }
    if |games| == 0 {
      return NoGames, requests;
    }
    var selected: Option<Game>;
    if bias.recencyBias && bias.totalPlaysBias {
      selected := SelectBiasedGame(Combined, games, now, rand, storage);
    } else if bias.recencyBias {
      selected := SelectBiasedGame(Recency, games, now, rand, storage);
    } else if bias.totalPlaysBias {
      selected := SelectBiasedGame(TotalPlays, games, now, rand, storage);
    } else {
      var game := RandomlySelectGame(games, bias.recencyBias, now, rand, storage);
      selected := Some(game);
    }
    outcome := if selected.Some? then Navigate(selected.value.id) else NoGameSelected;
  }
}
