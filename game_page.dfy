/**
 * Recognising a game's page from its URL path (`isGamePage`,
 * `getGameIdFromUrl`, both the regular expression `/\/boardgame\/(\d+)/`),
 * and deciding whether that page shows the last selection score
 * (`addSelectionScoreIfGamePage`).
 */
module GamePage {
  import opened Wrappers
  import opened Games

  const BoardgamePrefix: string := "/boardgame/"

  predicate IsDigit(c: char)
  {
    '0' <= c <= '9'
  }

  predicate AllDigits(s: string)
  {
    forall j :: 0 <= j < |s| ==> IsDigit(s[j])
  }

  /** The regular expression matches at position `i`: the prefix, then a digit. */
  predicate MatchesAt(path: string, i: nat)
  {
    && i + |BoardgamePrefix| < |path|
    && path[i..i + |BoardgamePrefix|] == BoardgamePrefix
    && IsDigit(path[i + |BoardgamePrefix|])
  }

  /** The length of the run of digits that `s` starts with (greedy `\d+`). */
  function DigitRun(s: string): (n: nat)
    ensures n <= |s| && AllDigits(s[..n])
    ensures n < |s| ==> !IsDigit(s[n])
  {
    if |s| == 0 || !IsDigit(s[0]) then 0
    else
      var n := 1 + DigitRun(s[1..]);
      assert forall j :: 1 <= j < n ==> s[..n][j] == s[1..][..n - 1][j - 1];
      n
  }

  /** The leftmost position at or after `from` where the expression matches. */
  function FirstMatchFrom(path: string, from: nat): (m: Option<nat>)
    requires from <= |path|
    ensures m.None? <==> forall i :: from <= i <= |path| ==> !MatchesAt(path, i)
    ensures m.Some? ==>
      from <= m.value < |path| && MatchesAt(path, m.value)
      && forall i :: from <= i < m.value ==> !MatchesAt(path, i)
    decreases |path| - from
  {
    if MatchesAt(path, from) then Some(from)
    else if from == |path| then None
    else FirstMatchFrom(path, from + 1)
  }

  /** `id` is what the capture group takes when the match starts at `i`. */
  ghost predicate CapturedAt(path: string, i: nat, id: string)
  {
    var start := i + |BoardgamePrefix|;
    && MatchesAt(path, i)
    && start + |id| <= |path|
    && path[start..start + |id|] == id
    && id != [] && AllDigits(id)
    && (start + |id| == |path| || !IsDigit(path[start + |id|]))
  }

  /**
   * `getGameIdFromUrl`: the maximal digit run after the leftmost
   * `/boardgame/` that is followed by a digit, or `None` when the path has
   * no such place.
   */
  function GameIdFromPath(path: string): (id: Option<string>)
    ensures id.None? <==> forall i :: 0 <= i <= |path| ==> !MatchesAt(path, i)
    ensures id.Some? ==>
      exists i :: 0 <= i < |path| && CapturedAt(path, i, id.value)
                  && forall j :: 0 <= j < i ==> !MatchesAt(path, j)
  {
    match FirstMatchFrom(path, 0)
    case None => None
    case Some(i) =>
      var start := i + |BoardgamePrefix|;
      var id := path[start..start + DigitRun(path[start..])];
      assert path[start..][..DigitRun(path[start..])] == id;
      assert CapturedAt(path, i, id);
      Some(id)
  }

  /** `isGamePage`: the regular expression matches somewhere in the path. */
  function IsGamePage(path: string): (b: bool)
    ensures b <==> exists i :: 0 <= i <= |path| && MatchesAt(path, i)
    ensures b <==> GameIdFromPath(path).Some?
  {
    FirstMatchFrom(path, 0).Some?
  }

  /** A run of digits followed by something that is not a digit is read back whole. */
  lemma {:induction false} DigitRunOfDigits(id: string, rest: string)
    requires AllDigits(id)
    requires rest == [] || !IsDigit(rest[0])
    ensures DigitRun(id + rest) == |id|
  {
    if id != [] {
      assert (id + rest)[1..] == id[1..] + rest;
      DigitRunOfDigits(id[1..], rest);
    }
  }

  /**
   * The page the script navigates to, `/boardgame/<id>` possibly followed by
   * a slug, is recognised as that game's page and yields the same id back.
   */
  lemma NavigationPathRoundTrip(id: string, rest: string)
    requires id != [] && AllDigits(id)
    requires rest == [] || !IsDigit(rest[0])
    ensures IsGamePage(BoardgamePrefix + id + rest)
    ensures GameIdFromPath(BoardgamePrefix + id + rest) == Some(id)
  {
    var path := BoardgamePrefix + id + rest;
    var start := |BoardgamePrefix|;
    assert path[..start] == BoardgamePrefix;
    assert path[start] == id[0];
    assert MatchesAt(path, 0);
    assert path[start..] == id + rest;
    DigitRunOfDigits(id, rest);
    assert path[start..start + |id|] == id;
  }

  /** What the game page shows: nothing, or the stored selection score. */
  datatype Display = NotGamePage | NotInCollection | ShowScore(score: Option<real>)

  /**
   * `addSelectionScoreIfGamePage`: on a game page whose id belongs to a game
   * of the cached collection (an empty one when nothing is cached), show the
   * `selectedGameScore` slot (`None`, a missing value, is shown as NaN).
   */
  function SelectionScoreDisplay(path: string, cached: Option<Snapshot>, slot: Option<real>): (d: Display)
    ensures d.NotGamePage? <==> !IsGamePage(path)
    ensures d.ShowScore? <==>
      IsGamePage(path) && cached.Some? && HasId(cached.value.games, GameIdFromPath(path).value)
    ensures d.ShowScore? ==> d.score == slot
  {
    if !IsGamePage(path) then NotGamePage
    else
      var games := if cached.Some? then cached.value.games else [];
      if FindGame(games, GameIdFromPath(path).value).Some? then ShowScore(slot)
      else NotInCollection
  }

  /**
   * After navigating to a game of the cached collection, its page shows the
   * stored score.
   */
  lemma NavigatedGameShowsScore(snapshot: Snapshot, k: nat, rest: string, slot: Option<real>)
    requires k < |snapshot.games|
    requires snapshot.games[k].id != [] && AllDigits(snapshot.games[k].id)
    requires rest == [] || !IsDigit(rest[0])
    ensures SelectionScoreDisplay(BoardgamePrefix + snapshot.games[k].id + rest, Some(snapshot), slot)
            == ShowScore(slot)
  {
    NavigationPathRoundTrip(snapshot.games[k].id, rest);
  }
}
