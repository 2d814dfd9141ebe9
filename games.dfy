/**
 * The owned-game records fetched from the collection feed, the snapshot
 * cached in local storage, and the lookup of a game by its identifier.
 */
module Games {
  import opened Wrappers

  /**
   * One owned game. `lastPlayed` is the `last_played` date already turned
   * into milliseconds since the epoch; `None` stands for a missing or empty
   * date string, which the script treats as "never played".
   */
  datatype Game = Game(id: string, name: string, numPlays: nat, lastPlayed: Option<int>)

  /** The value cached under the `bgg_collection` key. */
  datatype Snapshot = Snapshot(username: string, lastUpdate: string, games: seq<Game>)

  /** True iff some game of `games` carries identifier `id`. */
  predicate HasId(games: seq<Game>, id: string)
  {
    exists k :: 0 <= k < |games| && games[k].id == id
  }

  /**
   * `games.find(g => g.id === id)`: the first game whose identifier is
   * exactly `id`, or `None` when there is none.
   */
  function FindGame(games: seq<Game>, id: string): (found: Option<Game>)
    ensures found.None? <==> !HasId(games, id)
    ensures found.Some? ==>
      exists k :: 0 <= k < |games| && games[k] == found.value && found.value.id == id
                  && forall j :: 0 <= j < k ==> games[j].id != id
  {
    if |games| == 0 then None
    else if games[0].id == id then
      Some(games[0])
    else
      var rest := FindGame(games[1..], id);
      assert HasId(games, id) ==> HasId(games[1..], id) by {
        if HasId(games, id) {
          var k :| 0 <= k < |games| && games[k].id == id;
          assert k > 0 && games[1..][k - 1].id == id;
        }
      }
      assert HasId(games[1..], id) ==> HasId(games, id) by {
        if HasId(games[1..], id) {
          var k :| 0 <= k < |games[1..]| && games[1..][k].id == id;
          assert games[k + 1].id == id;
        }
      }
      if rest.Some? then
        var k :| 0 <= k < |games[1..]| && games[1..][k] == rest.value && rest.value.id == id
                 && forall j :: 0 <= j < k ==> games[1..][j].id != id;
        assert games[k + 1] == rest.value;
        assert forall j :: 0 <= j < k + 1 ==> games[j].id != id by {
          forall j | 0 <= j < k + 1 ensures games[j].id != id {
            if j > 0 { assert games[j] == games[1..][j - 1]; }
          }
        }
        rest
      else
        rest
  }
}
