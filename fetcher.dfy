/**
 * The status-driven retry loop of `getUserBoardgames`. The HTTP responses
 * the collection endpoint gives, one per request, are an injected sequence
 * of status codes; the game list that a 200 response parses to is an
 * injected value (fetching the body and parsing its XML are not modelled).
 */
module Fetcher {
  import opened Games

  const StatusOk: int := 200
  const StatusQueued: int := 202

  /**
   * How a fetch ends: the parsed games, an error carrying the status, or
   * still queued when the injected responses run out (the script itself
   * would go on waiting and retrying for ever).
   */
  datatype FetchResult = Fetched(games: seq<Game>) | Failed(status: int) | StillQueued

  /** The number of 202 responses before the first other status. */
  function LeadingQueued(statuses: seq<int>): (k: nat)
    ensures k <= |statuses|
    ensures forall j :: 0 <= j < k ==> statuses[j] == StatusQueued
    ensures k < |statuses| ==> statuses[k] != StatusQueued
  {
    if |statuses| == 0 || statuses[0] != StatusQueued then 0
    else 1 + LeadingQueued(statuses[1..])
  }

  /**
   * The outcome the loop reaches on `statuses`: decided by the first status
   * that is not 202 — success on 200 and an error carrying any other.
   */
  function FetchOutcome(statuses: seq<int>, parsed: seq<Game>): FetchResult
  {
    var k := LeadingQueued(statuses);
    if k == |statuses| then StillQueued
    else if statuses[k] == StatusOk then Fetched(parsed)
    else Failed(statuses[k])
  }

  /** The number of requests issued: one per 202, plus the deciding one. */
  function RequestsIssued(statuses: seq<int>): nat
  {
    var k := LeadingQueued(statuses);
    if k == |statuses| then k else k + 1
  }

  /**
   * The fetch succeeds exactly when some status is 200 and every status
   * before it is 202; it fails with status `code` exactly when `code` is
   * the first status other than 202 and is not 200.
   */
  lemma FetchOutcomeCharacterised(statuses: seq<int>, parsed: seq<Game>, n: nat)
    requires n < |statuses|
    requires forall j :: 0 <= j < n ==> statuses[j] == StatusQueued
    ensures statuses[n] == StatusOk ==> FetchOutcome(statuses, parsed) == Fetched(parsed)
    ensures statuses[n] != StatusOk && statuses[n] != StatusQueued ==>
      FetchOutcome(statuses, parsed) == Failed(statuses[n]) && RequestsIssued(statuses) == n + 1
  {
  }

  /**
   * `getUserBoardgames`'s `while (true)` loop: issue a request; on 200 take
   * the data, on 202 wait ten seconds and go round again, on anything else
   * throw. Also reports how many requests were issued and how many waits
   * there were.
   */
  method GetUserBoardgames(statuses: seq<int>, parsed: seq<Game>)
    returns (result: FetchResult, requests: nat, waits: nat)
    ensures result == FetchOutcome(statuses, parsed)
    ensures requests == RequestsIssued(statuses)
    ensures waits == LeadingQueued(statuses)
  {
    requests, waits := 0, 0;
    result := StillQueued;
    while requests < |statuses|
      invariant waits == requests <= |statuses|
      invariant forall j :: 0 <= j < requests ==> statuses[j] == StatusQueued
      invariant result == StillQueued
    {
      var status := statuses[requests];
      requests := requests + 1;
      if status == StatusOk {
        result := Fetched(parsed);
        break;
      } else if status == StatusQueued {
        waits := waits + 1;
      } else {
        result := Failed(status);
        break;
      }
    }
  }
}
