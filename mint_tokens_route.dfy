/**
 * The mint-tokens route: POST mints `score` tokens (no division) for a
 * session not seen before, remembering the session in a process-wide set
 * once the mint is confirmed; GET reports a session's status on chain and
 * locally. The contract calls are foreign calls whose outcomes are
 * parameters; each handler reports the calls it made, in order. A call
 * whose arguments ethers cannot encode throws `encodeError` instead and
 * is not sent.
 */
module MintTokensRoute {
  import opened Wrappers
  import opened Js
  import Text
  import Issuer

  /**
   * The fields of the POST body (`MintRequest`). Nothing checks that they
   * are present: `None` is a field the body leaves `undefined`.
   */
  datatype MintRequest = MintRequest(playerAddress: Option<string>, score: Option<int>, sessionId: Option<string>,
                                     gameData: Option<string>)

  /** The JSON bodies this route answers with. */
  datatype Body =
    | Error(error: string)
    | ErrorDetails(error: string, details: Option<string>)
    | Minted(txHash: string, tokens: int, message: string)
    | Status(sessionId: string, claimed: bool, processedLocally: bool)

  const MaxScore: int := 1000

  /**
   * This route's `validateScore`: a range check that never looks at
   * `gameData`. An `undefined` score compares false both ways, so it passes.
   */
  function ValidateScore(score: Option<int>, gameData: Option<string>): (valid: bool)
    ensures valid <==> score.None? || 0 <= score.value <= MaxScore
  {
    !(score.Some? && (score.value < 0 || score.value > MaxScore))
  }

  /** The game data plays no part in the verdict. */
  lemma ValidateScoreIgnoresGameData(score: Option<int>, g1: Option<string>, g2: Option<string>)
    ensures ValidateScore(score, g1) == ValidateScore(score, g2)
  {
  }

  function BadRequest(error: string): Response<Body> {
    Response(400, Error(error), map[])
  }

  function MintFailure(e: Thrown): Response<Body> {
    Response(500, ErrorDetails("Failed to mint tokens", e.message), map[])
  }

  /** The check `ethers.isAddress(playerAddress)`, which is false for `undefined`. */
  predicate AddressOk(playerAddress: Option<string>, isAddress: string -> bool) {
    playerAddress.Some? && isAddress(playerAddress.value)
  }

  /** `score <= 0`, which is false for `undefined`. */
  predicate NonPositive(score: Option<int>) {
    score.Some? && score.value <= 0
  }

  /** `processedSessions.has(sessionId)`; the set only ever holds defined ids. */
  predicate Processed(processed: set<string>, sessionId: Option<string>) {
    sessionId.Some? && sessionId.value in processed
  }

  /**
   * POST as a whole: its response, its contract calls and the processed set
   * afterwards. `encodeError` is what ethers throws for an `undefined`
   * session id or score.
   */
  function PostSpec(processed: set<string>, request: Reply<MintRequest>, isAddress: string -> bool,
                    encodeError: Thrown, claimed: Reply<bool>, mint: Reply<Issuer.Receipt>)
    : (Response<Body>, seq<Issuer.Call>, set<string>)
  {
    match request
    case Threw(e) => (MintFailure(e), [], processed)
    case Returned(r) =>
      if !AddressOk(r.playerAddress, isAddress) then (BadRequest("Invalid player address"), [], processed)
      else if NonPositive(r.score) then (BadRequest("Score must be greater than 0"), [], processed)
      else if Processed(processed, r.sessionId) then (BadRequest("Session already claimed"), [], processed)
      else if !ValidateScore(r.score, r.gameData) then (BadRequest("Invalid game data"), [], processed)
      else if r.sessionId.None? then (MintFailure(encodeError), [], processed)
      else
        var c1 := [Issuer.ClaimedSessions(r.sessionId.value)];
        match claimed
        case Threw(e) => (MintFailure(e), c1, processed)
        case Returned(true) => (BadRequest("Session already claimed on blockchain"), c1, processed)
        case Returned(false) =>
          if !Issuer.EncodableUint(r.score) then (MintFailure(encodeError), c1, processed)
          else
            var score := r.score.value;
            var c2 := c1 + [Issuer.MintReward(r.playerAddress.value, score, r.sessionId.value)];
            match mint
            case Threw(e) => (MintFailure(e), c2, processed)
            case Returned(receipt) =>
              (Response(200, Minted(receipt.hash, score, "Successfully minted " + Text.IntToString(score) + " tokens!"),
                        map[]),
               c2, processed + {r.sessionId.value})
  }

  /** GET as a whole: its response and its contract calls. */
  function GetSpec(processed: set<string>, sessionId: Option<string>, claimed: Reply<bool>)
    : (Response<Body>, seq<Issuer.Call>)
  {
    if !Truthy(sessionId) then (BadRequest("Session ID required"), [])
    else
      var calls := [Issuer.ClaimedSessions(sessionId.value)];
      match claimed
      case Threw(_) => (Response(500, Error("Failed to check session status"), map[]), calls)
      case Returned(c) => (Response(200, Status(sessionId.value, c, sessionId.value in processed), map[]), calls)
  }

  /** The route module's state: the `processedSessions` set. */
  class Server {
    var processedSessions: set<string>

    constructor ()
      ensures processedSessions == {}
    {
      processedSessions := {};
    }

    /** The POST handler; `request` is what `request.json()` produced. */
    method Post(request: Reply<MintRequest>, isAddress: string -> bool, encodeError: Thrown, claimed: Reply<bool>,
                mint: Reply<Issuer.Receipt>)
      returns (response: Response<Body>, calls: seq<Issuer.Call>)
      modifies this
      ensures (response, calls, processedSessions)
        == PostSpec(old(processedSessions), request, isAddress, encodeError, claimed, mint)
    {
      calls := [];
      if request.Threw? {
        return MintFailure(request.error), calls;
      }
      var r := request.value;
      if !AddressOk(r.playerAddress, isAddress) {
        return BadRequest("Invalid player address"), calls;
      }
      if NonPositive(r.score) {
        return BadRequest("Score must be greater than 0"), calls;
      }
      if Processed(processedSessions, r.sessionId) {
        return BadRequest("Session already claimed"), calls;
      }
      if !ValidateScore(r.score, r.gameData) {
        return BadRequest("Invalid game data"), calls;
      }
      if r.sessionId.None? {
        return MintFailure(encodeError), calls;
      }
      calls := [Issuer.ClaimedSessions(r.sessionId.value)];
      if claimed.Threw? {
        return MintFailure(claimed.error), calls;
      }
      if claimed.value {
        return BadRequest("Session already claimed on blockchain"), calls;
      }
      if !Issuer.EncodableUint(r.score) {
        return MintFailure(encodeError), calls;
      }
      var score := r.score.value;
      calls := calls + [Issuer.MintReward(r.playerAddress.value, score, r.sessionId.value)];
      if mint.Threw? {
        return MintFailure(mint.error), calls;
      }
      processedSessions := processedSessions + {r.sessionId.value};
      response := Response(200, Minted(mint.value.hash, score,
                                       "Successfully minted " + Text.IntToString(score) + " tokens!"), map[]);
    }

    /** The GET handler. */
    method Get(sessionId: Option<string>, claimed: Reply<bool>) returns (response: Response<Body>, calls: seq<Issuer.Call>)
      ensures (response, calls) == GetSpec(processedSessions, sessionId, claimed)
    {
      if sessionId.None? || sessionId.value == "" {
        return BadRequest("Session ID required"), [];
      }
      calls := [Issuer.ClaimedSessions(sessionId.value)];
      if claimed.Threw? {
        return Response(500, Error("Failed to check session status"), map[]), calls;
      }
      response := Response(200, Status(sessionId.value, claimed.value, sessionId.value in processedSessions), map[]);
    }
  }

  /**
   * Only a confirmed mint changes the set, and then by exactly the request's
   * session; every rejection and every exception leaves it as it was.
   */
  lemma PostRecordsOnlyConfirmedMints(processed: set<string>, request: Reply<MintRequest>, isAddress: string -> bool,
                                      encodeError: Thrown, claimed: Reply<bool>, mint: Reply<Issuer.Receipt>)
    ensures var (response, calls, processed') := PostSpec(processed, request, isAddress, encodeError, claimed, mint);
      && (response.status == 200 <==> mint.Returned? && |calls| == 2 && calls[1].MintReward?)
      && processed' == (if response.status == 200 then processed + {request.value.sessionId.value} else processed)
  {
  }

  /**
   * A mint is attempted only for a well-formed address, a score present and
   * in 1..1000, a session present, unknown locally and unclaimed on chain,
   * and for `score` coins: no division by 100.
   */
  lemma PostMintsScore(processed: set<string>, request: Reply<MintRequest>, isAddress: string -> bool,
                       encodeError: Thrown, claimed: Reply<bool>, mint: Reply<Issuer.Receipt>,
                       player: string, coins: int, sessionId: string)
    requires Issuer.MintReward(player, coins, sessionId) in PostSpec(processed, request, isAddress, encodeError, claimed, mint).1
    ensures request.Returned? && isAddress(player)
    ensures request.value.playerAddress == Some(player) && request.value.sessionId == Some(sessionId)
    ensures request.value.score == Some(coins) && 1 <= coins <= 1000
    ensures sessionId !in processed && claimed == Returned(false)
  {
  }

  /**
   * A body without a score passes every check of the route and reaches the
   * chain; it is stopped only when ethers cannot encode the score for
   * `mintReward`, so nothing is minted and the answer is a 500.
   */
  lemma PostMissingScore(processed: set<string>, player: string, sessionId: string, gameData: Option<string>,
                         isAddress: string -> bool, encodeError: Thrown, mint: Reply<Issuer.Receipt>)
    requires isAddress(player) && sessionId !in processed
    ensures PostSpec(processed, Returned(MintRequest(Some(player), None, Some(sessionId), gameData)),
                     isAddress, encodeError, Returned(false), mint)
      == (MintFailure(encodeError), [Issuer.ClaimedSessions(sessionId)], processed)
  {
  }

  /**
   * A body without a session id passes the local checks and fails when
   * ethers cannot encode it for `claimedSessions`: a 500, no call sent.
   */
  lemma PostMissingSessionId(processed: set<string>, player: string, score: Option<int>, gameData: Option<string>,
                             isAddress: string -> bool, encodeError: Thrown, claimed: Reply<bool>,
                             mint: Reply<Issuer.Receipt>)
    requires isAddress(player) && (score.Some? ==> 0 < score.value <= MaxScore)
    ensures PostSpec(processed, Returned(MintRequest(Some(player), score, None, gameData)),
                     isAddress, encodeError, claimed, mint)
      == (MintFailure(encodeError), [], processed)
  {
  }

  /** A session the server has already processed is refused before any contract call. */
  lemma PostLocalDuplicate(processed: set<string>, r: MintRequest, isAddress: string -> bool,
                           encodeError: Thrown, claimed: Reply<bool>, mint: Reply<Issuer.Receipt>)
    requires AddressOk(r.playerAddress, isAddress) && !NonPositive(r.score) && Processed(processed, r.sessionId)
    ensures PostSpec(processed, Returned(r), isAddress, encodeError, claimed, mint)
      == (BadRequest("Session already claimed"), [], processed)
  {
  }

  /** The chain's record wins: a session claimed on chain is refused even if the set lacks it. */
  lemma PostChainDuplicate(processed: set<string>, r: MintRequest, isAddress: string -> bool, encodeError: Thrown,
                           mint: Reply<Issuer.Receipt>)
    requires AddressOk(r.playerAddress, isAddress) && (r.score.Some? ==> 0 < r.score.value <= MaxScore)
    requires r.sessionId.Some? && r.sessionId.value !in processed
    ensures PostSpec(processed, Returned(r), isAddress, encodeError, Returned(true), mint)
      == (BadRequest("Session already claimed on blockchain"), [Issuer.ClaimedSessions(r.sessionId.value)], processed)
  {
  }

  /**
   * No session is minted twice by one server: once a POST succeeds, any
   * later POST for the same session with a valid address and a score that
   * is absent or positive is refused locally, whatever the chain would say.
   */
  lemma NoSecondMint(processed: set<string>, first: MintRequest, second: MintRequest, isAddress: string -> bool,
                     encodeError: Thrown, claimed: Reply<bool>, mint: Reply<Issuer.Receipt>,
                     claimed2: Reply<bool>, mint2: Reply<Issuer.Receipt>)
    requires PostSpec(processed, Returned(first), isAddress, encodeError, claimed, mint).0.status == 200
    requires second.sessionId == first.sessionId && AddressOk(second.playerAddress, isAddress)
    requires !NonPositive(second.score)
    ensures var after := PostSpec(processed, Returned(first), isAddress, encodeError, claimed, mint).2;
      PostSpec(after, Returned(second), isAddress, encodeError, claimed2, mint2).1 == []
  {
    PostRecordsOnlyConfirmedMints(processed, Returned(first), isAddress, encodeError, claimed, mint);
  }

  /** GET needs a session id and then reports the chain's answer and local membership. */
  lemma GetReportsMembership(processed: set<string>, sessionId: Option<string>, claimed: Reply<bool>)
    ensures var (response, calls) := GetSpec(processed, sessionId, claimed);
      && (!Truthy(sessionId) ==> response.status == 400 && calls == [])
      && (Truthy(sessionId) && claimed.Returned? ==>
            response.status == 200 && response.body.Status?
            && response.body.claimed == claimed.value
            && (response.body.processedLocally <==> sessionId.value in processed))
  {
  }
}
