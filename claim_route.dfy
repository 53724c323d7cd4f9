/**
 * The EVM claim route: GET signs a score for later claiming, POST mints the
 * reward server-side. Both are early-return decision procedures over the
 * request; the fixed-window limiter they share is the only state they
 * change, and the contract, provider and signer calls are foreign calls
 * whose outcomes are parameters and which each handler reports, in order.
 */
module ClaimRoute {
  import opened Wrappers
  import opened Js
  import Text
  import FixedWindow
  import Issuer

  /** `validateScore`'s answer: valid, or the reason it is not. */
  datatype Validation = Valid | Invalid(reason: string)

  /** The JSON bodies this route answers with. */
  datatype Body =
    | Error(error: string)
    | RetryLater(error: string, retryAfter: int)
    | ErrorDetails(error: string, details: Option<string>)
    | SignedScore(address: string, score: int, sessionId: string, signature: string,
                  timestamp: int, remaining: int)
    | Minted(txHash: string, blockNumber: int, tokens: int, newBalance: string,
             message: string, explorerUrl: string)

  /** The fields of a POST body the handler destructures; `score` is a JSON number, if present. */
  datatype ClaimBody = ClaimBody(
    playerAddress: Option<string>,
    score: Option<int>,
    sessionId: Option<string>,
    timestamp: Option<int>)

  const MaxScore: int := 10000
  /** How old a POST's `timestamp` may be, in milliseconds. */
  const FreshnessMs: int := 5 * 60 * 1000
  /** `ethers.parseEther('0.001')` in wei: the gas the server wallet must hold. */
  const MinGasWei: int := 1000000000000000
  const RateLimitedText: string := RateLimitPhrase + " exceeded. Please try again later."
  const RateLimitPhrase: string := "Rate limit"

  /**
   * The route's anti-cheat check on a JavaScript number (`None` is NaN, what
   * `parseInt` yields on text that is not a number). A valid score is a
   * multiple of 100 in [0, 10000]; the reasons are tried in the order
   * negative, too high, not a multiple of 100.
   */
  function ValidateScore(score: Option<int>): (v: Validation)
    ensures v == Valid <==> score.Some? && 0 <= score.value <= MaxScore && score.value % 100 == 0
    ensures score.Some? && score.value < 0 ==> v == Invalid("Score cannot be negative")
    ensures score.Some? && score.value > MaxScore ==> v == Invalid("Score too high (possible cheat)")
    ensures (score.None? || (0 <= score.value <= MaxScore && score.value % 100 != 0))
      ==> v == Invalid("Invalid score format")
  {
    match score
    case None => Invalid("Invalid score format")
    case Some(s) =>
      if s < 0 then Invalid("Score cannot be negative")
      else if s > MaxScore then Invalid("Score too high (possible cheat)")
      else if Js.Rem(s, 100) != 0 then Invalid("Invalid score format")
      else Valid
  }

  function BadRequest(error: string): Response<Body> {
    Response(400, Error(error), map[])
  }

  // ---------------------------------------------------------------- GET

  /**
   * The checks GET makes before the limiter: both parameters present and
   * non-empty, the address well formed, the score valid after `parseInt`.
   * `None` means all passed.
   */
  function GetPrecheck(address: Option<string>, score: Option<string>, isAddress: string -> bool)
    : (r: Option<Response<Body>>)
    ensures r.None? <==>
      Truthy(address) && Truthy(score) && isAddress(address.value)
      && ValidateScore(Text.ParseInt(score.value)) == Valid
    ensures r.Some? ==> r.value.status == 400
  {
    if !Truthy(address) || !Truthy(score) then
      Some(BadRequest("Missing required parameters: address and score"))
    else if !isAddress(address.value) then
      Some(BadRequest("Invalid Ethereum address"))
    else match ValidateScore(Text.ParseInt(score.value))
      case Invalid(reason) => Some(BadRequest(reason))
      case Valid => None
  }

  /** The headers GET sets on a rate-limited reply. */
  function RetryHeaders(): map<string, string> {
    map["X-RateLimit-Limit" := Text.IntToString(FixedWindow.MaxClaims),
        "X-RateLimit-Remaining" := "0",
        "Retry-After" := Text.IntToString(FixedWindow.WindowMs / 1000)]
  }

  /** `timestamp ? parseInt(timestamp) : Date.now()`. */
  function SignedTimestamp(timestamp: Option<string>, now: int): Option<int> {
    if Truthy(timestamp) then Text.ParseInt(timestamp.value) else Some(now)
  }

  /** The 500 of GET's `catch`. */
  function SignatureFailure(e: Thrown): Response<Body> {
    Response(500, ErrorDetails("Failed to generate signature", e.message), map[])
  }

  /**
   * GET after the limiter gave its verdict: a 429; or, when the timestamp
   * cannot be packed as a `uint256`, the 500 of the exception `encodeError`
   * that `generateSessionId` throws; or one signing call and its outcome.
   */
  function GetAfterLimiter(verdict: FixedWindow.Verdict, address: string, score: int,
                           timestamp: Option<string>, now: int, encodeError: Thrown, sign: Reply<Issuer.Signed>)
    : (Response<Body>, seq<Issuer.Call>)
  {
    if !verdict.allowed then
      (Response(429, RetryLater(RateLimitedText, FixedWindow.WindowMs / 1000), RetryHeaders()), [])
    else
      var ts := SignedTimestamp(timestamp, now);
      if !Issuer.EncodableUint(ts) then (SignatureFailure(encodeError), [])
      else
        var calls := [Issuer.SignClaim(address, score, ts.value)];
        match sign
        case Threw(e) => (SignatureFailure(e), calls)
        case Returned(s) =>
          (Response(200, SignedScore(address, score, s.sessionId, s.signature, ts.value, verdict.remaining),
                    map["X-RateLimit-Limit" := Text.IntToString(FixedWindow.MaxClaims),
                        "X-RateLimit-Remaining" := Text.IntToString(verdict.remaining)]),
           calls)
  }

  /** GET as a whole: its response, its foreign calls and the limiter's table afterwards. */
  function GetSpec(records: map<string, FixedWindow.Window>, address: Option<string>, score: Option<string>,
                   timestamp: Option<string>, isAddress: string -> bool, now: int, encodeError: Thrown,
                   sign: Reply<Issuer.Signed>)
    : (Response<Body>, seq<Issuer.Call>, map<string, FixedWindow.Window>)
  {
    match GetPrecheck(address, score, isAddress)
    case Some(rejection) => (rejection, [], records)
    case None =>
      var o := FixedWindow.Step(records, address.value, now);
      var (response, calls) := GetAfterLimiter(o.verdict, address.value, Text.ParseInt(score.value).value,
                                               timestamp, now, encodeError, sign);
      (response, calls, o.records)
  }

  /**
   * The GET handler; `isAddress` is `ethers.isAddress`, `encodeError` what
   * ethers throws for a timestamp it cannot pack, `sign` what deriving the
   * session id and signing produced.
   */
  method Get(limiter: FixedWindow.Limiter, address: Option<string>, score: Option<string>,
             timestamp: Option<string>, isAddress: string -> bool, now: int, encodeError: Thrown,
             sign: Reply<Issuer.Signed>)
    returns (response: Response<Body>, calls: seq<Issuer.Call>)
    requires limiter.Valid()
    modifies limiter
    ensures limiter.Valid()
    ensures (response, calls, limiter.records)
      == GetSpec(old(limiter.records), address, score, timestamp, isAddress, now, encodeError, sign)
  {
    var rejection := GetPrecheck(address, score, isAddress);
    if rejection.Some? {
      return rejection.value, [];
    }
    var allowed, remaining := limiter.Check(address.value, now);
    var outcome := GetAfterLimiter(FixedWindow.Verdict(allowed, remaining), address.value,
                                   Text.ParseInt(score.value).value, timestamp, now, encodeError, sign);
    response, calls := outcome.0, outcome.1;
  }

  /** A GET rejected by its own checks consumes no quota and calls nothing. */
  lemma GetRejectionCostsNoQuota(records: map<string, FixedWindow.Window>, address: Option<string>,
                                 score: Option<string>, timestamp: Option<string>, isAddress: string -> bool,
                                 now: int, encodeError: Thrown, sign: Reply<Issuer.Signed>)
    requires !Truthy(address) || !Truthy(score) || !isAddress(address.value)
             || ValidateScore(Text.ParseInt(score.value)) != Valid
    ensures var (response, calls, records') := GetSpec(records, address, score, timestamp, isAddress, now, encodeError, sign);
      response.status == 400 && calls == [] && records' == records
  {
  }

  /** A score that `parseInt` cannot read at all is reported as a format error, not let through. */
  lemma GetNaNScore(records: map<string, FixedWindow.Window>, address: string, score: string,
                    timestamp: Option<string>, isAddress: string -> bool, now: int, encodeError: Thrown,
                    sign: Reply<Issuer.Signed>)
    requires address != "" && score != "" && isAddress(address) && Text.ParseInt(score).None?
    ensures GetSpec(records, Some(address), Some(score), timestamp, isAddress, now, encodeError, sign).0
      == BadRequest("Invalid score format")
  {
  }

  /**
   * A GET the limiter refuses gets 429 with `retryAfter` 3600 seconds and
   * the matching headers, and nothing is signed.
   */
  lemma GetRateLimited(records: map<string, FixedWindow.Window>, address: string, score: string,
                       timestamp: Option<string>, isAddress: string -> bool, now: int, encodeError: Thrown,
                    sign: Reply<Issuer.Signed>)
    requires GetPrecheck(Some(address), Some(score), isAddress).None?
    requires !FixedWindow.Step(records, address, now).verdict.allowed
    ensures var (response, calls, records') := GetSpec(records, Some(address), Some(score), timestamp, isAddress, now, encodeError, sign);
      && response.status == 429
      && response.body == RetryLater(RateLimitedText, 3600)
      && response.headers == map["X-RateLimit-Limit" := "10", "X-RateLimit-Remaining" := "0", "Retry-After" := "3600"]
      && calls == [] && records' == records
  {
    RetryHeaderValues();
    assert FixedWindow.Step(records, address, now).records == records;
  }

  lemma RetryHeaderValues()
    ensures RetryHeaders() == map["X-RateLimit-Limit" := "10", "X-RateLimit-Remaining" := "0", "Retry-After" := "3600"]
  {
    assert Text.IntToString(10) == "10";
    assert Text.IntToString(3600) == "3600";
  }

  /**
   * A GET the limiter admits signs exactly once, for this address, the
   * parsed score and the given (or current) timestamp, and reports the
   * limiter's `remaining`.
   */
  lemma GetSignsOnce(records: map<string, FixedWindow.Window>, address: string, score: string,
                     timestamp: Option<string>, isAddress: string -> bool, now: int, encodeError: Thrown,
                     s: Issuer.Signed)
    requires GetPrecheck(Some(address), Some(score), isAddress).None?
    requires FixedWindow.Step(records, address, now).verdict.allowed
    requires Issuer.EncodableUint(SignedTimestamp(timestamp, now))
    ensures var (response, calls, records') :=
        GetSpec(records, Some(address), Some(score), timestamp, isAddress, now, encodeError, Returned(s));
      var ts := if timestamp.Some? && timestamp.value != "" then Text.ParseInt(timestamp.value).value else now;
      && 0 <= ts
      && calls == [Issuer.SignClaim(address, Text.ParseInt(score).value, ts)]
      && response.status == 200
      && response.body.SignedScore?
      && response.body.signature == s.signature && response.body.timestamp == ts
      && response.body.remaining == FixedWindow.Step(records, address, now).verdict.remaining
      && records' == FixedWindow.Step(records, address, now).records
  {
  }

  /**
   * A timestamp that cannot be packed (text parseInt cannot read, a
   * negative or an unsafe number) fails before anything is signed, but only
   * after the limiter counted the call.
   */
  lemma GetUnpackableTimestamp(records: map<string, FixedWindow.Window>, address: string, score: string,
                               timestamp: Option<string>, isAddress: string -> bool, now: int, encodeError: Thrown,
                               sign: Reply<Issuer.Signed>)
    requires GetPrecheck(Some(address), Some(score), isAddress).None?
    requires FixedWindow.Step(records, address, now).verdict.allowed
    requires !Issuer.EncodableUint(SignedTimestamp(timestamp, now))
    ensures var (response, calls, records') :=
        GetSpec(records, Some(address), Some(score), timestamp, isAddress, now, encodeError, sign);
      && response == Response(500, ErrorDetails("Failed to generate signature", encodeError.message), map[])
      && calls == []
      && records' == FixedWindow.Step(records, address, now).records
  {
  }

  /** Text that does not start with a digit, such as "abc", is a timestamp parseInt cannot read. */
  lemma LetterTimestampUnpackable(now: int)
    ensures !Issuer.EncodableUint(SignedTimestamp(Some("abc"), now))
  {
    Text.ParseIntOfLetter("abc");
  }

  // ---------------------------------------------------------------- POST

  /**
   * The message POST reports for an exception, by priority: the funds code,
   * an authorization revert, a duplicate-session revert, the raw message,
   * and a default.
   */
  function MintErrorMessage(e: Thrown): (m: string)
    ensures e.code == Some("INSUFFICIENT_FUNDS") ==> m == "Server wallet has insufficient funds"
    ensures e.code != Some("INSUFFICIENT_FUNDS") && MessageIncludes(e, "Only game admins")
      ==> m == "Server wallet is not authorized as game admin"
    ensures (e.code != Some("INSUFFICIENT_FUNDS") && !MessageIncludes(e, "Only game admins")
             && MessageIncludes(e, "Session already claimed"))
      ==> m == "This game session has already been claimed"
    ensures (e.code != Some("INSUFFICIENT_FUNDS") && !MessageIncludes(e, "Only game admins")
             && !MessageIncludes(e, "Session already claimed"))
      ==> m == OrElse(e.message, "Failed to mint tokens")
  {
    if e.code == Some("INSUFFICIENT_FUNDS") then "Server wallet has insufficient funds"
    else if MessageIncludes(e, "Only game admins") then "Server wallet is not authorized as game admin"
    else if MessageIncludes(e, "Session already claimed") then "This game session has already been claimed"
    else if Truthy(e.message) then e.message.value
    else "Failed to mint tokens"
  }

  /** The 500 of POST's `catch`; the raw message is echoed only in development. */
  function MintFailure(e: Thrown, development: bool): Response<Body> {
    Response(500, ErrorDetails(MintErrorMessage(e), if development then e.message else None), map[])
  }

  /**
   * The checks POST makes before the limiter: address, score and session id
   * present, the address well formed, the score valid. `None` means all passed.
   */
  function PostPrecheck(body: ClaimBody, isAddress: string -> bool): (r: Option<Response<Body>>)
    ensures r.None? <==>
      Truthy(body.playerAddress) && body.score.Some? && Truthy(body.sessionId)
      && isAddress(body.playerAddress.value) && ValidateScore(body.score) == Valid
    ensures r.Some? ==> r.value.status == 400
  {
    if !Truthy(body.playerAddress) || body.score.None? || !Truthy(body.sessionId) then
      Some(BadRequest("Missing required fields: playerAddress, score, sessionId"))
    else if !isAddress(body.playerAddress.value) then
      Some(BadRequest("Invalid Ethereum address"))
    else match ValidateScore(body.score)
      case Invalid(reason) => Some(BadRequest(reason))
      case Valid => None
  }

  /** A truthy `timestamp` more than five minutes before `now`. */
  predicate Expired(timestamp: Option<int>, now: int) {
    TruthyNumber(timestamp) && now - timestamp.value > FreshnessMs
  }

  /**
   * POST after an admitting limiter: the freshness check, then the contract
   * and provider calls in order, each of which may throw into the `catch`.
   */
  function PostAfterLimiter(allowed: bool, player: string, score: int, sessionId: string, timestamp: Option<int>,
                            now: int, claimed: Reply<bool>, gas: Reply<int>, mint: Reply<Issuer.Receipt>,
                            newBalance: Reply<string>, development: bool)
    : (Response<Body>, seq<Issuer.Call>)
  {
    if !allowed then (Response(429, Error(RateLimitedText), map[]), [])
    else if Expired(timestamp, now) then (BadRequest("Session expired. Please play again."), [])
    else
      var c1 := [Issuer.ClaimedSessions(sessionId)];
      match claimed
      case Threw(e) => (MintFailure(e, development), c1)
      case Returned(true) => (BadRequest("This game session has already been claimed"), c1)
      case Returned(false) =>
        var c2 := c1 + [Issuer.GasBalance];
        match gas
        case Threw(e) => (MintFailure(e, development), c2)
        case Returned(wei) =>
          if wei < MinGasWei then
            (Response(500, Error("Server wallet low on gas. Please contact support."), map[]), c2)
          else
            var coins := score / 100;
            var c3 := c2 + [Issuer.MintReward(player, coins, sessionId)];
            match mint
            case Threw(e) => (MintFailure(e, development), c3)
            case Returned(receipt) =>
              var balanceText := match newBalance case Returned(b) => b case Threw(_) => "0";
              (Response(200, Minted(receipt.hash, receipt.blockNumber, coins, balanceText,
                                    "Successfully minted " + Text.IntToString(coins) + " MARIO tokens!",
                                    "https://sepolia.etherscan.io/tx/" + receipt.hash), map[]),
               c3 + [Issuer.BalanceOf(player)])
  }

  /** POST as a whole: its response, its foreign calls and the limiter's table afterwards. */
  function PostSpec(records: map<string, FixedWindow.Window>, request: Reply<ClaimBody>, isAddress: string -> bool,
                    now: int, claimed: Reply<bool>, gas: Reply<int>, mint: Reply<Issuer.Receipt>,
                    newBalance: Reply<string>, development: bool)
    : (Response<Body>, seq<Issuer.Call>, map<string, FixedWindow.Window>)
  {
    match request
    case Threw(e) => (MintFailure(e, development), [], records)
    case Returned(body) =>
      match PostPrecheck(body, isAddress)
      case Some(rejection) => (rejection, [], records)
      case None =>
        var o := FixedWindow.Step(records, body.playerAddress.value, now);
        var (response, calls) := PostAfterLimiter(o.verdict.allowed, body.playerAddress.value, body.score.value,
                                                  body.sessionId.value, body.timestamp, now,
                                                  claimed, gas, mint, newBalance, development);
        (response, calls, o.records)
  }

  /** The POST handler; `request` is what `req.json()` produced. */
  method Post(limiter: FixedWindow.Limiter, request: Reply<ClaimBody>, isAddress: string -> bool, now: int,
              claimed: Reply<bool>, gas: Reply<int>, mint: Reply<Issuer.Receipt>, newBalance: Reply<string>,
              development: bool)
    returns (response: Response<Body>, calls: seq<Issuer.Call>)
    requires limiter.Valid()
    modifies limiter
    ensures limiter.Valid()
    ensures (response, calls, limiter.records)
      == PostSpec(old(limiter.records), request, isAddress, now, claimed, gas, mint, newBalance, development)
  {
    if request.Threw? {
      return MintFailure(request.error, development), [];
    }
    var body := request.value;
    var rejection := PostPrecheck(body, isAddress);
    if rejection.Some? {
      return rejection.value, [];
    }
    var allowed, _ := limiter.Check(body.playerAddress.value, now);
    var outcome := PostAfterLimiter(allowed, body.playerAddress.value, body.score.value, body.sessionId.value,
                                    body.timestamp, now, claimed, gas, mint, newBalance, development);
    response, calls := outcome.0, outcome.1;
  }

  /** A POST rejected by its own checks consumes no quota and calls nothing. */
  lemma PostRejectionCostsNoQuota(records: map<string, FixedWindow.Window>, body: ClaimBody, isAddress: string -> bool,
                                  now: int, claimed: Reply<bool>, gas: Reply<int>, mint: Reply<Issuer.Receipt>,
                                  newBalance: Reply<string>, development: bool)
    requires PostPrecheck(body, isAddress).Some?
    ensures var (response, calls, records') :=
        PostSpec(records, Returned(body), isAddress, now, claimed, gas, mint, newBalance, development);
      response.status == 400 && calls == [] && records' == records
  {
  }

  /**
   * The freshness check runs after the limiter, so an expired POST is
   * refused with 400 yet still counts against the address's quota.
   */
  lemma PostExpiredCostsQuota(records: map<string, FixedWindow.Window>, body: ClaimBody, isAddress: string -> bool,
                              now: int, claimed: Reply<bool>, gas: Reply<int>, mint: Reply<Issuer.Receipt>,
                              newBalance: Reply<string>, development: bool)
    requires PostPrecheck(body, isAddress).None?
    requires FixedWindow.Step(records, body.playerAddress.value, now).verdict.allowed
    requires Expired(body.timestamp, now)
    ensures var (response, calls, records') :=
        PostSpec(records, Returned(body), isAddress, now, claimed, gas, mint, newBalance, development);
      && response == BadRequest("Session expired. Please play again.")
      && calls == []
      && records' == FixedWindow.Step(records, body.playerAddress.value, now).records
      && records' != records
  {
    var address := body.playerAddress.value;
    var records' := FixedWindow.Step(records, address, now).records;
    if !FixedWindow.StartsNewWindow(records, address, now) {
      assert records'[address].count == records[address].count + 1;
    } else if address in records {
      assert records'[address].resetTime == now + FixedWindow.WindowMs != records[address].resetTime;
    }
  }

  /**
   * Mint is attempted only for a session the contract reports unclaimed,
   * with gas in the wallet, and then for score / 100 coins to the player.
   */
  lemma PostMintsOnlyUnclaimed(records: map<string, FixedWindow.Window>, request: Reply<ClaimBody>,
                               isAddress: string -> bool, now: int, claimed: Reply<bool>, gas: Reply<int>,
                               mint: Reply<Issuer.Receipt>, newBalance: Reply<string>, development: bool,
                               player: string, coins: int, sessionId: string)
    requires Issuer.MintReward(player, coins, sessionId)
      in PostSpec(records, request, isAddress, now, claimed, gas, mint, newBalance, development).1
    ensures request.Returned? && PostPrecheck(request.value, isAddress).None?
    ensures player == request.value.playerAddress.value && sessionId == request.value.sessionId.value
    ensures FixedWindow.Step(records, player, now).verdict.allowed
    ensures !Expired(request.value.timestamp, now)
    ensures claimed == Returned(false) && gas.Returned? && gas.value >= MinGasWei
    ensures coins * 100 == request.value.score.value && 0 <= coins <= 100
  {
    var calls := PostSpec(records, request, isAddress, now, claimed, gas, mint, newBalance, development).1;
    assert calls != [];
    var body := request.value;
    var o := FixedWindow.Step(records, body.playerAddress.value, now);
    MintCallAfterChecks(o.verdict.allowed, body.playerAddress.value, body.score.value, body.sessionId.value,
                        body.timestamp, now, claimed, gas, mint, newBalance, development, player, coins, sessionId);
  }

  /** The mint call of POST comes after every check, with the request's player and session and score / 100 coins. */
  lemma MintCallAfterChecks(allowed: bool, player: string, score: int, sessionId: string, timestamp: Option<int>,
                            now: int, claimed: Reply<bool>, gas: Reply<int>, mint: Reply<Issuer.Receipt>,
                            newBalance: Reply<string>, development: bool,
                            player': string, coins: int, sessionId': string)
    requires Issuer.MintReward(player', coins, sessionId')
      in PostAfterLimiter(allowed, player, score, sessionId, timestamp, now, claimed, gas, mint, newBalance, development).1
    ensures allowed && !Expired(timestamp, now)
    ensures claimed == Returned(false) && gas.Returned? && gas.value >= MinGasWei
    ensures player' == player && sessionId' == sessionId && coins == score / 100
  {
  }

  /** A confirmed mint reports `score / 100` tokens, its transaction hash and the explorer link. */
  lemma PostSuccess(records: map<string, FixedWindow.Window>, body: ClaimBody, isAddress: string -> bool, now: int,
                    gas: int, receipt: Issuer.Receipt, newBalance: Reply<string>, development: bool)
    requires PostPrecheck(body, isAddress).None?
    requires FixedWindow.Step(records, body.playerAddress.value, now).verdict.allowed
    requires !Expired(body.timestamp, now) && gas >= MinGasWei
    ensures var (response, calls, _) := PostSpec(records, Returned(body), isAddress, now, Returned(false),
                                                 Returned(gas), Returned(receipt), newBalance, development);
      var coins := body.score.value / 100;
      && response.status == 200
      && response.body.Minted?
      && response.body.tokens * 100 == body.score.value
      && response.body.txHash == receipt.hash
      && response.body.explorerUrl == "https://sepolia.etherscan.io/tx/" + receipt.hash
      && response.body.newBalance == (if newBalance.Returned? then newBalance.value else "0")
      && calls == [Issuer.ClaimedSessions(body.sessionId.value), Issuer.GasBalance,
                   Issuer.MintReward(body.playerAddress.value, coins, body.sessionId.value),
                   Issuer.BalanceOf(body.playerAddress.value)]
  {
  }

  /** A revert mentioning both admins and duplicates is reported as the authorization failure. */
  lemma MintErrorPriority(message: string)
    requires Text.Contains(message, "Only game admins") && Text.Contains(message, "Session already claimed")
    ensures MintErrorMessage(Thrown(None, Some(message))) == "Server wallet is not authorized as game admin"
    ensures MintErrorMessage(Thrown(Some("INSUFFICIENT_FUNDS"), Some(message))) == "Server wallet has insufficient funds"
  {
  }
}
