/**
 * The browser's two EVM claim paths: through the backend claim route, and
 * straight to the contract from the player's wallet. Each guards the score
 * (the direct path first checks that a contract address is configured),
 * raises the "claiming" flag around the one request it makes, and turns the
 * failure into a message by substring priority. The session id packs
 * the address and two unsigned integers, which can throw before any request
 * is made; the keccak of the packed bytes is the parameter `keccak`,
 * `ethers.isAddress` is `isAddress` and what ethers throws is `encodeError`.
 * `Date.now()` is `now`; the fetch, the contract call and the wait for its
 * receipt are `Reply` parameters.
 */
module ClaimTokenBackend {
  import opened Wrappers
  import opened Js
  import Text
  import ClaimRoute
  import Issuer

  /** The body POSTed to the claim route. */
  datatype BackendRequest = BackendRequest(playerAddress: string, score: int, sessionId: string, timestamp: int)

  /** What the browser does that others can observe, in order. */
  datatype Effect =
    | SetClaiming(claiming: bool)
    | PostedClaim(request: BackendRequest)
    | CalledMintReward(contract: string, player: string, coins: real, sessionId: string)

  /** `ClaimResponse`; tokens are a JavaScript number, so a real. */
  datatype ClaimResponse = ClaimResponse(success: bool, txHash: Option<string>, tokens: Option<real>, error: Option<string>)

  function Failure(error: string): ClaimResponse {
    ClaimResponse(false, None, None, Some(error))
  }

  const NoCoins: string := "You need to collect at least 1 coin!"

  /**
   * Whether `solidityPacked(['address','uint256','uint256'], …)` accepts the
   * arguments: an address ethers accepts and two unsigned safe integers.
   */
  predicate Packable(playerAddress: string, score: int, timestamp: int, isAddress: string -> bool) {
    isAddress(playerAddress) && Issuer.EncodableUint(Some(score)) && Issuer.EncodableUint(Some(timestamp))
  }

  /** `generateSessionId`: the keccak of the packed arguments, or what packing them throws. */
  function GenerateSessionId(playerAddress: string, score: int, timestamp: int, isAddress: string -> bool,
                             keccak: (string, int, int) -> string, encodeError: Thrown): Reply<string>
  {
    if Packable(playerAddress, score, timestamp, isAddress) then Returned(keccak(playerAddress, score, timestamp))
    else Threw(encodeError)
  }

  /** The value of the "claiming" flag after `log`, starting from `initial`. */
  function ClaimingAfter(initial: bool, log: seq<Effect>): bool
    decreases |log|
  {
    if log == [] then initial
    else if log[|log| - 1].SetClaiming? then log[|log| - 1].claiming
    else ClaimingAfter(initial, log[..|log| - 1])
  }

  /** The browser: the React `setIsClaiming` callback, `fetch` and the wallet, seen as a log of effects. */
  class Browser {
    var log: seq<Effect>

    constructor ()
      ensures log == []
    {
      log := [];
    }

    method SetIsClaiming(claiming: bool)
      modifies this
      ensures log == old(log) + [SetClaiming(claiming)]
    {
      log := log + [SetClaiming(claiming)];
    }

    method Record(e: Effect)
      modifies this
      ensures log == old(log) + [e]
    {
      log := log + [e];
    }
  }

  /**
   * The message `claimTokensViaBackend` shows for a failure: rate limit,
   * then a claimed session, then an expired session, then the raw message,
   * then the default text; the first match wins.
   */
  function BackendErrorMessage(e: Thrown): (m: string)
    ensures MessageIncludes(e, "Rate limit") ==> m == "Too many claims. Please wait before trying again."
    ensures !MessageIncludes(e, "Rate limit") && MessageIncludes(e, "already been claimed")
      ==> m == "This game session has already been claimed."
    ensures (!MessageIncludes(e, "Rate limit") && !MessageIncludes(e, "already been claimed")
             && MessageIncludes(e, "Session expired"))
      ==> m == "Session expired. Please play again."
    ensures (!MessageIncludes(e, "Rate limit") && !MessageIncludes(e, "already been claimed")
             && !MessageIncludes(e, "Session expired"))
      ==> m == OrElse(e.message, "Failed to claim tokens. Please try again.")
  {
    if MessageIncludes(e, "Rate limit") then "Too many claims. Please wait before trying again."
    else if MessageIncludes(e, "already been claimed") then "This game session has already been claimed."
    else if MessageIncludes(e, "Session expired") then "Session expired. Please play again."
    else if Truthy(e.message) then e.message.value
    else "Failed to claim tokens. Please try again."
  }

  function TokensOf(n: Option<int>): Option<real> {
    match n
    case None => None
    case Some(t) => Some(t as real)
  }

  /** The result of the POST: the route's fields on `ok`, else the classified exception. */
  function BackendResult(reply: Reply<HttpReply>): ClaimResponse {
    match reply
    case Threw(e) => Failure(BackendErrorMessage(e))
    case Returned(http) =>
      match http.json
      case Threw(e) => Failure(BackendErrorMessage(e))
      case Returned(data) =>
        if !http.ok then Failure(BackendErrorMessage(ErrorOf(OrElse(data.error, UntextedText))))
        else ClaimResponse(true, data.txHash, TokensOf(data.tokens), None)
  }

  /** `claimTokensViaBackend` at instant `now`: its result and its effects. */
  function BackendSpec(score: int, playerAddress: string, now: int, isAddress: string -> bool,
                       keccak: (string, int, int) -> string, encodeError: Thrown, reply: Reply<HttpReply>)
    : (ClaimResponse, seq<Effect>)
  {
    if score <= 0 then (Failure(NoCoins), [])
    else
      match GenerateSessionId(playerAddress, score, now, isAddress, keccak, encodeError)
      case Threw(e) => (Failure(BackendErrorMessage(e)), [SetClaiming(true), SetClaiming(false)])
      case Returned(sessionId) =>
        var request := BackendRequest(playerAddress, score, sessionId, now);
        (BackendResult(reply), [SetClaiming(true), PostedClaim(request), SetClaiming(false)])
  }

  /** `claimTokensViaBackend`; `reply` is what the fetch and `response.json()` produced. */
  method ClaimTokensViaBackend(score: int, playerAddress: string, browser: Browser, now: int,
                               isAddress: string -> bool, keccak: (string, int, int) -> string,
                               encodeError: Thrown, reply: Reply<HttpReply>)
    returns (result: ClaimResponse)
    modifies browser
    ensures var (r, effects) := BackendSpec(score, playerAddress, now, isAddress, keccak, encodeError, reply);
      result == r && browser.log == old(browser.log) + effects
  {
    if score <= 0 {
      return Failure(NoCoins);
    }
    browser.SetIsClaiming(true);
    var sessionId := GenerateSessionId(playerAddress, score, now, isAddress, keccak, encodeError);
    match sessionId {
      case Threw(e) =>
        result := Failure(BackendErrorMessage(e));
      case Returned(id) =>
        browser.Record(PostedClaim(BackendRequest(playerAddress, score, id, now)));
        result := BackendResult(reply);
    }
    browser.SetIsClaiming(false);
  }

  /**
   * A non-positive score fails at once and does nothing else. Any other
   * score raises the flag and lowers it again at the end, whatever happens
   * between: arguments ethers cannot pack fail with the classified packing
   * error and send nothing; packable ones make exactly one request with
   * their session id.
   */
  lemma BackendGuardAndFlag(score: int, playerAddress: string, now: int, isAddress: string -> bool,
                            keccak: (string, int, int) -> string, encodeError: Thrown,
                            reply: Reply<HttpReply>, initial: bool)
    ensures var (result, effects) := BackendSpec(score, playerAddress, now, isAddress, keccak, encodeError, reply);
      && (score <= 0 ==> result == Failure(NoCoins) && effects == [])
      && (score > 0 ==>
            && 2 <= |effects| && ClaimingAfter(initial, effects[..1]) && !ClaimingAfter(initial, effects))
      && (score > 0 && !Packable(playerAddress, score, now, isAddress) ==>
            && effects == [SetClaiming(true), SetClaiming(false)]
            && result == Failure(BackendErrorMessage(encodeError)))
      && (score > 0 && Packable(playerAddress, score, now, isAddress) ==>
            && |effects| == 3 && effects[1].PostedClaim?
            && effects[1].request == BackendRequest(playerAddress, score, keccak(playerAddress, score, now), now))
      && (result.success <==> score > 0 && Packable(playerAddress, score, now, isAddress)
                              && reply.Returned? && reply.value.ok && reply.value.json.Returned?)
      && (!result.success ==> result.error.Some? && result.error.value != "")
  {
    var (result, effects) := BackendSpec(score, playerAddress, now, isAddress, keccak, encodeError, reply);
    if score > 0 {
      assert effects[..1] == [SetClaiming(true)];
      if Packable(playerAddress, score, now, isAddress) {
        assert effects[1] == PostedClaim(BackendRequest(playerAddress, score, keccak(playerAddress, score, now), now));
        assert result == BackendResult(reply);
      } else {
        assert result == Failure(BackendErrorMessage(encodeError));
      }
    }
    BackendFailureSaysWhy(reply);
    BackendMessageNonEmpty(encodeError);
  }

  /** Every classified failure has a message. */
  lemma BackendMessageNonEmpty(e: Thrown)
    ensures BackendErrorMessage(e) != ""
  {
  }

  /** A failed POST always carries a non-empty error. */
  lemma BackendFailureSaysWhy(reply: Reply<HttpReply>)
    ensures !BackendResult(reply).success ==> BackendResult(reply).error.Some? && BackendResult(reply).error.value != ""
  {
    match reply
    case Threw(e) => BackendMessageNonEmpty(e);
    case Returned(http) =>
      match http.json
      case Threw(e) => BackendMessageNonEmpty(e);
      case Returned(data) =>
        if !http.ok {
          BackendMessageNonEmpty(ErrorOf(OrElse(data.error, UntextedText)));
        }
  }

  /**
   * A score above `Number.MAX_SAFE_INTEGER` cannot be packed: the flag goes
   * up and down and no request is sent, for every address.
   */
  lemma UnsafeScoreSendsNothing(playerAddress: string, now: int, isAddress: string -> bool,
                                keccak: (string, int, int) -> string, encodeError: Thrown, reply: Reply<HttpReply>)
    ensures BackendSpec(Issuer.MaxSafeInteger + 1, playerAddress, now, isAddress, keccak, encodeError, reply).1
      == [SetClaiming(true), SetClaiming(false)]
  {
  }

  /** The route's rate-limit refusal is shown as "Too many claims". */
  lemma RateLimitRefusalClassified()
    ensures BackendErrorMessage(ErrorOf(ClaimRoute.RateLimitedText))
      == "Too many claims. Please wait before trying again."
  {
    RateLimitTextNamesRateLimit();
  }

  lemma RateLimitTextNamesRateLimit()
    ensures Text.Contains(ClaimRoute.RateLimitedText, "Rate limit")
  {
    Text.PrefixPart(ClaimRoute.RateLimitedText, ClaimRoute.RateLimitPhrase, " exceeded. Please try again later.");
  }

  /** The route's refusal of a claimed session hits the "already been claimed" branch. */
  lemma DuplicateRefusalClassified()
    ensures BackendErrorMessage(ErrorOf(DuplicateText)) == "This game session has already been claimed."
  {
    DuplicateTextNamesClaim();
    assert !Text.Contains(DuplicateText, "Rate limit") by {
      Text.MissingCharNotContained(DuplicateText, "Rate limit", 'R');
    }
  }

  const DuplicateText: string := "This game session has already been claimed"
  const ExpiredText: string := "Session expired. Please play again."
  const UntextedText: string := "Failed to claim tokens"

  lemma DuplicateTextNamesClaim()
    ensures MessageIncludes(ErrorOf(DuplicateText), "already been claimed")
  {
    Text.ContainsPart(DuplicateText, "This game session has ", "already been claimed", "");
  }

  lemma ExpiredTextNamesExpiry()
    ensures MessageIncludes(ErrorOf(ExpiredText), "Session expired")
  {
    Text.ContainsPart(ExpiredText, "", "Session expired", ". Please play again.");
  }

  /** The route's refusal of a stale timestamp hits the "Session expired" branch. */
  lemma ExpiryRefusalClassified()
    ensures BackendErrorMessage(ErrorOf(ExpiredText)) == "Session expired. Please play again."
  {
    assert !Text.Contains(ExpiredText, "Rate limit") by {
      Text.MissingCharNotContained(ExpiredText, "Rate limit", 'R');
    }
    assert !Text.Contains(ExpiredText, "already been claimed") by {
      Text.MissingCharNotContained(ExpiredText, "already been claimed", 'b');
    }
    assert MessageIncludes(ErrorOf(ExpiredText), "Session expired") by {
      ExpiredTextNamesExpiry();
    }
  }

  /** A refusal without an error text matches no branch and is shown as thrown. */
  lemma UntextedRefusalClassified()
    ensures BackendErrorMessage(ErrorOf(UntextedText)) == "Failed to claim tokens"
  {
    assert !Text.Contains(UntextedText, "Rate limit") by {
      Text.MissingCharNotContained(UntextedText, "Rate limit", 'R');
    }
    assert !Text.Contains(UntextedText, "already been claimed") by {
      Text.MissingCharNotContained(UntextedText, "already been claimed", 'b');
    }
    assert !Text.Contains(UntextedText, "Session expired") by {
      Text.MissingCharNotContained(UntextedText, "Session expired", 'S');
    }
  }

  /**
   * The message `claimTokensDirect` shows for a failure: an admin refusal,
   * then a claimed session, then a rejection in the wallet, then the raw
   * message, then "Transaction failed".
   */
  function DirectErrorMessage(e: Thrown): (m: string)
    ensures MessageIncludes(e, "Only game admins")
      ==> m == "Your wallet is not authorized. Please use the backend claim method."
    ensures !MessageIncludes(e, "Only game admins") && MessageIncludes(e, "Session already claimed")
      ==> m == "This game session has already been claimed."
    ensures (!MessageIncludes(e, "Only game admins") && !MessageIncludes(e, "Session already claimed")
             && e.code == Some("ACTION_REJECTED"))
      ==> m == "Transaction was rejected."
    ensures (!MessageIncludes(e, "Only game admins") && !MessageIncludes(e, "Session already claimed")
             && e.code != Some("ACTION_REJECTED"))
      ==> m == OrElse(e.message, "Transaction failed")
  {
    if MessageIncludes(e, "Only game admins") then "Your wallet is not authorized. Please use the backend claim method."
    else if MessageIncludes(e, "Session already claimed") then "This game session has already been claimed."
    else if e.code == Some("ACTION_REJECTED") then "Transaction was rejected."
    else if Truthy(e.message) then e.message.value
    else "Transaction failed"
  }

  /**
   * `claimTokensDirect` at instant `now` with the configured contract
   * address `contractAddress`; `mint` is the outcome of `mintReward` and of
   * waiting for its receipt.
   */
  function DirectSpec(contractAddress: Option<string>, score: int, playerAddress: string, now: int,
                      isAddress: string -> bool, keccak: (string, int, int) -> string, encodeError: Thrown,
                      mint: Reply<Issuer.Receipt>)
    : (ClaimResponse, seq<Effect>)
  {
    if !Truthy(contractAddress) then (Failure("Contract address not configured"), [])
    else if score <= 0 then (Failure(NoCoins), [])
    else
      match GenerateSessionId(playerAddress, score, now, isAddress, keccak, encodeError)
      case Threw(e) => (Failure(DirectErrorMessage(e)), [SetClaiming(true), SetClaiming(false)])
      case Returned(sessionId) =>
        var coins := score as real / 100.0;
        var call := CalledMintReward(contractAddress.value, playerAddress, coins, sessionId);
        (DirectResult(mint, coins), [SetClaiming(true), call, SetClaiming(false)])
  }

  /** The result of the contract call for `coins` coins: its hash, or the classified exception. */
  function DirectResult(mint: Reply<Issuer.Receipt>, coins: real): ClaimResponse {
    match mint
    case Threw(e) => Failure(DirectErrorMessage(e))
    case Returned(receipt) => ClaimResponse(true, Some(receipt.hash), Some(coins), None)
  }

  /** `claimTokensDirect`. */
  method ClaimTokensDirect(contractAddress: Option<string>, score: int, playerAddress: string, browser: Browser,
                           now: int, isAddress: string -> bool, keccak: (string, int, int) -> string,
                           encodeError: Thrown, mint: Reply<Issuer.Receipt>)
    returns (result: ClaimResponse)
    modifies browser
    ensures var (r, effects) := DirectSpec(contractAddress, score, playerAddress, now, isAddress, keccak, encodeError, mint);
      result == r && browser.log == old(browser.log) + effects
  {
    if contractAddress.None? || contractAddress.value == "" {
      return Failure("Contract address not configured");
    }
    if score <= 0 {
      return Failure(NoCoins);
    }
    browser.SetIsClaiming(true);
    var sessionId := GenerateSessionId(playerAddress, score, now, isAddress, keccak, encodeError);
    match sessionId {
      case Threw(e) =>
        result := Failure(DirectErrorMessage(e));
      case Returned(id) =>
        var coins := score as real / 100.0;
        browser.Record(CalledMintReward(contractAddress.value, playerAddress, coins, id));
        result := DirectResult(mint, coins);
    }
    browser.SetIsClaiming(false);
  }

  /**
   * The missing contract address is reported before the score, and both
   * refusals do nothing else. Past them the flag wraps the rest:
   * arguments ethers cannot pack fail with the classified packing error and
   * call no contract; otherwise the contract is asked for score / 100 coins
   * (a fraction when the score is not a multiple of 100) under the packed
   * session id, and the same figure is reported on success.
   */
  lemma DirectGuardsAndCoins(contractAddress: Option<string>, score: int, playerAddress: string, now: int,
                             isAddress: string -> bool, keccak: (string, int, int) -> string, encodeError: Thrown,
                             mint: Reply<Issuer.Receipt>, initial: bool)
    ensures var (result, effects) := DirectSpec(contractAddress, score, playerAddress, now, isAddress, keccak, encodeError, mint);
      && (!Truthy(contractAddress) ==> result == Failure("Contract address not configured") && effects == [])
      && (Truthy(contractAddress) && score <= 0 ==> result == Failure(NoCoins) && effects == [])
      && (Truthy(contractAddress) && score > 0 ==>
            2 <= |effects| && ClaimingAfter(initial, effects[..1]) && !ClaimingAfter(initial, effects))
      && (Truthy(contractAddress) && score > 0 && !Packable(playerAddress, score, now, isAddress) ==>
            && effects == [SetClaiming(true), SetClaiming(false)]
            && result == Failure(DirectErrorMessage(encodeError)))
      && (Truthy(contractAddress) && score > 0 && Packable(playerAddress, score, now, isAddress) ==>
            && |effects| == 3 && effects[1].CalledMintReward?
            && effects[1].coins * 100.0 == score as real
            && effects[1].sessionId == keccak(playerAddress, score, now)
            && (result.success <==> mint.Returned?)
            && (result.success ==> result.tokens == Some(effects[1].coins) && result.txHash == Some(mint.value.hash)))
  {
    var (_, effects) := DirectSpec(contractAddress, score, playerAddress, now, isAddress, keccak, encodeError, mint);
    if Truthy(contractAddress) && score > 0 {
      assert effects[..1] == [SetClaiming(true)];
    }
  }

  /** An address ethers rejects calls no contract: the flag only goes up and down. */
  lemma RejectedAddressCallsNothing(contractAddress: string, score: int, playerAddress: string, now: int,
                                    isAddress: string -> bool, keccak: (string, int, int) -> string,
                                    encodeError: Thrown, mint: Reply<Issuer.Receipt>)
    requires contractAddress != "" && score > 0 && !isAddress(playerAddress)
    ensures DirectSpec(Some(contractAddress), score, playerAddress, now, isAddress, keccak, encodeError, mint).1
      == [SetClaiming(true), SetClaiming(false)]
  {
  }

  /** A wallet's own rejection, whose message names neither contract check, is reported as rejected. */
  lemma WalletRejectionClassified()
    ensures DirectErrorMessage(Thrown(Some("ACTION_REJECTED"), Some(WalletRejectedText)))
      == "Transaction was rejected."
  {
    assert !MessageIncludes(Thrown(Some("ACTION_REJECTED"), Some(WalletRejectedText)), "Only game admins") by {
      Text.MissingCharNotContained(WalletRejectedText, "Only game admins", 'O');
    }
    assert !MessageIncludes(Thrown(Some("ACTION_REJECTED"), Some(WalletRejectedText)), "Session already claimed") by {
      Text.MissingCharNotContained(WalletRejectedText, "Session already claimed", 'S');
    }
  }

  const WalletRejectedText: string := "user rejected action"
}
