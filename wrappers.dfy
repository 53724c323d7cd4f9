/** Option and Result, the two failure-carrying datatypes the rest of the model uses. */
module Wrappers {

  datatype Option<+T> = None | Some(value: T)

  datatype Result<+T, +E> = Ok(value: T) | Err(error: E)
}

/**
 * The JavaScript side of the handlers, reduced to what they observe:
 * exceptions (with their optional `code` and `message`), the value or the
 * exception an awaited foreign call produced, and truthiness of optional
 * strings.
 */
module Js {
  import opened Wrappers
  import Text

  /** A caught exception: `error.code` and `error.message`, either possibly absent. */
  datatype Thrown = Thrown(code: Option<string>, message: Option<string>)

  /** What an awaited foreign call produced: its value, or the exception it threw. */
  datatype Reply<+T> = Returned(value: T) | Threw(error: Thrown)

  /** The fields of a JSON response body that the clients read. */
  datatype JsonBody = JsonBody(
    error: Option<string>,
    txHash: Option<string>,
    signature: Option<string>,
    tokens: Option<int>)

  /** A fetch response: `response.ok` and the outcome of `response.json()`. */
  datatype HttpReply = HttpReply(ok: bool, json: Reply<JsonBody>)

  /** What a route handler returns: the HTTP status, its JSON body and any extra headers. */
  datatype Response<+B> = Response(status: int, body: B, headers: map<string, string>)

  /** An optional string is truthy when present and non-empty. */
  predicate Truthy(s: Option<string>) {
    s.Some? && s.value != ""
  }

  /** An optional number is truthy when present and non-zero. */
  predicate TruthyNumber(n: Option<int>) {
    n.Some? && n.value != 0
  }

  /** `error.message?.includes(needle)`: false when the message is absent. */
  predicate MessageIncludes(e: Thrown, needle: string) {
    e.message.Some? && Text.Contains(e.message.value, needle)
  }

  /**
   * JavaScript's `a % b` on integers: the remainder truncates toward zero,
   * so it takes the sign of `a`.
   */
  function Rem(a: int, b: int): (r: int)
    requires b > 0
    ensures a >= 0 ==> r == a % b
    ensures a < 0 ==> -b < r <= 0
  {
    if a >= 0 then a % b else -((-a) % b)
  }

  /** An exception built by `new Error(text)`. */
  function ErrorOf(text: string): Thrown {
    Thrown(None, Some(text))
  }

  /** `a || b` on optional strings: `a` when truthy, else `b`. */
  function OrElse(a: Option<string>, b: string): (r: string)
    ensures Truthy(a) ==> r == a.value
    ensures !Truthy(a) ==> r == b
  {
    if Truthy(a) then a.value else b
  }
}

/**
 * The EVM reward contract the claim routes call, seen from outside: the
 * calls a handler makes, recorded in order, and what a confirmed
 * transaction reports.
 */
module Issuer {
  import opened Wrappers

  /** A mined transaction's receipt. */
  datatype Receipt = Receipt(hash: string, blockNumber: int)

  /** What the backend wallet signed for a GET request. */
  datatype Signed = Signed(sessionId: string, signature: string)

  /** One foreign call made by a handler, with its arguments. */
  datatype Call =
    | SignClaim(address: string, score: int, timestamp: int)
    | ClaimedSessions(sessionId: string)
    | GasBalance
    | MintReward(player: string, coins: int, sessionId: string)
    | BalanceOf(player: string)

  /** `Number.MAX_SAFE_INTEGER`, 2^53 - 1. */
  const MaxSafeInteger: int := 9007199254740991

  /**
   * Whether ethers (version 6) accepts a JavaScript number as a `uint256`
   * argument: it must be a safe integer and not negative. NaN and
   * `undefined` (`None`), a negative number and an unsafe one all make the
   * call throw while its arguments are encoded, before anything is sent.
   */
  predicate EncodableUint(v: Option<int>) {
    v.Some? && 0 <= v.value <= MaxSafeInteger
  }
}
