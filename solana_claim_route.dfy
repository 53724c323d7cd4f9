/**
 * The Solana claim route (demo mode): POST checks the request, consumes
 * quota from its own fixed-window limiter, checks freshness and answers
 * with `score / 100` tokens and a random 88-character mock signature. No
 * chain call is made; `Math.random` is a supplied sequence of samples.
 */
module SolanaClaimRoute {
  import opened Wrappers
  import opened Js
  import Text
  import FixedWindow
  import ClaimRoute

  /** The JSON bodies this route answers with. */
  datatype Body =
    | Error(error: string)
    | ErrorDetails(error: string, details: Option<string>)
    | Claimed(signature: string, tokens: int, message: string, explorerUrl: string)

  /**
   * The fields of a POST body the handler destructures. The handler only
   * tests `sessionId` for truthiness, so it is kept as optional text; the
   * Solana client sends an array of 32 numbers there, which is always truthy.
   */
  datatype ClaimBody = ClaimBody(
    playerAddress: Option<string>,
    score: Option<int>,
    gameType: Option<string>,
    sessionId: Option<string>,
    timestamp: Option<int>)

  const SignatureLength: nat := 88
  /**
   * The signature alphabet "ABCDEFGHIJKLMNOPQRSTUVWXYZabcdefghijklmnopqrstuvwxyz0123456789":
   * the 26 capitals, the 26 small letters and the ten digits, in that order.
   */
  function Alphabet(): (a: string)
    ensures |a| == 62
  {
    seq(26, i requires 0 <= i < 26 => ('A' as int + i) as char)
    + seq(26, i requires 0 <= i < 26 => ('a' as int + i) as char)
    + seq(10, i requires 0 <= i < 10 => ('0' as int + i) as char)
  }

  /** The route's `validateScore`: like the EVM route's, with a shorter too-high reason. */
  function ValidateScore(score: int): (v: ClaimRoute.Validation)
    ensures v == ClaimRoute.Valid <==> 0 <= score <= 10000 && score % 100 == 0
    ensures score < 0 ==> v == ClaimRoute.Invalid("Score cannot be negative")
    ensures score > 10000 ==> v == ClaimRoute.Invalid("Score too high")
    ensures 0 <= score <= 10000 && score % 100 != 0 ==> v == ClaimRoute.Invalid("Invalid score format")
  {
    if score < 0 then ClaimRoute.Invalid("Score cannot be negative")
    else if score > 10000 then ClaimRoute.Invalid("Score too high")
    else if Js.Rem(score, 100) != 0 then ClaimRoute.Invalid("Invalid score format")
    else ClaimRoute.Valid
  }

  /** Both routes accept the same scores and give the same reasons except for the too-high text. */
  lemma ValidateScoreAgrees(score: int)
    ensures ValidateScore(score).Valid? <==> ClaimRoute.ValidateScore(Some(score)).Valid?
    ensures score <= 10000 ==> ValidateScore(score) == ClaimRoute.ValidateScore(Some(score))
  {
  }

  predicate IsAlphanumeric(c: char) {
    'A' <= c <= 'Z' || 'a' <= c <= 'z' || '0' <= c <= '9'
  }

  /** A sample `Math.random()` may return. */
  predicate IsUnitSample(r: real) {
    0.0 <= r < 1.0
  }

  /** `Math.floor(r * 62)` for a sample `r`: an index into the alphabet. */
  function AlphabetIndex(r: real): (i: nat)
    requires IsUnitSample(r)
    ensures i < |Alphabet()|
  {
    (r * 62.0).Floor
  }

  /**
   * The mock signature: 88 characters, the i-th drawn from the alphabet at
   * the index the i-th sample selects.
   */
  function MockSignature(samples: seq<real>): (s: string)
    requires |samples| == SignatureLength
    requires forall i | 0 <= i < |samples| :: IsUnitSample(samples[i])
    ensures |s| == SignatureLength
    ensures forall i | 0 <= i < |s| :: s[i] == Alphabet()[AlphabetIndex(samples[i])]
  {
    seq(SignatureLength, i requires 0 <= i < SignatureLength => Alphabet()[AlphabetIndex(samples[i])])
  }

  /** Every character of the mock signature is one of the 62 ASCII letters and digits. */
  lemma MockSignatureAlphanumeric(samples: seq<real>)
    requires |samples| == SignatureLength
    requires forall i | 0 <= i < |samples| :: IsUnitSample(samples[i])
    ensures forall i | 0 <= i < SignatureLength :: IsAlphanumeric(MockSignature(samples)[i])
  {
    forall k | 0 <= k < |Alphabet()|
      ensures IsAlphanumeric(Alphabet()[k])
    {
    }
  }

  /** The Solana Explorer link of a devnet transaction. */
  function ExplorerUrl(signature: string): string {
    "https://explorer.solana.com/tx/" + signature + "?cluster=devnet"
  }

  /** `Math.floor(score / 100)`. */
  function Tokens(score: int): (t: int)
    ensures t * 100 <= score < t * 100 + 100
  {
    score / 100
  }

  /** For a score the route accepts, the division is exact and the reward lies in [0, 100]. */
  lemma TokensOfValidScore(score: int)
    requires ValidateScore(score) == ClaimRoute.Valid
    ensures Tokens(score) * 100 == score && 0 <= Tokens(score) <= 100
  {
  }

  function BadRequest(error: string): Response<Body> {
    Response(400, Error(error), map[])
  }

  /**
   * The checks POST makes before the limiter: address, score, game type and
   * session id present, the score valid. `None` means all passed.
   */
  function Precheck(body: ClaimBody): (r: Option<Response<Body>>)
    ensures r.None? <==>
      Truthy(body.playerAddress) && body.score.Some? && Truthy(body.gameType) && Truthy(body.sessionId)
      && ValidateScore(body.score.value) == ClaimRoute.Valid
    ensures r.Some? ==> r.value.status == 400
  {
    if !Truthy(body.playerAddress) || body.score.None? || !Truthy(body.gameType) || !Truthy(body.sessionId) then
      Some(BadRequest("Missing required fields: playerAddress, score, gameType, sessionId"))
    else match ValidateScore(body.score.value)
      case Invalid(reason) => Some(BadRequest(reason))
      case Valid => None
  }

  /** POST after the limiter: 429, the freshness check, then the demo claim. */
  function AfterLimiter(allowed: bool, score: int, gameType: string, timestamp: Option<int>, now: int,
                        samples: seq<real>)
    : Response<Body>
    requires |samples| == SignatureLength
    requires forall i | 0 <= i < |samples| :: IsUnitSample(samples[i])
  {
    if !allowed then Response(429, Error(ClaimRoute.RateLimitedText), map[])
    else if TruthyNumber(timestamp) && now - timestamp.value > ClaimRoute.FreshnessMs then
      BadRequest("Session expired.")
    else
      var tokens := Tokens(score);
      var signature := MockSignature(samples);
      Response(200, Claimed(signature, tokens,
                            "Successfully claimed " + Text.IntToString(tokens) + " " + Text.ToUpperAscii(gameType)
                            + " tokens on Solana Devnet!",
                            ExplorerUrl(signature)), map[])
  }

  /** POST as a whole: its response and the limiter's table afterwards. */
  function PostSpec(records: map<string, FixedWindow.Window>, request: Reply<ClaimBody>, now: int, samples: seq<real>)
    : (Response<Body>, map<string, FixedWindow.Window>)
    requires |samples| == SignatureLength
    requires forall i | 0 <= i < |samples| :: IsUnitSample(samples[i])
  {
    match request
    case Threw(e) => (Response(500, ErrorDetails("Failed to process Solana claim", e.message), map[]), records)
    case Returned(body) =>
      match Precheck(body)
      case Some(rejection) => (rejection, records)
      case None =>
        var o := FixedWindow.Step(records, body.playerAddress.value, now);
        (AfterLimiter(o.verdict.allowed, body.score.value, body.gameType.value, body.timestamp, now, samples),
         o.records)
  }

  /** The POST handler; `samples` are the 88 values `Math.random` returns. */
  method Post(limiter: FixedWindow.Limiter, request: Reply<ClaimBody>, now: int, samples: seq<real>)
    returns (response: Response<Body>)
    requires limiter.Valid()
    requires |samples| == SignatureLength
    requires forall i | 0 <= i < |samples| :: IsUnitSample(samples[i])
    modifies limiter
    ensures limiter.Valid()
    ensures (response, limiter.records) == PostSpec(old(limiter.records), request, now, samples)
  {
    if request.Threw? {
      return Response(500, ErrorDetails("Failed to process Solana claim", request.error.message), map[]);
    }
    var body := request.value;
    var rejection := Precheck(body);
    if rejection.Some? {
      return rejection.value;
    }
    var allowed, _ := limiter.Check(body.playerAddress.value, now);
    response := AfterLimiter(allowed, body.score.value, body.gameType.value, body.timestamp, now, samples);
  }

  /** A request with a field missing or an invalid score gets 400 and consumes no quota. */
  lemma RejectionCostsNoQuota(records: map<string, FixedWindow.Window>, body: ClaimBody, now: int, samples: seq<real>)
    requires |samples| == SignatureLength
    requires forall i | 0 <= i < |samples| :: IsUnitSample(samples[i])
    requires !Truthy(body.playerAddress) || body.score.None? || !Truthy(body.gameType) || !Truthy(body.sessionId)
             || ValidateScore(body.score.value) != ClaimRoute.Valid
    ensures var (response, records') := PostSpec(records, Returned(body), now, samples);
      response.status == 400 && records' == records
  {
  }

  /** A stale truthy timestamp is refused after the limiter has counted the call. */
  lemma ExpiredCostsQuota(records: map<string, FixedWindow.Window>, body: ClaimBody, now: int, samples: seq<real>)
    requires |samples| == SignatureLength
    requires forall i | 0 <= i < |samples| :: IsUnitSample(samples[i])
    requires Precheck(body).None?
    requires FixedWindow.Step(records, body.playerAddress.value, now).verdict.allowed
    requires TruthyNumber(body.timestamp) && now - body.timestamp.value > 300000
    ensures var (response, records') := PostSpec(records, Returned(body), now, samples);
      && response == BadRequest("Session expired.")
      && records' == FixedWindow.Step(records, body.playerAddress.value, now).records
  {
  }

  /**
   * An admitted fresh claim reports score / 100 tokens, in [0, 100], an
   * 88-character alphanumeric signature and the explorer link to it.
   */
  lemma ClaimSucceeds(records: map<string, FixedWindow.Window>, body: ClaimBody, now: int, samples: seq<real>)
    requires |samples| == SignatureLength
    requires forall i | 0 <= i < |samples| :: IsUnitSample(samples[i])
    requires Precheck(body).None?
    requires FixedWindow.Step(records, body.playerAddress.value, now).verdict.allowed
    requires !TruthyNumber(body.timestamp) || now - body.timestamp.value <= 300000
    ensures var (response, _) := PostSpec(records, Returned(body), now, samples);
      && response.status == 200 && response.body.Claimed?
      && response.body.tokens * 100 == body.score.value && 0 <= response.body.tokens <= 100
      && |response.body.signature| == 88
      && (forall i | 0 <= i < 88 :: IsAlphanumeric(response.body.signature[i]))
      && response.body.explorerUrl == "https://explorer.solana.com/tx/" + response.body.signature + "?cluster=devnet"
  {
    TokensOfValidScore(body.score.value);
    MockSignatureAlphanumeric(samples);
  }
}
