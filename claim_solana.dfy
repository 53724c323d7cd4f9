/**
 * The browser side of a Solana claim: a 32-byte session id folded by XOR
 * out of the UTF-8 text `address:score:timestamp`, the two score guards
 * that run before any request, the POST to the Solana claim route and the
 * mapping of its reply, and the explorer link of a signature. `Date.now()`
 * is the parameter `now`; the fetch and the JSON parse are one `Reply`.
 */
module ClaimSolana {
  import opened Wrappers
  import opened Js
  import Text
  import ClaimRoute
  import SolanaClaimRoute

  /** The text the session id is derived from: `${playerAddress}:${score}:${timestamp}`. */
  function SessionInput(playerAddress: string, score: int, timestamp: int): string {
    playerAddress + ":" + Text.IntToString(score) + ":" + Text.IntToString(timestamp)
  }

  /** What the byte `x` at position `i` contributes to column `j`: itself when `i` is `j` modulo 32, else 0. */
  function Contribution(i: nat, j: nat, x: bv8): bv8 {
    if i % 32 == j then x else 0
  }

  /**
   * Column `j` of the fold: the XOR of every byte of `data` whose position
   * is `j` modulo 32; 0 when there is none.
   */
  function Column(data: seq<bv8>, j: nat): bv8
    decreases |data|
  {
    if data == [] then 0
    else Column(data[..|data| - 1], j) ^ Contribution(|data| - 1, j, data[|data| - 1])
  }

  /** The session id of the encoded input `data`: its 32 columns. */
  function SessionIdOf(data: seq<bv8>): (id: seq<bv8>)
    ensures |id| == 32
  {
    seq(32, j requires 0 <= j < 32 => Column(data, j))
  }

  lemma XorRegroup(a: bv8, b: bv8, c: bv8)
    ensures (a ^ b) ^ c == (a ^ c) ^ b
  {
  }

  /** What changing the byte at `p` from `a` to `b` does to column `j`: XOR with `a ^ b` if `p` is in it. */
  function ColumnDelta(p: nat, j: nat, a: bv8, b: bv8): bv8 {
    if p % 32 == j then a ^ b else 0
  }

  lemma ContributionDelta(p: nat, j: nat, a: bv8, b: bv8, c: bv8)
    ensures c ^ Contribution(p, j, b) == (c ^ Contribution(p, j, a)) ^ ColumnDelta(p, j, a, b)
  {
  }

  /** Changing the byte at `p` to `v` changes only the column of `p`, by the XOR of the old and the new byte. */
  lemma {:induction false} ColumnUpdate(data: seq<bv8>, p: nat, v: bv8, j: nat)
    requires p < |data|
    ensures Column(data[p := v], j) == Column(data, j) ^ ColumnDelta(p, j, data[p], v)
    decreases |data|
  {
    var n := |data|;
    var e := data[p := v];
    if p == n - 1 {
      assert e[..n - 1] == data[..n - 1];
      ContributionDelta(p, j, data[p], v, Column(data[..n - 1], j));
    } else {
      assert e[..n - 1] == data[..n - 1][p := v];
      ColumnUpdate(data[..n - 1], p, v, j);
      XorRegroup(Column(data[..n - 1], j), ColumnDelta(p, j, data[p], v), Contribution(n - 1, j, data[n - 1]));
    }
  }

  /** Of input shorter than 32 bytes, column `j` is the byte at `j`, or 0 past the end. */
  lemma {:induction false} ColumnOfShort(data: seq<bv8>, j: nat)
    requires |data| <= 32 && j < 32
    ensures Column(data, j) == if j < |data| then data[j] else 0
    decreases |data|
  {
    if data != [] {
      var n := |data|;
      ColumnOfShort(data[..n - 1], j);
      if j < n - 1 {
        assert data[..n - 1][j] == data[j];
      }
    }
  }

  /** `generateSessionId`: the UTF-8 bytes of the input text, folded into 32. */
  method GenerateSessionId(playerAddress: string, score: int, timestamp: int) returns (hash: array<bv8>)
    ensures fresh(hash) && hash.Length == 32
    ensures hash[..] == SessionIdOf(Text.Utf8Encode(SessionInput(playerAddress, score, timestamp)))
  {
    var data := Text.Utf8Encode(SessionInput(playerAddress, score, timestamp));
    hash := Fold(data);
  }

  /** The loop of `generateSessionId`: each byte is XOR-ed into a zeroed 32-byte buffer at its position modulo 32. */
  method Fold(data: seq<bv8>) returns (hash: array<bv8>)
    ensures fresh(hash) && hash.Length == 32
    ensures hash[..] == SessionIdOf(data)
  {
    hash := new bv8[32](_ => 0);
    for i := 0 to |data|
      invariant forall k | 0 <= k < 32 :: hash[k] == Column(data[..i], k)
    {
      ghost var before := hash[..];
      hash[i % 32] := hash[i % 32] ^ data[i];
      forall k | 0 <= k < 32
        ensures hash[k] == Column(data[..i + 1], k)
      {
        ColumnStep(data, i, k);
        if k != i % 32 {
          XorZero(before[k]);
        }
      }
    }
    assert data[..|data|] == data;
  }

  /** Taking one more byte of `data` XORs in its contribution. */
  lemma ColumnStep(data: seq<bv8>, i: nat, k: nat)
    requires i < |data|
    ensures Column(data[..i + 1], k) == Column(data[..i], k) ^ Contribution(i, k, data[i])
  {
    assert data[..i + 1][..i] == data[..i];
  }

  lemma XorZero(x: bv8)
    ensures x ^ 0 == x
  {
  }

  /** Input of at most 32 bytes comes back zero-padded to 32. */
  lemma ShortInputIsPadded(data: seq<bv8>)
    requires |data| <= 32
    ensures SessionIdOf(data) == data + seq(32 - |data|, _ => 0)
  {
    var padded := data + seq(32 - |data|, _ => 0);
    forall j | 0 <= j < 32
      ensures SessionIdOf(data)[j] == padded[j]
    {
      ColumnOfShort(data, j);
    }
  }

  /** Swapping the bytes at `i` and `i + 32` gives the same session id: the fold is not injective. */
  lemma SwapKeepsSessionId(data: seq<bv8>, i: nat)
    requires i + 32 < |data|
    ensures SessionIdOf(data[i := data[i + 32]][i + 32 := data[i]]) == SessionIdOf(data)
  {
    forall j | 0 <= j < 32
      ensures SessionIdOf(data[i := data[i + 32]][i + 32 := data[i]])[j] == SessionIdOf(data)[j]
    {
      SwapKeepsColumn(data, i, j);
    }
  }

  lemma SwapKeepsColumn(data: seq<bv8>, i: nat, j: nat)
    requires i + 32 < |data|
    ensures Column(data[i := data[i + 32]][i + 32 := data[i]], j) == Column(data, j)
  {
    var once := data[i := data[i + 32]];
    ColumnUpdate(data, i, data[i + 32], j);
    ColumnUpdate(once, i + 32, data[i], j);
    assert (i + 32) % 32 == i % 32;
    DeltaCancels(i, j, data[i], data[i + 32], Column(data, j));
  }

  lemma DeltaCancels(p: nat, j: nat, a: bv8, b: bv8, c: bv8)
    ensures (c ^ ColumnDelta(p, j, a, b)) ^ ColumnDelta(p + 32, j, b, a) == c
  {
    assert (p + 32) % 32 == p % 32;
  }

  /** The program's request body: the fields sent to the Solana claim route. */
  datatype SolanaRequest = SolanaRequest(
    playerAddress: string,
    score: int,
    gameType: string,
    sessionId: seq<bv8>,
    timestamp: int)

  /** `ClaimSolanaResponse`. */
  datatype ClaimResult = ClaimResult(success: bool, signature: Option<string>, tokens: Option<int>, error: Option<string>)

  function Failed(error: string): ClaimResult {
    ClaimResult(false, None, None, Some(error))
  }

  const DefaultError: string := "Failed to claim Solana reward"

  /** The result of the POST: the route's fields on `ok`, else the text of the exception thrown or caught. */
  function ReplyResult(reply: Reply<HttpReply>): ClaimResult {
    match reply
    case Threw(e) => Failed(OrElse(e.message, DefaultError))
    case Returned(http) =>
      match http.json
      case Threw(e) => Failed(OrElse(e.message, DefaultError))
      case Returned(data) =>
        if !http.ok then
          var thrown := ErrorOf(OrElse(data.error, "Solana claim failed"));
          Failed(OrElse(thrown.message, DefaultError))
        else ClaimResult(true, data.signature, data.tokens, None)
  }

  /** `claimSolanaReward` at instant `now`: its result and the request it sent, if any. */
  function ClaimSpec(playerAddress: string, score: int, gameType: string, now: int, reply: Reply<HttpReply>)
    : (ClaimResult, Option<SolanaRequest>)
  {
    if score <= 0 then (Failed("Score must be greater than 0"), None)
    else if score / 100 <= 0 then (Failed("Score too low for token reward"), None)
    else
      var id := SessionIdOf(Text.Utf8Encode(SessionInput(playerAddress, score, now)));
      (ReplyResult(reply), Some(SolanaRequest(playerAddress, score, gameType, id, now)))
  }

  /** `claimSolanaReward`; `reply` is what the fetch and `response.json()` produced. */
  method ClaimSolanaReward(playerAddress: string, score: int, gameType: string, now: int, reply: Reply<HttpReply>)
    returns (result: ClaimResult, sent: Option<SolanaRequest>)
    ensures (result, sent) == ClaimSpec(playerAddress, score, gameType, now, reply)
  {
    if score <= 0 {
      return Failed("Score must be greater than 0"), None;
    }
    var tokens := score / 100;
    if tokens <= 0 {
      return Failed("Score too low for token reward"), None;
    }
    var sessionId := GenerateSessionId(playerAddress, score, now);
    sent := Some(SolanaRequest(playerAddress, score, gameType, sessionId[..], now));
    result := ReplyResult(reply);
  }

  /**
   * No request leaves the browser for a score below 100: non-positive
   * scores and scores that give no whole token fail first, in that order.
   */
  lemma ClaimGuards(playerAddress: string, score: int, gameType: string, now: int, reply: Reply<HttpReply>)
    ensures var (result, sent) := ClaimSpec(playerAddress, score, gameType, now, reply);
      && (sent.Some? <==> score >= 100)
      && (score <= 0 ==> result == Failed("Score must be greater than 0"))
      && (0 < score < 100 ==> result == Failed("Score too low for token reward"))
      && (sent.Some? ==>
            && sent.value.timestamp == now && |sent.value.sessionId| == 32
            && sent.value.sessionId == SessionIdOf(Text.Utf8Encode(SessionInput(playerAddress, score, now))))
  {
  }

  /**
   * A sent claim succeeds exactly when the route answered `ok` with a JSON
   * body, and then reports its signature and tokens; a refusal reports the
   * route's error, or "Solana claim failed" when it gave none, and is never
   * empty.
   */
  lemma ClaimReportsReply(playerAddress: string, score: int, gameType: string, now: int, reply: Reply<HttpReply>)
    requires score >= 100
    ensures var (result, _) := ClaimSpec(playerAddress, score, gameType, now, reply);
      && (result.success <==> reply.Returned? && reply.value.ok && reply.value.json.Returned?)
      && (result.success ==>
            result.signature == reply.value.json.value.signature && result.tokens == reply.value.json.value.tokens)
      && (reply.Returned? && !reply.value.ok && reply.value.json.Returned? ==>
            result.error == Some(OrElse(reply.value.json.value.error, "Solana claim failed")))
      && (!result.success ==> result.error.Some? && result.error.value != "")
  {
  }

  /**
   * The browser's guard is weaker than the route's score check: a score of
   * 150 is sent, and the route refuses it as not a multiple of 100.
   */
  lemma GuardsWeakerThanRoute(playerAddress: string, gameType: string, now: int, reply: Reply<HttpReply>)
    ensures ClaimSpec(playerAddress, 150, gameType, now, reply).1.Some?
    ensures SolanaClaimRoute.ValidateScore(150) == ClaimRoute.Invalid("Invalid score format")
  {
  }

  /** `getSolanaExplorerUrl`: the same devnet link the route reports for a signature it returns. */
  function GetSolanaExplorerUrl(signature: string): (url: string)
    ensures url == SolanaClaimRoute.ExplorerUrl(signature)
    ensures Text.StartsWith(url, "https://explorer.solana.com/tx/")
  {
    "https://explorer.solana.com/tx/" + signature + "?cluster=devnet"
  }
}
