/**
 * The on-chain reward program (Anchor): one game, identified by its mint,
 * with a configuration account, one claim record per session id and the
 * SPL mint it issues rewards from. Each instruction is one transaction:
 * Anchor checks the accounts first, then the body runs, and any failure
 * reverts everything, so a failed instruction leaves the state unchanged.
 */
module GameRewards {
  import opened Wrappers
  import Text

  const U64Max: int := 0xFFFF_FFFF_FFFF_FFFF

  type U64 = x: int | 0 <= x <= U64Max
  type U8 = x: int | 0 <= x < 256
  type Bytes32 = s: seq<bv8> | |s| == 32 witness seq(32, _ => 0)
  type Pubkey = Bytes32
  type SessionId = Bytes32

  /** The `GameConfig` account. */
  datatype GameConfig = GameConfig(
    authority: Pubkey,
    mint: Pubkey,
    gameName: string,
    rewardSymbol: string,
    decimals: U8,
    totalRewardsDistributed: U64,
    totalClaims: U64,
    bump: U8)

  /** The `ClaimRecord` account. */
  datatype ClaimRecord = ClaimRecord(
    player: Pubkey,
    sessionId: SessionId,
    score: U64,
    tokensClaimed: U64,
    timestamp: int,
    isClaimed: bool)

  /** The program's own errors (`GameError`). */
  datatype GameError = UnauthorizedClaim | SessionAlreadyClaimed | InvalidScore | Overflow | UnauthorizedAdmin

  /** Why a transaction failed: the program's errors and those of the runtime it relies on. */
  datatype Failure =
    | Game(error: GameError)
    /** An `init` account already exists (the system program's "already in use"). */
    | AccountInUse
    /** The game's configuration account does not exist. */
    | AccountNotInitialized
    /** The account's data does not fit the space it was created with. */
    | AccountDidNotSerialize
    /**
     * Integer overflow with overflow checks on: the program panics, in the
     * `pow` of the decimal scale or in the totals' `+= tokens_to_mint` / `+= 1`.
     * Rust names the operator in the panic text; this one text stands for both.
     */
    | ArithmeticPanic
    /** The SPL token program refused `mint_to` because an amount would pass u64. */
    | TokenOverflow

  /** The text a client sees for a failure. */
  function FailureText(f: Failure): string {
    match f
    case Game(UnauthorizedClaim) => "Unauthorized: Only game authority can claim rewards"
    case Game(SessionAlreadyClaimed) => "This game session has already been claimed"
    case Game(InvalidScore) => "Invalid score: must result in at least 1 token"
    case Game(Overflow) => "Arithmetic overflow"
    case Game(UnauthorizedAdmin) => "Unauthorized: Only owner can manage admins"
    case AccountInUse => "account already in use"
    case AccountNotInitialized => "The program expected this account to be already initialized"
    case AccountDidNotSerialize => "Failed to serialize the account"
    case ArithmeticPanic => "arithmetic operation overflowed"
    case TokenOverflow => "Operation overflowed"
  }

  /** The decimals the mint is created with (`mint::decimals = 9`), whatever the config records. */
  const MintDecimals: int := 9

  /** `GameConfig::SPACE`: the sum of the field sizes, names bounded to 32 and 10 bytes. */
  const GameConfigSpace: int := 32 + 32 + (4 + 32) + (4 + 10) + 1 + 8 + 8 + 1
  /** `ClaimRecord::SPACE`. */
  const ClaimRecordSpace: int := 32 + 32 + 8 + 8 + 8 + 1

  /** The Borsh encoding length of a configuration: fixed fields plus length-prefixed UTF-8 strings. */
  function ConfigSize(c: GameConfig): nat {
    32 + 32 + (4 + |Text.Utf8Encode(c.gameName)|) + (4 + |Text.Utf8Encode(c.rewardSymbol)|) + 1 + 8 + 8 + 1
  }

  /** The Borsh encoding length of a claim record: every field has a fixed size. */
  function RecordSize(r: ClaimRecord): nat {
    32 + |r.sessionId| + 8 + 8 + 8 + 1
  }

  /**
   * The account sizes: 132 bytes for a configuration, which fits exactly
   * when the name and symbol take 42 bytes together, and 89 for a claim
   * record, which always fits exactly.
   */
  lemma SpaceConstants(c: GameConfig, r: ClaimRecord)
    ensures GameConfigSpace == 132 && ClaimRecordSpace == 89
    ensures ConfigSize(c) <= GameConfigSpace
      <==> |Text.Utf8Encode(c.gameName)| + |Text.Utf8Encode(c.rewardSymbol)| <= 42
    ensures RecordSize(r) == ClaimRecordSpace
  {
  }

  function Pow10(n: nat): (p: nat)
    ensures p >= 1
  {
    if n == 0 then 1 else 10 * Pow10(n - 1)
  }

  /** `10u64.pow(d)` fits a u64 exactly for d up to 19. */
  lemma {:induction false} Pow10FitsU64(d: nat)
    ensures Pow10(d) <= U64Max <==> d <= 19
    decreases d
  {
    Pow10Values();
    if d <= 19 {
      Pow10Monotone(d, 19);
    } else {
      Pow10Monotone(20, d);
    }
  }

  /** The powers the proofs need, unfolded in steps the solver can follow. */
  lemma Pow10Values()
    ensures Pow10(9) == 1_000_000_000
    ensures Pow10(19) == 10_000_000_000_000_000_000
    ensures Pow10(20) == 100_000_000_000_000_000_000
  {
    assert Pow10(9) == 1_000_000_000;
    assert Pow10(18) == 1_000_000_000_000_000_000;
  }

  lemma {:induction false} Pow10Monotone(a: nat, b: nat)
    requires a <= b
    ensures Pow10(a) <= Pow10(b)
    decreases b - a
  {
    if a < b {
      Pow10Monotone(a, b - 1);
    }
  }

  /** The program's logical state: the game's configuration, the claim records and the token ledger. */
  datatype Ledger = Ledger(
    config: Option<GameConfig>,
    claimRecords: map<SessionId, ClaimRecord>,
    supply: U64,
    balances: map<Pubkey, U64>)

  const Empty: Ledger := Ledger(None, map[], 0, map[])

  function BalanceOf(s: Ledger, owner: Pubkey): U64 {
    if owner in s.balances then s.balances[owner] else 0
  }

  /**
   * The ledger's invariant: before initialisation nothing exists; after it,
   * the claim count is the number of records, the supply is the rewards
   * distributed scaled by the configured decimals, and every record is a
   * completed claim that is stored under its own session id.
   */
  predicate Valid(s: Ledger) {
    && (s.config.None? ==> s.claimRecords == map[] && s.supply == 0 && s.balances == map[])
    && (s.config.Some? ==>
          && s.config.value.totalClaims == |s.claimRecords|
          && s.supply == s.config.value.totalRewardsDistributed * Pow10(s.config.value.decimals))
    && RecordsWellFormed(s.claimRecords)
  }

  /** Every record is a completed claim, stored under its own session id, of at least one token. */
  predicate RecordsWellFormed(records: map<SessionId, ClaimRecord>) {
    forall id | id in records ::
      && records[id].sessionId == id
      && records[id].isClaimed
      && records[id].tokensClaimed == records[id].score / 100 > 0
  }

  /** `initialize_game`, signed by `signer`, creating the game of `mint`. */
  function Initialize(s: Ledger, signer: Pubkey, mint: Pubkey, gameName: string, rewardSymbol: string,
                      decimals: U8, bump: U8): Result<Ledger, Failure>
  {
    if s.config.Some? then Err(AccountInUse)
    else
      var c := GameConfig(signer, mint, gameName, rewardSymbol, decimals, 0, 0, bump);
      if ConfigSize(c) > GameConfigSpace then Err(AccountDidNotSerialize)
      else Ok(s.(config := Some(c)))
  }

  /**
   * The `is_claimed` flag of a claim record that `init` has just created:
   * a fresh account is zeroed, so the flag is false.
   */
  const FreshRecordClaimed: bool := false

  /** `claim_reward(score, session_id)`, signed by `signer`, paying `player`, at clock time `clock`. */
  function Claim(s: Ledger, signer: Pubkey, player: Pubkey, score: U64, sessionId: SessionId, clock: int)
    : Result<Ledger, Failure>
  {
    if s.config.None? then Err(AccountNotInitialized)
    else if sessionId in s.claimRecords then Err(AccountInUse)
    else
      var c := s.config.value;
      if c.authority != signer then Err(Game(UnauthorizedClaim))
      else if FreshRecordClaimed then Err(Game(SessionAlreadyClaimed))
      else
        var tokens := score / 100;
        if tokens <= 0 then Err(Game(InvalidScore))
        else if Pow10(c.decimals) > U64Max then Err(ArithmeticPanic)
        else if tokens * Pow10(c.decimals) > U64Max then Err(Game(Overflow))
        else
          var amount := tokens * Pow10(c.decimals);
          if BalanceOf(s, player) + amount > U64Max || s.supply + amount > U64Max then Err(TokenOverflow)
          else if c.totalRewardsDistributed + tokens > U64Max || c.totalClaims + 1 > U64Max then Err(ArithmeticPanic)
          else Ok(Credit(s, player, score, sessionId, clock, tokens, amount))
  }

  /**
   * The effect of a claim that passed every check: the record is created,
   * the player credited, the supply raised and both totals advanced.
   */
  function Credit(s: Ledger, player: Pubkey, score: U64, sessionId: SessionId, clock: int, tokens: U64, amount: U64)
    : Ledger
    requires s.config.Some?
    requires BalanceOf(s, player) + amount <= U64Max && s.supply + amount <= U64Max
    requires s.config.value.totalRewardsDistributed + tokens <= U64Max && s.config.value.totalClaims + 1 <= U64Max
  {
    var c := s.config.value;
    Ledger(
      Some(c.(totalRewardsDistributed := c.totalRewardsDistributed + tokens, totalClaims := c.totalClaims + 1)),
      s.claimRecords[sessionId := ClaimRecord(player, sessionId, score, tokens, clock, true)],
      s.supply + amount,
      s.balances[player := BalanceOf(s, player) + amount])
  }

  /** `add_admin(new_admin)`, signed by `signer`. */
  function AddAdmin(s: Ledger, signer: Pubkey, newAdmin: Pubkey): Result<Ledger, Failure> {
    if s.config.None? then Err(AccountNotInitialized)
    else if s.config.value.authority != signer then Err(Game(UnauthorizedAdmin))
    else Ok(s.(config := Some(s.config.value.(authority := newAdmin))))
  }

  /** The program's accounts, updated in place by its instructions. */
  class Program {
    var config: Option<GameConfig>
    var claimRecords: map<SessionId, ClaimRecord>
    var supply: U64
    var balances: map<Pubkey, U64>

    function Snapshot(): Ledger
      reads this
    {
      Ledger(config, claimRecords, supply, balances)
    }

    constructor ()
      ensures Snapshot() == Empty
    {
      config := None;
      claimRecords := map[];
      supply := 0;
      balances := map[];
    }

    method InitializeGame(signer: Pubkey, mint: Pubkey, gameName: string, rewardSymbol: string, decimals: U8, bump: U8)
      returns (r: Result<(), Failure>)
      modifies this
      ensures var spec := Initialize(old(Snapshot()), signer, mint, gameName, rewardSymbol, decimals, bump);
        && (spec.Ok? ==> r.Ok? && Snapshot() == spec.value)
        && (spec.Err? ==> r == Err(spec.error) && Snapshot() == old(Snapshot()))
    {
      if config.Some? {
        return Err(AccountInUse);
      }
      var c := GameConfig(signer, mint, gameName, rewardSymbol, decimals, 0, 0, bump);
      if ConfigSize(c) > GameConfigSpace {
        return Err(AccountDidNotSerialize);
      }
      config := Some(c);
      return Ok(());
    }

    method ClaimReward(signer: Pubkey, player: Pubkey, score: U64, sessionId: SessionId, clock: int)
      returns (r: Result<(), Failure>)
      modifies this
      ensures var spec := Claim(old(Snapshot()), signer, player, score, sessionId, clock);
        && (spec.Ok? ==> r.Ok? && Snapshot() == spec.value)
        && (spec.Err? ==> r == Err(spec.error) && Snapshot() == old(Snapshot()))
    {
      if config.None? {
        return Err(AccountNotInitialized);
      }
      if sessionId in claimRecords {
        return Err(AccountInUse);
      }
      var c := config.value;
      if c.authority != signer {
        return Err(Game(UnauthorizedClaim));
      }
      if FreshRecordClaimed {
        return Err(Game(SessionAlreadyClaimed));
      }
      var tokens := score / 100;
      if tokens <= 0 {
        return Err(Game(InvalidScore));
      }
      var scale := Pow10(c.decimals);
      if scale > U64Max {
        return Err(ArithmeticPanic);
      }
      if tokens * scale > U64Max {
        return Err(Game(Overflow));
      }
      var amount := tokens * scale;
      var balance := if player in balances then balances[player] else 0;
      if balance + amount > U64Max || supply + amount > U64Max {
        return Err(TokenOverflow);
      }
      if c.totalRewardsDistributed + tokens > U64Max || c.totalClaims + 1 > U64Max {
        return Err(ArithmeticPanic);
      }
      var next := Credit(Snapshot(), player, score, sessionId, clock, tokens, amount);
      config, claimRecords, supply, balances := next.config, next.claimRecords, next.supply, next.balances;
      return Ok(());
    }

    method AddAdminKey(signer: Pubkey, newAdmin: Pubkey) returns (r: Result<(), Failure>)
      modifies this
      ensures var spec := AddAdmin(old(Snapshot()), signer, newAdmin);
        && (spec.Ok? ==> r.Ok? && Snapshot() == spec.value)
        && (spec.Err? ==> r == Err(spec.error) && Snapshot() == old(Snapshot()))
    {
      if config.None? {
        return Err(AccountNotInitialized);
      }
      if config.value.authority != signer {
        return Err(Game(UnauthorizedAdmin));
      }
      config := Some(config.value.(authority := newAdmin));
      return Ok(());
    }
  }

  /**
   * A successful initialisation records the signer as authority, the mint,
   * the names and decimals, with both totals zero; it fails when the game
   * exists or the names do not fit the account.
   */
  lemma InitializeSetsConfig(s: Ledger, signer: Pubkey, mint: Pubkey, gameName: string, rewardSymbol: string,
                             decimals: U8, bump: U8)
    ensures var r := Initialize(s, signer, mint, gameName, rewardSymbol, decimals, bump);
      && (s.config.Some? ==> r == Err(AccountInUse))
      && ((s.config.None? && |Text.Utf8Encode(gameName)| + |Text.Utf8Encode(rewardSymbol)| > 42)
          ==> r == Err(AccountDidNotSerialize))
      && (r.Ok? <==> s.config.None? && |Text.Utf8Encode(gameName)| + |Text.Utf8Encode(rewardSymbol)| <= 42)
      && (r.Ok? ==> r.value == s.(config := Some(GameConfig(signer, mint, gameName, rewardSymbol, decimals, 0, 0, bump))))
  {
  }

  /** Only the configured authority can claim; anyone else is refused and nothing changes. */
  lemma ClaimNeedsAuthority(s: Ledger, signer: Pubkey, player: Pubkey, score: U64, sessionId: SessionId, clock: int)
    requires s.config.Some? && sessionId !in s.claimRecords
    ensures Claim(s, signer, player, score, sessionId, clock).Err?
      || s.config.value.authority == signer
    ensures s.config.value.authority != signer
      ==> Claim(s, signer, player, score, sessionId, clock) == Err(Game(UnauthorizedClaim))
  {
  }

  /**
   * One record per session: claiming a session that has a record fails with
   * the account-in-use error before any other check, so the program's own
   * `SessionAlreadyClaimed` is never raised.
   */
  lemma ClaimOncePerSession(s: Ledger, signer: Pubkey, player: Pubkey, score: U64, sessionId: SessionId, clock: int)
    ensures s.config.Some? && sessionId in s.claimRecords
      ==> Claim(s, signer, player, score, sessionId, clock) == Err(AccountInUse)
    ensures Claim(s, signer, player, score, sessionId, clock) != Err(Game(SessionAlreadyClaimed))
  {
  }

  /** A second claim of a session that was just claimed fails, whoever signs it and whatever the score. */
  lemma NoDoubleClaim(s: Ledger, signer: Pubkey, player: Pubkey, score: U64, sessionId: SessionId, clock: int,
                      signer2: Pubkey, player2: Pubkey, score2: U64, clock2: int)
    requires Claim(s, signer, player, score, sessionId, clock).Ok?
    ensures Claim(Claim(s, signer, player, score, sessionId, clock).value, signer2, player2, score2, sessionId, clock2)
      == Err(AccountInUse)
  {
  }

  /** Scores below 100 yield no whole token and are refused with `InvalidScore`; 500 yields 5. */
  lemma ClaimTokenCount(s: Ledger, player: Pubkey, score: U64, sessionId: SessionId, clock: int)
    requires s.config.Some? && sessionId !in s.claimRecords
    ensures score < 100 ==>
      Claim(s, s.config.value.authority, player, score, sessionId, clock) == Err(Game(InvalidScore))
    ensures var r := Claim(s, s.config.value.authority, player, score, sessionId, clock);
      r.Ok? ==> r.value.claimRecords[sessionId].tokensClaimed == score / 100 >= 1
  {
  }

  /**
   * The minted amount is the token count times 10^decimals, computed with
   * checked arithmetic: when it would pass u64 the claim fails with
   * `Overflow` (or panics when 10^decimals itself does not fit).
   */
  lemma ClaimCheckedScale(s: Ledger, player: Pubkey, score: U64, sessionId: SessionId, clock: int)
    requires s.config.Some? && sessionId !in s.claimRecords && score >= 100
    ensures var d := s.config.value.decimals;
      var r := Claim(s, s.config.value.authority, player, score, sessionId, clock);
      && (d >= 20 ==> r == Err(ArithmeticPanic))
      && (d < 20 && (score / 100) * Pow10(d) > U64Max ==> r == Err(Game(Overflow)))
      && (r.Ok? ==> r.value.supply == s.supply + (score / 100) * Pow10(d)
                    && BalanceOf(r.value, player) == BalanceOf(s, player) + (score / 100) * Pow10(d))
  {
    Pow10FitsU64(s.config.value.decimals);
  }

  /**
   * A successful claim stores the completed record, adds one claim and its
   * tokens to the totals, credits the player, and touches no other record
   * or balance.
   */
  lemma ClaimRecordsAndCounts(s: Ledger, signer: Pubkey, player: Pubkey, score: U64, sessionId: SessionId, clock: int)
    requires Claim(s, signer, player, score, sessionId, clock).Ok?
    ensures var s' := Claim(s, signer, player, score, sessionId, clock).value;
      var c := s.config.value;
      && s'.claimRecords[sessionId] == ClaimRecord(player, sessionId, score, score / 100, clock, true)
      && s'.config.value.totalClaims == c.totalClaims + 1
      && s'.config.value.totalRewardsDistributed == c.totalRewardsDistributed + score / 100
      && s'.config.value.authority == c.authority && s'.config.value.decimals == c.decimals
      && (forall id | id in s.claimRecords :: id in s'.claimRecords && s'.claimRecords[id] == s.claimRecords[id])
      && (forall k | k != player :: BalanceOf(s', k) == BalanceOf(s, k))
  {
  }

  /** The totals never decrease, whatever instruction runs. */
  lemma TotalsMonotone(s: Ledger, signer: Pubkey, player: Pubkey, score: U64, sessionId: SessionId, clock: int,
                       newAdmin: Pubkey)
    requires s.config.Some?
    ensures var r := Claim(s, signer, player, score, sessionId, clock);
      r.Ok? ==> r.value.config.value.totalClaims > s.config.value.totalClaims
                && r.value.config.value.totalRewardsDistributed > s.config.value.totalRewardsDistributed
    ensures var r := AddAdmin(s, signer, newAdmin);
      r.Ok? ==> r.value.config.value.totalClaims == s.config.value.totalClaims
                && r.value.config.value.totalRewardsDistributed == s.config.value.totalRewardsDistributed
  {
  }

  /**
   * Only the current authority can hand over the role; afterwards the new
   * key passes the claim authority check and a different old key does not.
   */
  lemma AddAdminReplacesAuthority(s: Ledger, signer: Pubkey, newAdmin: Pubkey,
                                  player: Pubkey, score: U64, sessionId: SessionId, clock: int)
    requires s.config.Some?
    ensures signer != s.config.value.authority ==> AddAdmin(s, signer, newAdmin) == Err(Game(UnauthorizedAdmin))
    ensures var r := AddAdmin(s, signer, newAdmin);
      r.Ok? ==>
        && signer == s.config.value.authority
        && r.value.config.value.authority == newAdmin
        && (signer != newAdmin && sessionId !in s.claimRecords ==>
              Claim(r.value, signer, player, score, sessionId, clock) == Err(Game(UnauthorizedClaim)))
        && (Claim(r.value, newAdmin, player, score, sessionId, clock) != Err(Game(UnauthorizedClaim)))
  {
  }

  /** Initialisation and the change of authority keep the ledger's invariant. */
  lemma InstructionsKeepValid(s: Ledger, signer: Pubkey, mint: Pubkey, gameName: string, rewardSymbol: string,
                              decimals: U8, bump: U8, newAdmin: Pubkey)
    requires Valid(s)
    ensures var r := Initialize(s, signer, mint, gameName, rewardSymbol, decimals, bump); r.Ok? ==> Valid(r.value)
    ensures var r := AddAdmin(s, signer, newAdmin); r.Ok? ==> Valid(r.value)
  {
  }

  /** A claim keeps the ledger's invariant: one more record, and supply and rewards grow in step. */
  lemma ClaimKeepsValid(s: Ledger, signer: Pubkey, player: Pubkey, score: U64, sessionId: SessionId, clock: int)
    requires Valid(s)
    ensures var r := Claim(s, signer, player, score, sessionId, clock); r.Ok? ==> Valid(r.value)
  {
    if Claim(s, signer, player, score, sessionId, clock).Ok? {
      ClaimIsCredit(s, signer, player, score, sessionId, clock);
      var tokens := score / 100;
      CreditKeepsValid(s, player, score, sessionId, clock, tokens, tokens * Pow10(s.config.value.decimals));
    }
  }

  /** A claim that succeeds passed every check and credited its tokens. */
  lemma ClaimIsCredit(s: Ledger, signer: Pubkey, player: Pubkey, score: U64, sessionId: SessionId, clock: int)
    requires Claim(s, signer, player, score, sessionId, clock).Ok?
    ensures s.config.Some? && sessionId !in s.claimRecords && s.config.value.authority == signer
    ensures var tokens := score / 100;
      var amount := tokens * Pow10(s.config.value.decimals);
      && tokens > 0 && amount <= U64Max
      && BalanceOf(s, player) + amount <= U64Max && s.supply + amount <= U64Max
      && s.config.value.totalRewardsDistributed + tokens <= U64Max && s.config.value.totalClaims + 1 <= U64Max
      && Claim(s, signer, player, score, sessionId, clock).value == Credit(s, player, score, sessionId, clock, tokens, amount)
  {
  }

  /** Crediting a new session's tokens, scaled by the configured decimals, keeps the invariant. */
  lemma CreditKeepsValid(s: Ledger, player: Pubkey, score: U64, sessionId: SessionId, clock: int,
                         tokens: U64, amount: U64)
    requires Valid(s) && s.config.Some? && sessionId !in s.claimRecords
    requires tokens == score / 100 > 0 && amount == tokens * Pow10(s.config.value.decimals)
    requires BalanceOf(s, player) + amount <= U64Max && s.supply + amount <= U64Max
    requires s.config.value.totalRewardsDistributed + tokens <= U64Max && s.config.value.totalClaims + 1 <= U64Max
    ensures Valid(Credit(s, player, score, sessionId, clock, tokens, amount))
  {
    var c := s.config.value;
    var s' := Credit(s, player, score, sessionId, clock, tokens, amount);
    ScaledSum(c.totalRewardsDistributed, tokens, Pow10(c.decimals));
    assert |s'.claimRecords| == |s.claimRecords| + 1;
    RecordAdded(s.claimRecords, ClaimRecord(player, sessionId, score, tokens, clock, true));
  }

  lemma RecordAdded(records: map<SessionId, ClaimRecord>, record: ClaimRecord)
    requires RecordsWellFormed(records)
    requires record.isClaimed && record.tokensClaimed == record.score / 100 > 0
    ensures RecordsWellFormed(records[record.sessionId := record])
  {
  }

  lemma ScaledSum(a: nat, b: nat, p: nat)
    ensures (a + b) * p == a * p + b * p
  {
  }

  /**
   * The tokens land on a mint of 9 decimals while the amount is scaled by
   * the decimals the configuration records: only when those agree is one
   * claimed token one whole token of the mint.
   */
  lemma MintedWholeTokens(s: Ledger, player: Pubkey, score: U64, sessionId: SessionId, clock: int)
    requires s.config.Some? && s.config.value.decimals == MintDecimals
    requires Claim(s, s.config.value.authority, player, score, sessionId, clock).Ok?
    ensures var s' := Claim(s, s.config.value.authority, player, score, sessionId, clock).value;
      s'.supply - s.supply == (score / 100) * Pow10(MintDecimals)
  {
  }

  /** The test's initialisation: nine decimals and ASCII names that fit give a fresh game with zero totals. */
  lemma TestInitialize(authority: Pubkey, mint: Pubkey, gameName: string, rewardSymbol: string, bump: U8)
    requires Text.IsAscii(gameName) && Text.IsAscii(rewardSymbol) && |gameName| + |rewardSymbol| <= 42
    ensures Initialize(Empty, authority, mint, gameName, rewardSymbol, 9, bump)
      == Ok(Ledger(Some(GameConfig(authority, mint, gameName, rewardSymbol, 9, 0, 0, bump)), map[], 0, map[]))
  {
    Text.Utf8LengthOfAscii(gameName);
    Text.Utf8LengthOfAscii(rewardSymbol);
  }

  /** The freshly initialised game of the test, with nine decimals. */
  predicate Fresh(s: Ledger) {
    && s.config.Some? && s.config.value.decimals == 9
    && s.config.value.totalRewardsDistributed == 0 && s.config.value.totalClaims == 0
    && s.claimRecords == map[] && s.supply == 0 && s.balances == map[]
  }

  /** On the fresh game any score from 100 to a million is claimed by the authority. */
  lemma FreshClaimSucceeds(s: Ledger, player: Pubkey, score: U64, sessionId: SessionId, clock: int)
    requires Fresh(s) && 100 <= score <= 1_000_000
    ensures Claim(s, s.config.value.authority, player, score, sessionId, clock).Ok?
  {
    Pow10Values();
  }

  /** The test's first claim: a score of 500 records 5 tokens and moves the totals to (5, 1). */
  lemma TestClaim500(s: Ledger, player: Pubkey, sessionId: SessionId, clock: int)
    requires Fresh(s)
    ensures var r := Claim(s, s.config.value.authority, player, 500, sessionId, clock);
      && r.Ok?
      && r.value.claimRecords[sessionId] == ClaimRecord(player, sessionId, 500, 5, clock, true)
      && r.value.config.value.totalRewardsDistributed == 5
      && r.value.config.value.totalClaims == 1
      && BalanceOf(r.value, player) == 5_000_000_000
  {
    Pow10Values();
  }

  /** The test's double claim: once a session has been claimed, claiming it again fails with "already in use". */
  lemma TestDoubleClaim(s: Ledger, player: Pubkey, sessionId: SessionId, clock: int)
    requires Fresh(s)
    ensures var first := Claim(s, s.config.value.authority, player, 300, sessionId, clock);
      && first.Ok?
      && var again := Claim(first.value, s.config.value.authority, player, 300, sessionId, clock);
      && again.Err? && Text.Contains(FailureText(again.error), "already in use")
  {
    FreshClaimSucceeds(s, player, 300, sessionId, clock);
    NoDoubleClaim(s, s.config.value.authority, player, 300, sessionId, clock, s.config.value.authority, player, 300, clock);
    AccountInUseText();
  }

  /** The test's low score: 50 gives no whole token and fails with "Invalid score". */
  lemma TestLowScore(s: Ledger, player: Pubkey, sessionId: SessionId, clock: int)
    requires s.config.Some? && sessionId !in s.claimRecords
    ensures var r := Claim(s, s.config.value.authority, player, 50, sessionId, clock);
      r.Err? && Text.Contains(FailureText(r.error), "Invalid score")
  {
    ClaimTokenCount(s, player, 50, sessionId, clock);
    InvalidScoreText();
  }

  lemma InvalidScoreText()
    ensures Text.Contains(FailureText(Game(InvalidScore)), "Invalid score")
  {
    Text.PrefixPart(FailureText(Game(InvalidScore)), "Invalid score", ": must result in at least 1 token");
  }

  lemma AccountInUseText()
    ensures Text.Contains(FailureText(AccountInUse), "already in use")
  {
    Text.ContainsPart(FailureText(AccountInUse), "account ", "already in use", "");
  }
}
