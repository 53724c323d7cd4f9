/**
 * Coin placement for the platform game: rejection sampling of random
 * positions in a safe zone, placement above the platforms that are not
 * ground, and a 60/40 mix of the two. Coordinates are reals; every
 * `Math.random()` the source would call is taken from a supplied sequence
 * of samples in [0, 1).
 */
module GameUtils {

  /** The game area (`GAME_WIDTH` x `GAME_HEIGHT`). */
  const GameWidth: real := 1024.0
  const GameHeight: real := 576.0

  const MinCoins: int := 5
  const MaxCoins: int := 20
  const MaxAttempts: nat := 1000
  const CoinSize: real := 20.0
  const Padding: real := 30.0
  /** Platforms at or below this height are ground. */
  const GroundY: real := 450.0
  const MinX: real := 50.0
  const MaxX: real := GameWidth - 50.0
  const MinY: real := 80.0
  const MaxY: real := GameHeight - 150.0

  datatype Platform = Platform(x: real, y: real, width: real, height: real)

  datatype Coin = Coin(x: real, y: real, width: real, height: real, collected: bool)

  /** A sample `Math.random()` may return. */
  predicate IsUnitSample(r: real) {
    0.0 <= r < 1.0
  }

  /** `isOverlapping`: the rectangles, each widened and heightened by the padding, touch or cross. */
  function IsOverlapping(x1: real, y1: real, w1: real, h1: real, x2: real, y2: real, w2: real, h2: real): bool {
    !(x1 + w1 + Padding < x2 || x1 > x2 + w2 + Padding || y1 + h1 + Padding < y2 || y1 > y2 + h2 + Padding)
  }

  function Max(a: real, b: real): real {
    if a >= b then a else b
  }

  function Min(a: real, b: real): real {
    if a <= b then a else b
  }

  /**
   * Two rectangles overlap exactly when the closed intervals they span,
   * padding included, intersect on both axes.
   */
  lemma OverlapIsIntersection(x1: real, y1: real, w1: real, h1: real, x2: real, y2: real, w2: real, h2: real)
    requires w1 >= 0.0 && h1 >= 0.0 && w2 >= 0.0 && h2 >= 0.0
    ensures IsOverlapping(x1, y1, w1, h1, x2, y2, w2, h2) <==>
      && Max(x1, x2) <= Min(x1 + w1 + Padding, x2 + w2 + Padding)
      && Max(y1, y2) <= Min(y1 + h1 + Padding, y2 + h2 + Padding)
  {
  }

  /** The order of the two rectangles does not matter. */
  lemma OverlapSymmetric(x1: real, y1: real, w1: real, h1: real, x2: real, y2: real, w2: real, h2: real)
    ensures IsOverlapping(x1, y1, w1, h1, x2, y2, w2, h2) == IsOverlapping(x2, y2, w2, h2, x1, y1, w1, h1)
  {
  }

  predicate CoinOverlapsPlatform(c: Coin, p: Platform) {
    IsOverlapping(c.x, c.y, c.width, c.height, p.x, p.y, p.width, p.height)
  }

  predicate CoinsOverlap(a: Coin, b: Coin) {
    IsOverlapping(a.x, a.y, a.width, a.height, b.x, b.y, b.width, b.height)
  }

  /** A coin less than 50 above a ground platform. */
  predicate TooCloseToGround(c: Coin, p: Platform) {
    p.y >= GroundY && c.y + c.height > p.y - 50.0
  }

  /** A new 20 x 20 coin that has not been collected. */
  predicate IsNewCoin(c: Coin) {
    c.width == CoinSize && c.height == CoinSize && !c.collected
  }

  /** `Math.min(maxCoins, Math.max(minCoins, numCoins))`. */
  function ClampCount(numCoins: int): (n: int)
    ensures MinCoins <= n <= MaxCoins
    ensures MinCoins <= numCoins <= MaxCoins ==> n == numCoins
  {
    if numCoins < MinCoins then MinCoins else if numCoins > MaxCoins then MaxCoins else numCoins
  }

  /**
   * `generateRandomCoins`. `draws` holds the two samples of each of the
   * 1000 attempts the loop may make; reading past them would be an error,
   * so the bound on attempts is checked.
   */
  method GenerateRandomCoins(numCoins: int, platforms: seq<Platform>, draws: seq<(real, real)>)
    returns (coins: seq<Coin>)
    requires |draws| == MaxAttempts
    requires forall i | 0 <= i < |draws| :: IsUnitSample(draws[i].0) && IsUnitSample(draws[i].1)
    ensures |coins| <= ClampCount(numCoins)
    ensures forall i | 0 <= i < |coins| ::
      IsNewCoin(coins[i]) && MinX <= coins[i].x < MaxX && MinY <= coins[i].y < MaxY
    ensures forall i, k | 0 <= i < |coins| && 0 <= k < |platforms| ::
      !CoinOverlapsPlatform(coins[i], platforms[k]) && !TooCloseToGround(coins[i], platforms[k])
    ensures forall i, j | 0 <= j < i < |coins| :: !CoinsOverlap(coins[i], coins[j])
  {
    coins := [];
    var actualNumCoins := ClampCount(numCoins);
    var attempts := 0;
    while |coins| < actualNumCoins && attempts < MaxAttempts
      invariant 0 <= attempts <= MaxAttempts
      invariant |coins| <= actualNumCoins
      invariant forall i | 0 <= i < |coins| ::
        IsNewCoin(coins[i]) && MinX <= coins[i].x < MaxX && MinY <= coins[i].y < MaxY
      invariant forall i, k | 0 <= i < |coins| && 0 <= k < |platforms| ::
        !CoinOverlapsPlatform(coins[i], platforms[k]) && !TooCloseToGround(coins[i], platforms[k])
      invariant forall i, j | 0 <= j < i < |coins| :: !CoinsOverlap(coins[i], coins[j])
      decreases MaxAttempts - attempts
    {
      var (rx, ry) := draws[attempts];
      attempts := attempts + 1;
      var newCoin := Coin(rx * (MaxX - MinX) + MinX, ry * (MaxY - MinY) + MinY, CoinSize, CoinSize, false);
      var overlapsWithPlatform := exists k | 0 <= k < |platforms| :: CoinOverlapsPlatform(newCoin, platforms[k]);
      var overlapsWithOtherCoins := exists j | 0 <= j < |coins| :: CoinsOverlap(newCoin, coins[j]);
      var tooCloseToGround := exists k | 0 <= k < |platforms| :: TooCloseToGround(newCoin, platforms[k]);
      if !overlapsWithPlatform && !overlapsWithOtherCoins && !tooCloseToGround {
        coins := coins + [newCoin];
      }
    }
  }

  /** Two coins closer than 40 on both axes. */
  predicate TooClose(a: Coin, b: Coin) {
    (if a.x >= b.x then a.x - b.x else b.x - a.x) < 40.0 && (if a.y >= b.y then a.y - b.y else b.y - a.y) < 40.0
  }

  /** The platforms that are not ground (`platforms.filter(p => p.y < 450)`). */
  function AirPlatforms(platforms: seq<Platform>): (air: seq<Platform>)
    ensures forall k | 0 <= k < |air| :: air[k] in platforms && air[k].y < GroundY
    ensures forall k | 0 <= k < |platforms| && platforms[k].y < GroundY :: platforms[k] in air
    decreases |platforms|
  {
    if platforms == [] then []
    else (if platforms[0].y < GroundY then [platforms[0]] else []) + AirPlatforms(platforms[1..])
  }

  /** `Math.floor(r * n)` for a sample `r`: an index below `n`. */
  function PickIndex(r: real, n: nat): (i: nat)
    requires IsUnitSample(r) && n > 0
    ensures i < n
  {
    var m := n as real;
    assert (1.0 - r) * m > 0.0;
    assert r * m < m;
    (r * m).Floor
  }

  /** The coin is 50 to 150 above platform `p`. */
  predicate Above(c: Coin, p: Platform) {
    p.y - 150.0 < c.y <= p.y - 50.0
  }

  /**
   * `generateCoinsNearPlatforms`. `draws` holds the three samples of each
   * iteration: the platform, the horizontal and the vertical offset.
   */
  method GenerateCoinsNearPlatforms(numCoins: int, platforms: seq<Platform>, draws: seq<(real, real, real)>)
    returns (coins: seq<Coin>)
    requires numCoins <= |draws|
    requires forall i | 0 <= i < |draws| :: IsUnitSample(draws[i].0) && IsUnitSample(draws[i].1) && IsUnitSample(draws[i].2)
    ensures |coins| <= (if numCoins < 0 then 0 else numCoins)
    ensures AirPlatforms(platforms) == [] ==> coins == []
    ensures forall i | 0 <= i < |coins| :: IsNewCoin(coins[i])
    ensures forall i | 0 <= i < |coins| ::
      exists k | 0 <= k < |platforms| :: platforms[k].y < GroundY && Above(coins[i], platforms[k])
    ensures forall i, j | 0 <= j < i < |coins| :: !TooClose(coins[i], coins[j])
  {
    coins := [];
    var air := AirPlatforms(platforms);
    var i := 0;
    while i < numCoins
      invariant 0 <= i <= (if numCoins < 0 then 0 else numCoins)
      invariant |coins| <= i
      invariant air == [] ==> coins == []
      invariant forall a | 0 <= a < |coins| :: IsNewCoin(coins[a])
      invariant forall a | 0 <= a < |coins| ::
        exists k | 0 <= k < |platforms| :: platforms[k].y < GroundY && Above(coins[a], platforms[k])
      invariant forall a, b | 0 <= b < a < |coins| :: !TooClose(coins[a], coins[b])
      decreases numCoins - i
    {
      if |air| == 0 {
        break;
      }
      var (rp, rx, ry) := draws[i];
      var platform := air[PickIndex(rp, |air|)];
      var xOffset := rx * (platform.width - CoinSize);
      var yOffset := -50.0 - ry * 100.0;
      var coin := Coin(platform.x + xOffset, platform.y + yOffset, CoinSize, CoinSize, false);
      var overlaps := exists b | 0 <= b < |coins| :: TooClose(coins[b], coin);
      if !overlaps {
        ghost var k :| 0 <= k < |platforms| && platforms[k] == platform;
        assert Above(coin, platforms[k]);
        coins := coins + [coin];
      }
      i := i + 1;
    }
  }

  /** `getRandomCoinCount(min, max)` for the sample `r`. */
  function RandomCoinCount(min: int, max: int, r: real): (n: int)
    requires IsUnitSample(r)
    ensures min <= max ==> min <= n <= max
  {
    (r * (max - min + 1) as real).Floor + min
  }

  /** The number of coins placed near platforms: `Math.floor(total * 0.6)`. */
  function PlatformShare(total: int): int {
    (total as real * 0.6).Floor
  }

  /**
   * The split of a total drawn from [8, 20]: the two parts add up to it, and
   * the part near platforms is between 4 and 12. The random part is between
   * 4 and 8, and for totals of 8 to 10 it asks for 4 coins, which the random
   * generator raises to its minimum of 5.
   */
  lemma MixedSplit(total: int)
    requires 8 <= total <= 20
    ensures PlatformShare(total) + (total - PlatformShare(total)) == total
    ensures 4 <= PlatformShare(total) <= 12 && 4 <= total - PlatformShare(total) <= 8
    ensures total <= 10 <==> total - PlatformShare(total) == 4
    ensures total <= 10 ==> ClampCount(total - PlatformShare(total)) == 5
  {
    assert PlatformShare(total) * 10 <= total * 6 < PlatformShare(total) * 10 + 10;
  }

  /**
   * `generateMixedCoins`: a total from [8, 20], 60% of it placed near
   * platforms, the rest at random, the near ones first.
   */
  method GenerateMixedCoins(platforms: seq<Platform>, countSample: real, nearDraws: seq<(real, real, real)>,
                            randomDraws: seq<(real, real)>)
    returns (coins: seq<Coin>)
    requires IsUnitSample(countSample)
    requires |nearDraws| >= 12
    requires forall i | 0 <= i < |nearDraws| ::
      IsUnitSample(nearDraws[i].0) && IsUnitSample(nearDraws[i].1) && IsUnitSample(nearDraws[i].2)
    requires |randomDraws| == MaxAttempts
    requires forall i | 0 <= i < |randomDraws| :: IsUnitSample(randomDraws[i].0) && IsUnitSample(randomDraws[i].1)
    ensures var total := RandomCoinCount(8, 20, countSample);
      && 8 <= total <= 20
      && |coins| <= PlatformShare(total) + ClampCount(total - PlatformShare(total))
    ensures forall i | 0 <= i < |coins| :: IsNewCoin(coins[i])
  {
    var totalCoins := RandomCoinCount(8, 20, countSample);
    MixedSplit(totalCoins);
    var platformCoins := PlatformShare(totalCoins);
    var randomCoins := totalCoins - platformCoins;
    var nearPlatforms := GenerateCoinsNearPlatforms(platformCoins, platforms, nearDraws);
    var random := GenerateRandomCoins(randomCoins, platforms, randomDraws);
    coins := nearPlatforms + random;
  }
}
