/**
 * The in-memory fixed-window rate limiter of the two claim routes
 * (`checkRateLimit` over the module-level `rateLimitMap`). Each address has
 * at most one window record; a missing or expired record starts a new
 * window, a full window rejects without counting, otherwise the call is
 * counted.
 */
module FixedWindow {

  /** MAX_CLAIMS_PER_HOUR */
  const MaxClaims: nat := 10
  /** RATE_LIMIT_WINDOW, one hour in milliseconds. */
  const WindowMs: nat := 60 * 60 * 1000

  /** One address's record: claims counted in the window and the time it ends. */
  datatype Window = Window(count: int, resetTime: int)

  /** What `checkRateLimit` returns. */
  datatype Verdict = Verdict(allowed: bool, remaining: int)

  /** The verdict of one call together with the table it leaves behind. */
  datatype Outcome = Outcome(verdict: Verdict, records: map<string, Window>)

  /** A record that does not exist or whose window ended strictly before `now`. */
  predicate StartsNewWindow(records: map<string, Window>, address: string, now: int) {
    address !in records || now > records[address].resetTime
  }

  /** One call of `checkRateLimit(address)` at time `now`, on the table `records`. */
  function Step(records: map<string, Window>, address: string, now: int): Outcome {
    if StartsNewWindow(records, address, now) then
      Outcome(Verdict(true, MaxClaims - 1), records[address := Window(1, now + WindowMs)])
    else if records[address].count >= MaxClaims then
      Outcome(Verdict(false, 0), records)
    else
      var w := records[address];
      Outcome(Verdict(true, MaxClaims - (w.count + 1)), records[address := w.(count := w.count + 1)])
  }

  /** Every window has counted between 1 and MaxClaims calls. */
  predicate WellFormed(records: map<string, Window>) {
    forall a | a in records :: 1 <= records[a].count <= MaxClaims
  }

  /** The limiter object: the table that the source keeps in a module-level Map. */
  class Limiter {
    var records: map<string, Window>

    predicate Valid()
      reads this
    {
      WellFormed(records)
    }

    constructor ()
      ensures Valid() && records == map[]
    {
      records := map[];
    }

    /** `checkRateLimit(address)` at time `now`. */
    method Check(address: string, now: int) returns (allowed: bool, remaining: int)
      requires Valid()
      modifies this
      ensures Valid()
      ensures Step(old(records), address, now) == Outcome(Verdict(allowed, remaining), records)
    {
      if address !in records || now > records[address].resetTime {
        records := records[address := Window(1, now + WindowMs)];
        return true, MaxClaims - 1;
      }
      var record := records[address];
      if record.count >= MaxClaims {
        return false, 0;
      }
      record := record.(count := record.count + 1);
      records := records[address := record];
      return true, MaxClaims - record.count;
    }
  }

  /**
   * A fresh or expired record is replaced by a one-call window ending one
   * hour from now, and the call is allowed with nine calls left.
   */
  lemma StepStartsWindow(records: map<string, Window>, address: string, now: int)
    requires StartsNewWindow(records, address, now)
    ensures Step(records, address, now).verdict == Verdict(true, 9)
    ensures Step(records, address, now).records[address] == Window(1, now + 3600000)
  {
  }

  /** A full window rejects with nothing remaining and leaves the table as it was. */
  lemma StepFullWindow(records: map<string, Window>, address: string, now: int)
    requires address in records && now <= records[address].resetTime
    requires records[address].count >= 10
    ensures Step(records, address, now) == Outcome(Verdict(false, 0), records)
  {
  }

  /**
   * Otherwise the call is counted and `remaining` is what is left of the
   * ceiling; the window's end does not move.
   */
  lemma StepCounts(records: map<string, Window>, address: string, now: int)
    requires address in records && now <= records[address].resetTime
    requires records[address].count < 10
    ensures var o := Step(records, address, now);
      && o.records[address] == Window(records[address].count + 1, records[address].resetTime)
      && o.verdict == Verdict(true, 10 - o.records[address].count)
  {
  }

  /**
   * The window end is exclusive of nothing: a call at exactly `resetTime`
   * still belongs to the old window.
   */
  lemma StepAtResetTime(records: map<string, Window>, address: string)
    requires address in records && records[address].count >= 10
    ensures Step(records, address, records[address].resetTime).verdict.allowed == false
  {
  }

  /** A call never touches another address's record and never drops a record. */
  lemma StepFrame(records: map<string, Window>, address: string, now: int)
    ensures var o := Step(records, address, now);
      && o.records.Keys == records.Keys + {address}
      && forall a | a in records && a != address :: o.records[a] == records[a]
  {
  }

  /** The ceiling is kept: no window ever counts more than ten calls. */
  lemma StepKeepsCeiling(records: map<string, Window>, address: string, now: int)
    requires WellFormed(records)
    ensures WellFormed(Step(records, address, now).records)
    ensures var o := Step(records, address, now); 0 <= o.verdict.remaining <= 9
  {
  }

  /** The verdicts and the final table of a series of calls from one address. */
  function Run(records: map<string, Window>, address: string, times: seq<int>): (r: (seq<Verdict>, map<string, Window>))
    ensures |r.0| == |times|
    decreases |times|
  {
    if times == [] then ([], records)
    else
      var o := Step(records, address, times[0]);
      var rest := Run(o.records, address, times[1..]);
      ([o.verdict] + rest.0, rest.1)
  }

  /** Running two series one after the other is running their concatenation. */
  lemma {:induction false} RunAppend(records: map<string, Window>, address: string, xs: seq<int>, ys: seq<int>)
    ensures var first := Run(records, address, xs);
      var second := Run(first.1, address, ys);
      Run(records, address, xs + ys) == (first.0 + second.0, second.1)
    decreases |xs|
  {
    if xs == [] {
      assert xs + ys == ys;
      var second := Run(records, address, ys);
      assert [] + second.0 == second.0;
    } else {
      var o := Step(records, address, xs[0]);
      assert (xs + ys)[0] == xs[0];
      assert (xs + ys)[1..] == xs[1..] + ys;
      RunAppend(o.records, address, xs[1..], ys);
      var tail := Run(o.records, address, xs[1..]);
      var second := Run(tail.1, address, ys);
      assert Run(records, address, xs) == ([o.verdict] + tail.0, tail.1);
      assert Run(records, address, xs + ys) == ([o.verdict] + (tail.0 + second.0), second.1);
      assert [o.verdict] + (tail.0 + second.0) == ([o.verdict] + tail.0) + second.0;
    }
  }

  /**
   * Calls inside a window that already counted `c` calls: the k-th is
   * allowed while `c + k` is under the ceiling, and the window ends with
   * min(c + n, 10) counted calls.
   */
  lemma {:induction false} RunInsideWindow(records: map<string, Window>, address: string, times: seq<int>, c: int, reset: int)
    requires address in records && records[address] == Window(c, reset) && 1 <= c <= MaxClaims
    requires forall k | 0 <= k < |times| :: times[k] <= reset
    ensures var r := Run(records, address, times);
      && (forall k | 0 <= k < |times| ::
            r.0[k] == if c + k < MaxClaims then Verdict(true, MaxClaims - (c + k + 1)) else Verdict(false, 0))
      && address in r.1
      && r.1[address] == Window(if c + |times| < MaxClaims then c + |times| else MaxClaims, reset)
    decreases |times|
  {
    if times != [] {
      var o := Step(records, address, times[0]);
      var c' := if c < MaxClaims then c + 1 else MaxClaims;
      assert o.records[address] == Window(c', reset);
      RunInsideWindow(o.records, address, times[1..], c', reset);
      var r := Run(records, address, times);
      var rest := Run(o.records, address, times[1..]);
      assert r.0 == [o.verdict] + rest.0;
      forall k | 0 <= k < |times|
        ensures r.0[k] == if c + k < MaxClaims then Verdict(true, MaxClaims - (c + k + 1)) else Verdict(false, 0)
      {
        if k > 0 {
          assert r.0[k] == rest.0[k - 1];
        }
      }
    }
  }

  /**
   * The fixed-window ceiling: starting from a fresh or expired record, of the
   * calls made within one hour of the first, the first ten are allowed (with
   * 9, 8, ..., 0 remaining) and every later one is rejected with 0 remaining.
   */
  lemma ElevenCallsInOneWindow(records: map<string, Window>, address: string, times: seq<int>)
    requires times != [] && StartsNewWindow(records, address, times[0])
    requires forall k | 0 <= k < |times| :: times[k] <= times[0] + WindowMs
    ensures var verdicts := Run(records, address, times).0;
      forall k | 0 <= k < |times| :: verdicts[k] == if k < 10 then Verdict(true, 9 - k) else Verdict(false, 0)
  {
    var o := Step(records, address, times[0]);
    RunInsideWindow(o.records, address, times[1..], 1, times[0] + WindowMs);
    var verdicts := Run(records, address, times).0;
    var rest := Run(o.records, address, times[1..]).0;
    assert verdicts == [o.verdict] + rest;
    forall k | 0 <= k < |times|
      ensures verdicts[k] == if k < 10 then Verdict(true, 9 - k) else Verdict(false, 0)
    {
      if k > 0 {
        assert verdicts[k] == rest[k - 1];
      }
    }
  }

  /**
   * A fixed window, not a sliding one: one call at `t`, nine more at the last
   * instant of its window and ten just after it are all allowed, so nineteen
   * calls pass within one millisecond.
   */
  lemma BoundaryBurst(address: string, t: int)
    ensures var times := [t] + seq(9, _ => t + WindowMs) + seq(10, _ => t + WindowMs + 1);
      |times| == 20 && forall k | 0 <= k < 20 :: Run(map[], address, times).0[k].allowed
  {
    var first := [t] + seq(9, _ => t + WindowMs);
    var second := seq(10, _ => t + WindowMs + 1);
    var r1 := Run(map[], address, first);
    ElevenCallsInOneWindow(map[], address, first);
    RunInsideWindow(map[][address := Window(1, t + WindowMs)], address, first[1..], 1, t + WindowMs);
    assert r1.1 == Run(map[][address := Window(1, t + WindowMs)], address, first[1..]).1;
    assert r1.1[address] == Window(10, t + WindowMs);
    ElevenCallsInOneWindow(r1.1, address, second);
    RunAppend(map[], address, first, second);
    var all := Run(map[], address, first + second).0;
    assert all == r1.0 + Run(r1.1, address, second).0;
    forall k | 0 <= k < 20
      ensures all[k].allowed
    {
      if k >= 10 {
        assert all[k] == Run(r1.1, address, second).0[k - 10];
      }
    }
  }
}
