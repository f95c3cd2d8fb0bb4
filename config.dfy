/**
 * The settings the cycle reads from the environment (index.js:26-27, 34,
 * 36). An environment variable is `None` when unset.
 */
module Config {
  import opened Wrappers
  import opened JsText

  /** `process.env.X || fallback`: an unset or empty variable gives the fallback text. */
  function EnvOr(env: Option<string>, fallback: string): string {
    if env.Some? && env.value != [] then env.value else fallback
  }

  /**
   * `SCAN_INTERVAL`: `parseInt(SCAN_INTERVAL_MIN || '10', 10)` minutes,
   * raised to at least one minute, in milliseconds. Text with no leading
   * number makes it NaN (`None`), which `Math.max` passes on.
   */
  function ScanIntervalMs(env: Option<string>): (r: Option<int>)
    ensures env.None? ==> r == Some(600000)
    ensures r.Some? ==> r.value >= 60000 && r.value % 60000 == 0
    ensures r.None? <==> ParseIntDecimal(EnvOr(env, "10")).None?
  {
    assert ParseIntDecimal("10") == Some(10) by {
      assert AllDigitsIn("10", 10) by { assert IsDigitIn('1', 10) && IsDigitIn('0', 10); }
      ParseIntOfDecimal("10");
    }
    match ParseIntDecimal(EnvOr(env, "10"))
    case None => None
    case Some(minutes) => Some((if minutes > 1 then minutes else 1) * 60 * 1000)
  }

  /** A whole number of minutes, one or more, is that many minutes; zero or less is one minute. */
  lemma ScanIntervalOfMinutes(d: string)
    requires d != [] && AllDigitsIn(d, 10)
    ensures ScanIntervalMs(Some(d)) == Some((if DigitsValue(d, 10) >= 1 then DigitsValue(d, 10) else 1) * 60000)
  {
    ParseIntOfDecimal(d);
  }

  /** `MAX_BETS_PER_DAY`: `parseInt(MAX_BETS_PER_DAY || '30', 10)`; `None` is NaN. */
  function MaxBetsPerDay(env: Option<string>): (r: Option<int>)
    ensures env.None? ==> r == Some(30)
  {
    assert ParseIntDecimal("30") == Some(30) by {
      assert AllDigitsIn("30", 10) by { assert IsDigitIn('3', 10) && IsDigitIn('0', 10); }
      ParseIntOfDecimal("30");
    }
    ParseIntDecimal(EnvOr(env, "30"))
  }

  /** `DRY_RUN`: only the exact text "true" turns it on. */
  predicate DryRun(env: Option<string>) {
    env == Some("true")
  }

  /** `betsCount >= MAX_BETS_PER_DAY`: a NaN limit is never reached. */
  predicate LimitReached(betsCount: int, maxBetsPerDay: Option<int>) {
    maxBetsPerDay.Some? && betsCount >= maxBetsPerDay.value
  }

  /** With the default limit the cycle stops at 30 bets and not before. */
  lemma DefaultLimit(betsCount: int)
    ensures LimitReached(betsCount, MaxBetsPerDay(None)) <==> betsCount >= 30
  {
  }

  /** A limit that is not a number, such as "thirty", never stops the bot. */
  lemma NonNumericLimitNeverReached(env: string, betsCount: int)
    requires env != [] && !IsJsSpace(env[0]) && env[0] != '+' && env[0] != '-' && !IsDecimalDigit(env[0])
    ensures !LimitReached(betsCount, MaxBetsPerDay(Some(env)))
  {
    assert TrimStart(env) == env;
    assert Unsigned(env) == env;
    assert !IsDigitIn(env[0], 10);
  }
}
