/**
 * The trend map of `evaluateStrategies` (index.js:239-251): for every team
 * name, how many stored matches it won.
 */
module Trend {
  import opened Wrappers
  import opened JsText
  import opened Matches

  /**
   * The key `trendMap[name]` uses: JavaScript turns a null name into the
   * property key "null".
   */
  function NameKey(name: Option<string>): string {
    match name
    case None => "null"
    case Some(n) => n
  }

  /**
   * The two goal counts of a stored score, each as `parseInt` reads it
   * (`None` is NaN), or `None` when the score does not split into at least
   * two parts. Only the first `:` is turned into `-`.
   */
  function ScoreGoals(score: Option<string>): Option<(Option<int>, Option<int>)> {
    var text := match score case None => "" case Some(s) => s;
    var parts := Split(ReplaceFirst(text, ':', '-'), '-');
    if |parts| >= 2 then Some((ParseInt(parts[0]), ParseInt(parts[1]))) else None
  }

  /** `a > b` on numbers that may be NaN: any comparison with NaN is false. */
  predicate Greater(a: Option<int>, b: Option<int>) {
    a.Some? && b.Some? && a.value > b.value
  }

  predicate HomeWon(e: Match) {
    var g := ScoreGoals(e.score);
    g.Some? && Greater(g.value.0, g.value.1)
  }

  predicate AwayWon(e: Match) {
    var g := ScoreGoals(e.score);
    g.Some? && Greater(g.value.1, g.value.0)
  }

  /** The wins one stored match adds to `team`'s count. */
  function Wins(e: Match, team: string): (w: nat)
    ensures w <= 1
    ensures w == 1 <==> (HomeWon(e) && NameKey(e.home) == team) || (AwayWon(e) && NameKey(e.away) == team)
  {
    assert !(HomeWon(e) && AwayWon(e));
    (if HomeWon(e) && NameKey(e.home) == team then 1 else 0)
    + (if AwayWon(e) && NameKey(e.away) == team then 1 else 0)
  }

  /** The number of matches in `history` that `team` won, at home or away. */
  function WinCount(history: seq<Match>, team: string): (n: nat)
    ensures n <= |history|
  {
    if history == [] then 0 else Wins(history[0], team) + WinCount(history[1..], team)
  }

  /** Counting over two stretches of history adds up. */
  lemma {:induction false} WinCountAppend(a: seq<Match>, b: seq<Match>, team: string)
    ensures WinCount(a + b, team) == WinCount(a, team) + WinCount(b, team)
  {
    if a != [] {
      assert (a + b)[1..] == a[1..] + b;
      WinCountAppend(a[1..], b, team);
    } else {
      assert a + b == b;
    }
  }

  /** `trendMap[team] || 0`. */
  function Lookup(trend: map<string, nat>, team: string): nat {
    if team in trend then trend[team] else 0
  }

  /** `trendMap[key] = (trendMap[key] || 0) + 1`. */
  function Credit(trend: map<string, nat>, key: string): (r: map<string, nat>)
    ensures forall team :: Lookup(r, team) == Lookup(trend, team) + (if team == key then 1 else 0)
    ensures r.Keys == trend.Keys + {key}
  {
    trend[key := Lookup(trend, key) + 1]
  }

  /** The trend map after the source's loop body has looked at one stored match. */
  function CreditMatch(trend: map<string, nat>, e: Match): (r: map<string, nat>)
    ensures forall team :: Lookup(r, team) == Lookup(trend, team) + Wins(e, team)
  {
    var afterHome := if HomeWon(e) then Credit(trend, NameKey(e.home)) else trend;
    if AwayWon(e) then Credit(afterHome, NameKey(e.away)) else afterHome
  }

  /** One more stored match keeps the map equal to the win counts, and every stored count positive. */
  lemma TrendStep(trend: map<string, nat>, seen: seq<Match>, e: Match)
    requires forall team :: Lookup(trend, team) == WinCount(seen, team)
    requires forall team :: team in trend ==> trend[team] > 0
    ensures forall team :: Lookup(CreditMatch(trend, e), team) == WinCount(seen + [e], team)
    ensures forall team :: team in CreditMatch(trend, e) ==> CreditMatch(trend, e)[team] > 0
  {
    forall team ensures WinCount(seen + [e], team) == WinCount(seen, team) + Wins(e, team) {
      WinCountAppend(seen, [e], team);
      assert [e][1..] == [];
    }
  }

  /**
   * Builds the trend map by walking the history once, as the source's loop
   * does: the map holds exactly the teams with at least one win, each with
   * its win count.
   */
  method BuildTrendMap(history: seq<Match>) returns (trend: map<string, nat>)
    ensures forall team :: Lookup(trend, team) == WinCount(history, team)
    ensures forall team :: team in trend ==> trend[team] > 0
  {
    trend := map[];
    var i := 0;
    while i < |history|
      invariant i <= |history|
      invariant forall team :: Lookup(trend, team) == WinCount(history[..i], team)
      invariant forall team :: team in trend ==> trend[team] > 0
    {
      var h := history[i];
      var goals := ScoreGoals(h.score);
      ghost var before := trend;
      if goals.Some? {
        var (homeGoals, awayGoals) := goals.value;
        if Greater(homeGoals, awayGoals) {
          trend := Credit(trend, NameKey(h.home));
        }
        if Greater(awayGoals, homeGoals) {
          trend := Credit(trend, NameKey(h.away));
        }
      }
      assert trend == CreditMatch(before, h);
      TrendStep(before, history[..i], h);
      assert history[..i + 1] == history[..i] + [h];
      i := i + 1;
    }
    assert history[..i] == history;
  }

  /** A score written `H-A` or `H:A` with plain digits reads as those two numbers. */
  lemma ScoreGoalsOfDigits(h: string, a: string, sep: char)
    requires h != [] && AllDigitsIn(h, 10) && a != [] && AllDigitsIn(a, 10)
    requires sep == '-' || sep == ':'
    ensures ScoreGoals(Some(h + [sep] + a))
         == Some((Some(DigitsValue(h, 10)), Some(DigitsValue(a, 10))))
  {
    NoSeparatorInDigits(h);
    NoSeparatorInDigits(a);
    DashedScore(h, a, sep);
    SplitAtFirst(h, '-', a);
    SplitWithoutSeparator(a, '-');
    ParseIntOfDecimal(h);
    ParseIntOfDecimal(a);
  }

  /** Turning the first `:` into `-` gives the dashed form of a score of digits. */
  lemma DashedScore(h: string, a: string, sep: char)
    requires ':' !in h && '-' !in h && ':' !in a && '-' !in a
    requires sep == '-' || sep == ':'
    ensures ReplaceFirst(h + [sep] + a, ':', '-') == h + ['-'] + a
  {
    var dashed := h + ['-'] + a;
    var written := h + [sep] + a;
    assert ReplaceFirst(written, ':', '-') == dashed by {
      ReplaceFirstSpec(written, ':', '-');
      if sep == ':' {
        assert written[|h|] == ':';
        IndexOfSpec(written, ':');
        assert IndexOf(written, ':') == |h| by {
          forall j | 0 <= j < |h| ensures written[j] != ':' { assert written[j] == h[j]; }
        }
        assert written[..|h|] == h && written[|h| + 1..] == a;
      } else {
        assert written == dashed;
        assert ':' !in dashed by {
          forall i | 0 <= i < |dashed| ensures dashed[i] != ':' {
            if i < |h| { assert dashed[i] == h[i]; }
            else if i > |h| { assert dashed[i] == a[i - |h| - 1]; }
          }
        }
      }
    }
  }

  lemma NoSeparatorInDigits(d: string)
    requires AllDigitsIn(d, 10)
    ensures ':' !in d && '-' !in d
  {
    forall i | 0 <= i < |d| ensures d[i] != ':' && d[i] != '-' {
      assert IsDigitIn(d[i], 10);
    }
  }

  /** In a well-formed score, the home side won exactly when it scored more. */
  lemma HomeWonOfDigits(e: Match, h: string, a: string, sep: char)
    requires h != [] && AllDigitsIn(h, 10) && a != [] && AllDigitsIn(a, 10)
    requires sep == '-' || sep == ':'
    requires e.score == Some(h + [sep] + a)
    ensures HomeWon(e) <==> DigitsValue(h, 10) > DigitsValue(a, 10)
    ensures AwayWon(e) <==> DigitsValue(a, 10) > DigitsValue(h, 10)
  {
    ScoreGoalsOfDigits(h, a, sep);
  }

  /**
   * A missing score, a score without a separator, a side whose goals do not
   * read as a number ("2-", "x-1"), or a draw credits nobody.
   */
  lemma NoWinWithoutDecision(e: Match, team: string)
    requires || ScoreGoals(e.score).None?
             || ScoreGoals(e.score).value.0.None?
             || ScoreGoals(e.score).value.1.None?
             || ScoreGoals(e.score).value.0 == ScoreGoals(e.score).value.1
    ensures Wins(e, team) == 0
  {
  }

  /** Three home wins of "A" over "B": 2-1, 3-0 and 1-0. */
  function ThreeWinsHistory(): seq<Match> {
    [ Match(Some("A"), Some("B"), Some("2-1"), None, None, None),
      Match(Some("A"), Some("B"), Some("3-0"), None, None, None),
      Match(Some("A"), Some("B"), Some("1-0"), None, None, None) ]
  }

  /** A decided match of "A" at home against "B": the winner gets one win, the other none. */
  lemma DecidedMatch(e: Match, h: string, a: string)
    requires h != [] && AllDigitsIn(h, 10) && a != [] && AllDigitsIn(a, 10)
    requires e.home == Some("A") && e.away == Some("B") && e.score == Some(h + ['-'] + a)
    requires DigitsValue(h, 10) > DigitsValue(a, 10)
    ensures Wins(e, "A") == 1 && Wins(e, "B") == 0
  {
    HomeWonOfDigits(e, h, a, '-');
  }

  /** After those three matches "A" has a count of 3 and "B" none. */
  lemma ThreeHomeWins()
    ensures WinCount(ThreeWinsHistory(), "A") == 3 && WinCount(ThreeWinsHistory(), "B") == 0
  {
    var history := ThreeWinsHistory();
    assert AllDigitsIn("0", 10) && AllDigitsIn("1", 10) && AllDigitsIn("2", 10) && AllDigitsIn("3", 10) by {
      assert IsDigitIn('0', 10) && IsDigitIn('1', 10) && IsDigitIn('2', 10) && IsDigitIn('3', 10);
    }
    assert "2-1" == "2" + ['-'] + "1" && "3-0" == "3" + ['-'] + "0" && "1-0" == "1" + ['-'] + "0";
    DecidedMatch(history[0], "2", "1");
    DecidedMatch(history[1], "3", "0");
    DecidedMatch(history[2], "1", "0");
    assert history[1..][1..][1..] == [];
  }
}
