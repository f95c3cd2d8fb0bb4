/**
 * `evaluateStrategies` (index.js:228-280): odds parsing, the value and trend
 * rules, and the ordered list of bet candidates they produce.
 */
module Strategy {
  import opened Wrappers
  import opened JsText
  import opened Matches
  import opened Trend
  import opened Lists

  /** Why a candidate was proposed; the source writes this as a message string. */
  datatype Reason = ValueOdds | TrendWins(team: string, wins: nat)

  /** One proposed bet: the scraped match, the side, its odds, the rule and the stake. */
  datatype Candidate = Candidate(fixture: Match, selection: Side, odds: real, reason: Reason, suggestedStake: nat)

  /**
   * `parseOdd`: missing or empty text is null; otherwise everything but
   * digits and dots is dropped and the rest is read by `parseFloat`, NaN
   * becoming null. The stripped text can only denote a finite, non-negative
   * number.
   */
  function ParseOdd(s: Option<string>): (r: Option<real>)
    ensures r.Some? <==> s.Some? && HasNumericPrefix(StripNonNumeric(s.value))
    ensures r.Some? ==> r.value >= 0.0
  {
    match s
    case None => None
    case Some(t) =>
      StripNonNumericSpec(t);
      if t == [] then None else ParseFloatOfNumberChars(StripNonNumeric(t))
  }

  /** Only the digits and dots of the text decide the odds: stripping first changes nothing. */
  lemma ParseOddIgnoresNoise(s: string)
    ensures ParseOdd(Some(s)) == ParseOdd(Some(StripNonNumeric(s)))
  {
    StripIdempotent(s);
  }

  /** Characters other than digits and dots inserted anywhere leave the odds as they were. */
  lemma ParseOddIgnoresInsertion(a: string, noise: string, b: string)
    requires StripNonNumeric(noise) == []
    ensures ParseOdd(Some(a + noise + b)) == ParseOdd(Some(a + b))
  {
    StripAppend(a + noise, b);
    StripAppend(a, noise);
    StripAppend(a, b);
    assert StripNonNumeric(a + noise) == StripNonNumeric(a);
    assert StripNonNumeric(a + noise + b) == StripNonNumeric(a + b);
    ParseOddIgnoresNoise(a + noise + b);
    ParseOddIgnoresNoise(a + b);
  }

  /** Odds written `whole.frac`, possibly followed by more digits and dots, read as that decimal. */
  lemma ParseOddOfDecimal(whole: string, frac: string, rest: string)
    requires AllDigitsIn(whole, 10) && AllDigitsIn(frac, 10) && |whole| + |frac| > 0
    requires AllNumberChars(rest) && (rest == [] || rest[0] == '.')
    ensures ParseOdd(Some(whole + ['.'] + frac + rest))
         == Some(DecimalValue(DigitsValue(whole, 10), DigitsValue(frac, 10), |frac|))
  {
    ParseFloatOfLiteral(whole, frac, rest);
    StripUntouched(whole + ['.'] + frac + rest);
  }

  /** Odds written as a whole number read as that number. */
  lemma ParseOddOfWhole(whole: string)
    requires whole != [] && AllDigitsIn(whole, 10)
    ensures ParseOdd(Some(whole)) == Some(DigitsValue(whole, 10) as real)
  {
    ParseFloatOfWhole(whole);
    StripUntouched(whole);
  }

  /** Text with no digit, such as a dash for suspended odds, gives no odds. */
  lemma ParseOddWithoutDigits(s: string)
    requires forall i :: 0 <= i < |s| ==> !IsDecimalDigit(s[i])
    ensures ParseOdd(Some(s)).None?
  {
    var t := StripNonNumeric(s);
    StripNonNumericSpec(s);
    forall i | 0 <= i < |t| ensures t[i] == '.' {
      assert t[i] in multiset(t);
    }
  }

  /** JavaScript truthiness of a parsed odd: null and 0 are false. */
  predicate Truthy(o: Option<real>) { o.Some? && o.value != 0.0 }

  /** The value rule: `odds && odds >= 3.0`. */
  predicate ValueRule(o: Option<real>) { Truthy(o) && o.value >= 3.0 }

  /** The trend rule: at least 3 wins, and `odds && 1.5 <= odds <= 2.5`. */
  predicate TrendRule(wins: nat, o: Option<real>) { wins >= 3 && Truthy(o) && 1.5 <= o.value <= 2.5 }

  /** The truthiness test never matters: both rules only accept odds of at least 1.5. */
  lemma RulesIgnoreTruthiness(wins: nat, o: Option<real>)
    ensures ValueRule(o) <==> o.Some? && o.value >= 3.0
    ensures TrendRule(wins, o) <==> wins >= 3 && o.Some? && 1.5 <= o.value <= 2.5
    ensures !(ValueRule(o) && TrendRule(wins, o))
  {
  }

  /** `(name || '').trim()`: the name a scraped match is looked up under in the trend map. */
  function TeamName(name: Option<string>): string {
    Trim(match name case None => "" case Some(n) => n)
  }

  /** The scraped odds text for a side. */
  function OddsText(m: Match, side: Side): Option<string> {
    match side
    case Home => m.oddsHome
    case Draw => m.oddsDraw
    case Away => m.oddsAway
  }

  /** The scraped team name for a side (there is none for a draw). */
  function SideName(m: Match, side: Side): Option<string> {
    match side
    case Home => m.home
    case Draw => None
    case Away => m.away
  }

  /** What the rule checks see of one side of a match: trimmed team name, parsed odds, trend count. */
  datatype SideView = SideView(team: string, odds: Option<real>, wins: nat)

  /** The view of one side of `m` against a stored history, as the rule loop computes it. */
  function View(history: seq<Match>, m: Match, side: Side): SideView {
    var team := TeamName(SideName(m, side));
    SideView(team, ParseOdd(OddsText(m, side)), WinCount(history, team))
  }

  /**
   * The list after the rule checks of one scraped match have pushed onto
   * `list`: value-home, value-away, trend-home, trend-away.
   */
  function PushRules(list: seq<Candidate>, m: Match, home: SideView, away: SideView): seq<Candidate> {
    var list1 := if ValueRule(home.odds) then list + [Candidate(m, Home, home.odds.value, ValueOdds, 1)] else list;
    var list2 := if ValueRule(away.odds) then list1 + [Candidate(m, Away, away.odds.value, ValueOdds, 1)] else list1;
    var list3 := if TrendRule(home.wins, home.odds)
      then list2 + [Candidate(m, Home, home.odds.value, TrendWins(home.team, home.wins), 1)] else list2;
    if TrendRule(away.wins, away.odds)
    then list3 + [Candidate(m, Away, away.odds.value, TrendWins(away.team, away.wins), 1)] else list3
  }

  /** Pushing one match's candidates appends the same candidates whatever the list held before. */
  lemma PushRulesAppends(list: seq<Candidate>, m: Match, home: SideView, away: SideView)
    ensures PushRules(list, m, home, away) == list + PushRules([], m, home, away)
  {
    var vh := if ValueRule(home.odds) then [Candidate(m, Home, home.odds.value, ValueOdds, 1)] else [];
    var va := if ValueRule(away.odds) then [Candidate(m, Away, away.odds.value, ValueOdds, 1)] else [];
    var th := if TrendRule(home.wins, home.odds)
      then [Candidate(m, Home, home.odds.value, TrendWins(home.team, home.wins), 1)] else [];
    var ta := if TrendRule(away.wins, away.odds)
      then [Candidate(m, Away, away.odds.value, TrendWins(away.team, away.wins), 1)] else [];
    assert PushRules(list, m, home, away) == list + vh + va + th + ta;
    assert PushRules([], m, home, away) == vh + va + th + ta;
  }

  /** The position of a candidate's rule and side in the push order of one match. */
  function Rank(c: Candidate): nat {
    (if c.reason.ValueOdds? then 0 else 2) + (if c.selection == Home then 0 else 1)
  }

  /**
   * A candidate the rules may propose for `m`: a home or away bet with stake
   * 1 at that side's parsed odds; a value candidate has odds of at least
   * 3.0, a trend candidate carries the side's team and its win count (at
   * least 3) and has odds within [1.5, 2.5].
   */
  predicate ValidCandidate(c: Candidate, m: Match, home: SideView, away: SideView) {
    var view := if c.selection == Home then home else away;
    && c.fixture == m
    && c.selection != Draw
    && c.suggestedStake == 1
    && view.odds == Some(c.odds)
    && c.odds > 0.0
    && (c.reason.ValueOdds? ==> c.odds >= 3.0)
    && (c.reason.TrendWins? ==>
          && c.reason.team == view.team
          && c.reason.wins == view.wins >= 3
          && 1.5 <= c.odds <= 2.5)
  }

  /** Some candidate in `r` bets on `side` by the value rule (`value`) or by the trend rule. */
  predicate Proposes(r: seq<Candidate>, side: Side, value: bool) {
    exists k :: 0 <= k < |r| && r[k].selection == side && r[k].reason.ValueOdds? == value
  }

  /**
   * What one match yields: at most two well-formed candidates in push order;
   * a value candidate for a side exactly when its value rule fires, a trend
   * candidate exactly when its trend rule fires, never both for one side,
   * and never one for the draw.
   */
  lemma PushRulesSpec(m: Match, home: SideView, away: SideView)
    ensures var r := PushRules([], m, home, away);
      && |r| <= 2
      && (forall k :: 0 <= k < |r| ==> ValidCandidate(r[k], m, home, away))
      && (forall k, l :: 0 <= k < l < |r| ==> Rank(r[k]) < Rank(r[l]) && r[k].selection != r[l].selection)
      && (Proposes(r, Home, true) <==> ValueRule(home.odds))
      && (Proposes(r, Away, true) <==> ValueRule(away.odds))
      && (Proposes(r, Home, false) <==> TrendRule(home.wins, home.odds))
      && (Proposes(r, Away, false) <==> TrendRule(away.wins, away.odds))
  {
    var r := PushRules([], m, home, away);
    RulesIgnoreTruthiness(home.wins, home.odds);
    RulesIgnoreTruthiness(away.wins, away.odds);
    var vh := if ValueRule(home.odds) then [Candidate(m, Home, home.odds.value, ValueOdds, 1)] else [];
    var va := if ValueRule(away.odds) then [Candidate(m, Away, away.odds.value, ValueOdds, 1)] else [];
    var th := if TrendRule(home.wins, home.odds)
      then [Candidate(m, Home, home.odds.value, TrendWins(home.team, home.wins), 1)] else [];
    var ta := if TrendRule(away.wins, away.odds)
      then [Candidate(m, Away, away.odds.value, TrendWins(away.team, away.wins), 1)] else [];
    assert r == vh + va + th + ta;
    assert |vh + th| <= 1 && |va + ta| <= 1;
    forall k, l | 0 <= k < l < |r| ensures Rank(r[k]) < Rank(r[l]) && r[k].selection != r[l].selection {
      assert |r| == 2 && k == 0 && l == 1;
    }
    if ValueRule(home.odds) { assert r[0] == vh[0]; }
    if ValueRule(away.odds) { assert r[|vh|] == va[0]; }
    if TrendRule(home.wins, home.odds) { assert r[|vh + va|] == th[0]; }
    if TrendRule(away.wins, away.odds) { assert r[|vh + va + th|] == ta[0]; }
  }

  /** The candidates of one scraped match against a stored history. */
  function MatchCandidates(history: seq<Match>, m: Match): seq<Candidate> {
    PushRules([], m, View(history, m, Home), View(history, m, Away))
  }

  /** The rule checks of the evaluation against a stored history, as a function of the scraped match. */
  function Rules(history: seq<Match>): Match -> seq<Candidate> {
    m => MatchCandidates(history, m)
  }

  /** All candidates, match by match in scan order. */
  function Candidates(history: seq<Match>, matches: seq<Match>): seq<Candidate> {
    FlatMap(Rules(history), matches)
  }

  /** The candidates of consecutive stretches of scraped matches concatenate. */
  lemma CandidatesInScanOrder(history: seq<Match>, a: seq<Match>, b: seq<Match>)
    ensures Candidates(history, a + b) == Candidates(history, a) + Candidates(history, b)
  {
    FlatMapAppend(Rules(history), a, b);
  }

  /** The rule checks of one more scraped match extend the candidates of the matches before it. */
  lemma CandidatesStep(history: seq<Match>, matches: seq<Match>, i: nat, before: seq<Candidate>, after: seq<Candidate>)
    requires i < |matches|
    requires before == Candidates(history, matches[..i])
    requires after == PushRules(before, matches[i], View(history, matches[i], Home), View(history, matches[i], Away))
    ensures after == Candidates(history, matches[..i + 1])
  {
    FlatMapStep(Rules(history), matches, i);
    PushRulesAppends(before, matches[i], View(history, matches[i], Home), View(history, matches[i], Away));
  }

  /**
   * Every candidate comes from one of the scraped matches and is well formed
   * against that match's views; there are at most two per match.
   */
  lemma CandidatesWellFormed(history: seq<Match>, matches: seq<Match>)
    ensures var r := Candidates(history, matches);
      && |r| <= 2 * |matches|
      && forall k :: 0 <= k < |r| ==>
           var m := r[k].fixture;
           m in matches && ValidCandidate(r[k], m, View(history, m, Home), View(history, m, Away))
  {
    var r := Candidates(history, matches);
    forall i | 0 <= i < |matches|
      ensures |Rules(history)(matches[i])| <= 2
      ensures forall c :: c in Rules(history)(matches[i]) ==>
        c.fixture == matches[i]
        && ValidCandidate(c, matches[i], View(history, matches[i], Home), View(history, matches[i], Away))
    {
      PushRulesSpec(matches[i], View(history, matches[i], Home), View(history, matches[i], Away));
    }
    FlatMapLength(Rules(history), matches, 2);
    FlatMapMembers(Rules(history), matches);
    forall k | 0 <= k < |r|
      ensures r[k].fixture in matches
      ensures ValidCandidate(r[k], r[k].fixture, View(history, r[k].fixture, Home), View(history, r[k].fixture, Away))
    {
      var i :| 0 <= i < |matches| && r[k] in Rules(history)(matches[i]);
    }
  }

  /**
   * The candidate acted on: the first candidate of the first scraped match
   * that yields any, every earlier match yielding none.
   */
  lemma FirstCandidate(history: seq<Match>, matches: seq<Match>)
    requires Candidates(history, matches) != []
    ensures exists i :: (0 <= i < |matches|
      && (forall j :: 0 <= j < i ==> MatchCandidates(history, matches[j]) == [])
      && MatchCandidates(history, matches[i]) != []
      && Candidates(history, matches)[0] == MatchCandidates(history, matches[i])[0])
  {
    FlatMapFirst(Rules(history), matches);
  }

  /** There are no candidates exactly when no scraped match yields any. */
  lemma NoCandidates(history: seq<Match>, matches: seq<Match>)
    ensures Candidates(history, matches) == []
        <==> forall j :: 0 <= j < |matches| ==> MatchCandidates(history, matches[j]) == []
  {
    FlatMapEmpty(Rules(history), matches);
  }

  /**
   * `evaluateStrategies`: builds the trend map from the history, then walks
   * the scraped matches pushing candidates in rule order.
   */
  method EvaluateStrategies(history: seq<Match>, matches: seq<Match>) returns (candidates: seq<Candidate>)
    ensures candidates == Candidates(history, matches)
  {
    var trend := BuildTrendMap(history);
    candidates := [];
    var i := 0;
    while i < |matches|
      invariant i <= |matches|
      invariant candidates == Candidates(history, matches[..i])
    {
      var m := matches[i];
      var home := TeamName(m.home);
      var away := TeamName(m.away);
      var oddsHome := ParseOdd(m.oddsHome);
      var oddsAway := ParseOdd(m.oddsAway);
      ghost var before := candidates;
      if ValueRule(oddsHome) {
        candidates := candidates + [Candidate(m, Home, oddsHome.value, ValueOdds, 1)];
      }
      if ValueRule(oddsAway) {
        candidates := candidates + [Candidate(m, Away, oddsAway.value, ValueOdds, 1)];
      }
      var homeTrend := Lookup(trend, home);
      var awayTrend := Lookup(trend, away);
      if TrendRule(homeTrend, oddsHome) {
        candidates := candidates + [Candidate(m, Home, oddsHome.value, TrendWins(home, homeTrend), 1)];
      }
      if TrendRule(awayTrend, oddsAway) {
        candidates := candidates + [Candidate(m, Away, oddsAway.value, TrendWins(away, awayTrend), 1)];
      }
      ghost var homeView := SideView(home, oddsHome, homeTrend);
      ghost var awayView := SideView(away, oddsAway, awayTrend);
      assert candidates == PushRules(before, m, homeView, awayView);
      assert homeView == View(history, m, Home) && awayView == View(history, m, Away);
      CandidatesStep(history, matches, i, before, candidates);
      i := i + 1;
    }
    assert matches[..i] == matches;
  }

  /** "3.50" reads as 3.5. */
  lemma OddsThreeFifty()
    ensures ParseOdd(Some("3.50")) == Some(3.5)
  {
    assert AllDigitsIn("3", 10) && AllDigitsIn("50", 10) by {
      assert IsDigitIn('0', 10) && IsDigitIn('3', 10) && IsDigitIn('5', 10);
    }
    assert "3.50" == "3" + ['.'] + "50" + "";
    ParseOddOfDecimal("3", "50", "");
    assert DigitsValue("3", 10) == 3 && DigitsValue("50", 10) == 50;
  }

  /** "2.05" reads as 2.05. */
  lemma OddsTwoOhFive()
    ensures ParseOdd(Some("2.05")) == Some(2.05)
  {
    assert AllDigitsIn("2", 10) && AllDigitsIn("05", 10) by {
      assert IsDigitIn('0', 10) && IsDigitIn('2', 10) && IsDigitIn('5', 10);
    }
    assert "2.05" == "2" + ['.'] + "05" + "";
    ParseOddOfDecimal("2", "05", "");
    assert DigitsValue("2", 10) == 2 && DigitsValue("05", 10) == 5;
  }

  /** A scrape of one match yields that match's candidates. */
  lemma CandidatesOfOne(history: seq<Match>, m: Match)
    ensures Candidates(history, [m]) == MatchCandidates(history, m)
  {
    FlatMapStep(Rules(history), [m], 0);
    assert [m][..1] == [m] && [m][..0] == [];
  }

  /** The match of the value scenario: odds "3.50" for the home side, "2.05" away. */
  function ValueScenarioMatch(): Match {
    Match(Some("A"), Some("B"), None, Some("3.50"), Some("3.10"), Some("2.05"))
  }

  /** What the rule checks see of the value scenario match with no history. */
  lemma ValueScenarioViews()
    ensures View([], ValueScenarioMatch(), Home) == SideView("A", Some(3.5), 0)
    ensures View([], ValueScenarioMatch(), Away) == SideView("B", Some(2.05), 0)
  {
    OddsThreeFifty();
    OddsTwoOhFive();
    ScenarioNames();
  }

  /** With no history, the value scenario match yields one value candidate for the home side at 3.5. */
  lemma ValueOddsScenario()
    ensures var m := ValueScenarioMatch();
      Candidates([], [m]) == [Candidate(m, Home, 3.5, ValueOdds, 1)]
  {
    var m := ValueScenarioMatch();
    ValueScenarioViews();
    assert PushRules([], m, SideView("A", Some(3.5), 0), SideView("B", Some(2.05), 0))
        == [Candidate(m, Home, 3.5, ValueOdds, 1)];
    CandidatesOfOne([], m);
  }

  /** "1.80" reads as 1.8. */
  lemma OddsOneEighty()
    ensures ParseOdd(Some("1.80")) == Some(1.8)
  {
    assert AllDigitsIn("1", 10) && AllDigitsIn("80", 10) by {
      assert IsDigitIn('0', 10) && IsDigitIn('1', 10) && IsDigitIn('8', 10);
    }
    assert "1.80" == "1" + ['.'] + "80" + "";
    ParseOddOfDecimal("1", "80", "");
    assert DigitsValue("1", 10) == 1 && DigitsValue("80", 10) == 80;
  }

  /** "4.20" reads as 4.2. */
  lemma OddsFourTwenty()
    ensures ParseOdd(Some("4.20")) == Some(4.2)
  {
    assert AllDigitsIn("4", 10) && AllDigitsIn("20", 10) by {
      assert IsDigitIn('0', 10) && IsDigitIn('2', 10) && IsDigitIn('4', 10);
    }
    assert "4.20" == "4" + ['.'] + "20" + "";
    ParseOddOfDecimal("4", "20", "");
    assert DigitsValue("4", 10) == 4 && DigitsValue("20", 10) == 20;
  }

  /** Stray spaces around a scraped name are dropped before the trend lookup. */
  lemma ScenarioNames()
    ensures TeamName(Some(" A ")) == "A" && TeamName(Some("A")) == "A" && TeamName(Some("B")) == "B"
  {
    assert TrimStart("A") == "A";
    assert TrimEnd("A") == "A";
    assert TrimStart(" A ") == "A ";
    assert TrimEnd("A ") == "A";
    assert TrimStart("B") == "B";
    assert TrimEnd("B") == "B";
  }

  /** The match of the trend scenario. */
  function ScenarioMatch(): Match {
    Match(Some(" A "), Some("B"), None, Some("1.80"), None, Some("4.20"))
  }

  /** What the rule checks see of the scenario match against any history. */
  lemma ScenarioViews(history: seq<Match>)
    ensures View(history, ScenarioMatch(), Home) == SideView("A", Some(1.8), WinCount(history, "A"))
    ensures View(history, ScenarioMatch(), Away) == SideView("B", Some(4.2), WinCount(history, "B"))
  {
    OddsOneEighty();
    OddsFourTwenty();
    ScenarioNames();
  }

  /** The rule checks on the scenario match for any win counts of which "A"'s is at least 3. */
  lemma TrendScenarioRules(homeWins: nat, awayWins: nat)
    requires homeWins >= 3
    ensures var m := ScenarioMatch();
      PushRules([], m, SideView("A", Some(1.8), homeWins), SideView("B", Some(4.2), awayWins))
      == [Candidate(m, Away, 4.2, ValueOdds, 1), Candidate(m, Home, 1.8, TrendWins("A", homeWins), 1)]
  {
  }

  /**
   * Once "A" has won at least three stored matches, a match " A " (scraped
   * with stray spaces) at home odds "1.80" against "B" at "4.20" yields the
   * away value candidate first and then the home trend candidate, which
   * names the trimmed team and its win count; "B"'s own count plays no part.
   */
  lemma TrendScenario(history: seq<Match>)
    requires WinCount(history, "A") >= 3
    ensures var m := ScenarioMatch();
      Candidates(history, [m])
      == [Candidate(m, Away, 4.2, ValueOdds, 1), Candidate(m, Home, 1.8, TrendWins("A", WinCount(history, "A")), 1)]
  {
    var m := ScenarioMatch();
    ScenarioViews(history);
    TrendScenarioRules(WinCount(history, "A"), WinCount(history, "B"));
    CandidatesOfOne(history, m);
  }

  /** The three home wins of "A" are enough for the trend candidate. */
  lemma TrendScenarioAfterThreeWins()
    ensures var m := ScenarioMatch();
      Candidates(ThreeWinsHistory(), [m])
      == [Candidate(m, Away, 4.2, ValueOdds, 1), Candidate(m, Home, 1.8, TrendWins("A", 3), 1)]
  {
    ThreeHomeWins();
    TrendScenario(ThreeWinsHistory());
  }
}
