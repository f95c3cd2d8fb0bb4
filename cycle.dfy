/**
 * One run of `performScanAndAct` (index.js:360-405): load the state, reset
 * the day, stop at the daily limit, record the scraped matches, evaluate
 * the rules on the updated history and try the first candidate. The date,
 * the scrape and the bet page are inputs; `None` for the scrape stands for
 * a login or scraping failure, which the cycle catches.
 */
module Cycle {
  import opened Wrappers
  import opened Matches
  import opened Lists
  import opened Strategy
  import opened Placement
  import opened BotState
  import opened Config

  /** The settings the cycle reads: `MAX_BETS_PER_DAY` (`None` is NaN) and `DRY_RUN`. */
  datatype Settings = Settings(maxBetsPerDay: Option<int>, dryRun: bool)

  /** How a cycle ended. */
  datatype Outcome =
    | DailyLimitReached
    | ScanFailed
    | NoCandidates
    | Attempted(candidate: Candidate, result: PlaceResult)

  /** The record after loading and the daily reset: what every cycle starts from. */
  function Start(file: StoredFile, today: string): (r: StateRecord)
    ensures r.daily.Some? && r.daily.value.date == today
  {
    ResetDailySpec(Loaded(file, today), today);
    ResetDaily(Loaded(file, today), today)
  }

  /** The counter a record holds after the reset. */
  function BetsCount(r: StateRecord): int {
    if r.daily.Some? then r.daily.value.betsCount else 0
  }

  /** Acting on the candidates: nothing when there are none, else try the first and count a success. */
  function Act(updated: StateRecord, candidates: seq<Candidate>, page: BetPage, dryRun: bool): (StateRecord, Outcome) {
    if candidates == [] then (updated, NoCandidates)
    else
      var result := PlaceBetAsWritten(page, candidates[0], dryRun);
      (if result.ok then Increment(updated) else updated, Attempted(candidates[0], result))
  }

  /** Acting never touches the history: only the counter can change. */
  lemma ActKeepsHistory(updated: StateRecord, candidates: seq<Candidate>, page: BetPage, dryRun: bool)
    ensures Act(updated, candidates, page, dryRun).0.historyMatches == updated.historyMatches
  {
  }

  /** The record and outcome of one cycle. */
  function CycleResult(file: StoredFile, today: string, settings: Settings, scan: Option<seq<Match>>, page: BetPage)
    : (StateRecord, Outcome)
  {
    var start := Start(file, today);
    if LimitReached(BetsCount(start), settings.maxBetsPerDay) then (start, DailyLimitReached)
    else
      match scan
      case None => (start, ScanFailed)
      case Some(matches) =>
        var updated := Recorded(start, matches);
        Act(updated, Candidates(History(updated), matches), page, settings.dryRun)
  }

  /** At the daily limit the cycle ends at once: nothing is scraped, recorded or counted. */
  lemma LimitShortCircuits(file: StoredFile, today: string, settings: Settings, scan: Option<seq<Match>>, page: BetPage)
    requires LimitReached(BetsCount(Start(file, today)), settings.maxBetsPerDay)
    ensures CycleResult(file, today, settings, scan, page) == (Start(file, today), DailyLimitReached)
  {
  }

  /**
   * Below the limit, a successful scrape replaces the history with the last
   * `min(300, |old| + |new|)` matches of the old history followed by the
   * new ones.
   */
  lemma HistoryWindow(file: StoredFile, today: string, settings: Settings, matches: seq<Match>, page: BetPage)
    requires !LimitReached(BetsCount(Start(file, today)), settings.maxBetsPerDay)
    ensures var combined := History(Start(file, today)) + matches;
      var history := History(CycleResult(file, today, settings, Some(matches), page).0);
      && |history| == (if |combined| <= HistoryLimit then |combined| else HistoryLimit)
      && history == combined[|combined| - |history|..]
  {
    var updated := Recorded(Start(file, today), matches);
    assert CycleResult(file, today, settings, Some(matches), page)
        == Act(updated, Candidates(History(updated), matches), page, settings.dryRun);
    ActKeepsHistory(updated, Candidates(History(updated), matches), page, settings.dryRun);
  }

  /**
   * A bet is tried exactly when the run is below the limit, the scrape
   * succeeded and the rules yield a candidate on the updated history; the
   * tried one is the first candidate. The counter rises by exactly one when
   * that placement reports success, and stays put otherwise; the date and
   * the other counters are those after the reset.
   */
  lemma CounterRisesOnlyOnSuccess(file: StoredFile, today: string, settings: Settings, scan: Option<seq<Match>>, page: BetPage)
    ensures var (final, outcome) := CycleResult(file, today, settings, scan, page);
      var start := Start(file, today);
      var attempted := !LimitReached(BetsCount(start), settings.maxBetsPerDay) && scan.Some?
        && Candidates(History(Recorded(start, scan.value)), scan.value) != [];
      && (outcome.Attempted? <==> attempted)
      && (attempted ==> outcome.candidate == Candidates(History(Recorded(start, scan.value)), scan.value)[0])
      && final.daily.Some?
      && final.daily.value.betsCount
         == start.daily.value.betsCount
            + (if attempted && PlaceBetAsWritten(page, outcome.candidate, settings.dryRun).ok then 1 else 0)
      && final.daily.value.date == today
      && final.daily.value.loss == start.daily.value.loss
      && final.daily.value.consecutiveLosses == start.daily.value.consecutiveLosses
  {
  }

  /** A cycle that starts at or below the limit ends at or below it. */
  lemma StaysWithinLimit(file: StoredFile, today: string, settings: Settings, scan: Option<seq<Match>>, page: BetPage)
    requires settings.maxBetsPerDay.Some? && BetsCount(Start(file, today)) <= settings.maxBetsPerDay.value
    ensures BetsCount(CycleResult(file, today, settings, scan, page).0) <= settings.maxBetsPerDay.value
  {
    CounterRisesOnlyOnSuccess(file, today, settings, scan, page);
  }

  /**
   * Only the first candidate is tried: the first one of the first scraped
   * match that yields any under the rules, evaluated against the history
   * that already holds this scrape; it is well formed and was scraped now.
   */
  lemma TriesFirstCandidate(file: StoredFile, today: string, settings: Settings, matches: seq<Match>, page: BetPage)
    requires CycleResult(file, today, settings, Some(matches), page).1.Attempted?
    ensures var (final, outcome) := CycleResult(file, today, settings, Some(matches), page);
      var history := History(final);
      var c := outcome.candidate;
      && outcome.result == PlaceBetAsWritten(page, c, settings.dryRun)
      && c.fixture in matches
      && ValidCandidate(c, c.fixture, View(history, c.fixture, Home), View(history, c.fixture, Away))
      && exists i :: (0 <= i < |matches|
           && (forall j :: 0 <= j < i ==> MatchCandidates(history, matches[j]) == [])
           && MatchCandidates(history, matches[i]) != []
           && c == MatchCandidates(history, matches[i])[0])
  {
    var (final, outcome) := CycleResult(file, today, settings, Some(matches), page);
    var history := History(final);
    assert outcome.candidate == Candidates(history, matches)[0];
    CandidatesWellFormed(history, matches);
    FirstCandidate(history, matches);
  }

  /**
   * The body of the cycle's `try` block after a successful scrape: record
   * the matches, evaluate the rules on the updated history, try the first
   * candidate and count a success. Every change is saved.
   */
  method RecordAndAct(state: BotState, store: Store, matches: seq<Match>, page: BetPage, dryRun: bool)
    returns (outcome: Outcome)
    requires state.daily.Some?
    modifies state, store
    ensures var updated := Recorded(old(state.Record()), matches);
      (state.Record(), outcome) == Act(updated, Candidates(History(updated), matches), page, dryRun)
    ensures store.file == Stored(state.Record())
  {
    state.UpdateHistory(matches, store);
    ghost var updated := state.Record();
    var candidates := EvaluateStrategies(History(state.Record()), matches);
    if |candidates| > 0 {
      var best := candidates[0];
      var result := PlaceBetAsWritten(page, best, dryRun);
      if result.ok {
        state.RecordPlacedBet(store);
        assert state.Record() == Increment(updated);
      }
      outcome := Attempted(best, result);
      assert Act(updated, candidates, page, dryRun)
          == (if result.ok then Increment(updated) else updated, Attempted(best, result));
    } else {
      outcome := NoCandidates;
    }
  }

  /**
   * `performScanAndAct`: the state object ends as `CycleResult` says. The
   * file holds it exactly when something was written: a missing file was
   * created, the day was reset, or a scrape was recorded; otherwise the
   * file is as it was.
   */
  method PerformScanAndAct(store: Store, today: string, settings: Settings, scan: Option<seq<Match>>, page: BetPage)
    returns (state: BotState, outcome: Outcome)
    modifies store
    ensures fresh(state)
    ensures (state.Record(), outcome) == CycleResult(old(store.file), today, settings, scan, page)
    ensures store.file
         == if old(store.file).Missing?
               || ResetNeeded(Loaded(old(store.file), today), today)
               || (!LimitReached(BetsCount(Start(old(store.file), today)), settings.maxBetsPerDay) && scan.Some?)
            then Stored(state.Record()) else old(store.file)
  {
    ghost var file := store.file;
    state := store.ReadState(today);
    state.ResetDailyIfNeeded(today, store);
    assert state.Record() == Start(file, today);
    if LimitReached(state.daily.value.betsCount, settings.maxBetsPerDay) {
      outcome := DailyLimitReached;
      return;
    }
    match scan {
      case None =>
        outcome := ScanFailed;
      case Some(matches) =>
        outcome := RecordAndAct(state, store, matches, page, settings.dryRun);
    }
  }

  /**
   * The cycle counts a dry-run bet whose balance cannot be read: with three
   * odds buttons and a balance text of "--", the first candidate is
   * reported placed and the day's count rises by one.
   */
  lemma UnreadableBalanceCounted(file: StoredFile, today: string, settings: Settings, matches: seq<Match>)
    requires settings.dryRun
    requires !LimitReached(BetsCount(Start(file, today)), settings.maxBetsPerDay)
    requires Candidates(History(Recorded(Start(file, today), matches)), matches) != []
    ensures var page := BetPage(3, Some("--"), false);
      var (final, outcome) := CycleResult(file, today, settings, Some(matches), page);
      && outcome.Attempted? && outcome.result.ok
      && BetsCount(final) == BetsCount(Start(file, today)) + 1
  {
    var page := BetPage(3, Some("--"), false);
    var updated := Recorded(Start(file, today), matches);
    var history := History(updated);
    var candidates := Candidates(history, matches);
    CandidatesWellFormed(history, matches);
    assert candidates[0].suggestedStake == 1;
    UnreadableBalanceCounterexample(candidates[0]);
    assert CycleResult(file, today, settings, Some(matches), page) == Act(updated, candidates, page, true);
  }
}
