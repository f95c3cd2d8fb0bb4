/**
 * The persisted bot state (index.js:67-100, 377, 390): the daily counters,
 * the stored match history, the file it lives in, and the in-place updates
 * the scan cycle makes to it.
 */
module BotState {
  import opened Wrappers
  import opened Matches

  /** The day's counters; `loss` and `consecutiveLosses` are only ever zeroed. */
  datatype Daily = Daily(date: string, loss: int, betsCount: int, consecutiveLosses: int)

  /**
   * The fields of `state.json` the bot reads: `daily` (absent in a file
   * written by hand) and `historyMatches` (read as `[]` when absent).
   */
  datatype StateRecord = StateRecord(daily: Option<Daily>, historyMatches: Option<seq<Match>>)

  /** What the state file holds: nothing, text that is not JSON, or a record. */
  datatype StoredFile = Missing | Corrupt | Stored(record: StateRecord)

  /** The stored history is kept to the most recent this many matches. */
  const HistoryLimit: nat := 300

  /** Zeroed counters for `today`. */
  function FreshDaily(today: string): (d: Daily)
    ensures d.date == today && d.loss == 0 && d.betsCount == 0 && d.consecutiveLosses == 0
  {
    Daily(today, 0, 0, 0)
  }

  /** The record `readState` starts from when there is no usable file. */
  function DefaultRecord(today: string): StateRecord {
    StateRecord(Some(FreshDaily(today)), Some([]))
  }

  /** `readState`: the stored record, or the zeroed default when the file is missing or corrupt. */
  function Loaded(file: StoredFile, today: string): (r: StateRecord)
    ensures file.Stored? ==> r == file.record
    ensures !file.Stored? ==> r.daily == Some(Daily(today, 0, 0, 0)) && r.historyMatches == Some([])
  {
    match file
    case Stored(record) => record
    case _ => DefaultRecord(today)
  }

  /** `state.historyMatches || []`. */
  function History(r: StateRecord): seq<Match> {
    match r.historyMatches
    case None => []
    case Some(h) => h
  }

  /** `!state.daily || state.daily.date !== today`. */
  predicate ResetNeeded(r: StateRecord, today: string) {
    r.daily.None? || r.daily.value.date != today
  }

  /** The record after `resetDailyIfNeeded`. */
  function ResetDaily(r: StateRecord, today: string): StateRecord {
    if ResetNeeded(r, today) then r.(daily := Some(FreshDaily(today))) else r
  }

  /**
   * After the reset the counters belong to today; a missing or stale day
   * starts from zero, a current one is kept as it is, and the history is
   * never touched.
   */
  lemma ResetDailySpec(r: StateRecord, today: string)
    ensures var s := ResetDaily(r, today);
      && s.daily.Some? && s.daily.value.date == today
      && s.historyMatches == r.historyMatches
      && (ResetNeeded(r, today) ==> s.daily.value.loss == 0 && s.daily.value.betsCount == 0 && s.daily.value.consecutiveLosses == 0)
      && (!ResetNeeded(r, today) ==> s == r)
  {
  }

  /** Resetting twice on the same day is resetting once. */
  lemma ResetDailyIdempotent(r: StateRecord, today: string)
    ensures ResetDaily(ResetDaily(r, today), today) == ResetDaily(r, today)
  {
  }

  /** `list.slice(-300)`: the last 300 elements, or all of them when there are fewer. */
  function Window(s: seq<Match>): (r: seq<Match>)
    ensures |r| == if |s| <= HistoryLimit then |s| else HistoryLimit
    ensures r == s[|s| - |r|..]
  {
    if |s| <= HistoryLimit then s else s[|s| - HistoryLimit..]
  }

  /** Windowing after each append keeps the same history as windowing once at the end. */
  lemma WindowCompose(a: seq<Match>, b: seq<Match>)
    ensures Window(Window(a) + b) == Window(a + b)
  {
    var w := Window(a);
    assert w + b == (a + b)[|a| - |w|..];
    var n := |Window(w + b)|;
    assert n == |Window(a + b)|;
    assert Window(w + b) == (w + b)[|w + b| - n..];
    assert (w + b)[|w + b| - n..] == (a + b)[|a + b| - n..];
  }

  /** The state file as an object the cycle reads from and writes to. */
  class Store {
    var file: StoredFile

    constructor(file: StoredFile)
      ensures this.file == file
    {
      this.file := file;
    }

    /**
     * `readState`: a missing file is created holding the default record; a
     * corrupt one is left as it is and the default is used.
     */
    method ReadState(today: string) returns (state: BotState)
      modifies this
      ensures fresh(state)
      ensures state.Record() == Loaded(old(file), today)
      ensures file == if old(file).Missing? then Stored(DefaultRecord(today)) else old(file)
    {
      match file
      case Missing =>
        state := new BotState(DefaultRecord(today));
        file := Stored(DefaultRecord(today));
      case Corrupt =>
        state := new BotState(DefaultRecord(today));
      case Stored(record) =>
        state := new BotState(record);
    }

    /** `writeState`: the file now holds the state's record. */
    method WriteState(state: BotState)
      modifies this
      ensures file == Stored(state.Record())
    {
      file := Stored(StateRecord(state.daily, state.historyMatches));
    }
  }

  /** The record once scraped matches are appended to the history and the window applied. */
  function Recorded(r: StateRecord, matches: seq<Match>): StateRecord {
    r.(historyMatches := Some(Window(History(r) + matches)))
  }

  /** `state.daily.betsCount++`: one more bet today, nothing else changes. */
  function Increment(r: StateRecord): StateRecord {
    match r.daily
    case None => r
    case Some(day) => r.(daily := Some(day.(betsCount := day.betsCount + 1)))
  }

  /** The state object the cycle updates in place. */
  class BotState {
    var daily: Option<Daily>
    var historyMatches: Option<seq<Match>>

    function Record(): StateRecord
      reads this
    {
      StateRecord(daily, historyMatches)
    }

    constructor(r: StateRecord)
      ensures Record() == r
    {
      daily := r.daily;
      historyMatches := r.historyMatches;
    }

    /** `resetDailyIfNeeded`: replaces a missing or stale day with zeroed counters for today and saves. */
    method ResetDailyIfNeeded(today: string, store: Store)
      modifies this, store
      ensures Record() == ResetDaily(old(Record()), today)
      ensures store.file == if ResetNeeded(old(Record()), today) then Stored(Record()) else old(store.file)
    {
      if daily.None? || daily.value.date != today {
        daily := Some(Daily(today, 0, 0, 0));
        store.WriteState(this);
      }
    }

    /** Appends the scraped matches to the history, keeps the last 300, and saves. */
    method UpdateHistory(matches: seq<Match>, store: Store)
      modifies this, store
      ensures Record() == Recorded(old(Record()), matches)
      ensures store.file == Stored(Record())
    {
      var previous := if historyMatches.Some? then historyMatches.value else [];
      var combined := previous + matches;
      historyMatches := Some(if |combined| <= HistoryLimit then combined else combined[|combined| - HistoryLimit..]);
      store.WriteState(this);
    }

    /** `state.daily.betsCount++` after a successful placement, then saves. */
    method RecordPlacedBet(store: Store)
      requires daily.Some?
      modifies this, store
      ensures Record() == Increment(old(Record()))
      ensures store.file == Stored(Record())
    {
      daily := Some(daily.value.(betsCount := daily.value.betsCount + 1));
      store.WriteState(this);
    }
  }
}
