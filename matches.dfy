/**
 * One scraped row of the virtual-football page, as the scraper builds it
 * (index.js:208-218) and as it is stored in the match history. Each field
 * is `None` where the page had no such element.
 */
module Matches {
  import opened Wrappers

  datatype Match = Match(
    home: Option<string>,
    away: Option<string>,
    score: Option<string>,
    oddsHome: Option<string>,
    oddsDraw: Option<string>,
    oddsAway: Option<string>)

  /** The outcome a wager is placed on. */
  datatype Side = Home | Draw | Away
}
