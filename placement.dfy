/**
 * The decisions of `placeBetWithBrowser` (index.js:285-355) once the
 * browser is abstracted: what the bet page offers is an input, and the
 * outcome is the `{ ok, message }` record the function returns.
 */
module Placement {
  import opened Wrappers
  import opened JsText
  import opened Matches
  import opened Strategy

  /**
   * What the page offers: how many odds buttons it shows, the text of the
   * balance element (`None` when there is no such element), and whether
   * the bet slip has a confirm button.
   */
  datatype BetPage = BetPage(oddsButtons: nat, balanceText: Option<string>, confirmButton: bool)

  /** The messages the function returns with its result. */
  datatype PlaceMessage =
    | OddsButtonNotFound
    | InsufficientBalance
    | DryRunSimulated(selection: Side, odds: real)
    | BetConfirmed
    | ConfirmButtonNotFound

  datatype PlaceResult = PlaceResult(ok: bool, message: PlaceMessage)

  /**
   * The balance the function compares with the stake: 0 when there is no
   * balance element, otherwise `parseFloat` of the element's digits and
   * dots, which is NaN (`None`) when they do not start a number.
   */
  function Balance(text: Option<string>): Option<real> {
    match text
    case None => Some(0.0)
    case Some(t) =>
      StripNonNumericSpec(t);
      ParseFloatOfNumberChars(StripNonNumeric(t))
  }

  /** No element reads as 0; otherwise a number exactly when the digits and dots start one, and never negative. */
  lemma BalanceSpec(text: Option<string>)
    ensures text.None? ==> Balance(text) == Some(0.0)
    ensures text.Some? ==> (Balance(text).Some? <==> HasNumericPrefix(StripNonNumeric(text.value)))
    ensures Balance(text).Some? ==> Balance(text).value >= 0.0
  {
    if text.Some? {
      StripNonNumericSpec(text.value);
    }
  }

  /** The odds button of a side: the first, second or third button, found only when there are three or more. */
  predicate ButtonFound(page: BetPage, selection: Side) {
    page.oddsButtons >= 3
  }

  /**
   * `placeBetWithBrowser` as written: no button, then `balance < stake`
   * (false for a NaN balance, so the bet goes ahead), then the dry run,
   * then the confirm button.
   */
  function PlaceBetAsWritten(page: BetPage, candidate: Candidate, dryRun: bool): (r: PlaceResult)
    ensures r.ok <==> ButtonFound(page, candidate.selection)
                      && !(Balance(page.balanceText).Some? && Balance(page.balanceText).value < candidate.suggestedStake as real)
                      && (dryRun || page.confirmButton)
  {
    var balance := Balance(page.balanceText);
    if !ButtonFound(page, candidate.selection) then PlaceResult(false, OddsButtonNotFound)
    else if balance.Some? && balance.value < candidate.suggestedStake as real then PlaceResult(false, InsufficientBalance)
    else if dryRun then PlaceResult(true, DryRunSimulated(candidate.selection, candidate.odds))
    else if page.confirmButton then PlaceResult(true, BetConfirmed)
    else PlaceResult(false, ConfirmButtonNotFound)
  }

  /** The stake is covered only by a balance that was read as a number at least as large. */
  predicate Covers(balance: Option<real>, stake: nat) {
    balance.Some? && balance.value >= stake as real
  }

  /**
   * `placeBetWithBrowser` with the balance check failing closed: a balance
   * that cannot be read stops the bet, as a missing balance element does.
   */
  function PlaceBet(page: BetPage, candidate: Candidate, dryRun: bool): (r: PlaceResult)
    ensures r.ok <==> ButtonFound(page, candidate.selection)
                      && Covers(Balance(page.balanceText), candidate.suggestedStake)
                      && (dryRun || page.confirmButton)
    ensures !ButtonFound(page, candidate.selection) ==> r.message == OddsButtonNotFound
    ensures ButtonFound(page, candidate.selection) && !Covers(Balance(page.balanceText), candidate.suggestedStake)
            ==> r.message == InsufficientBalance
    ensures r.ok && dryRun ==> r.message == DryRunSimulated(candidate.selection, candidate.odds)
    ensures r.ok && !dryRun ==> r.message == BetConfirmed
  {
    var balance := Balance(page.balanceText);
    if !ButtonFound(page, candidate.selection) then PlaceResult(false, OddsButtonNotFound)
    else if !Covers(balance, candidate.suggestedStake) then PlaceResult(false, InsufficientBalance)
    else if dryRun then PlaceResult(true, DryRunSimulated(candidate.selection, candidate.odds))
    else if page.confirmButton then PlaceResult(true, BetConfirmed)
    else PlaceResult(false, ConfirmButtonNotFound)
  }

  /** The two agree whenever the balance is a number, or there is no odds button to click. */
  lemma PlaceBetAgreesOnNumbers(page: BetPage, candidate: Candidate, dryRun: bool)
    ensures Balance(page.balanceText).Some? || !ButtonFound(page, candidate.selection)
            <==> PlaceBetAsWritten(page, candidate, dryRun) == PlaceBet(page, candidate, dryRun)
  {
    var balance := Balance(page.balanceText);
    if balance.None? && ButtonFound(page, candidate.selection) {
      assert PlaceBet(page, candidate, dryRun).message == InsufficientBalance;
      assert PlaceBetAsWritten(page, candidate, dryRun).message != InsufficientBalance;
    }
  }

  /**
   * A balance element whose text has no digits ("--" while the wallet
   * loads) lets the bet through as written under a dry run; the corrected
   * check stops it.
   */
  lemma UnreadableBalanceCounterexample(candidate: Candidate)
    requires candidate.suggestedStake == 1
    ensures var page := BetPage(3, Some("--"), false);
      && PlaceBetAsWritten(page, candidate, true).ok
      && PlaceBet(page, candidate, true) == PlaceResult(false, InsufficientBalance)
  {
    assert StripNonNumeric("--") == [] by {
      assert "--"[1..] == "-";
      assert "-"[1..] == [];
    }
  }

  /** A missing balance element reads as 0 and stops every bet: both versions fail closed there. */
  lemma MissingBalanceStops(page: BetPage, candidate: Candidate, dryRun: bool)
    requires page.balanceText.None? && page.oddsButtons >= 3 && candidate.suggestedStake >= 1
    ensures PlaceBetAsWritten(page, candidate, dryRun) == PlaceResult(false, InsufficientBalance)
    ensures PlaceBet(page, candidate, dryRun) == PlaceResult(false, InsufficientBalance)
  {
  }

  /**
   * The only balance test is against the stake, with no minimum balance and
   * no stake cap: a balance of "1.0" covers a unit stake, and with a
   * confirm button the bet is placed, as written and corrected alike.
   */
  lemma UnitBalanceCoversUnitStake(candidate: Candidate)
    requires candidate.suggestedStake == 1
    ensures PlaceBetAsWritten(BetPage(3, Some("1.0"), true), candidate, false) == PlaceResult(true, BetConfirmed)
    ensures PlaceBet(BetPage(3, Some("1.0"), true), candidate, false) == PlaceResult(true, BetConfirmed)
  {
    assert AllDigitsIn("1", 10) && AllDigitsIn("0", 10) by {
      assert IsDigitIn('1', 10) && IsDigitIn('0', 10);
    }
    assert "1.0" == "1" + ['.'] + "0" + "";
    ParseFloatOfLiteral("1", "0", "");
    StripUntouched("1.0");
    assert DigitsValue("1", 10) == 1 && DigitsValue("0", 10) == 0;
  }
}
