/**
 * The page of script.js: `generatePrice`, run on each submission, and the
 * history restore of `window.onload`. The page's global list and local
 * storage are the fields of a PricePage object; GenerateStep and Restore
 * are the functions its methods are proved against.
 */
module Script {
  import opened Wrappers
  import opened Pricing
  import opened History

  /**
   * One submission: a rejected input changes nothing and yields no result;
   * an accepted one builds a result from the draw and records it.
   */
  function GenerateStep(page: Page, input: Parsed, draw: real, now: Timestamp): (out: (Page, Option<PricedResult>))
    ensures out.1.None? <==> input.NaN? || input.value <= 0.0
    ensures out.1.None? ==> out.0 == page
    ensures out.1.Some? ==>
      out.1.value == Build(input.value, draw, now) &&
      out.0.history == [out.1.value] + page.history &&
      Synced(out.0) &&
      out.0.storage.Keys == page.storage.Keys + {HistoryKey} &&
      (forall k | k in page.storage && k != HistoryKey :: k in out.0.storage && out.0.storage[k] == page.storage[k])
  {
    match Validate(input)
    case None => (page, None)
    case Some(price) =>
      var res := Build(price, draw, now);
      (Record(page, res), Some(res))
  }

  /** A falsy or non-positive input leaves the history and storage as they were. */
  lemma RejectedChangesNothing(page: Page, input: Parsed, draw: real, now: Timestamp)
    requires input.NaN? || input.value <= 0.0
    ensures GenerateStep(page, input, draw, now) == (page, None)
  {
  }

  /**
   * A positive input yields the record of that price, with the final price
   * one of its three multiples and never below it, prepends it to the
   * history and stores the fifty most recent entries with it first.
   */
  lemma AcceptedIsRecorded(page: Page, input: Parsed, draw: real, now: Timestamp)
    requires input.Number? && input.value > 0.0
    ensures var (next, result) := GenerateStep(page, input, draw, now);
      result.Some? &&
      result.value.originalPrice == input.value &&
      result.value.timestamp == now &&
      WellFormed(result.value) &&
      result.value.finalPrice >= input.value &&
      next.history == [result.value] + page.history &&
      Synced(next) && next.storage[HistoryKey][0] == result.value
  {
  }

  /** Every submission keeps every entry in memory and in storage well formed. */
  lemma GeneratePreservesSound(page: Page, input: Parsed, draw: real, now: Timestamp)
    requires Sound(page)
    ensures Sound(GenerateStep(page, input, draw, now).0)
  {
  }

  /** The state of the page: the global list `priceHistory` and local storage. */
  class PricePage {
    var history: seq<PricedResult>
    var storage: Storage

    function State(): Page
      reads this
    {
      Page(history, storage)
    }

    /** A fresh page: the global list starts empty; storage is whatever the browser holds. */
    constructor (storage: Storage)
      ensures State() == Page([], storage)
    {
      this.history := [];
      this.storage := storage;
    }

    /**
     * `generatePrice` with the parsed input, the draw Math.random() * 100
     * and the current time as parameters. A rejected input returns before
     * anything changes; otherwise the result is prepended to the history and
     * the first fifty entries are written to storage.
     */
    method GeneratePrice(input: Parsed, draw: real, now: Timestamp) returns (result: Option<PricedResult>)
      requires IsDraw(draw)
      modifies this
      ensures (State(), result) == GenerateStep(old(State()), input, draw, now)
      ensures result.None? ==> history == old(history) && storage == old(storage)
      ensures result.Some? ==> history == [result.value] + old(history)
    {
      if Falsy(input) || input.value <= 0.0 {
        return None;
      }
      var originalPrice := input.value;
      var finalPrice: real, appliedRule: string;
      if draw < 0.1 {
        finalPrice := originalPrice;
        appliedRule := OriginalLabel;
      } else if draw < 40.0 {
        finalPrice := originalPrice * 1.5;
        appliedRule := OneAndHalfLabel;
      } else {
        finalPrice := originalPrice * 2.5;
        appliedRule := TwoAndHalfLabel;
      }
      var res := PricedResult(now, originalPrice, finalPrice, appliedRule);
      history := [res] + history;
      storage := storage[HistoryKey := Persisted(history)];
      result := Some(res);
    }

    /** The history part of `window.onload`: a stored list replaces the in-memory one. */
    method Load()
      modifies this`history
      ensures State() == Restore(old(State()))
    {
      if HistoryKey in storage {
        history := storage[HistoryKey];
      }
    }
  }

  /**
   * Opening the page: the global list is created empty and the load handler
   * restores it from storage.
   */
  method OpenPage(storage: Storage) returns (page: PricePage)
    ensures fresh(page)
    ensures page.history == if HistoryKey in storage then storage[HistoryKey] else []
    ensures page.storage == storage
  {
    page := new PricePage(storage);
    page.Load();
  }
}
