/**
 * The pricing engine of script.js: validation of the parsed price, the
 * three-way choice of a multiplier from a random draw, and the result record.
 * The draw (Math.random() * 100) and the timestamp (new Date()) are parameters.
 */
module Pricing {
  import opened Wrappers

  /** What parseFloat yields for the input field: NaN, or a number. */
  datatype Parsed = NaN | Number(value: real)

  /** The instant a result was generated, as milliseconds since the epoch. */
  type Timestamp = int

  /** The three branches of the price rule. */
  datatype Rule = Original | OneAndHalf | TwoAndHalf

  /** One generated price, as recorded in the history. */
  datatype PricedResult = PricedResult(
    timestamp: Timestamp,
    originalPrice: real,
    finalPrice: real,
    appliedRule: string)

  const OriginalLabel: string := "Original Price (0.1%)"
  const OneAndHalfLabel: string := "1.5x Original Price (39.9%)"
  const TwoAndHalfLabel: string := "2.5x Original Price (60%)"

  /** Math.random() * 100 always lies in [0, 100). */
  predicate IsDraw(draw: real) {
    0.0 <= draw < 100.0
  }

  /** JavaScript truthiness of a number: NaN and zero are falsy. */
  predicate Falsy(input: Parsed) {
    input.NaN? || input.value == 0.0
  }

  /**
   * The guard `!originalPrice || originalPrice <= 0`: a falsy or
   * non-positive price is rejected, any other is accepted unchanged.
   */
  function Validate(input: Parsed): (price: Option<real>)
    ensures price.Some? <==> input.Number? && input.value > 0.0
    ensures price.Some? ==> price.value == input.value
  {
    if Falsy(input) || input.value <= 0.0 then None else Some(input.value)
  }

  /**
   * The rule a draw selects. The three half-open intervals [.., 0.1),
   * [0.1, 40) and [40, ..) cover every draw, and each draw lies in exactly one.
   */
  function SelectRule(draw: real): (rule: Rule)
    ensures rule == Original <==> draw < 0.1
    ensures rule == OneAndHalf <==> 0.1 <= draw < 40.0
    ensures rule == TwoAndHalf <==> 40.0 <= draw
  {
    if draw < 0.1 then Original
    else if draw < 40.0 then OneAndHalf
    else TwoAndHalf
  }

  function Multiplier(rule: Rule): real {
    match rule
    case Original => 1.0
    case OneAndHalf => 1.5
    case TwoAndHalf => 2.5
  }

  function Label(rule: Rule): string {
    match rule
    case Original => OriginalLabel
    case OneAndHalf => OneAndHalfLabel
    case TwoAndHalf => TwoAndHalfLabel
  }

  /** Reads a label back as the rule that wrote it, if it is one of the three. */
  function RuleOfLabel(text: string): (rule: Option<Rule>)
    ensures rule.Some? ==> Label(rule.value) == text
  {
    if text == OriginalLabel then Some(Original)
    else if text == OneAndHalfLabel then Some(OneAndHalf)
    else if text == TwoAndHalfLabel then Some(TwoAndHalf)
    else None
  }

  /** Distinct rules carry distinct labels, so a label names its rule. */
  lemma LabelRoundTrip(rule: Rule)
    ensures RuleOfLabel(Label(rule)) == Some(rule)
  {
  }

  /**
   * The record built for an accepted price: the timestamp and the price as
   * given, and the final price and label of the rule the draw selects.
   */
  function Build(price: real, draw: real, now: Timestamp): (res: PricedResult)
    ensures res.timestamp == now && res.originalPrice == price
    ensures draw < 0.1 ==> res.finalPrice == price && res.appliedRule == OriginalLabel
    ensures 0.1 <= draw < 40.0 ==> res.finalPrice == 1.5 * price && res.appliedRule == OneAndHalfLabel
    ensures 40.0 <= draw ==> res.finalPrice == 2.5 * price && res.appliedRule == TwoAndHalfLabel
  {
    var rule := SelectRule(draw);
    PricedResult(now, price, price * Multiplier(rule), Label(rule))
  }

  /**
   * A record is well formed when its price is positive and its label is one
   * of the three, with the final price that label's multiple of the original.
   */
  predicate WellFormed(res: PricedResult) {
    res.originalPrice > 0.0 &&
    match RuleOfLabel(res.appliedRule)
    case Some(rule) => res.finalPrice == res.originalPrice * Multiplier(rule)
    case None => false
  }

  /** Every record built from an accepted price is well formed. */
  lemma BuildWellFormed(price: real, draw: real, now: Timestamp)
    requires price > 0.0
    ensures WellFormed(Build(price, draw, now))
  {
  }

  /** The final price is the original, 1.5 times it or 2.5 times it, and nothing else. */
  lemma FinalPriceChoices(price: real, draw: real, now: Timestamp)
    ensures var f := Build(price, draw, now).finalPrice;
      f == price || f == 1.5 * price || f == 2.5 * price
  {
  }

  /** A positive price is never lowered. */
  lemma FinalPriceAtLeastOriginal(price: real, draw: real, now: Timestamp)
    requires price > 0.0
    ensures Build(price, draw, now).finalPrice >= price
  {
  }

  /** The boundary draws and the two worked scenarios of the price rule. */
  lemma Boundaries(now: Timestamp)
    ensures SelectRule(0.1) == OneAndHalf
    ensures SelectRule(40.0) == TwoAndHalf
    ensures Build(100.0, 0.05, now) == PricedResult(now, 100.0, 100.0, OriginalLabel)
    ensures Build(100.0, 50.0, now) == PricedResult(now, 100.0, 250.0, TwoAndHalfLabel)
  {
  }
}
