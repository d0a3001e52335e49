/**
  The estimator form's side of the calculator contract: how user edits are
  sanitised before they reach the calculator, and the quote the form shows.
  Rendering, currency formatting and the surcharge are not modelled here.
*/
module QuoteForm {
  import opened Pricing
  import opened PricingProperties

  /** The numeric fields the form lets the user type into. */
  datatype NumericField = OutboundEmails | AvgOutboundSizeMB | InboundEmails | AvgInboundSizeMB | DedicatedIpCount

  /** What the form shows on first load and after "Reset defaults". */
  const DefaultInputs: QuoteInputs := QuoteInputs(
    outboundEmails := 150000.0,
    origin := AwsWorkload,
    avgOutboundSizeMB := 0.11,
    inboundEmails := 10000.0,
    avgInboundSizeMB := 0.2,
    dedicatedIpCount := 0.0
  )

  /** A typed number is clamped at zero: negative entries become 0, others are kept. */
  function ClampEntry(value: real): (r: real)
    ensures r >= 0.0
    ensures value >= 0.0 ==> r == value
    ensures value < 0.0 ==> r == 0.0
  {
    AtLeastZero(value)
  }

  /** The value of one numeric field of the form. */
  function FieldValue(inputs: QuoteInputs, field: NumericField): real {
    match field
    case OutboundEmails => inputs.outboundEmails
    case AvgOutboundSizeMB => inputs.avgOutboundSizeMB
    case InboundEmails => inputs.inboundEmails
    case AvgInboundSizeMB => inputs.avgInboundSizeMB
    case DedicatedIpCount => inputs.dedicatedIpCount
  }

  /** The form state after the user types `value` into `field`. */
  function SetNumericField(prev: QuoteInputs, field: NumericField, value: real): (next: QuoteInputs)
    ensures FieldValue(next, field) == ClampEntry(value)
    ensures NonNegativeInputs(prev) ==> NonNegativeInputs(next)
    ensures next.origin == prev.origin
    ensures field != OutboundEmails ==> next.outboundEmails == prev.outboundEmails
    ensures field != AvgOutboundSizeMB ==> next.avgOutboundSizeMB == prev.avgOutboundSizeMB
    ensures field != InboundEmails ==> next.inboundEmails == prev.inboundEmails
    ensures field != AvgInboundSizeMB ==> next.avgInboundSizeMB == prev.avgInboundSizeMB
    ensures field != DedicatedIpCount ==> next.dedicatedIpCount == prev.dedicatedIpCount
  {
    var v := ClampEntry(value);
    match field
    case OutboundEmails => prev.(outboundEmails := v)
    case AvgOutboundSizeMB => prev.(avgOutboundSizeMB := v)
    case InboundEmails => prev.(inboundEmails := v)
    case AvgInboundSizeMB => prev.(avgInboundSizeMB := v)
    case DedicatedIpCount => prev.(dedicatedIpCount := v)
  }

  /** The "Apply AWS free tier" button: exactly the free tier, sent from AWS compute. */
  function ApplyAwsFreeTier(prev: QuoteInputs): (next: QuoteInputs)
    ensures next.outboundEmails == SesPricing.outboundFreeTier && next.origin == AwsWorkload
    ensures next.avgOutboundSizeMB == prev.avgOutboundSizeMB && next.dedicatedIpCount == prev.dedicatedIpCount
    ensures next.inboundEmails == prev.inboundEmails && next.avgInboundSizeMB == prev.avgInboundSizeMB
    ensures NonNegativeInputs(prev) ==> NonNegativeInputs(next)
    ensures CalculateOutboundCost(next.outboundEmails, next.origin, SesPricing) == 0.0
  {
    prev.(outboundEmails := 62000.0, origin := AwsWorkload)
  }

  /** The button picks the largest free volume: one more message from AWS compute would cost something. */
  lemma ApplyAwsFreeTierIsLargestFreeVolume(prev: QuoteInputs, e: real)
    requires e > ApplyAwsFreeTier(prev).outboundEmails
    ensures CalculateOutboundCost(e, AwsWorkload, SesPricing) > 0.0
  {
    AwsOutboundFreeIff(e, SesPricing);
    OutboundNonNegative(e, AwsWorkload, SesPricing);
  }

  /** Switching inbound pricing off zeroes both inbound fields before the calculator sees them. */
  function SanitizeForQuote(inputs: QuoteInputs, includeInbound: bool): (r: QuoteInputs)
    ensures includeInbound ==> r == inputs
    ensures !includeInbound ==> r.inboundEmails == 0.0 && r.avgInboundSizeMB == 0.0
    ensures r.outboundEmails == inputs.outboundEmails && r.origin == inputs.origin
    ensures r.avgOutboundSizeMB == inputs.avgOutboundSizeMB && r.dedicatedIpCount == inputs.dedicatedIpCount
    ensures NonNegativeInputs(inputs) ==> NonNegativeInputs(r)
  {
    inputs.(
      inboundEmails := if includeInbound then inputs.inboundEmails else 0.0,
      avgInboundSizeMB := if includeInbound then inputs.avgInboundSizeMB else 0.0)
  }

  /** The quote the form displays: the published table applied to the sanitised inputs. */
  function DisplayedQuote(inputs: QuoteInputs, includeInbound: bool): (q: QuoteBreakdown)
    ensures includeInbound ==> q == CalculateQuote(inputs, SesPricing)
    ensures q.total == q.outbound + q.outboundData + q.inbound + q.inboundData + q.dedicatedIp
  {
    CalculateQuote(SanitizeForQuote(inputs, includeInbound), SesPricing)
  }

  /** The published table is non-negative, so sanitised inputs always give a non-negative quote. */
  lemma DisplayedQuoteNonNegative(inputs: QuoteInputs, includeInbound: bool)
    requires NonNegativeInputs(inputs)
    ensures var q := DisplayedQuote(inputs, includeInbound);
      0.0 <= q.outbound && 0.0 <= q.outboundData && 0.0 <= q.inbound
      && 0.0 <= q.inboundData && 0.0 <= q.dedicatedIp && 0.0 <= q.total
  {
    QuoteNonNegative(SanitizeForQuote(inputs, includeInbound), SesPricing);
  }

  /**
    With inbound pricing off, both inbound line items are zero and the other
    line items are those of the quote with inbound pricing on.
  */
  lemma DisplayedQuoteWithoutInbound(inputs: QuoteInputs)
    ensures DisplayedQuote(inputs, false).inbound == 0.0
    ensures DisplayedQuote(inputs, false).inboundData == 0.0
    ensures DisplayedQuote(inputs, false).outbound == DisplayedQuote(inputs, true).outbound
    ensures DisplayedQuote(inputs, false).outboundData == DisplayedQuote(inputs, true).outboundData
    ensures DisplayedQuote(inputs, false).dedicatedIp == DisplayedQuote(inputs, true).dedicatedIp
  {
    QuoteWithoutInbound(SanitizeForQuote(inputs, false), SesPricing);
    QuoteInboundIndependent(SanitizeForQuote(inputs, false), SanitizeForQuote(inputs, true), SesPricing);
  }

  /** The quote the form shows on first load. */
  lemma DefaultDisplayedQuote()
    ensures NonNegativeInputs(DefaultInputs)
    ensures DisplayedQuote(DefaultInputs, true).outbound == 8.8
    ensures DisplayedQuote(DefaultInputs, true).outboundData == 1.93359375
    ensures DisplayedQuote(DefaultInputs, true).inbound == 0.9
    ensures DisplayedQuote(DefaultInputs, true).inboundData == 0.17578125
    ensures DisplayedQuote(DefaultInputs, true).total == 11.809375
  {
  }
}
