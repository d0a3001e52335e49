/**
  The quote calculator of the SES cost estimator: monthly sending volumes and
  message sizes in, an itemised monthly cost breakdown out.

  All amounts are exact rationals (`real`): the calculator applies no rounding,
  and display precision is left to the presentation layer. Counts are `real`
  too, because the inputs are plain numbers that the form does not round.
*/
module Pricing {

  /** Where outbound mail is sent from; only the provider's own compute gets the free tier. */
  datatype SendingOrigin = AwsWorkload | External

  /** A price table: per-1,000-message rates, free-tier counts, per-GB data rates, per-IP rate. */
  datatype SesPricingConfig = SesPricingConfig(
    outboundPerThousand: real,
    outboundFreeTier: real,
    outboundAttachmentPerGB: real,
    inboundPerThousand: real,
    inboundFreeTier: real,
    inboundAttachmentPerGB: real,
    dedicatedIpPerAddress: real
  )

  /** The published SES price table the calculator uses by default. */
  const SesPricing: SesPricingConfig := SesPricingConfig(
    outboundPerThousand := 0.1,
    outboundFreeTier := 62000.0,
    outboundAttachmentPerGB := 0.12,
    inboundPerThousand := 0.1,
    inboundFreeTier := 1000.0,
    inboundAttachmentPerGB := 0.09,
    dedicatedIpPerAddress := 24.95
  )

  datatype QuoteInputs = QuoteInputs(
    outboundEmails: real,
    origin: SendingOrigin,
    avgOutboundSizeMB: real,
    inboundEmails: real,
    avgInboundSizeMB: real,
    dedicatedIpCount: real
  )

  datatype QuoteBreakdown = QuoteBreakdown(
    outbound: real,
    outboundData: real,
    inbound: real,
    inboundData: real,
    dedicatedIp: real,
    total: real
  )

  const PerThousand: real := 1000.0
  const MbPerGb: real := 1024.0

  /** Every rate and free-tier count of the table is non-negative. */
  predicate NonNegativePricing(p: SesPricingConfig) {
    && p.outboundPerThousand >= 0.0
    && p.outboundFreeTier >= 0.0
    && p.outboundAttachmentPerGB >= 0.0
    && p.inboundPerThousand >= 0.0
    && p.inboundFreeTier >= 0.0
    && p.inboundAttachmentPerGB >= 0.0
    && p.dedicatedIpPerAddress >= 0.0
  }

  /** Every numeric input is non-negative, as the form guarantees by clamping. */
  predicate NonNegativeInputs(i: QuoteInputs) {
    && i.outboundEmails >= 0.0
    && i.avgOutboundSizeMB >= 0.0
    && i.inboundEmails >= 0.0
    && i.avgInboundSizeMB >= 0.0
    && i.dedicatedIpCount >= 0.0
  }

  /** `Math.max(0, x)`: the part of `x` above zero. */
  function AtLeastZero(x: real): (r: real)
    ensures r >= 0.0 && r >= x
    ensures r == x || r == 0.0
  {
    if x > 0.0 then x else 0.0
  }

  /** Number of messages still billable once a free tier of `freeTier` messages is used up. */
  function BillableAfterFreeTier(emails: real, freeTier: real): (billable: real)
    ensures billable >= 0.0
    ensures billable == 0.0 <==> emails <= freeTier
    ensures emails > freeTier ==> billable + freeTier == emails
  {
    AtLeastZero(emails - freeTier)
  }

  /** The outbound messages billed: the free tier only applies to mail sent from AWS compute. */
  function OutboundBillable(emails: real, origin: SendingOrigin, pricing: SesPricingConfig): (billable: real)
    ensures origin == External ==> billable == emails
    ensures origin == AwsWorkload ==> billable == BillableAfterFreeTier(emails, pricing.outboundFreeTier)
  {
    match origin
    case AwsWorkload => BillableAfterFreeTier(emails, pricing.outboundFreeTier)
    case External => emails
  }

  /** Outbound messaging cost: billable messages, in thousands, at the per-1,000 rate. */
  function CalculateOutboundCost(emails: real, origin: SendingOrigin, pricing: SesPricingConfig): (cost: real)
  {
    (OutboundBillable(emails, origin, pricing) / PerThousand) * pricing.outboundPerThousand
  }

  /** Inbound messaging cost: the inbound free tier applies whatever the origin. */
  function CalculateInboundCost(emails: real, pricing: SesPricingConfig): (cost: real)
  {
    (BillableAfterFreeTier(emails, pricing.inboundFreeTier) / PerThousand) * pricing.inboundPerThousand
  }

  /** Data-transfer cost: total megabytes converted to gigabytes (1 GB = 1,024 MB), at a per-GB rate. */
  function CalculateDataCost(emails: real, avgSizeMB: real, ratePerGB: real): (cost: real)
  {
    ((emails * avgSizeMB) / MbPerGb) * ratePerGB
  }

  /** Dedicated-IP cost: a flat monthly rate per address, with no free tier and no cap. */
  function DedicatedIpCost(count: real, pricing: SesPricingConfig): (cost: real)
  {
    count * pricing.dedicatedIpPerAddress
  }

  /**
    The full quote: each line item is its own calculation applied to its own
    inputs only, and the total is exactly the sum of the five line items.
  */
  function CalculateQuote(inputs: QuoteInputs, pricing: SesPricingConfig): (q: QuoteBreakdown)
    ensures q.outbound == CalculateOutboundCost(inputs.outboundEmails, inputs.origin, pricing)
    ensures q.outboundData == CalculateDataCost(inputs.outboundEmails, inputs.avgOutboundSizeMB, pricing.outboundAttachmentPerGB)
    ensures q.inbound == CalculateInboundCost(inputs.inboundEmails, pricing)
    ensures q.inboundData == CalculateDataCost(inputs.inboundEmails, inputs.avgInboundSizeMB, pricing.inboundAttachmentPerGB)
    ensures q.dedicatedIp == DedicatedIpCost(inputs.dedicatedIpCount, pricing)
    ensures q.total == q.outbound + q.outboundData + q.inbound + q.inboundData + q.dedicatedIp
  {
    var outbound := CalculateOutboundCost(inputs.outboundEmails, inputs.origin, pricing);
    var outboundData := CalculateDataCost(inputs.outboundEmails, inputs.avgOutboundSizeMB, pricing.outboundAttachmentPerGB);
    var inbound := CalculateInboundCost(inputs.inboundEmails, pricing);
    var inboundData := CalculateDataCost(inputs.inboundEmails, inputs.avgInboundSizeMB, pricing.inboundAttachmentPerGB);
    var dedicatedIp := DedicatedIpCost(inputs.dedicatedIpCount, pricing);
    var total := outbound + outboundData + inbound + inboundData + dedicatedIp;
    QuoteBreakdown(outbound, outboundData, inbound, inboundData, dedicatedIp, total)
  }
}
