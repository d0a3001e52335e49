/**
  What the quote calculator promises: the free-tier thresholds, how each line
  item grows with its inputs, the sum invariant of the breakdown, and the
  published price table's worked examples.
*/
module PricingProperties {
  import opened Pricing

  /** A non-negative factor preserves order: the one fact of nonlinear arithmetic the monotonicity proofs need. */
  lemma ScaleMonotone(x1: real, x2: real, factor: real)
    requires x1 <= x2 && factor >= 0.0
    ensures x1 * factor <= x2 * factor
  {
    assert (x2 - x1) * factor >= 0.0;
    assert (x2 - x1) * factor == x2 * factor - x1 * factor;
  }

  /** A per-1,000 rate applied to a larger count gives a larger amount. */
  lemma PerThousandMonotone(b1: real, b2: real, rate: real)
    requires b1 <= b2 && rate >= 0.0
    ensures b1 / PerThousand * rate <= b2 / PerThousand * rate
  {
    ScaleMonotone(b1 / PerThousand, b2 / PerThousand, rate);
  }

  // ----- Outbound messaging -----

  /** Mail sent from outside AWS gets no free tier: every message is billed. */
  lemma ExternalOutboundHasNoFreeTier(emails: real, pricing: SesPricingConfig)
    ensures CalculateOutboundCost(emails, External, pricing) == emails / PerThousand * pricing.outboundPerThousand
  {
  }

  /**
    Mail sent from AWS compute is billed as if it were external mail, except
    that only the messages above the free tier (and never fewer than none) count.
  */
  lemma AwsOutboundBillsOnlyAboveFreeTier(emails: real, pricing: SesPricingConfig)
    ensures CalculateOutboundCost(emails, AwsWorkload, pricing)
         == CalculateOutboundCost(BillableAfterFreeTier(emails, pricing.outboundFreeTier), External, pricing)
    ensures emails > pricing.outboundFreeTier ==>
      CalculateOutboundCost(emails, AwsWorkload, pricing)
        == (emails - pricing.outboundFreeTier) / PerThousand * pricing.outboundPerThousand
  {
  }

  /** With a positive rate, AWS-hosted outbound mail is free exactly up to the free tier. */
  lemma AwsOutboundFreeIff(emails: real, pricing: SesPricingConfig)
    requires pricing.outboundPerThousand > 0.0
    ensures CalculateOutboundCost(emails, AwsWorkload, pricing) == 0.0 <==> emails <= pricing.outboundFreeTier
  {
  }

  /** Above the free tier, every extra AWS-hosted message costs something. */
  lemma AwsOutboundStrictlyIncreasing(e1: real, e2: real, pricing: SesPricingConfig)
    requires pricing.outboundFreeTier <= e1 < e2
    requires pricing.outboundPerThousand > 0.0
    ensures CalculateOutboundCost(e1, AwsWorkload, pricing) < CalculateOutboundCost(e2, AwsWorkload, pricing)
  {
  }

  /** With a non-negative volume and rate, outbound mail never has a negative cost, whatever the origin. */
  lemma OutboundNonNegative(emails: real, origin: SendingOrigin, pricing: SesPricingConfig)
    requires emails >= 0.0 && pricing.outboundPerThousand >= 0.0
    ensures CalculateOutboundCost(emails, origin, pricing) >= 0.0
  {
    PerThousandMonotone(0.0, OutboundBillable(emails, origin, pricing), pricing.outboundPerThousand);
  }

  /** Sending more never costs less, whatever the origin. */
  lemma OutboundMonotone(e1: real, e2: real, origin: SendingOrigin, pricing: SesPricingConfig)
    requires e1 <= e2
    requires pricing.outboundPerThousand >= 0.0
    ensures CalculateOutboundCost(e1, origin, pricing) <= CalculateOutboundCost(e2, origin, pricing)
  {
    PerThousandMonotone(OutboundBillable(e1, origin, pricing), OutboundBillable(e2, origin, pricing), pricing.outboundPerThousand);
  }

  /** For the same volume, sending from AWS compute is never dearer than sending from outside. */
  lemma AwsNeverDearerThanExternal(emails: real, pricing: SesPricingConfig)
    requires emails >= 0.0
    requires pricing.outboundFreeTier >= 0.0 && pricing.outboundPerThousand >= 0.0
    ensures 0.0 <= CalculateOutboundCost(emails, AwsWorkload, pricing) <= CalculateOutboundCost(emails, External, pricing)
  {
  }

  /**
    The free tier saves at most the price of the free-tier messages, and saves
    exactly that once the volume reaches the free tier.
  */
  lemma FreeTierSavingIsBounded(emails: real, pricing: SesPricingConfig)
    requires emails >= 0.0
    requires pricing.outboundFreeTier >= 0.0 && pricing.outboundPerThousand >= 0.0
    ensures CalculateOutboundCost(emails, External, pricing) - CalculateOutboundCost(emails, AwsWorkload, pricing)
         <= pricing.outboundFreeTier / PerThousand * pricing.outboundPerThousand
    ensures emails >= pricing.outboundFreeTier ==>
      CalculateOutboundCost(emails, External, pricing) - CalculateOutboundCost(emails, AwsWorkload, pricing)
        == pricing.outboundFreeTier / PerThousand * pricing.outboundPerThousand
  {
  }

  // ----- Inbound messaging -----

  /** With a positive rate, inbound mail is free exactly up to the inbound free tier. */
  lemma InboundFreeIff(emails: real, pricing: SesPricingConfig)
    requires pricing.inboundPerThousand > 0.0
    ensures CalculateInboundCost(emails, pricing) == 0.0 <==> emails <= pricing.inboundFreeTier
  {
  }

  /** Above the inbound free tier, each message is billed at the per-1,000 rate. */
  lemma InboundBillsOnlyAboveFreeTier(emails: real, pricing: SesPricingConfig)
    requires emails > pricing.inboundFreeTier
    ensures CalculateInboundCost(emails, pricing)
         == (emails - pricing.inboundFreeTier) / PerThousand * pricing.inboundPerThousand
  {
  }

  /** With a non-negative rate, inbound mail never has a negative cost. */
  lemma InboundNonNegative(emails: real, pricing: SesPricingConfig)
    requires pricing.inboundPerThousand >= 0.0
    ensures CalculateInboundCost(emails, pricing) >= 0.0
  {
    PerThousandMonotone(0.0, BillableAfterFreeTier(emails, pricing.inboundFreeTier), pricing.inboundPerThousand);
  }

  /** Receiving more never costs less. */
  lemma InboundMonotone(e1: real, e2: real, pricing: SesPricingConfig)
    requires e1 <= e2
    requires pricing.inboundPerThousand >= 0.0
    ensures CalculateInboundCost(e1, pricing) <= CalculateInboundCost(e2, pricing)
  {
    var b1, b2 := BillableAfterFreeTier(e1, pricing.inboundFreeTier), BillableAfterFreeTier(e2, pricing.inboundFreeTier);
    assert b1 <= b2;
    ScaleMonotone(b1 / PerThousand, b2 / PerThousand, pricing.inboundPerThousand);
  }

  // ----- Data transfer -----

  /** Data costs nothing exactly when there are no messages, they are empty, or data is free. */
  lemma DataCostZeroIff(emails: real, avgSizeMB: real, ratePerGB: real)
    ensures CalculateDataCost(emails, avgSizeMB, ratePerGB) == 0.0
        <==> emails == 0.0 || avgSizeMB == 0.0 || ratePerGB == 0.0
  {
  }

  /** One gigabyte (1,024 MB) in all costs exactly the per-GB rate. */
  lemma DataCostOfOneGigabyte(emails: real, avgSizeMB: real, ratePerGB: real)
    requires emails * avgSizeMB == MbPerGb
    ensures CalculateDataCost(emails, avgSizeMB, ratePerGB) == ratePerGB
  {
  }

  /** Scaling the message count scales the data cost by the same factor. */
  lemma DataCostScalesWithEmails(k: real, emails: real, avgSizeMB: real, ratePerGB: real)
    ensures CalculateDataCost(k * emails, avgSizeMB, ratePerGB) == k * CalculateDataCost(emails, avgSizeMB, ratePerGB)
  {
  }

  /** Scaling the average message size scales the data cost by the same factor. */
  lemma DataCostScalesWithSize(k: real, emails: real, avgSizeMB: real, ratePerGB: real)
    ensures CalculateDataCost(emails, k * avgSizeMB, ratePerGB) == k * CalculateDataCost(emails, avgSizeMB, ratePerGB)
  {
  }

  /** Scaling the per-GB rate scales the data cost by the same factor. */
  lemma DataCostScalesWithRate(k: real, emails: real, avgSizeMB: real, ratePerGB: real)
    ensures CalculateDataCost(emails, avgSizeMB, k * ratePerGB) == k * CalculateDataCost(emails, avgSizeMB, ratePerGB)
  {
  }

  /** Data cost is additive in the message count: two batches cost what they cost apart. */
  lemma DataCostAdditiveInEmails(e1: real, e2: real, avgSizeMB: real, ratePerGB: real)
    ensures CalculateDataCost(e1 + e2, avgSizeMB, ratePerGB)
         == CalculateDataCost(e1, avgSizeMB, ratePerGB) + CalculateDataCost(e2, avgSizeMB, ratePerGB)
  {
  }

  /** More messages, or larger ones, never cost less to transfer. */
  lemma DataCostMonotone(e1: real, e2: real, s1: real, s2: real, ratePerGB: real)
    requires 0.0 <= e1 <= e2 && 0.0 <= s1 <= s2 && ratePerGB >= 0.0
    ensures 0.0 <= CalculateDataCost(e1, s1, ratePerGB) <= CalculateDataCost(e2, s2, ratePerGB)
  {
    ScaleMonotone(0.0, e1, s1);
    ScaleMonotone(e1, e2, s1);
    ScaleMonotone(s1, s2, e2);
    assert e2 * s1 == s1 * e2 && e2 * s2 == s2 * e2;
    assert 0.0 <= e1 * s1 <= e2 * s1 <= e2 * s2;
    ScaleMonotone(0.0, e1 * s1 / MbPerGb, ratePerGB);
    ScaleMonotone(e1 * s1 / MbPerGb, e2 * s2 / MbPerGb, ratePerGB);
  }

  // ----- Dedicated IP addresses -----

  /** Each dedicated address costs the same: n addresses cost n times one. */
  lemma DedicatedIpLinear(count: real, pricing: SesPricingConfig)
    ensures DedicatedIpCost(count, pricing) == count * DedicatedIpCost(1.0, pricing)
  {
  }

  /** More dedicated addresses never cost less. */
  lemma DedicatedIpMonotone(c1: real, c2: real, pricing: SesPricingConfig)
    requires c1 <= c2 && pricing.dedicatedIpPerAddress >= 0.0
    ensures DedicatedIpCost(c1, pricing) <= DedicatedIpCost(c2, pricing)
  {
    ScaleMonotone(c1, c2, pricing.dedicatedIpPerAddress);
  }

  // ----- The whole quote -----

  /** With sanitised inputs and a non-negative table, every line item is non-negative and none exceeds the total. */
  lemma QuoteNonNegative(inputs: QuoteInputs, pricing: SesPricingConfig)
    requires NonNegativeInputs(inputs) && NonNegativePricing(pricing)
    ensures var q := CalculateQuote(inputs, pricing);
      && 0.0 <= q.outbound <= q.total
      && 0.0 <= q.outboundData <= q.total
      && 0.0 <= q.inbound <= q.total
      && 0.0 <= q.inboundData <= q.total
      && 0.0 <= q.dedicatedIp <= q.total
  {
    OutboundNonNegative(inputs.outboundEmails, inputs.origin, pricing);
    DataCostMonotone(0.0, inputs.outboundEmails, 0.0, inputs.avgOutboundSizeMB, pricing.outboundAttachmentPerGB);
    InboundNonNegative(inputs.inboundEmails, pricing);
    DataCostMonotone(0.0, inputs.inboundEmails, 0.0, inputs.avgInboundSizeMB, pricing.inboundAttachmentPerGB);
    DedicatedIpMonotone(0.0, inputs.dedicatedIpCount, pricing);
  }

  /** Changing only the inbound fields leaves the outbound and dedicated-IP line items as they were. */
  lemma QuoteInboundIndependent(a: QuoteInputs, b: QuoteInputs, pricing: SesPricingConfig)
    requires a.outboundEmails == b.outboundEmails && a.origin == b.origin
    requires a.avgOutboundSizeMB == b.avgOutboundSizeMB && a.dedicatedIpCount == b.dedicatedIpCount
    ensures CalculateQuote(a, pricing).outbound == CalculateQuote(b, pricing).outbound
    ensures CalculateQuote(a, pricing).outboundData == CalculateQuote(b, pricing).outboundData
    ensures CalculateQuote(a, pricing).dedicatedIp == CalculateQuote(b, pricing).dedicatedIp
  {
  }

  /**
    Zeroing both inbound fields (how the form switches inbound pricing off)
    makes both inbound line items zero, so the total is outbound plus IPs.
  */
  lemma QuoteWithoutInbound(inputs: QuoteInputs, pricing: SesPricingConfig)
    requires inputs.inboundEmails == 0.0 && inputs.avgInboundSizeMB == 0.0
    requires pricing.inboundFreeTier >= 0.0
    ensures CalculateQuote(inputs, pricing).inbound == 0.0
    ensures CalculateQuote(inputs, pricing).inboundData == 0.0
    ensures CalculateQuote(inputs, pricing).total
         == CalculateQuote(inputs, pricing).outbound + CalculateQuote(inputs, pricing).outboundData
          + CalculateQuote(inputs, pricing).dedicatedIp
  {
  }

  /** Every numeric input of `a` is at most that of `b`, and the origin is the same. */
  predicate AtMost(a: QuoteInputs, b: QuoteInputs) {
    && a.origin == b.origin
    && a.outboundEmails <= b.outboundEmails
    && a.avgOutboundSizeMB <= b.avgOutboundSizeMB
    && a.inboundEmails <= b.inboundEmails
    && a.avgInboundSizeMB <= b.avgInboundSizeMB
    && a.dedicatedIpCount <= b.dedicatedIpCount
  }

  /** Inputs that are each at least as large (same origin) give a quote at least as large, line by line. */
  lemma QuoteMonotone(a: QuoteInputs, b: QuoteInputs, pricing: SesPricingConfig)
    requires NonNegativeInputs(a) && AtMost(a, b) && NonNegativePricing(pricing)
    ensures CalculateQuote(a, pricing).outbound <= CalculateQuote(b, pricing).outbound
    ensures CalculateQuote(a, pricing).outboundData <= CalculateQuote(b, pricing).outboundData
    ensures CalculateQuote(a, pricing).inbound <= CalculateQuote(b, pricing).inbound
    ensures CalculateQuote(a, pricing).inboundData <= CalculateQuote(b, pricing).inboundData
    ensures CalculateQuote(a, pricing).dedicatedIp <= CalculateQuote(b, pricing).dedicatedIp
    ensures CalculateQuote(a, pricing).total <= CalculateQuote(b, pricing).total
  {
    OutboundMonotone(a.outboundEmails, b.outboundEmails, a.origin, pricing);
    DataCostMonotone(a.outboundEmails, b.outboundEmails, a.avgOutboundSizeMB, b.avgOutboundSizeMB, pricing.outboundAttachmentPerGB);
    InboundMonotone(a.inboundEmails, b.inboundEmails, pricing);
    DataCostMonotone(a.inboundEmails, b.inboundEmails, a.avgInboundSizeMB, b.avgInboundSizeMB, pricing.inboundAttachmentPerGB);
    DedicatedIpMonotone(a.dedicatedIpCount, b.dedicatedIpCount, pricing);
  }

  // ----- The published price table -----

  /** The worked examples of the SES price table. */
  lemma DefaultTableScenarios()
    ensures CalculateOutboundCost(62000.0, AwsWorkload, SesPricing) == 0.0
    ensures CalculateOutboundCost(162000.0, AwsWorkload, SesPricing) == 10.0
    ensures CalculateOutboundCost(100000.0, External, SesPricing) == 10.0
    ensures CalculateInboundCost(1000.0, SesPricing) == 0.0
    ensures CalculateInboundCost(11000.0, SesPricing) == 1.0
    ensures DedicatedIpCost(2.0, SesPricing) == 49.90
  {
  }

  /**
    For any table, sending exactly the outbound free tier from AWS, with empty
    messages, no inbound mail and no dedicated addresses, costs nothing at all.
  */
  lemma FreeTierOnlyQuoteIsFree(pricing: SesPricingConfig)
    requires pricing.inboundFreeTier >= 0.0
    ensures CalculateQuote(QuoteInputs(pricing.outboundFreeTier, AwsWorkload, 0.0, 0.0, 0.0, 0.0), pricing).total == 0.0
  {
  }

  /** Under the published table, 62,000 empty messages from AWS and nothing else cost nothing. */
  lemma DefaultTableFreeTierQuote()
    ensures CalculateQuote(QuoteInputs(62000.0, AwsWorkload, 0.0, 0.0, 0.0, 0.0), SesPricing).total == 0.0
  {
    FreeTierOnlyQuoteIsFree(SesPricing);
  }

  /** The published table has no negative rate or free tier, so every non-negativity and monotonicity lemma applies to it. */
  lemma PublishedTableNonNegative()
    ensures NonNegativePricing(SesPricing)
    ensures SesPricing.outboundPerThousand > 0.0 && SesPricing.inboundPerThousand > 0.0
  {
  }
}
