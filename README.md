# SES email cost estimator: the quote calculator

This project models the quote calculator of a single-page Amazon SES cost
estimator. The calculator takes one month's sending figures and a price table
and returns an itemised breakdown:

- outbound messages, billed per 1,000, with a free tier only for mail sent
  from AWS compute;
- inbound messages, billed per 1,000, always after an inbound free tier;
- outbound and inbound data transfer, billed per GB (1 GB = 1,024 MB);
- dedicated IP addresses, at a flat monthly rate each;
- the total, which is exactly the sum of the five line items.

Module `Pricing` (`pricing.dfy`) holds the data model and the calculator.
`SendingOrigin` is a two-constructor datatype. `SesPricingConfig`,
`QuoteInputs` and `QuoteBreakdown` are records. `SesPricing` is the published
price table. All amounts are `real`, so results are exact rationals, as the
calculator itself applies no rounding.

Module `PricingProperties` (`pricing_properties.dfy`) proves what the
calculator promises:

- the free-tier thresholds, as if-and-only-if statements;
- monotonicity in every input, and strict growth above the outbound free tier;
- an AWS-hosted sender never pays more than an external one;
- data cost is linear in message count, in size and in rate;
- the dedicated-IP cost is linear in the number of addresses;
- the sum invariant of the breakdown;
- each line item depends only on its own inputs;
- the worked examples of the published table.

Module `QuoteForm` (`quote_form.dfy`) models how the form prepares the
calculator's inputs. Each typed number is clamped at zero. Switching inbound
pricing off zeroes both inbound fields. The "Apply AWS free tier" button sets
62,000 messages from AWS compute. The form shows the quote for its
default inputs on first load. These functions show that the form only ever
hands the calculator non-negative inputs. That is the hypothesis under which
the non-negativity and monotonicity lemmas hold.

The four cost functions carry no contracts of their own: each is one
expression, and what it promises is stated and proved by the lemmas about it
in `PricingProperties`. The calculator functions carry no preconditions. The TypeScript
functions accept any number and never fail: they divide only by the constants
1,000 and 1,024. Non-negativity of inputs and rates is instead a hypothesis
of the lemmas that need it.

Two modelling choices follow the code rather than the intuitive reading of
the quote:

- The message and IP counts are plain numbers in the code, not integers. The
  form does not round them, so they are `real` here.
- The data cost is linear in the message count and in the message size
  separately. Scaling both by `k` scales the cost by `k * k`, so it is not
  homogeneous of degree one in the two jointly.

## Model

| member | source | states |
|---|---|---|
| `Pricing.BillableAfterFreeTier` | src/lib/pricing.ts:60 | the billable count is never negative; it is zero exactly when the volume is within the free tier; above the tier it is the volume minus the tier |
| `Pricing.OutboundBillable` | src/lib/pricing.ts:49-52 | external mail bills every message; AWS-hosted mail bills only what exceeds the outbound free tier |
| `Pricing.CalculateOutboundCost` | src/lib/pricing.ts:44-54 | no contract of its own; its promises are the outbound lemmas below: no free tier for external mail, free exactly up to the tier for AWS-hosted mail, non-negative, monotone, never dearer from AWS |
| `Pricing.CalculateInboundCost` | src/lib/pricing.ts:56-62 | no contract of its own; its promises are the inbound lemmas below: free exactly up to the inbound tier, the excess billed per 1,000 above it, non-negative, monotone |
| `Pricing.CalculateDataCost` | src/lib/pricing.ts:64-71 | no contract of its own; its promises are the data-cost lemmas below: zero exactly when a factor is zero, 1,024 MB cost the per-GB rate, linear in each argument, monotone |
| `Pricing.DedicatedIpCost` | src/lib/pricing.ts:91 | no contract of its own; its promises are `DedicatedIpLinear` and `DedicatedIpMonotone` |
| `Pricing.CalculateQuote` | src/lib/pricing.ts:73-95 | each line item is its own calculation applied to its own inputs only, and the total is exactly the sum of the five line items |
| `PricingProperties.ExternalOutboundHasNoFreeTier` | src/lib/pricing.ts:49-53 | external outbound cost is the whole volume, in thousands, times the per-1,000 rate; no free tier is subtracted |
| `PricingProperties.AwsOutboundBillsOnlyAboveFreeTier` | src/lib/pricing.ts:49-53 | AWS-hosted mail costs what external mail of the billable count would, and above the tier that is the excess, in thousands, times the rate |
| `PricingProperties.AwsOutboundFreeIff` | src/lib/pricing.ts:49-53 | with a positive rate, AWS-hosted outbound cost is zero if and only if the volume is at most the free tier |
| `PricingProperties.AwsOutboundStrictlyIncreasing` | src/lib/pricing.ts:49-53 | from the free tier upwards, more AWS-hosted mail always costs strictly more when the rate is positive |
| `PricingProperties.OutboundNonNegative` | src/lib/pricing.ts:44-54 | with a non-negative volume and rate the outbound cost is non-negative, for either origin |
| `PricingProperties.OutboundMonotone` | src/lib/pricing.ts:44-54 | for either origin, a larger volume never costs less |
| `PricingProperties.AwsNeverDearerThanExternal` | src/lib/pricing.ts:49-53 | for a non-negative volume, the AWS-hosted cost lies between zero and the external cost |
| `PricingProperties.FreeTierSavingIsBounded` | src/lib/pricing.ts:49-53 | the free tier saves at most the price of the free-tier messages, and exactly that once the volume reaches the tier |
| `PricingProperties.InboundFreeIff` | src/lib/pricing.ts:60-61 | with a positive rate, inbound cost is zero if and only if the volume is at most the inbound free tier |
| `PricingProperties.InboundBillsOnlyAboveFreeTier` | src/lib/pricing.ts:60-61 | above the inbound free tier, the cost is the excess, in thousands, times the inbound rate |
| `PricingProperties.InboundNonNegative` | src/lib/pricing.ts:56-62 | with a non-negative rate the inbound cost is non-negative, whatever the volume |
| `PricingProperties.InboundMonotone` | src/lib/pricing.ts:56-62 | a larger inbound volume never costs less |
| `PricingProperties.DataCostZeroIff` | src/lib/pricing.ts:69-70 | data cost is zero if and only if the count, the average size or the rate is zero |
| `PricingProperties.DataCostOfOneGigabyte` | src/lib/pricing.ts:42 | 1,024 MB in all costs exactly the per-GB rate |
| `PricingProperties.DataCostScalesWithEmails` | src/lib/pricing.ts:69-70 | scaling the message count by k scales the data cost by k |
| `PricingProperties.DataCostScalesWithSize` | src/lib/pricing.ts:69-70 | scaling the average size by k scales the data cost by k |
| `PricingProperties.DataCostScalesWithRate` | src/lib/pricing.ts:69-70 | scaling the per-GB rate by k scales the data cost by k |
| `PricingProperties.DataCostAdditiveInEmails` | src/lib/pricing.ts:69-70 | two batches of the same size cost together what they cost apart |
| `PricingProperties.DataCostMonotone` | src/lib/pricing.ts:64-71 | more or larger messages never cost less to transfer, and the cost is non-negative |
| `PricingProperties.DedicatedIpLinear` | src/lib/pricing.ts:91 | n addresses cost n times the cost of one |
| `PricingProperties.DedicatedIpMonotone` | src/lib/pricing.ts:91 | more addresses never cost less |
| `PricingProperties.QuoteNonNegative` | src/lib/pricing.ts:73-95 | with non-negative inputs and rates every line item is non-negative and none exceeds the total |
| `PricingProperties.QuoteInboundIndependent` | src/lib/pricing.ts:77-91 | changing only inbound fields leaves the outbound, outbound-data and dedicated-IP line items unchanged |
| `PricingProperties.QuoteWithoutInbound` | src/lib/pricing.ts:84-92 | zero inbound messages of zero size give zero inbound and inbound-data items, so the total is outbound plus outbound data plus IPs |
| `PricingProperties.QuoteMonotone` | src/lib/pricing.ts:73-95 | inputs that are each at least as large, with the same origin, give every line item and the total at least as large |
| `PricingProperties.DefaultTableScenarios` | src/lib/pricing.ts:13-21 | with the published table: 62,000 AWS-hosted messages cost 0; 162,000 cost 10.00; 100,000 external messages cost 10.00; 1,000 inbound cost 0; 11,000 inbound cost 1.00; two IPs cost 49.90 |
| `PricingProperties.FreeTierOnlyQuoteIsFree` | src/lib/pricing.ts:49-53 | for any table with a non-negative inbound free tier, exactly the outbound free tier of empty AWS-hosted messages, with no inbound mail and no IPs, gives a total of exactly 0 |
| `PricingProperties.DefaultTableFreeTierQuote` | src/lib/pricing.ts:13-21 | under the published table, 62,000 AWS-hosted empty messages with nothing else give a total of exactly 0 |
| `PricingProperties.PublishedTableNonNegative` | src/lib/pricing.ts:13-21 | the published table (`Pricing.SesPricing`) has no negative rate or free tier, and both per-1,000 rates are positive, so every lemma with those hypotheses applies to it |
| `QuoteForm.ClampEntry` | src/App.tsx:77 | a typed number is never negative afterwards; non-negative entries are kept and negative ones become 0 |
| `QuoteForm.SetNumericField` | src/App.tsx:72-79 | the edited field holds the typed value clamped at zero; no other field and not the origin changes; every numeric input stays non-negative |
| `QuoteForm.ApplyAwsFreeTier` | src/App.tsx:238-243 | the button sets the outbound volume to the published free tier (62,000) and the origin to AWS compute, keeps the other four fields, keeps inputs non-negative, and makes the outbound line item zero under the published table |
| `QuoteForm.ApplyAwsFreeTierIsLargestFreeVolume` | src/App.tsx:238-243 | any outbound volume above the one the button sets costs something from AWS compute under the published table |
| `QuoteForm.SanitizeForQuote` | src/App.tsx:57-61 | with inbound on the inputs pass unchanged; with it off both inbound fields are zero and nothing else changes; non-negativity is kept |
| `QuoteForm.DisplayedQuote` | src/App.tsx:56-63 | with inbound on the form shows the calculator's quote for its inputs under the published table, and its total is the sum of its line items |
| `QuoteForm.DisplayedQuoteNonNegative` | src/App.tsx:56-63 | non-negative form inputs give a non-negative displayed quote |
| `QuoteForm.DisplayedQuoteWithoutInbound` | src/App.tsx:56-63 | with inbound off both inbound line items are zero, and the other line items equal those with inbound on |
| `QuoteForm.DefaultDisplayedQuote` | src/App.tsx:22-29 | the default inputs (`QuoteForm.DefaultInputs`) are non-negative and give outbound 8.80, outbound data 1.93359375, inbound 0.90, inbound data 0.17578125 and total 11.809375 |

## Left out

- IEEE-754 double arithmetic: the model computes exact rationals. The
  calculator does not round, and display precision is a formatting concern.
- The conversion of typed text with `Number(...)` and the `isNaN` fallback to
  zero (src/App.tsx:74-77 and 86-87) depend on JavaScript string-to-number
  semantics. Only the clamp at zero is modelled, in `QuoteForm.ClampEntry`.
- The presentation arithmetic of src/App.tsx:65-70 is not modelled: the flat
  surcharge, the conversion to NPR at the fixed rate, the effective CPM and
  the cost per email.
- Currency and number formatting with `Intl.NumberFormat`
  (src/App.tsx:31-49): a library call outside the repository.
- React state hooks, memoisation, widgets and layout are UI. The form's
  update functions are modelled as plain functions from old to new inputs.
- The origin selector (src/App.tsx:81-83) replaces the origin and nothing
  else. It has no arithmetic and needs no separate member.
- The default price-table argument of every calculator function
  (`pricing = SES_PRICING`) is an explicit parameter here. Callers that rely
  on the default pass `Pricing.SesPricing`.
