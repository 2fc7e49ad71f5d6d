# Investment marketing calculator — Dafny model

The system is a small Next.js marketing site for six fixed-rate investment
products: abc, year1, year2, mix_a, mix_b and mix_c. It serves three kinds of
investor: an individual, a general corporation and a loan corporation. Its
computational core has four parts, and this project models all four:

- **The forward calculator** (`calculateInvestment`) takes an amount, a product and an
  investor type. It computes:
  - the after-tax annual and monthly profit;
  - the gain over a 2.25 % bank deposit;
  - that gain in minimum-wage hours;
  - that gain as whole counts of seven lifestyle items.
- **The inverse calculator** (`calculateRequiredInvestment`) takes a target monthly
  profit. For every product and investor type it computes the principal that earns
  that target.
- **The data service** reads a precomputed comparison table. It returns the table
  for one amount and each product's extra profit over the abc/individual baseline.
  It also builds the comparison page's insight records: year2 over abc, and the
  investor-type lines.
- **The formatters**:
  - currency with rounding, with flooring, or with a sign;
  - the money input field;
  - the Korean reading of an amount (`numberToKorean`);
  - the sign class of an amount.

The two page effects that use these functions are modelled as well:

- The comparison page marks the first product with the largest annual profit as
  best.
- The extra-profit page flags every product that has the top positive gain (ties
  included), and every product with a non-zero gain.

Modules, one per file:

| file | module | source |
|---|---|---|
| `wrappers.dfy` | `Wrappers` | `Option` |
| `js_number.dfy` | `JsNumber` | `Math.round`, `Math.max`, `toLocaleString('ko-KR')`, `parseInt` |
| `calculations.dfy` | `Calculations` | `lib/calculations.ts` |
| `data_service.dfy` | `DataService` | `lib/dataService.ts` |
| `formatters.dfy` | `Formatters` | `lib/formatters.ts` |
| `comparison_page.dfy` | `ComparisonPage` | the effect of `app/comparison/page.tsx` |
| `extra_page.dfy` | `ExtraPage` | the effect of `app/extra/page.tsx` |

Numbers are exact reals; rounding and flooring are written out. JavaScript's
`x || d` falls back to `d` on a missing key and also on a stored 0. That rule is
`Calculations.NumberOr`, and it has a visible consequence. The forward
calculator's tax table gives loan_corp a rate of 0. That 0 is falsy, so loan_corp
is taxed at the fallback 0.275, like an individual. The inverse calculator reads
the same 0 with no fallback, so it uses 0 for loan_corp. Both tax tables list
`loan_corp: 0` (lib/calculations.ts:28 and lib/calculations.ts:115), but only the
inverse calculator applies it. The model follows the code:

- `LoanCorpTaxedAsIndividual` states the forward behaviour.
- `ForwardShortOfTarget`, `ForwardOfRequired` and `LoanCorpRoundTrip` state the
  consequence. The loan_corp principal from the inverse calculator earns only
  72.5 % of the target in the forward calculator.

`toLocaleString('ko-KR')` on an integer is library code, not code of this
repository. `JsNumber.Group` models it by an assumption: decimal digits with no
leading zeros, a comma every three digits from the right, and '-' before a
negative number. The dataset is a parameter: a `ComparisonTable` from amount to
product code to investor type to profit, plus the product list.

## Model

| member | source | states |
|---|---|---|
| JsNumber.Round | lib/formatters.ts:8 | `Math.round(x)` is the integer within half of x: x - 0.5 < r <= x + 0.5 |
| JsNumber.MaxOf | app/comparison/page.tsx:40 | `Math.max` over a list is absent exactly on the empty list, and otherwise is an element of it at least every element |
| JsNumber.GroupNat | lib/formatters.ts:51 | the grouped spelling of a non-negative integer: digits in groups of three from the right separated by commas, with no leading zero unless the number is 0 |
| JsNumber.Group | lib/formatters.ts:8 | the spelling of an integer starts with '-' exactly when it is negative, and the rest is the grouped spelling of its magnitude |
| JsNumber.KeepDigits | lib/formatters.ts:43 | removing every non-digit leaves only ASCII digits and never lengthens the text |
| JsNumber.ValueOfDecimal | lib/formatters.ts:50 | `parseInt` of an integer's decimal spelling gives the integer back |
| JsNumber.DecimalSplit3 | lib/formatters.ts:51 | the decimal spelling of n >= 1000 is that of n / 1000 followed by the three zero-padded digits of n % 1000 |
| JsNumber.RemoveCommasAppend | lib/formatters.ts:51 | removing commas distributes over concatenation |
| JsNumber.KeepDigitsAppend | lib/formatters.ts:43 | keeping digits distributes over concatenation |
| JsNumber.RemoveCommasOfDigits | lib/formatters.ts:51 | a text of digits has no comma to remove |
| JsNumber.KeepDigitsIsRemoveCommas | lib/formatters.ts:43 | on digits and commas, keeping the digits and removing the commas agree |
| JsNumber.GroupNatWithoutCommas | lib/formatters.ts:51 | the grouped spelling with its commas removed is the plain decimal spelling |
| JsNumber.GroupRoundTrip | lib/formatters.ts:8 | reading a grouped integer back (sign, then digits) gives the integer: the currency texts denote the rounded value |
| Calculations.NumberOr | lib/calculations.ts:31-32 | `table[key] \|\| fallback`: the stored value when present and non-zero, the fallback otherwise |
| Calculations.RateOf | lib/calculations.ts:15-22 | a product's annual rate from the table, 0.08 for an unknown code, always between 0.08 and 0.09 |
| Calculations.TaxOf | lib/calculations.ts:25-32 | general_corp is taxed at 0.209 and every other type, loan_corp included, at 0.275 |
| Calculations.ProductName | lib/calculations.ts:83-93 | the product's name, or abc's name for an unknown code |
| Calculations.AfterTaxRate | lib/calculations.ts:35 | the after-tax rate is rate x 0.791 for general_corp and rate x 0.725 otherwise, between 0.058 and 0.07119 |
| Calculations.Count | lib/calculations.ts:55-61 | `Math.floor(money / unit)`: the greatest integer whose multiple of the unit does not exceed the money |
| Calculations.LifestyleCounts | lib/calculations.ts:54-62 | each of the seven lifestyle counts is the floor of the monthly uplift over its own unit cost |
| Calculations.CalculateInvestment | lib/calculations.ts:6-78 | every field of the simulation: the inputs echoed, name and rate in percent, annual = amount x after-tax rate, monthly x 12 = annual, deposit = amount x 0.019035, extra = annual - deposit, extra monthly x 12 = extra, hours x 10030 = extra, lifestyle of the extra monthly |
| Calculations.RateFallback | lib/calculations.ts:31 | a known product has a non-zero rate; an unknown code gets abc's rate and abc's name |
| Calculations.TaxFallback | lib/calculations.ts:32 | loan_corp and any unknown type fall back to the individual's 0.275 |
| Calculations.SameTaxSameResult | lib/calculations.ts:6-78 | two investor types with the same tax give the same simulation except for the echoed type |
| Calculations.LoanCorpTaxedAsIndividual | lib/calculations.ts:28-32 | a loan corporation's simulation is the individual's with the type renamed |
| Calculations.PeriodIgnored | lib/calculations.ts:68 | the period is only echoed: no computed field depends on it |
| Calculations.UpliftPositive | lib/calculations.ts:35-45 | a positive amount gives a positive after-tax profit and a positive gain over the deposit |
| Calculations.AbcIndividualExample | lib/calculations.ts:35-55 | 500,000,000 in abc as an individual earns 29,000,000 a year, 19,482,500 above the deposit's 9,517,500, i.e. 10 family meals a month |
| Calculations.CountMonotone | lib/calculations.ts:55-61 | more money never buys fewer units |
| Calculations.CountNonNegative | lib/calculations.ts:55-61 | a non-negative amount buys a non-negative count |
| Calculations.CountCheaperUnit | lib/calculations.ts:55-61 | a cheaper unit is bought at least as often as a dearer one |
| Calculations.LifestyleMonotone | lib/calculations.ts:54-62 | every lifestyle count grows with the monthly uplift |
| Calculations.LifestyleOrdered | lib/calculations.ts:54-62 | for a non-negative uplift the counts are ordered by unit cost: personal time >= meeting >= family meal >= hobby >= health care >= short trip >= golf >= 0 |
| Calculations.LifestyleUnorderedBelowZero | lib/calculations.ts:54-62 | a negative uplift floors to negative counts, and that order breaks: -20000 gives -2 hours of personal time but -1 meeting |
| Calculations.RequiredByType.With | lib/calculations.ts:142 | writing one investor type's requirement changes that entry and no other |
| Calculations.RequiredPrincipal | lib/calculations.ts:134-140 | the required principal times the monthly after-tax rate is exactly the target, and it is positive for a positive target |
| Calculations.CalculateRequiredInvestment | lib/calculations.ts:98-152 | the two nested loops give the target back and one row per product, in order, each with the principal for every investor type |
| Calculations.InverseProductsMatchRates | lib/calculations.ts:102-109 | the inverse calculator's six products are the forward calculator's, in order, with the same positive rates |
| Calculations.RequiredEarnsTarget | lib/calculations.ts:132-143 | every entry of every row earns exactly the target at its own tax rate |
| Calculations.RequiredOrderedByTax | lib/calculations.ts:112-116 | for a positive target an individual needs more than a general corporation, who needs more than a loan corporation |
| Calculations.ForwardEarnsTarget | lib/calculations.ts:35-38 | a principal that earns the target at the forward calculator's own tax earns it in the forward calculator |
| Calculations.ForwardShortOfTarget | lib/calculations.ts:28-38 | a principal chosen for an untaxed loan corporation earns only 72.5 % of its target in the forward calculator |
| Calculations.ForwardOfRequired | lib/calculations.ts:98-152 | fed back to the forward calculator, the individual and general-corporation requirements earn the target and the loan-corporation one earns 72.5 % of it |
| Calculations.IndividualRoundTrip | lib/calculations.ts:134-140 | the individual's required principal earns the target in the forward calculator |
| Calculations.GeneralCorpRoundTrip | lib/calculations.ts:134-140 | the general corporation's required principal earns the target in the forward calculator |
| Calculations.LoanCorpRoundTrip | lib/calculations.ts:115 | the loan corporation's required principal earns 72.5 % of the target in the forward calculator |
| Calculations.Year2LoanCorpExample | lib/calculations.ts:105 | 3,000,000 a month in year2 needs 400,000,000 for a loan corporation |
| DataService.GetComparisonDataForAmount | lib/dataService.ts:14-18 | the table for an amount, absent exactly when the amount is not in the dataset |
| DataService.GetExtraProfitData | lib/dataService.ts:23-52 | absent exactly for an unknown amount; otherwise the abc/individual baseline and one row per product, in order, whose gain plus the baseline is the product's profit at the type; abc for an individual gains 0 |
| DataService.BaselineIgnoresInvestorType | lib/dataService.ts:28-29 | the baseline is abc/individual whatever type is selected |
| DataService.ComparisonsFor | lib/dataService.ts:102-131 | each of the three investor types makes exactly two comparisons, each between two distinct investor types; any other type makes none |
| DataService.PositiveLines | lib/dataService.ts:106-130 | the lines are exactly those of comparisons with a strictly positive gain, each with a non-negative rounded gain |
| DataService.GetInvestorTypeInsights | lib/dataService.ts:92-135 | the method's lines are those of the positive comparisons for the selected type, in order |
| DataService.PositiveLinesOfTwo | lib/dataService.ts:106-111 | with two comparisons, the first positive line comes before the second |
| DataService.PositiveLinesReadYear2Only | lib/dataService.ts:96-100 | the lines depend on year2's annual profits only |
| DataService.InvestorTypeInsightsReadYear2Only | lib/dataService.ts:96-100 | two tables that agree on year2's three annual profits give the same investor-type lines |
| DataService.ComparisonInsights | lib/dataService.ts:57-87 | none for an unknown amount; at most one insight of each kind, compare first and entity last; the compare insight appears exactly when year2 beats abc, with the rounded gain; the entity insight appears exactly when there is a line, and holds all the lines |
| DataService.GetComparisonInsights | lib/dataService.ts:57-87 | the method's insights are the ones specified above |
| Formatters.FormatCurrency | lib/formatters.ts:4-9 | "0" for no value; otherwise the grouped spelling, '-' first when negative, of an integer within half of the value |
| Formatters.FormatCurrencyExact | lib/formatters.ts:14-19 | "0" for no value; otherwise the grouped spelling, '-' first when negative, of the value rounded down |
| Formatters.FormatCurrencyWithSign | lib/formatters.ts:24-36 | "0" for no value; '+' exactly for a positive and '-' exactly for a negative value, then the grouped spelling of the rounded magnitude |
| Formatters.GetAmountClass | lib/formatters.ts:99-107 | positive, negative or zero, each exactly when the amount has that sign |
| Formatters.FormatMoneyInput | lib/formatters.ts:41-52 | empty exactly when the input has no digit; otherwise a grouped spelling of a number, with no leading zero |
| Formatters.KeepDigitsEmpty | lib/formatters.ts:43-47 | the field becomes empty exactly when no character of the input is a digit |
| Formatters.FormatMoneyInputParses | lib/formatters.ts:50-51 | the field with its commas removed is the decimal spelling of the input's digits, and parses to their value |
| Formatters.FormatMoneyInputIdempotent | lib/formatters.ts:41-52 | formatting an already formatted field changes nothing |
| Formatters.UnitText | lib/formatters.ts:60 | units 0 to 3 are '', '만', '억' and '조' |
| Formatters.GroupTextByDigits | lib/formatters.ts:73-84 | reading a group's digits from the ones up gives its reading from the thousands down |
| Formatters.ReadGroup | lib/formatters.ts:70-84 | the inner loop reads a group below 10000 as its four digits: zeros silent, and a one before 십, 백 or 천 silent |
| Formatters.NumberToKorean | lib/formatters.ts:57-94 | zero reads '영원'; any other amount reads as its non-zero groups of four digits, most significant first, each with its unit, then '원' |
| Formatters.KoreanTurn | lib/formatters.ts:68-90 | one turn of the outer loop moves the lowest group from the number to the front of the text read so far |
| Formatters.NextDigit | lib/formatters.ts:83 | dropping a digit i times and then once more is dropping it i + 1 times |
| Formatters.GroupTextEmptyIffZero | lib/formatters.ts:69-84 | a group reads as nothing exactly when all four of its digits are zero |
| Formatters.KoreanEmptyIffZero | lib/formatters.ts:67-91 | the reading is empty only for zero, so a positive amount reads as more than '원' |
| Formatters.ZeroGroupSilent | lib/formatters.ts:69 | an all-zero group adds nothing, and its unit is skipped |
| Formatters.KoreanOneGroup | lib/formatters.ts:86 | an amount of one non-zero group reads as that group and its unit |
| Formatters.GroupTextSamples | lib/formatters.ts:77-81 | 1 reads '일', 5 reads '오', 10 reads '십' and 1111 reads '천백십일' |
| Formatters.KoreanOne | lib/formatters.ts:77-80 | 1 reads '일': the '일' is kept in the ones place |
| Formatters.KoreanTen | lib/formatters.ts:77-78 | 10 reads '십': the '일' is dropped before 십 |
| Formatters.KoreanElevenHundredEleven | lib/formatters.ts:73-84 | 1111 reads '천백십일' |
| Formatters.KoreanShift | lib/formatters.ts:89-90 | appending k all-zero groups moves the whole reading up k units |
| Formatters.KoreanSingleGroup | lib/formatters.ts:60-90 | a non-zero group followed by k zero groups reads as the group and the k-th unit; from k = 4 on the unit is the text "undefined" (the source reaches it only through doubles, see Left out) |
| Formatters.KoreanTenThousand | lib/formatters.ts:77-86 | 10000 reads '일만': the '일' is kept before 만 |
| Formatters.KoreanFiveHundredMillion | lib/formatters.ts:67-91 | 500,000,000 reads '오억' |
| ComparisonPage.Annuals | app/comparison/page.tsx:40 | `results.map(r => r.annual)`, element by element |
| ComparisonPage.ResultsFor | app/comparison/page.tsx:29-37 | one result per product, in order, carrying the product and its annual and monthly profit at the selected type, none marked |
| ComparisonPage.MarkFirstBest | app/comparison/page.tsx:40-44 | an empty list is left alone; otherwise only the first result with the largest annual profit is marked best |
| ComparisonPage.FirstBestUnique | app/comparison/page.tsx:41 | `find` of the maximum picks one index: there is at most one first best |
| ComparisonPage.MarkedOnlyFirstBest | app/comparison/page.tsx:41-44 | after marking, a result is best exactly when it is the first best, and no two results are best |
| ComparisonPage.ComparisonEffect | app/comparison/page.tsx:26-49 | results state untouched for an unknown amount; otherwise one result per product, exactly one best when there is a product, the first with the top annual profit; insights recomputed for the amount and type |
| ExtraPage.PositiveAnnuals | app/extra/page.tsx:28 | the positive gains, and every positive gain of a row among them |
| ExtraPage.BestTestIsTopGain | app/extra/page.tsx:28-30 | the page's test `annual > 0 && annual === maxExtra` holds exactly for a row whose positive gain no other positive gain exceeds |
| ExtraPage.ExtraEffect | app/extra/page.tsx:25-35 | state untouched for an unknown amount; otherwise the fetched data with every row flagged best exactly when it has the top positive gain, and extra exactly when its gain is non-zero |

## Left out

- Floating point: the model uses exact reals. IEEE-754 rounding of `amount * rate * (1 - tax)`, `/ 12` and the like is not modelled. So `AbcIndividualExample` and `Year2LoanCorpExample` state the exact values.
- `NaN` and infinities: `formatCurrency`'s `isNaN` branch is the `None` case only. `Math.max()` of no values is `None` instead of `-Infinity`.
- JsNumber.Group: `toLocaleString('ko-KR')` is library code, modelled by the grouping assumption described above and not against the library.
- Formatters.FormatMoneyInput: `parseInt` is exact. Digit strings beyond 2^53 lose precision in JavaScript and not in the model.
- Formatters.NumberToKorean: takes a non-negative integer and divides it exactly. A negative amount reads as '원' in the source, and fractional amounts are not modelled. Above 2^53 the source's `Math.floor(num / 10000)` works on doubles and can round, so there it may misread the upper groups where the model reads them exactly. Past '조' the model reproduces the unit text "undefined".
- Calculations.RateOf: a product code that names an `Object.prototype` member (for example "constructor") would be truthy in the source. The model treats it as unknown.
- DataService.GetComparisonDataForAmount: the amount is an integer key. The source keys the table by `amount.toString()`, which agrees on integers.
- DataService.GetExtraProfitData: the source leaves `isBest` and `hasExtra` absent until the page sets them. The model holds them as `false`.
- DataService.GetComparisonInsights: the insight message is a structured value (template and rounded gain). `Message`, `Title`, `InsightType` and `LineText` give the HTML text and carry no contract.
- `getInvestmentData` and the JSON dataset: the table and product list are parameters. Reads the source makes without a check (`data[code][type]`) are preconditions (`ExtraReadable`, `InsightsReadable`, `EffectReadable`).
- ComparisonPage.ComparisonEffect: the source mutates the result object after `setComparisonResults`, and the state holds the same objects. The model is on values: the state it returns is the marked list, which is what the page renders.
- ExtraPage.ExtraEffect: `forEach` updates the fetched objects in place. The model builds the updated list, with the same result.
- React rendering, routing, components, charts, the simulator and target pages, and the guards those pages put on input, are not part of this model.
