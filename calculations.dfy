/**
 * The forward return calculator, the product-name lookup and the inverse
 * (required-principal) calculator, over exact real arithmetic.
 */
module Calculations {

  /** Pre-tax annual rate of each known product code. */
  const Rates: map<string, real> := map[
    "abc" := 0.08, "year1" := 0.085, "year2" := 0.09,
    "mix_a" := 0.0875, "mix_b" := 0.085, "mix_c" := 0.0825]

  /** Tax rate of each investor type; `loan_corp` pays no tax. */
  const TaxRates: map<string, real> := map[
    "individual" := 0.275, "general_corp" := 0.209, "loan_corp" := 0.0]

  /** Display names used by the forward calculator. */
  const ProductNames: map<string, string> := map[
    "abc" := "ABC 투자", "year1" := "1년 기간형 투자", "year2" := "2년 기간형 투자",
    "mix_a" := "혼합 A (기간1+2)", "mix_b" := "혼합 B (ABC+기간2)", "mix_c" := "혼합 C (ABC+기간1)"]

  /** After-tax annual rate of the reference deposit (2.25% taxed at 15.4%). */
  const DepositAfterTaxRate: real := 0.019035

  /** Hourly minimum wage used to turn money into hours of leisure. */
  const HourlyWage: real := 10030.0

  /**
   * JavaScript's `table[key] || fallback` on a table of numbers: a missing key
   * and a stored 0 are both falsy and give the fallback.
   */
  function NumberOr(table: map<string, real>, key: string, fallback: real): (r: real)
    ensures key in table && table[key] != 0.0 ==> r == table[key]
    ensures key !in table || table[key] == 0.0 ==> r == fallback
  {
    if key in table && table[key] != 0.0 then table[key] else fallback
  }

  /** `rates[product] || 0.08` */
  function RateOf(product: string): (r: real)
    ensures product in Rates ==> r == Rates[product]
    ensures product !in Rates ==> r == 0.08
    ensures 0.08 <= r <= 0.09
  {
    NumberOr(Rates, product, 0.08)
  }

  /**
   * `taxRates[customerType] || 0.275`. Because `loan_corp`'s 0 is falsy, every type
   * except `general_corp` is taxed at 0.275 here.
   */
  function TaxOf(customerType: string): (t: real)
    ensures customerType == "general_corp" ==> t == 0.209
    ensures customerType != "general_corp" ==> t == 0.275
  {
    NumberOr(TaxRates, customerType, 0.275)
  }

  /** `getProductName`: the listed name, or 'ABC 투자' for an unknown code. */
  function ProductName(code: string): (name: string)
    ensures code in ProductNames ==> name == ProductNames[code]
    ensures code !in ProductNames ==> name == ProductNames["abc"]
  {
    if code in ProductNames && ProductNames[code] != "" then ProductNames[code] else "ABC 투자"
  }

  /** Pre-tax rate times the share kept after tax, as the forward calculator applies them. */
  function AfterTaxRate(product: string, customerType: string): (r: real)
    ensures customerType == "general_corp" ==> r == RateOf(product) * 0.791
    ensures customerType != "general_corp" ==> r == RateOf(product) * 0.725
    ensures 0.058 <= r <= 0.07119
  {
    RateOf(product) * (1.0 - TaxOf(customerType))
  }

  /** Counts of everyday expenses the monthly uplift pays for. */
  datatype Lifestyle = Lifestyle(
    familyMeal: int, golf: int, meeting: int, hobby: int,
    shortTrip: int, healthCare: int, personalTime: int)

  datatype SimulationResult = SimulationResult(
    investmentAmount: real,
    productName: string,
    rate: real,
    periodYears: real,
    customerType: string,
    afterTaxAnnual: real,
    afterTaxMonthly: real,
    depositAfterTaxAnnual: real,
    extraAnnual: real,
    extraMonthly: real,
    leisureHours: real,
    lifestyle: Lifestyle)

  lemma MulPositive(a: real, b: real)
    requires a > 0.0 && b > 0.0
    ensures a * b > 0.0
  {
  }

  /** `Math.floor(money / unitCost)`: how many whole units `money` pays for. */
  function Count(money: real, unitCost: real): (c: int)
    requires unitCost > 0.0
    ensures c as real <= money / unitCost < c as real + 1.0
  {
    (money / unitCost).Floor
  }

  lemma DivMonotone(x: real, y: real, u: real)
    requires u > 0.0 && x <= y
    ensures x / u <= y / u
  {
    if x < y {
      MulPositive(y - x, 1.0 / u);
      assert (y - x) * (1.0 / u) == y / u - x / u;
    }
  }

  lemma DivAntitone(x: real, cheap: real, dear: real)
    requires x >= 0.0 && 0.0 < cheap <= dear
    ensures x / dear <= x / cheap
  {
    if x > 0.0 && cheap < dear {
      assert x / cheap - x / dear == x * (dear - cheap) / (cheap * dear);
      MulPositive(x, dear - cheap);
      MulPositive(cheap, dear);
    }
  }

  /** What one of each lifestyle item costs, in the order of `Lifestyle`'s fields. */
  const LifestyleUnits: seq<real> := [150000.0, 350000.0, 25000.0, 175000.0, 300000.0, 185000.0, HourlyWage]

  /** `Math.floor(money / unit)` for each unit of the table, in order. */
  function Counts(money: real, units: seq<real>): (cs: seq<int>)
    requires forall i :: 0 <= i < |units| ==> units[i] > 0.0
    ensures |cs| == |units|
  {
    if units == [] then [] else [Count(money, units[0])] + Counts(money, units[1..])
  }

  lemma {:induction false} CountsAt(money: real, units: seq<real>, i: nat)
    requires forall k :: 0 <= k < |units| ==> units[k] > 0.0
    requires i < |units|
    ensures Counts(money, units)[i] == Count(money, units[i])
  {
    if i > 0 {
      CountsAt(money, units[1..], i - 1);
    }
  }

  /** The `lifestyle` object: how many of each item the monthly uplift pays for. */
  function LifestyleOf(extraMonthly: real): Lifestyle {
    var c := Counts(extraMonthly, LifestyleUnits);
    Lifestyle(
      familyMeal := c[0], golf := c[1], meeting := c[2], hobby := c[3],
      shortTrip := c[4], healthCare := c[5], personalTime := c[6])
  }

  /** Each lifestyle count is the whole number of its unit cost that the uplift pays for. */
  lemma LifestyleCounts(extraMonthly: real)
    ensures LifestyleOf(extraMonthly) == Lifestyle(
      Count(extraMonthly, 150000.0), Count(extraMonthly, 350000.0), Count(extraMonthly, 25000.0),
      Count(extraMonthly, 175000.0), Count(extraMonthly, 300000.0), Count(extraMonthly, 185000.0),
      Count(extraMonthly, HourlyWage))
  {
    forall i | 0 <= i < 7
      ensures Counts(extraMonthly, LifestyleUnits)[i] == Count(extraMonthly, LifestyleUnits[i])
    {
      CountsAt(extraMonthly, LifestyleUnits, i);
    }
  }

  /** `calculateInvestment`: performs no validation, total over all inputs. */
  function CalculateInvestment(amount: real, product: string, customerType: string, periodYears: real)
    : (r: SimulationResult)
    ensures r.investmentAmount == amount && r.periodYears == periodYears && r.customerType == customerType
    ensures r.productName == ProductName(product) && r.rate == RateOf(product) * 100.0
    ensures r.afterTaxAnnual == amount * AfterTaxRate(product, customerType)
    ensures r.afterTaxMonthly * 12.0 == r.afterTaxAnnual
    ensures r.depositAfterTaxAnnual == amount * DepositAfterTaxRate
    ensures r.extraAnnual == r.afterTaxAnnual - r.depositAfterTaxAnnual
    ensures r.extraMonthly * 12.0 == r.extraAnnual
    ensures r.leisureHours * HourlyWage == r.extraAnnual
    ensures r.lifestyle == LifestyleOf(r.extraMonthly)
  {
    Simulate(amount, product, AfterTaxRate(product, customerType), customerType, periodYears)
  }

  /** The figures `calculateInvestment` derives from the amount once the after-tax rate is known. */
  function Simulate(amount: real, product: string, afterTaxRate: real, customerType: string, periodYears: real)
    : SimulationResult
  {
    var afterTaxAnnual := amount * afterTaxRate;
    var afterTaxMonthly := afterTaxAnnual / 12.0;
    var depositAfterTaxAnnual := amount * DepositAfterTaxRate;
    var extraAnnual := afterTaxAnnual - depositAfterTaxAnnual;
    var extraMonthly := extraAnnual / 12.0;
    var leisureHours := extraAnnual / HourlyWage;
    SimulationResult(
      investmentAmount := amount,
      productName := ProductName(product),
      rate := RateOf(product) * 100.0,
      periodYears := periodYears,
      customerType := customerType,
      afterTaxAnnual := afterTaxAnnual,
      afterTaxMonthly := afterTaxMonthly,
      depositAfterTaxAnnual := depositAfterTaxAnnual,
      extraAnnual := extraAnnual,
      extraMonthly := extraMonthly,
      leisureHours := leisureHours,
      lifestyle := LifestyleOf(extraMonthly))
  }

  // ---------------------------------------------------------------------------
  // Properties of the forward calculator

  /** Every known code has its own non-zero rate; every unknown code gets abc's rate and name. */
  lemma RateFallback(code: string)
    ensures code in Rates ==> RateOf(code) == Rates[code] != 0.0
    ensures code !in Rates ==> RateOf(code) == RateOf("abc") && ProductName(code) == ProductName("abc")
  {
    assert Rates.Keys == ProductNames.Keys;
  }

  /** Every investor type the tax table does not tax at a non-zero rate pays the 0.275 fallback. */
  lemma TaxFallback(customerType: string)
    requires customerType == "loan_corp" || customerType !in TaxRates
    ensures TaxOf(customerType) == TaxOf("individual") == 0.275
  {
  }

  /** Two investor types with the same tax rate get the same result but for the echoed type. */
  lemma SameTaxSameResult(amount: real, product: string, t1: string, t2: string, periodYears: real)
    requires TaxOf(t1) == TaxOf(t2)
    ensures CalculateInvestment(amount, product, t1, periodYears)
         == CalculateInvestment(amount, product, t2, periodYears).(customerType := t1)
  {
    var atr := AfterTaxRate(product, t1);
    assert atr == AfterTaxRate(product, t2);
    assert CalculateInvestment(amount, product, t2, periodYears) == Simulate(amount, product, atr, t2, periodYears);
  }

  /**
   * `loan_corp` (and any unknown type) is taxed like `individual` by the forward
   * calculator: all computed fields coincide, only the echoed type differs.
   */
  lemma LoanCorpTaxedAsIndividual(amount: real, product: string, customerType: string, periodYears: real)
    requires customerType == "loan_corp" || customerType !in TaxRates
    ensures CalculateInvestment(amount, product, customerType, periodYears)
         == CalculateInvestment(amount, product, "individual", periodYears).(customerType := customerType)
  {
    TaxFallback(customerType);
    SameTaxSameResult(amount, product, customerType, "individual", periodYears);
  }

  /** The period is carried through for display only: it changes no computed value. */
  lemma PeriodIgnored(amount: real, product: string, customerType: string, p1: real, p2: real)
    ensures CalculateInvestment(amount, product, customerType, p1).(periodYears := p2)
         == CalculateInvestment(amount, product, customerType, p2)
  {
  }

  /** For a positive amount every product beats the reference deposit, whatever the investor type. */
  lemma UpliftPositive(amount: real, product: string, customerType: string, periodYears: real)
    requires amount > 0.0
    ensures var r := CalculateInvestment(amount, product, customerType, periodYears);
      r.afterTaxAnnual > 0.0 && r.extraAnnual > 0.0
  {
    var atr := AfterTaxRate(product, customerType);
    var r := CalculateInvestment(amount, product, customerType, periodYears);
    MulPositive(amount, atr);
    MulPositive(amount, atr - DepositAfterTaxRate);
    assert amount * (atr - DepositAfterTaxRate) == amount * atr - amount * DepositAfterTaxRate;
  }

  /** Worked example: 500,000,000 in abc as an individual. */
  lemma AbcIndividualExample()
    ensures var r := CalculateInvestment(500000000.0, "abc", "individual", 1.0);
      && r.afterTaxAnnual == 29000000.0
      && r.depositAfterTaxAnnual == 9517500.0
      && r.extraAnnual == 19482500.0
      && r.lifestyle.familyMeal == 10
  {
    var r := CalculateInvestment(500000000.0, "abc", "individual", 1.0);
    assert r.afterTaxAnnual == 29000000.0;
    assert r.extraMonthly * 12.0 == 19482500.0;
    LifestyleCounts(r.extraMonthly);
  }

  lemma CountMonotone(x: real, y: real, unitCost: real)
    requires unitCost > 0.0 && x <= y
    ensures Count(x, unitCost) <= Count(y, unitCost)
  {
    DivMonotone(x, y, unitCost);
  }

  lemma CountNonNegative(x: real, unitCost: real)
    requires unitCost > 0.0 && x >= 0.0
    ensures Count(x, unitCost) >= 0
  {
    DivMonotone(0.0, x, unitCost);
  }

  /** A cheaper unit fits at least as often into a non-negative amount. */
  lemma CountCheaperUnit(x: real, cheap: real, dear: real)
    requires 0.0 < cheap <= dear && x >= 0.0
    ensures Count(x, dear) <= Count(x, cheap)
  {
    DivAntitone(x, cheap, dear);
  }

  /** More monthly uplift never lowers any lifestyle count. */
  lemma LifestyleMonotone(x: real, y: real)
    requires x <= y
    ensures var a, b := LifestyleOf(x), LifestyleOf(y);
      && a.familyMeal <= b.familyMeal && a.golf <= b.golf && a.meeting <= b.meeting
      && a.hobby <= b.hobby && a.shortTrip <= b.shortTrip && a.healthCare <= b.healthCare
      && a.personalTime <= b.personalTime
  {
    LifestyleCounts(x);
    LifestyleCounts(y);
    CountMonotone(x, y, 150000.0);
    CountMonotone(x, y, 350000.0);
    CountMonotone(x, y, 25000.0);
    CountMonotone(x, y, 175000.0);
    CountMonotone(x, y, 300000.0);
    CountMonotone(x, y, 185000.0);
    CountMonotone(x, y, HourlyWage);
  }

  /** For a non-negative uplift the counts are ordered by unit cost, all non-negative. */
  lemma LifestyleOrdered(x: real)
    requires x >= 0.0
    ensures var l := LifestyleOf(x);
      l.personalTime >= l.meeting >= l.familyMeal >= l.hobby >= l.healthCare >= l.shortTrip >= l.golf >= 0
  {
    LifestyleCounts(x);
    CountNonNegative(x, 350000.0);
    CountCheaperUnit(x, HourlyWage, 25000.0);
    CountCheaperUnit(x, 25000.0, 150000.0);
    CountCheaperUnit(x, 150000.0, 175000.0);
    CountCheaperUnit(x, 175000.0, 185000.0);
    CountCheaperUnit(x, 185000.0, 300000.0);
    CountCheaperUnit(x, 300000.0, 350000.0);
  }

  /** The ordering fails for a negative uplift: -20,000 a month is -2 hours but only -1 meeting. */
  lemma LifestyleUnorderedBelowZero()
    ensures LifestyleOf(-20000.0).personalTime == -2 && LifestyleOf(-20000.0).meeting == -1
  {
    LifestyleCounts(-20000.0);
  }

  // ---------------------------------------------------------------------------
  // Inverse calculator

  /** A row of the inverse calculator's own product list. */
  datatype InverseProduct = InverseProduct(code: string, name: string, rate: real)

  const InverseProducts: seq<InverseProduct> := [
    InverseProduct("abc", "ABC 투자", 0.08),
    InverseProduct("year1", "1년 기간형", 0.085),
    InverseProduct("year2", "2년 기간형", 0.09),
    InverseProduct("mix_a", "혼합 A", 0.0875),
    InverseProduct("mix_b", "혼합 B", 0.085),
    InverseProduct("mix_c", "혼합 C", 0.0825)]

  /** The inverse calculator's tax table, in `Object.entries` order; here `loan_corp` is really 0. */
  const TaxEntries: seq<(string, real)> := [("individual", 0.275), ("general_corp", 0.209), ("loan_corp", 0.0)]

  datatype RequiredByType = RequiredByType(individual: real, generalCorp: real, loanCorp: real) {

    /** `required[type]` */
    function At(investorType: string): real {
      if investorType == "individual" then individual
      else if investorType == "general_corp" then generalCorp
      else if investorType == "loan_corp" then loanCorp
      else 0.0
    }

    /** `required[type] = value`, in place */
    function With(investorType: string, value: real): (r: RequiredByType)
      ensures investorType in TaxRates ==> r.At(investorType) == value
      ensures forall t :: t != investorType ==> r.At(t) == At(t)
    {
      if investorType == "individual" then this.(individual := value)
      else if investorType == "general_corp" then this.(generalCorp := value)
      else if investorType == "loan_corp" then this.(loanCorp := value)
      else this
    }
  }

  datatype ProductRequirement = ProductRequirement(name: string, preTaxRate: real, required: RequiredByType)

  datatype TargetProfitResult = TargetProfitResult(targetMonthly: real, data: seq<ProductRequirement>)

  /** Principal whose monthly after-tax return at `rate` and `tax` is `targetMonthly`. */
  function RequiredPrincipal(targetMonthly: real, rate: real, tax: real): (p: real)
    requires rate > 0.0 && tax < 1.0
    ensures p * (rate * (1.0 - tax) / 12.0) == targetMonthly
    ensures targetMonthly > 0.0 ==> p > 0.0
  {
    var monthlyAfterTaxRate := rate * (1.0 - tax) / 12.0;
    targetMonthly / monthlyAfterTaxRate
  }

  /** The row the inverse calculator produces for one product. */
  function RequirementRow(p: InverseProduct, targetMonthly: real): ProductRequirement
    requires p.rate > 0.0
  {
    ProductRequirement(p.name, p.rate * 100.0, RequiredByType(
      RequiredPrincipal(targetMonthly, p.rate, 0.275),
      RequiredPrincipal(targetMonthly, p.rate, 0.209),
      RequiredPrincipal(targetMonthly, p.rate, 0.0)))
  }

  /** `required` after the first `j` entries of the tax table have been written. */
  function RequiredUpTo(p: InverseProduct, targetMonthly: real, j: nat): RequiredByType
    requires p.rate > 0.0 && j <= 3
  {
    var full := RequirementRow(p, targetMonthly).required;
    RequiredByType(
      if j > 0 then full.individual else 0.0,
      if j > 1 then full.generalCorp else 0.0,
      if j > 2 then full.loanCorp else 0.0)
  }

  /** `calculateRequiredInvestment` */
  method CalculateRequiredInvestment(targetMonthlyProfit: real) returns (r: TargetProfitResult)
    ensures r.targetMonthly == targetMonthlyProfit
    ensures |r.data| == |InverseProducts|
    ensures forall i :: 0 <= i < |r.data| ==> r.data[i] == RequirementRow(InverseProducts[i], targetMonthlyProfit)
  {
    var targetMonthly := targetMonthlyProfit;
    var result: seq<ProductRequirement> := [];
    for i := 0 to |InverseProducts|
      invariant |result| == i
      invariant forall k :: 0 <= k < i ==> result[k] == RequirementRow(InverseProducts[k], targetMonthly)
    {
      var product := InverseProducts[i];
      var productResult := ProductRequirement(product.name, product.rate * 100.0, RequiredByType(0.0, 0.0, 0.0));
      for j := 0 to |TaxEntries|
        invariant productResult.name == product.name && productResult.preTaxRate == product.rate * 100.0
        invariant productResult.required == RequiredUpTo(product, targetMonthly, j)
      {
        var (investorType, tax) := TaxEntries[j];
        var afterTaxRate := product.rate * (1.0 - tax);
        var monthlyAfterTaxRate := afterTaxRate / 12.0;
        var requiredInvestment := targetMonthly / monthlyAfterTaxRate;
        productResult := productResult.(required := productResult.required.With(investorType, requiredInvestment));
      }
      result := result + [productResult];
    }
    r := TargetProfitResult(targetMonthly, result);
  }

  // ---------------------------------------------------------------------------
  // Properties of the inverse calculator

  /** Six rows in the order abc, year1, year2, mix_a, mix_b, mix_c, each at the forward rate. */
  lemma InverseProductsMatchRates()
    ensures |InverseProducts| == 6
    ensures InverseProducts[0].code == "abc" && InverseProducts[1].code == "year1"
    ensures InverseProducts[2].code == "year2" && InverseProducts[3].code == "mix_a"
    ensures InverseProducts[4].code == "mix_b" && InverseProducts[5].code == "mix_c"
    ensures forall i :: 0 <= i < 6 ==> InverseProducts[i].rate == RateOf(InverseProducts[i].code) > 0.0
  {
  }

  /** Every cell of the inverse table earns exactly the target per month at the inverse table's tax. */
  lemma RequiredEarnsTarget(i: nat, j: nat, targetMonthly: real)
    requires i < |InverseProducts| && j < |TaxEntries|
    ensures var p, (t, tax) := InverseProducts[i], TaxEntries[j];
      RequirementRow(p, targetMonthly).required.At(t) * (p.rate * (1.0 - tax) / 12.0) == targetMonthly
  {
  }

  /** For a positive target, a higher tax needs more principal: individual > general_corp > loan_corp > 0. */
  lemma RequiredOrderedByTax(i: nat, targetMonthly: real)
    requires i < |InverseProducts| && targetMonthly > 0.0
    ensures var q := RequirementRow(InverseProducts[i], targetMonthly).required;
      q.individual > q.generalCorp > q.loanCorp > 0.0
  {
    var p := InverseProducts[i];
    var q := RequirementRow(p, targetMonthly).required;
    var m := targetMonthly * 12.0 / p.rate;
    assert q.individual * 0.725 == m && q.generalCorp * 0.791 == m && q.loanCorp == m by {
      assert q.individual * (p.rate * 0.725 / 12.0) == targetMonthly;
      assert q.generalCorp * (p.rate * 0.791 / 12.0) == targetMonthly;
      assert q.loanCorp * (p.rate / 12.0) == targetMonthly;
    }
  }

  /** A twelfth of the annual figure is the principal times a twelfth of the rate. */
  lemma TwelfthOf(q: real, annualRate: real, monthly: real)
    requires monthly * 12.0 == q * annualRate
    ensures monthly == q * (annualRate / 12.0)
  {
    assert q * annualRate == q * (annualRate / 12.0) * 12.0;
  }

  /** A twelfth of the annual figure is the principal times a twelfth of the rate, times any share kept. */
  lemma Twelfth(q: real, annualRate: real, share: real, monthly: real)
    requires monthly * 12.0 == q * (annualRate * share)
    ensures monthly == q * (annualRate / 12.0) * share
  {
    assert q * (annualRate * share) == (q * (annualRate / 12.0)) * share * 12.0;
  }

  /**
   * Any principal whose monthly return at the forward calculator's own rate and tax is
   * the target earns exactly the target in the forward calculator.
   */
  lemma ForwardEarnsTarget(q: real, product: string, customerType: string, targetMonthly: real, periodYears: real)
    requires q * (RateOf(product) * (1.0 - TaxOf(customerType)) / 12.0) == targetMonthly
    ensures CalculateInvestment(q, product, customerType, periodYears).afterTaxMonthly == targetMonthly
  {
    var atr := RateOf(product) * (1.0 - TaxOf(customerType));
    var m := CalculateInvestment(q, product, customerType, periodYears).afterTaxMonthly;
    assert m * 12.0 == q * atr;
    TwelfthOf(q, atr, m);
  }

  /**
   * Any principal whose untaxed monthly return is the target earns only 72.5% of it in
   * the forward calculator as a loan corporation.
   */
  lemma ForwardShortOfTarget(q: real, product: string, targetMonthly: real, periodYears: real)
    requires q * (RateOf(product) / 12.0) == targetMonthly
    ensures CalculateInvestment(q, product, "loan_corp", periodYears).afterTaxMonthly == targetMonthly * 0.725
  {
    var rate := RateOf(product);
    var m := CalculateInvestment(q, product, "loan_corp", periodYears).afterTaxMonthly;
    assert m * 12.0 == q * (rate * 0.725) by {
      assert AfterTaxRate(product, "loan_corp") == rate * 0.725;
    }
    Twelfth(q, rate, 0.725, m);
  }

  /**
   * Round trip through the forward calculator: the principal the inverse table lists
   * earns the target for `individual` and `general_corp`, but for `loan_corp` the
   * forward calculator's 0.275 fallback leaves only 72.5% of it.
   */
  lemma ForwardOfRequired(i: nat, targetMonthly: real, periodYears: real)
    requires i < |InverseProducts|
    ensures var p := InverseProducts[i];
      var q := RequirementRow(p, targetMonthly).required;
      && CalculateInvestment(q.individual, p.code, "individual", periodYears).afterTaxMonthly == targetMonthly
      && CalculateInvestment(q.generalCorp, p.code, "general_corp", periodYears).afterTaxMonthly == targetMonthly
      && CalculateInvestment(q.loanCorp, p.code, "loan_corp", periodYears).afterTaxMonthly == targetMonthly * 0.725
  {
    InverseProductsMatchRates();
    var p := InverseProducts[i];
    IndividualRoundTrip(p, targetMonthly, periodYears);
    GeneralCorpRoundTrip(p, targetMonthly, periodYears);
    LoanCorpRoundTrip(p, targetMonthly, periodYears);
  }

  /** The round trip for the `individual` cell of a row whose rate is the forward rate for its code. */
  lemma IndividualRoundTrip(p: InverseProduct, targetMonthly: real, periodYears: real)
    requires p.rate > 0.0 && RateOf(p.code) == p.rate
    ensures var q := RequirementRow(p, targetMonthly).required.individual;
      CalculateInvestment(q, p.code, "individual", periodYears).afterTaxMonthly == targetMonthly
  {
    var q := RequirementRow(p, targetMonthly).required.individual;
    assert q * (p.rate * (1.0 - TaxOf("individual")) / 12.0) == targetMonthly by {
      assert TaxOf("individual") == 0.275;
    }
    ForwardEarnsTarget(q, p.code, "individual", targetMonthly, periodYears);
  }

  /** The round trip for the `general_corp` cell. */
  lemma GeneralCorpRoundTrip(p: InverseProduct, targetMonthly: real, periodYears: real)
    requires p.rate > 0.0 && RateOf(p.code) == p.rate
    ensures var q := RequirementRow(p, targetMonthly).required.generalCorp;
      CalculateInvestment(q, p.code, "general_corp", periodYears).afterTaxMonthly == targetMonthly
  {
    var q := RequirementRow(p, targetMonthly).required.generalCorp;
    assert q * (p.rate * (1.0 - TaxOf("general_corp")) / 12.0) == targetMonthly by {
      assert TaxOf("general_corp") == 0.209;
    }
    ForwardEarnsTarget(q, p.code, "general_corp", targetMonthly, periodYears);
  }

  /** The round trip for the `loan_corp` cell, which falls short. */
  lemma LoanCorpRoundTrip(p: InverseProduct, targetMonthly: real, periodYears: real)
    requires p.rate > 0.0 && RateOf(p.code) == p.rate
    ensures var q := RequirementRow(p, targetMonthly).required.loanCorp;
      CalculateInvestment(q, p.code, "loan_corp", periodYears).afterTaxMonthly == targetMonthly * 0.725
  {
    var q := RequirementRow(p, targetMonthly).required.loanCorp;
    assert q * (p.rate / 12.0) == targetMonthly by {
      assert p.rate * (1.0 - 0.0) / 12.0 == p.rate / 12.0;
    }
    ForwardShortOfTarget(q, p.code, targetMonthly, periodYears);
  }

  /** Worked example: 3,000,000 a month from year2 as a loan corporation needs 400,000,000. */
  lemma Year2LoanCorpExample()
    ensures RequirementRow(InverseProducts[2], 3000000.0).required.loanCorp == 400000000.0
  {
  }
}
