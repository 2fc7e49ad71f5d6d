/**
 * Reads over the precomputed comparison table: the table for one amount, the
 * extra profit of every product against the abc/individual baseline, and the
 * insight records shown on the comparison page.
 *
 * The dataset itself is not part of this model: the table and the product list
 * are parameters. Insight messages are structured values (which template, which
 * rounded gain); the HTML text around them is rendered by `Message`.
 */
module DataService {

  import opened Wrappers
  import opened JsNumber

  /** Annual and monthly after-tax profit as stored in the dataset. */
  datatype Profit = Profit(annual: real, monthly: real)

  /** Product code -> investor type -> profit, for one amount. */
  type ComparisonData = map<string, map<string, Profit>>

  /** Amount -> comparison data. The source keys it by `amount.toString()`. */
  type ComparisonTable = map<int, ComparisonData>

  /** A product of the dataset's product list; `recommended` absent is `false`. */
  datatype Product = Product(
    code: string, name: string, rate: real, rateDisplay: string,
    subtitle: string, features: seq<string>, recommended: bool)

  predicate HasProfit(data: ComparisonData, code: string, investorType: string) {
    code in data && investorType in data[code]
  }

  /** `data[code][investorType]`, which the source reads without a check. */
  function ProfitAt(data: ComparisonData, code: string, investorType: string): Profit
    requires HasProfit(data, code, investorType)
  {
    data[code][investorType]
  }

  /** Every listed product has a profit for `investorType`. */
  predicate CoversProducts(data: ComparisonData, products: seq<Product>, investorType: string) {
    forall i :: 0 <= i < |products| ==> HasProfit(data, products[i].code, investorType)
  }

  /** `getComparisonDataForAmount`: `undefined` when the amount is not in the dataset. */
  function GetComparisonDataForAmount(table: ComparisonTable, amount: int): (r: Option<ComparisonData>)
    ensures r.Some? <==> amount in table
    ensures r.Some? ==> r.value == table[amount]
  {
    if amount in table then Some(table[amount]) else None
  }

  // ---------------------------------------------------------------------------
  // Extra profit against the abc/individual baseline

  /** One product's gain over the baseline; the page adds the two flags later. */
  datatype ExtraRow = ExtraRow(
    code: string, name: string, rate: string,
    annual: real, monthly: real,
    isBest: bool, hasExtra: bool)

  datatype ExtraProfit = ExtraProfit(base: Profit, products: seq<ExtraRow>)

  /** What `getExtraProfitData` reads from the table for one amount. */
  predicate ExtraReadable(data: ComparisonData, products: seq<Product>, investorType: string) {
    HasProfit(data, "abc", "individual") && CoversProducts(data, products, investorType)
  }

  /** `getExtraProfitData` */
  function GetExtraProfitData(table: ComparisonTable, products: seq<Product>, amount: int, investorType: string)
    : (r: Option<ExtraProfit>)
    requires amount in table ==> ExtraReadable(table[amount], products, investorType)
    ensures r.None? <==> amount !in table
    ensures r.Some? ==> r.value.base == ProfitAt(table[amount], "abc", "individual")
    ensures r.Some? ==> |r.value.products| == |products|
    ensures r.Some? ==> forall i :: 0 <= i < |products| ==>
      var row, gained := r.value.products[i], ProfitAt(table[amount], products[i].code, investorType);
      && row.code == products[i].code && row.name == products[i].name && row.rate == products[i].rateDisplay
      && row.annual + r.value.base.annual == gained.annual
      && row.monthly + r.value.base.monthly == gained.monthly
      && !row.isBest && !row.hasExtra
    ensures r.Some? && investorType == "individual" ==> forall i :: 0 <= i < |products| && products[i].code == "abc" ==>
      r.value.products[i].annual == 0.0 && r.value.products[i].monthly == 0.0
  {
    match GetComparisonDataForAmount(table, amount)
    case None => None
    case Some(data) =>
      var base := ProfitAt(data, "abc", "individual");
      var rows := seq(|products|, i requires 0 <= i < |products| =>
        var typeData := ProfitAt(data, products[i].code, investorType);
        ExtraRow(products[i].code, products[i].name, products[i].rateDisplay,
                 typeData.annual - base.annual, typeData.monthly - base.monthly, false, false));
      Some(ExtraProfit(base, rows))
  }

  /** The baseline is abc/individual whatever investor type is selected. */
  lemma BaselineIgnoresInvestorType(table: ComparisonTable, products: seq<Product>, amount: int, t1: string, t2: string)
    requires amount in table
    requires ExtraReadable(table[amount], products, t1) && ExtraReadable(table[amount], products, t2)
    ensures GetExtraProfitData(table, products, amount, t1).value.base
         == GetExtraProfitData(table, products, amount, t2).value.base
  {
  }

  // ---------------------------------------------------------------------------
  // Insights

  /** The five sentence templates of the investor-type insight. */
  datatype LineKind =
    | GeneralCorpChoice    // "choosing a general corporation earns more"
    | LoanCorpChoice       // "choosing a loan corporation earns extra"
    | AboveIndividual      // "more than an individual"
    | AboveGeneralCorp     // "more than a general corporation"
    | LoanAboveIndividual  // the loan corporation's "more than an individual"

  /** One line of the investor-type insight: its template and its rounded gain. */
  datatype TypeLine = TypeLine(kind: LineKind, gain: int)

  /** 'compare' (year2 over abc) or 'entity' (lines joined with '<br>'). */
  datatype Insight = Compare(gain: int) | Entity(lines: seq<TypeLine>)

  /** A comparison of year2's annual profit for `better` over `worse`. */
  datatype Comparison = Comparison(kind: LineKind, better: string, worse: string)

  predicate IsInvestorType(t: string) {
    t == "individual" || t == "general_corp" || t == "loan_corp"
  }

  /** The comparisons made for each selected type, in the order their lines appear. */
  function ComparisonsFor(currentType: string): (cs: seq<Comparison>)
    ensures |cs| <= 2
    ensures cs == [] <==> !IsInvestorType(currentType)
    ensures IsInvestorType(currentType) ==> |cs| == 2
    ensures forall c :: c in cs ==> IsInvestorType(c.better) && IsInvestorType(c.worse) && c.better != c.worse
  {
    if currentType == "individual" then
      [Comparison(GeneralCorpChoice, "general_corp", "individual"), Comparison(LoanCorpChoice, "loan_corp", "individual")]
    else if currentType == "general_corp" then
      [Comparison(AboveIndividual, "general_corp", "individual"), Comparison(LoanCorpChoice, "loan_corp", "general_corp")]
    else if currentType == "loan_corp" then
      [Comparison(AboveGeneralCorp, "loan_corp", "general_corp"), Comparison(LoanAboveIndividual, "loan_corp", "individual")]
    else
      []
  }

  /** year2 has a profit for each of the three investor types. */
  predicate Year2Readable(data: ComparisonData) {
    HasProfit(data, "year2", "individual") && HasProfit(data, "year2", "general_corp")
      && HasProfit(data, "year2", "loan_corp")
  }

  function Gain(data: ComparisonData, c: Comparison): real
    requires Year2Readable(data) && IsInvestorType(c.better) && IsInvestorType(c.worse)
  {
    ProfitAt(data, "year2", c.better).annual - ProfitAt(data, "year2", c.worse).annual
  }

  function LineOf(data: ComparisonData, c: Comparison): TypeLine
    requires Year2Readable(data) && IsInvestorType(c.better) && IsInvestorType(c.worse)
  {
    TypeLine(c.kind, Round(Gain(data, c)))
  }

  /** The lines of the comparisons whose gain is strictly positive, in order. */
  function PositiveLines(data: ComparisonData, cs: seq<Comparison>): (lines: seq<TypeLine>)
    requires Year2Readable(data)
    requires forall c :: c in cs ==> IsInvestorType(c.better) && IsInvestorType(c.worse)
    ensures |lines| <= |cs|
    ensures forall l :: l in lines ==> exists c :: c in cs && Gain(data, c) > 0.0 && l == LineOf(data, c)
    ensures forall c :: c in cs && Gain(data, c) > 0.0 ==> LineOf(data, c) in lines
    ensures forall l :: l in lines ==> l.gain >= 0
  {
    if cs == [] then []
    else
      var rest := PositiveLines(data, cs[1..]);
      if Gain(data, cs[0]) > 0.0 then [LineOf(data, cs[0])] + rest else rest
  }

  /** The investor-type lines for the selected type (specification of `getInvestorTypeInsights`). */
  function InvestorTypeInsights(data: ComparisonData, currentType: string): seq<TypeLine>
    requires Year2Readable(data)
  {
    PositiveLines(data, ComparisonsFor(currentType))
  }

  /** `getInvestorTypeInsights` */
  method GetInvestorTypeInsights(comparisonData: ComparisonData, currentType: string) returns (messages: seq<TypeLine>)
    requires Year2Readable(comparisonData)
    ensures messages == InvestorTypeInsights(comparisonData, currentType)
  {
    ghost var cs := ComparisonsFor(currentType);
    if cs != [] {
      PositiveLinesOfTwo(comparisonData, cs[0], cs[1]);
    }
    messages := [];
    var individualProfit := ProfitAt(comparisonData, "year2", "individual").annual;
    var generalCorpProfit := ProfitAt(comparisonData, "year2", "general_corp").annual;
    var loanCorpProfit := ProfitAt(comparisonData, "year2", "loan_corp").annual;

    if currentType == "individual" {
      var diffGeneral := generalCorpProfit - individualProfit;
      var diffLoan := loanCorpProfit - individualProfit;
      assert Gain(comparisonData, cs[0]) == diffGeneral && Gain(comparisonData, cs[1]) == diffLoan;
      if diffGeneral > 0.0 {
        messages := messages + [TypeLine(GeneralCorpChoice, Round(diffGeneral))];
      }
      if diffLoan > 0.0 {
        messages := messages + [TypeLine(LoanCorpChoice, Round(diffLoan))];
      }
    } else if currentType == "general_corp" {
      var diffIndividual := generalCorpProfit - individualProfit;
      var diffLoan := loanCorpProfit - generalCorpProfit;
      assert Gain(comparisonData, cs[0]) == diffIndividual && Gain(comparisonData, cs[1]) == diffLoan;
      if diffIndividual > 0.0 {
        messages := messages + [TypeLine(AboveIndividual, Round(diffIndividual))];
      }
      if diffLoan > 0.0 {
        messages := messages + [TypeLine(LoanCorpChoice, Round(diffLoan))];
      }
    } else if currentType == "loan_corp" {
      var diffGeneral := loanCorpProfit - generalCorpProfit;
      var diffIndividual := loanCorpProfit - individualProfit;
      assert Gain(comparisonData, cs[0]) == diffGeneral && Gain(comparisonData, cs[1]) == diffIndividual;
      if diffGeneral > 0.0 {
        messages := messages + [TypeLine(AboveGeneralCorp, Round(diffGeneral))];
      }
      if diffIndividual > 0.0 {
        messages := messages + [TypeLine(LoanAboveIndividual, Round(diffIndividual))];
      }
    }
  }

  /** `PositiveLines` on two comparisons, unfolded. */
  lemma PositiveLinesOfTwo(data: ComparisonData, c0: Comparison, c1: Comparison)
    requires Year2Readable(data)
    requires IsInvestorType(c0.better) && IsInvestorType(c0.worse)
    requires IsInvestorType(c1.better) && IsInvestorType(c1.worse)
    ensures PositiveLines(data, [c0, c1])
         == (if Gain(data, c0) > 0.0 then [LineOf(data, c0)] else [])
          + (if Gain(data, c1) > 0.0 then [LineOf(data, c1)] else [])
  {
    assert [c0, c1][1..] == [c1];
    assert [c1][1..] == [];
  }

  /** Positive lines depend on year2's three annual profits only. */
  lemma {:induction false} PositiveLinesReadYear2Only(d1: ComparisonData, d2: ComparisonData, cs: seq<Comparison>)
    requires Year2Readable(d1) && Year2Readable(d2)
    requires forall t :: IsInvestorType(t) ==> ProfitAt(d1, "year2", t).annual == ProfitAt(d2, "year2", t).annual
    requires forall c :: c in cs ==> IsInvestorType(c.better) && IsInvestorType(c.worse)
    ensures PositiveLines(d1, cs) == PositiveLines(d2, cs)
  {
    if cs != [] {
      var c := cs[0];
      assert ProfitAt(d1, "year2", c.better).annual == ProfitAt(d2, "year2", c.better).annual;
      assert ProfitAt(d1, "year2", c.worse).annual == ProfitAt(d2, "year2", c.worse).annual;
      assert LineOf(d1, c) == LineOf(d2, c);
      PositiveLinesReadYear2Only(d1, d2, cs[1..]);
    }
  }

  /** The investor-type lines read nothing but year2's three annual profits. */
  lemma InvestorTypeInsightsReadYear2Only(d1: ComparisonData, d2: ComparisonData, currentType: string)
    requires Year2Readable(d1) && Year2Readable(d2)
    requires forall t :: IsInvestorType(t) ==> ProfitAt(d1, "year2", t).annual == ProfitAt(d2, "year2", t).annual
    ensures InvestorTypeInsights(d1, currentType) == InvestorTypeInsights(d2, currentType)
  {
    PositiveLinesReadYear2Only(d1, d2, ComparisonsFor(currentType));
  }

  /** What `getComparisonInsights` reads from the table for one amount. */
  predicate InsightsReadable(data: ComparisonData, investorType: string) {
    HasProfit(data, "abc", investorType) && HasProfit(data, "year2", investorType) && Year2Readable(data)
  }

  /** year2's annual gain over abc at the selected type. */
  function Year2OverAbc(data: ComparisonData, investorType: string): real
    requires InsightsReadable(data, investorType)
  {
    ProfitAt(data, "year2", investorType).annual - ProfitAt(data, "abc", investorType).annual
  }

  /** The insights for an amount and type (specification of `getComparisonInsights`). */
  function ComparisonInsights(table: ComparisonTable, amount: int, investorType: string): (r: seq<Insight>)
    requires amount in table ==> InsightsReadable(table[amount], investorType)
    ensures amount !in table ==> r == []
    ensures |r| <= 2
    ensures forall i, j :: 0 <= i < |r| && 0 <= j < |r| && r[i].Compare? && r[j].Entity? ==> i < j
    ensures forall i :: 0 <= i < |r| ==> (r[i].Compare? ==> i == 0) && (r[i].Entity? ==> i == |r| - 1)
    ensures amount in table ==>
      var diff := Year2OverAbc(table[amount], investorType);
      && ((|r| > 0 && r[0].Compare?) <==> diff > 0.0)
      && (diff > 0.0 ==> r[0] == Compare(Round(diff)))
    ensures amount in table ==>
      var lines := InvestorTypeInsights(table[amount], investorType);
      && ((|r| > 0 && r[|r| - 1].Entity?) <==> lines != [])
      && (lines != [] ==> r[|r| - 1] == Entity(lines))
  {
    if amount !in table then []
    else
      var data := table[amount];
      var diff := Year2OverAbc(data, investorType);
      var lines := InvestorTypeInsights(data, investorType);
      if diff > 0.0 && lines != [] then [Compare(Round(diff)), Entity(lines)]
      else if diff > 0.0 then [Compare(Round(diff))]
      else if lines != [] then [Entity(lines)]
      else []
  }

  /** `getComparisonInsights` */
  method GetComparisonInsights(table: ComparisonTable, amount: int, investorType: string) returns (insights: seq<Insight>)
    requires amount in table ==> InsightsReadable(table[amount], investorType)
    ensures insights == ComparisonInsights(table, amount, investorType)
  {
    var comparisonData := GetComparisonDataForAmount(table, amount);
    if comparisonData.None? {
      return [];
    }
    var data := comparisonData.value;
    insights := [];
    var abcProfit := ProfitAt(data, "abc", investorType).annual;
    var year2Profit := ProfitAt(data, "year2", investorType).annual;
    var diff := year2Profit - abcProfit;
    if diff > 0.0 {
      insights := insights + [Compare(Round(diff))];
    }
    var typeInsights := GetInvestorTypeInsights(data, investorType);
    if |typeInsights| > 0 {
      insights := insights + [Entity(typeInsights)];
    }
    assert typeInsights == InvestorTypeInsights(data, investorType);
  }

  // ---------------------------------------------------------------------------
  // Rendering of insights

  function Emphasis(gain: int): string {
    "<span class=\"font-bold text-green-600\">+" + Group(gain) + "원</span>"
  }

  function LineText(line: TypeLine): string {
    match line.kind
    case GeneralCorpChoice => "• 일반 법인 선택 시 연 " + Emphasis(line.gain) + " 더 높은 수익입니다."
    case LoanCorpChoice => "• 대부 법인 선택 시 연 " + Emphasis(line.gain) + "의 추가 수익입니다."
    case AboveIndividual => "• 개인 대비 연 " + Emphasis(line.gain) + " 더 높은 수익입니다."
    case AboveGeneralCorp => "• 일반 법인 대비 연 " + Emphasis(line.gain) + " 더 높은 수익입니다."
    case LoanAboveIndividual => "• 개인 대비 연 " + Emphasis(line.gain) + " 높은 수익입니다."
  }

  /** `parts.join(separator)` */
  function Join(parts: seq<string>, separator: string): string {
    if parts == [] then ""
    else if |parts| == 1 then parts[0]
    else parts[0] + separator + Join(parts[1..], separator)
  }

  function InsightType(insight: Insight): string {
    if insight.Compare? then "compare" else "entity"
  }

  function Title(insight: Insight): string {
    if insight.Compare? then "투자 상품에 따른 수익 격차" else "투자자 유형별 차이"
  }

  function Message(insight: Insight): string {
    match insight
    case Compare(gain) => "2년 기간형은 ABC 투자 대비 연 " + Emphasis(gain) + "의 추가 수익을 기대할 수 있습니다."
    case Entity(lines) => Join(seq(|lines|, i requires 0 <= i < |lines| => LineText(lines[i])), "<br>")
  }
}
