/**
 * The comparison page's effect: when the selected amount or investor type
 * changes, it builds one result per product from the comparison table, marks
 * the first product with the largest annual profit as best, and recomputes
 * the insights. Rendering is not part of this model.
 */
module ComparisonPage {

  import opened Wrappers
  import opened JsNumber
  import opened DataService

  /** A product of the list with its profit at the selected type; `isBest` absent is `false`. */
  datatype ComparisonResult = ComparisonResult(product: Product, annual: real, monthly: real, isBest: bool)

  function Annuals(results: seq<ComparisonResult>): (xs: seq<real>)
    ensures |xs| == |results| && forall i :: 0 <= i < |results| ==> xs[i] == results[i].annual
  {
    seq(|results|, i requires 0 <= i < |results| => results[i].annual)
  }

  /** `k` is the first index whose annual profit is the largest. */
  predicate IsFirstBest(results: seq<ComparisonResult>, k: int) {
    && 0 <= k < |results|
    && (forall j :: 0 <= j < |results| ==> results[j].annual <= results[k].annual)
    && (forall j :: 0 <= j < k ==> results[j].annual < results[k].annual)
  }

  /** Every product of the list with its profit at the selected type, none marked yet. */
  function ResultsFor(data: ComparisonData, products: seq<Product>, selectedType: string): (rs: seq<ComparisonResult>)
    requires CoversProducts(data, products, selectedType)
    ensures |rs| == |products|
    ensures forall i :: 0 <= i < |rs| ==>
      && rs[i].product == products[i]
      && rs[i].annual == ProfitAt(data, products[i].code, selectedType).annual
      && rs[i].monthly == ProfitAt(data, products[i].code, selectedType).monthly
      && !rs[i].isBest
  {
    seq(|products|, i requires 0 <= i < |products| =>
      var typeData := ProfitAt(data, products[i].code, selectedType);
      ComparisonResult(products[i], typeData.annual, typeData.monthly, false))
  }

  /**
   * `Math.max` over the annual profits, then `find` of the first result that reaches
   * it, marked as best. Nothing else changes.
   */
  method MarkFirstBest(results: seq<ComparisonResult>) returns (marked: seq<ComparisonResult>)
    ensures results == [] ==> marked == results
    ensures results != [] ==>
      exists k :: IsFirstBest(results, k) && marked == results[k := results[k].(isBest := true)]
  {
    marked := results;
    ghost var annuals := Annuals(results);
    var maxAnnual := MaxOf(Annuals(results));
    var k := 0;
    while k < |results| && Some(results[k].annual) != maxAnnual
      invariant 0 <= k <= |results|
      invariant forall j :: 0 <= j < k ==> Some(annuals[j]) != maxAnnual
    {
      k := k + 1;
    }
    if k < |results| {
      assert IsFirstBest(results, k);
      marked := results[k := results[k].(isBest := true)];
    }
  }

  /** There is at most one first best index. */
  lemma FirstBestUnique(results: seq<ComparisonResult>, k: int, k': int)
    requires IsFirstBest(results, k) && IsFirstBest(results, k')
    ensures k == k'
  {
    assert results[k].annual == results[k'].annual;
  }

  /** After marking, exactly the first best result of unmarked results is marked. */
  lemma MarkedOnlyFirstBest(results: seq<ComparisonResult>, k: int)
    requires forall i :: 0 <= i < |results| ==> !results[i].isBest
    requires IsFirstBest(results, k)
    ensures var marked := results[k := results[k].(isBest := true)];
      && (forall i :: 0 <= i < |marked| ==> (marked[i].isBest <==> IsFirstBest(marked, i)))
      && (forall i, j :: 0 <= i < |marked| && 0 <= j < |marked| && marked[i].isBest && marked[j].isBest ==> i == j)
  {
    var marked := results[k := results[k].(isBest := true)];
    assert forall j :: 0 <= j < |marked| ==> marked[j].annual == results[j].annual;
    forall i | 0 <= i < |marked|
      ensures marked[i].isBest <==> IsFirstBest(marked, i)
    {
      if IsFirstBest(results, i) {
        FirstBestUnique(results, k, i);
      }
    }
  }

  /** What the effect reads from the table for the selected amount. */
  predicate EffectReadable(table: ComparisonTable, products: seq<Product>, amount: int, selectedType: string) {
    amount in table ==>
      CoversProducts(table[amount], products, selectedType) && InsightsReadable(table[amount], selectedType)
  }

  /**
   * The `useEffect` body. `shown` is the results state before the effect; it is
   * left as it was when the amount is not in the table.
   */
  method ComparisonEffect(
    table: ComparisonTable, products: seq<Product>, selectedAmount: int, selectedType: string,
    shown: Option<seq<ComparisonResult>>)
    returns (comparisonResults: Option<seq<ComparisonResult>>, insights: seq<Insight>)
    requires EffectReadable(table, products, selectedAmount, selectedType)
    ensures selectedAmount !in table ==> comparisonResults == shown
    ensures selectedAmount in table ==> comparisonResults.Some?
    ensures selectedAmount in table ==>
      var rs, data := comparisonResults.value, table[selectedAmount];
      && |rs| == |products|
      && (forall i :: 0 <= i < |rs| ==>
            && rs[i].product == products[i]
            && rs[i].annual == ProfitAt(data, products[i].code, selectedType).annual
            && rs[i].monthly == ProfitAt(data, products[i].code, selectedType).monthly
            && (rs[i].isBest <==> IsFirstBest(rs, i)))
      && (|rs| > 0 ==> exists k :: 0 <= k < |rs| && rs[k].isBest)
      && (forall i, j :: 0 <= i < |rs| && 0 <= j < |rs| && rs[i].isBest && rs[j].isBest ==> i == j)
    ensures insights == ComparisonInsights(table, selectedAmount, selectedType)
  {
    comparisonResults := shown;
    var compData := GetComparisonDataForAmount(table, selectedAmount);
    if compData.Some? {
      var results := ResultsFor(compData.value, products, selectedType);
      comparisonResults := Some(results);
      var marked := MarkFirstBest(results);
      if results != [] {
        var k :| IsFirstBest(results, k) && marked == results[k := results[k].(isBest := true)];
        MarkedOnlyFirstBest(results, k);
        assert marked[k].isBest;
      }
      comparisonResults := Some(marked);
    }
    insights := GetComparisonInsights(table, selectedAmount, selectedType);
  }
}
