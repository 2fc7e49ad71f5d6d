/**
 * The extra-profit page's effect: it fetches the extra profit of every product
 * for the selected amount and type, then flags in place every row whose positive
 * gain is the largest positive gain (`isBest`) and every row with a non-zero
 * gain (`hasExtra`). Rendering is not part of this model.
 */
module ExtraPage {

  import opened Wrappers
  import opened JsNumber
  import opened DataService

  /** `rows.filter(p => p.annual > 0).map(p => p.annual)` */
  function PositiveAnnuals(rows: seq<ExtraRow>): (xs: seq<real>)
    ensures forall x :: x in xs ==> x > 0.0 && exists j :: 0 <= j < |rows| && rows[j].annual == x
    ensures forall j :: 0 <= j < |rows| && rows[j].annual > 0.0 ==> rows[j].annual in xs
  {
    if rows == [] then []
    else
      var rest := PositiveAnnuals(rows[1..]);
      assert forall x :: x in rest ==> exists j :: 1 <= j < |rows| && rows[j].annual == x by {
        forall x | x in rest ensures exists j :: 1 <= j < |rows| && rows[j].annual == x {
          var j' :| 0 <= j' < |rows[1..]| && rows[1..][j'].annual == x;
          assert rows[j' + 1].annual == x;
        }
      }
      if rows[0].annual > 0.0 then [rows[0].annual] + rest else rest
  }

  /** The row's gain is positive and no other positive gain exceeds it. */
  predicate IsTopGain(rows: seq<ExtraRow>, i: int)
    requires 0 <= i < |rows|
  {
    rows[i].annual > 0.0 && forall j :: 0 <= j < |rows| && rows[j].annual > 0.0 ==> rows[j].annual <= rows[i].annual
  }

  /** The page's test `p.annual > 0 && p.annual === maxExtra` is exactly "top positive gain". */
  lemma BestTestIsTopGain(rows: seq<ExtraRow>, i: int)
    requires 0 <= i < |rows|
    ensures (rows[i].annual > 0.0 && Some(rows[i].annual) == MaxOf(PositiveAnnuals(rows))) <==> IsTopGain(rows, i)
  {
    var xs := PositiveAnnuals(rows);
    if rows[i].annual > 0.0 {
      assert rows[i].annual in xs;
      var m := MaxOf(xs).value;
      if IsTopGain(rows, i) {
        var j :| 0 <= j < |rows| && rows[j].annual == m;
        assert m == rows[i].annual;
      } else {
        var j :| 0 <= j < |rows| && rows[j].annual > 0.0 && rows[j].annual > rows[i].annual;
        assert rows[j].annual in xs;
      }
    }
  }

  /** The row with its two page flags set. */
  function Flagged(row: ExtraRow, maxExtra: Option<real>): ExtraRow {
    row.(isBest := row.annual > 0.0 && Some(row.annual) == maxExtra, hasExtra := row.annual != 0.0)
  }

  /**
   * The `useEffect` body. `shown` is the extra-data state before the effect; it is
   * left as it was when there is no data for the amount.
   */
  method ExtraEffect(
    table: ComparisonTable, products: seq<Product>, selectedAmount: int, selectedType: string,
    shown: Option<ExtraProfit>)
    returns (extraData: Option<ExtraProfit>)
    requires selectedAmount in table ==> ExtraReadable(table[selectedAmount], products, selectedType)
    ensures selectedAmount !in table ==> extraData == shown
    ensures selectedAmount in table ==>
      var fetched := GetExtraProfitData(table, products, selectedAmount, selectedType).value;
      && extraData.Some? && extraData.value.base == fetched.base
      && |extraData.value.products| == |fetched.products|
      && forall i :: 0 <= i < |fetched.products| ==>
           var row := extraData.value.products[i];
           && row.(isBest := false, hasExtra := false) == fetched.products[i]
           && (row.isBest <==> IsTopGain(fetched.products, i))
           && (row.hasExtra <==> row.annual != 0.0)
  {
    extraData := shown;
    var result := GetExtraProfitData(table, products, selectedAmount, selectedType);
    if result.Some? {
      var fetched := result.value.products;
      var rows := fetched;
      var maxExtra := MaxOf(PositiveAnnuals(rows));
      for i := 0 to |rows|
        invariant |rows| == |fetched|
        invariant forall j :: 0 <= j < i ==> rows[j] == Flagged(fetched[j], maxExtra)
        invariant forall j :: i <= j < |rows| ==> rows[j] == fetched[j]
      {
        var p := rows[i];
        rows := rows[i := p.(isBest := p.annual > 0.0 && Some(p.annual) == maxExtra, hasExtra := p.annual != 0.0)];
      }
      forall i | 0 <= i < |fetched| ensures rows[i].isBest <==> IsTopGain(fetched, i) {
        BestTestIsTopGain(fetched, i);
      }
      extraData := Some(result.value.(products := rows));
    }
  }
}
