/** The three indicators of `DataProcessor.calculate_kpis`, over the normalised rows. */
module Kpis {

  import opened Table
  import opened Grouping
  import Lex
  import opened Wrappers

  /** The dictionary `calculate_kpis` returns. */
  datatype Indicators = Indicators(totalSales: int, averageSale: real, topProduct: string)

  /** `df['Sprzedaż'].sum()`: 0 for no rows. */
  function TotalSales(rows: seq<Row>): int
  {
    SumOf(rows, Amount)
  }

  /** `df['Sprzedaż'].mean()` of a non-empty table. */
  function AverageSale(rows: seq<Row>): (avg: real)
    requires |rows| > 0
    ensures avg * (|rows| as real) == TotalSales(rows) as real
  {
    TotalSales(rows) as real / (|rows| as real)
  }

  /** `df.groupby('Produkt')['Ilość'].sum()`: product keys ascending. */
  function ProductQuantities(rows: seq<Row>): seq<(string, int)>
  {
    GroupSum(rows, Product, Qty, Lex.Less)
  }

  /** Summed Ilość of one product. */
  function QuantityOf(rows: seq<Row>, p: string): int
  {
    SumWhere(rows, Product, Qty, p)
  }

  /** `idxmax`: the first position holding the largest total. */
  function FirstMax<K>(g: seq<(K, int)>): (i: nat)
    requires |g| > 0
    ensures i < |g|
    ensures forall j :: 0 <= j < |g| ==> g[j].1 <= g[i].1
    ensures forall j :: 0 <= j < i ==> g[j].1 < g[i].1
    decreases |g|
  {
    if |g| == 1 then 0
    else
      var b := FirstMax(g[1..]) + 1;
      if g[0].1 >= g[b].1 then 0 else b
  }

  /** `...sum().idxmax()`: absent (pandas raises) for a table without rows. */
  function TopProduct(rows: seq<Row>): Option<string>
  {
    var g := ProductQuantities(rows);
    if g == [] then None else Some(g[FirstMax(g)].0)
  }

  /** The reference meaning of "top product": it occurs, no product has a larger summed
      quantity, and every other product with the same sum comes after it in key order. */
  ghost predicate IsTopProduct(rows: seq<Row>, p: string)
  {
    && p in KeySet(rows, Product)
    && (forall q :: q in KeySet(rows, Product) ==> QuantityOf(rows, q) <= QuantityOf(rows, p))
    && (forall q :: q in KeySet(rows, Product) && q != p && QuantityOf(rows, q) == QuantityOf(rows, p)
          ==> Lex.Less(p, q))
  }

  /** The product `idxmax` picks is the top product: it exists exactly when there are rows,
      it has the largest summed quantity, and ties go to the smallest product name. */
  lemma TopProductSpec(rows: seq<Row>)
    ensures TopProduct(rows).Some? <==> |rows| > 0
    ensures TopProduct(rows).Some? ==> IsTopProduct(rows, TopProduct(rows).value)
  {
    var g := ProductQuantities(rows);
    Lex.IsStrictTotalOrder();
    GroupSumSpec(rows, Product, Qty, Lex.Less);
    if |rows| > 0 {
      KeySetMember(rows, Product, rows[0].product);
      KeysMember(g, rows[0].product);
    }
    if g != [] {
      var i := FirstMax(g);
      var p := g[i].0;
      assert p in Keys(g) by { KeysMember(g, p); }
      forall q | q in KeySet(rows, Product)
        ensures QuantityOf(rows, q) <= QuantityOf(rows, p)
        ensures q != p && QuantityOf(rows, q) == QuantityOf(rows, p) ==> Lex.Less(p, q)
      {
        KeysMember(g, q);
        var j :| 0 <= j < |g| && g[j].0 == q;
        if q != p && QuantityOf(rows, q) == QuantityOf(rows, p) {
          assert j != i;
          assert !(j < i);
          assert Lex.Less(g[i].0, g[j].0);
        }
      }
    }
  }

  /** The reference predicate leaves no choice: at most one product satisfies it. */
  lemma TopProductUnique(rows: seq<Row>, p: string, q: string)
    requires IsTopProduct(rows, p) && IsTopProduct(rows, q)
    ensures p == q
  {
    if p != q {
      assert Lex.Less(p, q) && Lex.Less(q, p);
      Lex.Transitive(p, q, p);
      Lex.Irreflexive(p);
    }
  }

  lemma {:induction false} SumBounds(rows: seq<Row>, lo: int, hi: int)
    requires forall i :: 0 <= i < |rows| ==> lo <= rows[i].amount <= hi
    ensures |rows| * lo <= TotalSales(rows) <= |rows| * hi
    decreases |rows|
  {
    if |rows| > 0 {
      SumBounds(rows[1..], lo, hi);
    }
  }

  /** The mean lies between the smallest and the largest sale. */
  lemma AverageBounds(rows: seq<Row>, lo: int, hi: int)
    requires |rows| > 0
    requires forall i :: 0 <= i < |rows| ==> lo <= rows[i].amount <= hi
    ensures lo as real <= AverageSale(rows) <= hi as real
  {
    SumBounds(rows, lo, hi);
    var n := |rows| as real;
    var avg := AverageSale(rows);
    assert avg * n == TotalSales(rows) as real;
    assert (lo as real) * n <= avg * n <= (hi as real) * n;
  }

  /** Two sales, Widget (100, 2 units) and Gadget (50, 5 units): total 150, mean 75, and
      Gadget sold the most units. */
  lemma KpisExample(t: Timestamp)
    ensures var rows := [Row(t, "Widget", "A", 100, 2), Row(t, "Gadget", "B", 50, 5)];
      TotalSales(rows) == 150 && AverageSale(rows) == 75.0 && TopProduct(rows) == Some("Gadget")
  {
    var rows := [Row(t, "Widget", "A", 100, 2), Row(t, "Gadget", "B", 50, 5)];
    assert rows[1..][1..] == [];
    assert Amount(rows[1..][0]) == 50 && Qty(rows[1..][0]) == 5 && Product(rows[1..][0]) == "Gadget";
    assert SumOf(rows[1..], Amount) == 50 + SumOf(rows[1..][1..], Amount);
    assert TotalSales(rows) == 150;
    assert AverageSale(rows) * 2.0 == 150.0;
    assert Lex.Less("Gadget", "Widget") by { assert "Gadget"[0] < "Widget"[0]; }
    assert GroupSum(rows[1..][1..], Product, Qty, Lex.Less) == [];
    assert ProductQuantities(rows[1..]) == AddTo([], "Gadget", 5, Lex.Less);
    assert ProductQuantities(rows[1..]) == [("Gadget", 5)];
    assert ProductQuantities(rows) == AddTo([("Gadget", 5)], "Widget", 2, Lex.Less);
    assert AddTo([("Gadget", 5)], "Widget", 2, Lex.Less) == [("Gadget", 5)] + AddTo([], "Widget", 2, Lex.Less);
    var g := ProductQuantities(rows);
    assert g == [("Gadget", 5), ("Widget", 2)];
    assert FirstMax(g) == 0;
  }
}
