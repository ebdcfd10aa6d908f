/** The data behind the two charts of visualizer.py: the daily sales series of
    `create_sales_trend_chart` and the per-category series of `create_sales_by_category_chart`.
    Both are functions of the rows, so the table they are given is never changed. */
module Visualizer {

  import opened Table
  import opened Grouping
  import Lex
  import Kpis

  /** `df.groupby(df['Data'].dt.date)['Sprzedaż'].sum()`. */
  function DailySales(rows: seq<Row>): seq<(int, int)>
  {
    GroupSum(rows, Day, Amount, IntLess)
  }

  /** `df.groupby('Kategoria')['Sprzedaż'].sum().sort_values('Sprzedaż', ascending=False)`. */
  function CategorySales(rows: seq<Row>): seq<(string, int)>
  {
    SortDesc(GroupSum(rows, Category, Amount, Lex.Less))
  }

  /** One entry per calendar day that occurs, days strictly ascending, each holding that
      day's sales, and the entries adding up to the total sales. */
  lemma DailySalesSpec(rows: seq<Row>)
    ensures var d := DailySales(rows);
      && (forall i, j :: 0 <= i < j < |d| ==> d[i].0 < d[j].0)
      && Keys(d) == KeySet(rows, Day)
      && (forall i :: 0 <= i < |d| ==> d[i].1 == SumWhere(rows, Day, Amount, d[i].0))
      && Total(d) == Kpis.TotalSales(rows)
  {
    GroupSumSpec(rows, Day, Amount, IntLess);
  }

  /** One entry per category that occurs, each holding that category's sales, largest
      first, the entries of the grouped series merely re-ordered, and their totals adding up
      to the total sales. */
  lemma CategorySalesSpec(rows: seq<Row>)
    ensures var c := CategorySales(rows);
      && DistinctKeys(c)
      && Keys(c) == KeySet(rows, Category)
      && (forall i :: 0 <= i < |c| ==> c[i].1 == SumWhere(rows, Category, Amount, c[i].0))
      && NonIncreasing(c)
      && multiset(c) == multiset(GroupSum(rows, Category, Amount, Lex.Less))
      && Total(c) == Kpis.TotalSales(rows)
  {
    var g := GroupSum(rows, Category, Amount, Lex.Less);
    Lex.IsStrictTotalOrder();
    GroupSumSpec(rows, Category, Amount, Lex.Less);
    SortDescSpec(g);
    var c := SortDesc(g);
    forall i | 0 <= i < |c| ensures c[i].1 == SumWhere(rows, Category, Amount, c[i].0) {
      assert c[i] in multiset(c);
      assert c[i] in g;
    }
  }

  /** Categories A with 300 and B with 700 come out as B first, then A. */
  lemma CategoryExample(t: Timestamp)
    ensures CategorySales([Row(t, "Widget", "A", 100, 1), Row(t, "Gadget", "B", 700, 1), Row(t, "Widget", "A", 200, 1)])
         == [("B", 700), ("A", 300)]
  {
    var rows := [Row(t, "Widget", "A", 100, 1), Row(t, "Gadget", "B", 700, 1), Row(t, "Widget", "A", 200, 1)];
    assert Lex.Less("A", "B") && !Lex.Less("B", "A");
    assert rows[1..][1..] == rows[2..] && rows[2..][1..] == [];
    assert GroupSum(rows[2..], Category, Amount, Lex.Less) == [("A", 200)];
    assert rows[1..][0].category == "B" && rows[1..][0].amount == 700;
    assert AddTo([("A", 200)], "B", 700, Lex.Less) == [("A", 200)] + AddTo([], "B", 700, Lex.Less);
    assert GroupSum(rows[1..], Category, Amount, Lex.Less) == AddTo([("A", 200)], "B", 700, Lex.Less);
    assert GroupSum(rows[1..], Category, Amount, Lex.Less) == [("A", 200), ("B", 700)];
    assert GroupSum(rows, Category, Amount, Lex.Less) == [("A", 300), ("B", 700)];
    assert SortDesc([("B", 700)]) == [("B", 700)];
    assert SortDesc([("A", 300), ("B", 700)]) == InsertDesc(("A", 300), [("B", 700)]);
  }
}
